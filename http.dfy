/** The identity-provider webhook of convex/http.ts: an already parsed event is
    dispatched on its type, and `user.created` provisions a user. */
module Http {
  import opened Wrappers
  import opened Schema
  import opened Users

  /** A field of the parsed JSON payload: missing (read as `undefined`), `null`, or a string. */
  datatype Field = Missing | Null | Text(value: string)

  /** The fields of the event's `data` object that the handler reads. */
  datatype EventData = EventData(
    id: string,
    emailAddresses: seq<string>,
    firstName: Field,
    lastName: Field,
    imageUrl: Field,
    username: Field)

  /** A webhook payload `{ type, data }`. */
  datatype Event = Event(kind: string, data: EventData)

  const StatusOk: nat := 200

  /** `v.optional(v.string())`: a string, or the field left out. */
  function Optional(f: Field): (r: Result<Option<string>, Error>)
    ensures r.Err? <==> f.Null?
    ensures r.Ok? ==> (r.value.Some? <==> f.Text?) && (f.Text? ==> r.value.value == f.value)
  {
    match f
    case Missing => Ok(None)
    case Null => Err(ArgumentValidation)
    case Text(s) => Ok(Some(s))
  }

  /** `v.union(v.string(), v.null())`: a string or `null`; the field is required. */
  function Nullable(f: Field): (r: Result<Option<string>, Error>)
    ensures r.Err? <==> f.Missing?
    ensures r.Ok? ==> (r.value.Some? <==> f.Text?) && (f.Text? ==> r.value.value == f.value)
  {
    match f
    case Missing => Err(ArgumentValidation)
    case Null => Ok(None)
    case Text(s) => Ok(Some(s))
  }

  /** The `createUser` arguments built from a `user.created` payload (the first
      email address, the identity's id as `clerkId`), as `createUser`'s validators
      accept or reject them: a `null` name or image, or a missing username, fails. */
  function CreateUserArgs(data: EventData): (r: Result<NewUser, Error>)
    requires |data.emailAddresses| > 0
    ensures r.Err? <==> data.firstName.Null? || data.lastName.Null? || data.imageUrl.Null? || data.username.Missing?
    ensures r.Err? ==> r.error == ArgumentValidation
    ensures r.Ok? ==> r.value.clerkId == data.id && r.value.email == data.emailAddresses[0]
    ensures r.Ok? ==> r.value.firstName.Some? == data.firstName.Text? && r.value.lastName.Some? == data.lastName.Text?
    ensures r.Ok? ==> r.value.imageUrl.Some? == data.imageUrl.Text? && r.value.username.Some? == data.username.Text?
    ensures r.Ok? && data.firstName.Text? ==> r.value.firstName.value == data.firstName.value
    ensures r.Ok? && data.lastName.Text? ==> r.value.lastName.value == data.lastName.value
    ensures r.Ok? && data.imageUrl.Text? ==> r.value.imageUrl.value == data.imageUrl.value
    ensures r.Ok? && data.username.Text? ==> r.value.username.value == data.username.value
  {
    var first, last, image, name := Optional(data.firstName), Optional(data.lastName), Optional(data.imageUrl), Nullable(data.username);
    if first.Err? || last.Err? || image.Err? || name.Err? then Err(ArgumentValidation)
    else Ok(NewUser(data.id, data.emailAddresses[0], first.value, last.value, image.value, name.value))
  }

  /** `doSomething`: `user.created` runs `createUser` once; `user.updated` and any
      other type leave the store alone (logging is not modelled). Reading the
      first email address of an event that has none throws a TypeError; a payload
      that `createUser`'s validators reject throws before any insert. In both
      cases no response is sent; every other path answers 200. */
  method DoSomething(store: UserStore, event: Event) returns (r: Result<nat, Error>)
    requires store.Valid()
    modifies store
    ensures store.Valid()
    ensures r.Ok? ==> r.value == StatusOk
    ensures event.kind == "user.created" && |event.data.emailAddresses| == 0 ==> r == Err(TypeError)
    ensures event.kind == "user.created" && |event.data.emailAddresses| > 0 ==>
              (r.Err? <==> CreateUserArgs(event.data).Err?) && (r.Err? ==> r.error == ArgumentValidation)
    ensures event.kind != "user.created" ==> r == Ok(StatusOk)
    ensures r.Ok? && event.kind == "user.created" ==>
              && CreateUserArgs(event.data).Ok?
              && store.created == old(store.created) + 1
              && store.users == old(store.users)[old(store.created) := NewUserRecord(CreateUserArgs(event.data).value)]
    ensures r.Err? || event.kind != "user.created" ==>
              store.users == old(store.users) && store.created == old(store.created)
  {
    match event.kind {
      case "user.created" =>
        if |event.data.emailAddresses| == 0 {
          return Err(TypeError);
        }
        var args := CreateUserArgs(event.data);
        if args.Err? {
          return Err(args.error);
        }
        var userId := store.CreateUser(args.value);
      case _ =>
    }
    r := Ok(StatusOk);
  }

  /** The same `user.created` event delivered twice: both deliveries answer 200
      and insert a user each, and from then on every `.unique()` lookup of that
      `clerkId` (the current user, deletion from the provider) throws. */
  method DeliverTwice(store: UserStore, event: Event) returns (first: Result<nat, Error>, second: Result<nat, Error>)
    requires store.Valid()
    requires event.kind == "user.created" && |event.data.emailAddresses| > 0 && CreateUserArgs(event.data).Ok?
    modifies store
    ensures store.Valid()
    ensures first == Ok(StatusOk) && second == Ok(StatusOk)
    ensures store.created == old(store.created) + 2
    ensures |Holders(store.users, store.created, event.data.id)| == |old(Holders(store.users, store.created, event.data.id))| + 2
    ensures UserByExternalId(store.users, store.created, event.data.id) == Err(NotUnique)
    ensures GetCurrentUser(store.users, store.created, Some(event.data.id)) == Err(NotUnique)
  {
    ghost var before := Holders(store.users, store.created, event.data.id);
    ghost var n := store.created;
    first := DoSomething(store, event);
    assert Holders(store.users, store.created, event.data.id) == before + {n};
    second := DoSomething(store, event);
    assert Holders(store.users, store.created, event.data.id) == before + {n} + {n + 1};
  }
}
