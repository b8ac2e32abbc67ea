/** The `users` table and the functions of convex/users.ts.

    As for tasks, the table is a map from id to record plus the number of users
    ever created. Lookups are functions of the map and the counter; the three
    mutations are methods of `UserStore`. Reading a file from storage is the
    parameter `storageUrl`, an uninterpreted function from storage id to URL. */
module Users {
  import opened Wrappers
  import opened Schema

  /** A document as a query returns it: its `_id` and its fields. */
  datatype UserDoc = UserDoc(id: UserId, user: User)

  /** The arguments of `createUser`. For the names and the image `None` is an
      omitted field; `username` is required and `None` is its `null`. */
  datatype NewUser = NewUser(
    clerkId: string,
    email: string,
    firstName: Option<string>,
    lastName: Option<string>,
    imageUrl: Option<string>,
    username: Option<string>)

  /** The optional arguments of `updateUserProfile`; `None` means not supplied. */
  datatype ProfilePatch = ProfilePatch(
    firstName: Option<string>,
    lastName: Option<string>,
    imageUrl: Option<string>,
    username: Option<string>)

  /** The ids below `created` whose user has this `clerkId`. */
  ghost function Holders(users: map<UserId, User>, created: nat, clerkId: string): set<UserId>
  {
    set id | id in users && id < created && ByClerkIdKey(users[id]) == clerkId
  }

  predicate Stored(users: map<UserId, User>, d: UserDoc)
  {
    d.id in users && users[d.id] == d.user
  }

  /** The `byClerkId` index range for `clerkId` (the same documents a scan that
      filters on the `clerkId` field finds). */
  function ClerkIdMatches(users: map<UserId, User>, created: nat, clerkId: string): (r: seq<UserDoc>)
    ensures forall d :: d in r <==> d.id < created && Stored(users, d) && ByClerkIdKey(d.user) == clerkId
    ensures |r| == |Holders(users, created, clerkId)|
    decreases created
  {
    if created == 0 then []
    else
      var id := created - 1;
      var older := ClerkIdMatches(users, id, clerkId);
      if id in users && ByClerkIdKey(users[id]) == clerkId then
        assert Holders(users, created, clerkId) == Holders(users, id, clerkId) + {id};
        [UserDoc(id, users[id])] + older
      else
        assert Holders(users, created, clerkId) == Holders(users, id, clerkId);
        older
  }

  /** `.unique()`: null when nothing matches, the document when one does, an
      error when several do. */
  function Unique(matches: seq<UserDoc>): (r: Result<Option<UserDoc>, Error>)
    ensures r == Ok(None) <==> |matches| == 0
    ensures r.Ok? && r.value.Some? <==> |matches| == 1
    ensures r.Ok? && r.value.Some? ==> r.value.value == matches[0]
    ensures r.Err? ==> r.error == NotUnique
  {
    if |matches| == 0 then Ok(None)
    else if |matches| == 1 then Ok(Some(matches[0]))
    else Err(NotUnique)
  }

  lemma OnlyHolder(s: set<UserId>, id: UserId)
    requires |s| == 1 && id in s
    ensures s == {id}
  {
    assert |s - {id}| == 0;
  }

  /** `userByExternalId`: the unique user with this `clerkId`, if any. */
  function UserByExternalId(users: map<UserId, User>, created: nat, externalId: string): (r: Result<Option<UserDoc>, Error>)
    ensures r == Ok(None) <==> Holders(users, created, externalId) == {}
    ensures r.Err? <==> |Holders(users, created, externalId)| > 1
    ensures r.Err? ==> r.error == NotUnique
    ensures r.Ok? && r.value.Some? ==>
              && Holders(users, created, externalId) == {r.value.value.id}
              && Stored(users, r.value.value)
  {
    var matches := ClerkIdMatches(users, created, externalId);
    if |matches| == 1 then
      assert matches[0] in matches;
      OnlyHolder(Holders(users, created, externalId), matches[0].id);
      Unique(matches)
    else
      Unique(matches)
  }

  /** An `imageUrl` that the read functions return as stored: absent, empty
      (both falsy in JavaScript) or starting with "http". */
  predicate PassesThrough(imageUrl: Option<string>)
  {
    imageUrl.None? || imageUrl.value == "" || "http" <= imageUrl.value
  }

  /** The read-time rewrite of `imageUrl`: anything else is taken to be a storage
      id and replaced by the URL storage gives for it (`None` for JavaScript's
      `null`, when storage has no such file). */
  function ResolveImage(d: UserDoc, storageUrl: string -> Option<string>): (r: UserDoc)
    ensures r.id == d.id
    ensures r.user.(imageUrl := d.user.imageUrl) == d.user
    ensures PassesThrough(d.user.imageUrl) ==> r == d
    ensures !PassesThrough(d.user.imageUrl) ==> r.user.imageUrl == storageUrl(d.user.imageUrl.value)
  {
    if PassesThrough(d.user.imageUrl) then d
    else d.(user := d.user.(imageUrl := storageUrl(d.user.imageUrl.value)))
  }

  /** `getUserByClerkId`. Its argument is optional: filtering on an undefined
      `clerkId` matches no stored user, whose `clerkId` is always set. */
  function GetUserByClerkId(users: map<UserId, User>, created: nat, clerkId: Option<string>,
                            storageUrl: string -> Option<string>): (r: Result<Option<UserDoc>, Error>)
    ensures clerkId.None? ==> r == Ok(None)
    ensures clerkId.Some? ==> (r == Ok(None) <==> Holders(users, created, clerkId.value) == {})
    ensures clerkId.Some? ==> (r == Err(NotUnique) <==> |Holders(users, created, clerkId.value)| > 1)
    ensures r.Ok? || r == Err(NotUnique)
    ensures r.Ok? && r.value.Some? ==>
              && clerkId.Some?
              && Holders(users, created, clerkId.value) == {r.value.value.id}
              && r.value.value == ResolveImage(UserDoc(r.value.value.id, users[r.value.value.id]), storageUrl)
  {
    if clerkId.None? then Ok(None)
    else
      match UserByExternalId(users, created, clerkId.value)
      case Err(e) => Err(e)
      case Ok(None) => Ok(None)
      case Ok(Some(d)) => Ok(Some(ResolveImage(d, storageUrl)))
  }

  /** `getUserById`: null for a missing id (no error), else the record with its
      image resolved. */
  function GetUserById(users: map<UserId, User>, userId: UserId, storageUrl: string -> Option<string>): (r: Option<UserDoc>)
    ensures r.None? <==> userId !in users
    ensures r.Some? ==> r.value.id == userId && r.value.user.(imageUrl := users[userId].imageUrl) == users[userId]
    ensures r.Some? && PassesThrough(users[userId].imageUrl) ==> r.value.user == users[userId]
    ensures r.Some? && !PassesThrough(users[userId].imageUrl) ==> r.value.user.imageUrl == storageUrl(users[userId].imageUrl.value)
  {
    if userId in users then Some(ResolveImage(UserDoc(userId, users[userId]), storageUrl)) else None
  }

  /** `getUserProfile`: fails on a missing id, else returns the stored record with
      `imageUrl` as stored (not resolved). */
  function GetUserProfile(users: map<UserId, User>, userId: UserId): (r: Result<UserDoc, Error>)
    ensures r.Err? <==> userId !in users
    ensures r.Err? ==> r.error == Thrown("User not found")
    ensures r.Ok? ==> r.value.id == userId && r.value.user == users[userId]
  {
    if userId !in users then Err(Thrown("User not found")) else Ok(UserDoc(userId, users[userId]))
  }

  /** `getCurrentUser`: the caller's user, looked up by the identity's subject;
      nothing is created when there is none. The record is returned as stored. */
  function GetCurrentUser(users: map<UserId, User>, created: nat, identity: Option<string>): (r: Result<UserDoc, Error>)
    ensures identity.None? ==> r == Err(Thrown("Not authenticated"))
    ensures identity.Some? && Holders(users, created, identity.value) == {} ==> r == Err(Thrown("User not found"))
    ensures identity.Some? && |Holders(users, created, identity.value)| > 1 ==> r == Err(NotUnique)
    ensures r.Ok? <==> identity.Some? && |Holders(users, created, identity.value)| == 1
    ensures r.Ok? ==>
              && Stored(users, r.value)
              && r.value.user.clerkId == identity.value
              && Holders(users, created, identity.value) == {r.value.id}
  {
    if identity.None? then Err(Thrown("Not authenticated"))
    else
      match UserByExternalId(users, created, identity.value)
      case Err(e) => Err(e)
      case Ok(None) => Err(Thrown("User not found"))
      case Ok(Some(d)) => Ok(d)
  }

  /** `${x}` in a template literal: an absent value renders as "undefined". */
  function Render(x: Option<string>): string
  {
    if x.Some? then x.value else "undefined"
  }

  /** The username `createUser` stores: the given one when it is truthy (neither
      null nor empty), else first and last name run together as a template
      literal renders them. */
  function StoredUsername(username: Option<string>, firstName: Option<string>, lastName: Option<string>): (r: string)
    ensures username.Some? && username.value != "" ==> r == username.value
    ensures (username.None? || username.value == "") && firstName.Some? && lastName.Some? ==> r == firstName.value + lastName.value
    ensures (username.None? || username.value == "") && firstName.None? && lastName.Some? ==> r == "undefined" + lastName.value
    ensures (username.None? || username.value == "") && firstName.Some? && lastName.None? ==> r == firstName.value + "undefined"
    ensures (username.None? || username.value == "") && firstName.None? && lastName.None? ==> r == "undefinedundefined"
  {
    if username.Some? && username.value != "" then username.value
    else Render(firstName) + Render(lastName)
  }

  /** The record `createUser` inserts: its arguments, with the username defaulted. */
  function NewUserRecord(args: NewUser): (r: User)
    ensures r.email == args.email && r.clerkId == args.clerkId && r.imageUrl == args.imageUrl
    ensures r.firstName == args.firstName && r.lastName == args.lastName
    ensures r.username.Some?
    ensures args.username.Some? && args.username.value != "" ==> r.username == args.username
  {
    User(args.email, args.clerkId, args.imageUrl, args.firstName, args.lastName,
         Some(StoredUsername(args.username, args.firstName, args.lastName)))
  }

  /** The record `updateUserProfile` stores: each supplied field replaces the
      stored one; `email` and `clerkId` are never touched. */
  function ApplyProfilePatch(u: User, p: ProfilePatch): (r: User)
    ensures r.email == u.email && r.clerkId == u.clerkId
    ensures r.firstName == (if p.firstName.Some? then p.firstName else u.firstName)
    ensures r.lastName == (if p.lastName.Some? then p.lastName else u.lastName)
    ensures r.imageUrl == (if p.imageUrl.Some? then p.imageUrl else u.imageUrl)
    ensures r.username == (if p.username.Some? then p.username else u.username)
    ensures p == ProfilePatch(None, None, None, None) ==> r == u
  {
    u.(firstName := if p.firstName.Some? then p.firstName else u.firstName,
       lastName := if p.lastName.Some? then p.lastName else u.lastName,
       imageUrl := if p.imageUrl.Some? then p.imageUrl else u.imageUrl,
       username := if p.username.Some? then p.username else u.username)
  }

  /** The users table as the mutations of convex/users.ts change it. */
  class UserStore {
    var users: map<UserId, User>
    var created: nat

    ghost predicate Valid()
      reads this
    {
      forall id :: id in users ==> id < created
    }

    constructor ()
      ensures Valid() && users == map[] && created == 0
    {
      users := map[];
      created := 0;
    }

    /** `createUser`: inserts the record without looking for an existing user
        with the same `clerkId`, so that id gains one more holder. */
    method CreateUser(args: NewUser) returns (userId: UserId)
      requires Valid()
      modifies this
      ensures Valid()
      ensures userId == old(created) && userId !in old(users) && created == old(created) + 1
      ensures users == old(users)[userId := NewUserRecord(args)]
      ensures Holders(users, created, args.clerkId) == Holders(old(users), old(created), args.clerkId) + {userId}
      ensures forall c :: c != args.clerkId ==> Holders(users, created, c) == Holders(old(users), old(created), c)
    {
      userId := created;
      users := users[userId := NewUserRecord(args)];
      created := created + 1;
    }

    /** `updateUserProfile`: patches the supplied fields; patching an id that is
        not in the table makes the store throw. */
    method UpdateUserProfile(userId: UserId, patch: ProfilePatch) returns (r: Result<Ack, Error>)
      requires Valid()
      modifies this
      ensures Valid() && created == old(created)
      ensures r.Ok? <==> userId in old(users)
      ensures r.Ok? ==> r.value == Ack(true) && users == old(users)[userId := ApplyProfilePatch(old(users)[userId], patch)]
      ensures r.Err? ==> r.error == NonexistentDocument && users == old(users)
    {
      if userId !in users {
        return Err(NonexistentDocument);
      }
      users := users[userId := ApplyProfilePatch(users[userId], patch)];
      r := Ok(Ack(true));
    }

    /** `deleteFromClerk`: looks the user up by `clerkId` and deletes that one
        record. Tasks are in another table and are not touched. */
    method DeleteFromClerk(clerkUserId: string) returns (r: Result<Ack, Error>)
      requires Valid()
      modifies this
      ensures Valid() && created == old(created)
      ensures old(Holders(users, created, clerkUserId)) == {} ==>
                r == Err(Thrown("User not found for Clerk ID: " + clerkUserId)) && users == old(users)
      ensures |old(Holders(users, created, clerkUserId))| > 1 ==> r == Err(NotUnique) && users == old(users)
      ensures r.Ok? <==> |old(Holders(users, created, clerkUserId))| == 1
      ensures r.Ok? ==> r.value == Ack(true) && users == old(users) - old(Holders(users, created, clerkUserId))
      ensures r.Ok? ==> Holders(users, created, clerkUserId) == {}
    {
      var found := UserByExternalId(users, created, clerkUserId);
      if found.Err? {
        return Err(found.error);
      }
      if found.value.None? {
        return Err(Thrown("User not found for Clerk ID: " + clerkUserId));
      }
      users := users - {found.value.value.id};
      r := Ok(Ack(true));
    }
  }
}
