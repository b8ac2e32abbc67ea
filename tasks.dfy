/** The `tasks` table and the functions of convex/tasks.ts that read and write it.

    The table is a map from id to record plus the number of tasks ever created;
    a new task takes that number as its id, so larger ids are newer tasks. The
    two list queries are functions of the map and the counter; the four
    mutations are methods of `TaskStore`, which holds both as fields. */
module Tasks {
  import opened Wrappers
  import opened Schema
  import opened Seqs

  /** A document as a query returns it: its `_id` and its fields. */
  datatype TaskDoc = TaskDoc(id: TaskId, task: Task)

  /** The `{ success: true, completed }` reply of `markTaskAsCompleted`. */
  datatype Completion = Completion(success: bool, completed: bool)

  /** The optional fields of `updateTask`; `None` means the argument was not supplied. */
  datatype TaskPatch = TaskPatch(title: Option<string>, dueDate: Option<string>, priority: Option<string>)

  /** Most recently created first: ids strictly decrease along the list. */
  predicate NewestFirst(r: seq<TaskDoc>)
  {
    forall i, j :: 0 <= i < j < |r| ==> r[i].id > r[j].id
  }

  /** `after` is `before` with the record of task `id` replaced by `t`: the same
      ids at the same positions, and every other entry unchanged. */
  predicate Patched(after: seq<TaskDoc>, before: seq<TaskDoc>, id: TaskId, t: Task)
  {
    && |after| == |before|
    && forall i :: 0 <= i < |after| ==>
         after[i].id == before[i].id && after[i] == if before[i].id == id then TaskDoc(id, t) else before[i]
  }

  /** A document of `tasks` whose id is below `created` and that belongs to `userId`. */
  predicate OwnedBy(tasks: map<TaskId, Task>, created: nat, userId: UserId, d: TaskDoc)
  {
    d.id < created && d.id in tasks && tasks[d.id] == d.task && ByUserIdKey(d.task) == userId
  }

  /** `getUserTasks`: the `byUserId` index range for `userId`, read in descending
      order, which within one key is descending creation order. */
  function GetUserTasks(tasks: map<TaskId, Task>, created: nat, userId: UserId): (r: seq<TaskDoc>)
    ensures forall d :: d in r <==> OwnedBy(tasks, created, userId, d)
    ensures NewestFirst(r)
    decreases created
  {
    if created == 0 then []
    else
      var id := created - 1;
      var older := GetUserTasks(tasks, id, userId);
      if id in tasks && ByUserIdKey(tasks[id]) == userId then
        assert forall k :: 0 <= k < |older| ==> older[k] in older;
        [TaskDoc(id, tasks[id])] + older
      else older
  }

  function IsCompleted(d: TaskDoc): bool { d.task.completed }

  /** `getCompletedTasks`: the same index range, filtered to `completed == true`. */
  function GetCompletedTasks(tasks: map<TaskId, Task>, created: nat, userId: UserId): (r: seq<TaskDoc>)
    ensures forall d :: d in r <==> OwnedBy(tasks, created, userId, d) && d.task.completed
    ensures IsSubsequence(r, GetUserTasks(tasks, created, userId))
    ensures NewestFirst(r)
  {
    var all := GetUserTasks(tasks, created, userId);
    SubsequenceKeepsNewestFirst(Filter(all, IsCompleted), all);
    Filter(all, IsCompleted)
  }

  lemma {:induction false} SubsequenceKeepsNewestFirst(a: seq<TaskDoc>, b: seq<TaskDoc>)
    requires IsSubsequence(a, b) && NewestFirst(b)
    ensures NewestFirst(a)
    ensures forall x :: x in a ==> x in b
    decreases |b|
  {
    if |a| > 0 {
      if a[0] == b[0] && IsSubsequence(a[1..], b[1..]) {
        SubsequenceKeepsNewestFirst(a[1..], b[1..]);
        forall j | 0 < j < |a| ensures a[0].id > a[j].id {
          assert a[j] in a[1..];
          var k :| 0 <= k < |b[1..]| && b[1..][k] == a[j];
          assert b[k + 1] == a[j];
        }
        forall x | x in a ensures x in b {
          if x != a[0] {
            var k :| 0 <= k < |a| && a[k] == x;
            assert x in a[1..];
          }
        }
      } else {
        SubsequenceKeepsNewestFirst(a, b[1..]);
      }
    }
  }

  /** Any list that holds exactly the tasks of `userId`, newest first, is the
      result of `getUserTasks`: the contract of `GetUserTasks` determines it. */
  lemma UserTasksAreDetermined(tasks: map<TaskId, Task>, created: nat, userId: UserId, r: seq<TaskDoc>)
    requires forall d :: d in r <==> OwnedBy(tasks, created, userId, d)
    requires NewestFirst(r)
    ensures r == GetUserTasks(tasks, created, userId)
  {
    NewestFirstDetermined(r, GetUserTasks(tasks, created, userId));
  }

  lemma {:induction false} NewestFirstDetermined(a: seq<TaskDoc>, b: seq<TaskDoc>)
    requires NewestFirst(a) && NewestFirst(b)
    requires forall d :: d in a <==> d in b
    ensures a == b
    decreases |a| + |b|, |b|
  {
    if |a| > 0 {
      assert a[0] in b;
      assert b[0] in a;
      HeadOrOlder(a, b[0]);
      HeadOrOlder(b, a[0]);
      forall d ensures d in a[1..] <==> d in b[1..] {
        if d in a[1..] {
          InTail(a, d);
          HeadOrOlder(b, d);
        }
        if d in b[1..] {
          InTail(b, d);
          HeadOrOlder(a, d);
        }
      }
      NewestFirstTail(a);
      NewestFirstTail(b);
      NewestFirstDetermined(a[1..], b[1..]);
      assert a == [a[0]] + a[1..];
      assert b == [b[0]] + b[1..];
    } else {
      if |b| > 0 {
        NewestFirstDetermined(b, a);
      }
    }
  }

  lemma HeadOrOlder(a: seq<TaskDoc>, d: TaskDoc)
    requires NewestFirst(a) && d in a
    ensures d == a[0] || (d in a[1..] && d.id < a[0].id)
  {
    var i :| 0 <= i < |a| && a[i] == d;
    if i > 0 {
      assert a[1..][i - 1] == d;
    }
  }

  lemma InTail(a: seq<TaskDoc>, d: TaskDoc)
    requires NewestFirst(a) && |a| > 0 && d in a[1..]
    ensures d in a && d.id < a[0].id
  {
    var i :| 0 <= i < |a[1..]| && a[1..][i] == d;
    assert a[i + 1] == d;
  }

  lemma NewestFirstTail(a: seq<TaskDoc>)
    requires NewestFirst(a) && |a| > 0
    ensures NewestFirst(a[1..])
  {
    forall i, j | 0 <= i < j < |a[1..]| ensures a[1..][i].id > a[1..][j].id {
      assert a[1..][i] == a[i + 1] && a[1..][j] == a[j + 1];
    }
  }

  /** The scan below `created` reads only ids below `created`. */
  lemma {:induction false} UserTasksReadOnlyBelow(tasks: map<TaskId, Task>, tasks': map<TaskId, Task>, created: nat, userId: UserId)
    requires forall id :: id < created ==> (id in tasks <==> id in tasks')
    requires forall id :: id < created && id in tasks ==> tasks[id] == tasks'[id]
    ensures GetUserTasks(tasks, created, userId) == GetUserTasks(tasks', created, userId)
    decreases created
  {
    if created > 0 {
      UserTasksReadOnlyBelow(tasks, tasks', created - 1, userId);
    }
  }

  /** Inserting a task with the next id puts it in front of its owner's list and
      leaves every other user's list as it was. */
  lemma UserTasksAfterInsert(tasks: map<TaskId, Task>, created: nat, t: Task, userId: UserId)
    ensures GetUserTasks(tasks[created := t], created + 1, userId)
         == (if t.userId == userId then [TaskDoc(created, t)] else []) + GetUserTasks(tasks, created, userId)
  {
    UserTasksReadOnlyBelow(tasks[created := t], tasks, created, userId);
  }

  /** Replacing a stored task by one with the same owner keeps every list's ids in
      place; only the entry of that id changes, to the new record. */
  lemma {:induction false} UserTasksAfterPatch(tasks: map<TaskId, Task>, created: nat, userId: UserId, id: TaskId, t: Task)
    requires id in tasks && t.userId == tasks[id].userId
    ensures Patched(GetUserTasks(tasks[id := t], created, userId), GetUserTasks(tasks, created, userId), id, t)
    decreases created
  {
    if created > 0 {
      var n := created - 1;
      UserTasksAfterPatch(tasks, n, userId, id, t);
      var after', before' := GetUserTasks(tasks[id := t], n, userId), GetUserTasks(tasks, n, userId);
      if n in tasks && ByUserIdKey(tasks[n]) == userId {
        var after, before := [TaskDoc(n, tasks[id := t][n])] + after', [TaskDoc(n, tasks[n])] + before';
        assert GetUserTasks(tasks[id := t], created, userId) == after;
        assert GetUserTasks(tasks, created, userId) == before;
        forall i | 0 < i < |after|
          ensures after[i].id == before[i].id && after[i] == if before[i].id == id then TaskDoc(id, t) else before[i]
        {
          assert after[i] == after'[i - 1] && before[i] == before'[i - 1];
        }
      }
    }
  }

  /** The record `updateTask` stores: each supplied field replaces the stored one,
      the others stay; `userId` and `completed` are never touched. */
  function ApplyPatch(t: Task, p: TaskPatch): (r: Task)
    ensures r.userId == t.userId && r.completed == t.completed
    ensures r.title == (if p.title.Some? then p.title.value else t.title)
    ensures r.dueDate == (if p.dueDate.Some? then p.dueDate else t.dueDate)
    ensures r.priority == (if p.priority.Some? then p.priority else t.priority)
    ensures p == TaskPatch(None, None, None) ==> r == t
  {
    t.(title := if p.title.Some? then p.title.value else t.title,
       dueDate := if p.dueDate.Some? then p.dueDate else t.dueDate,
       priority := if p.priority.Some? then p.priority else t.priority)
  }

  /** The tasks table as the mutations of convex/tasks.ts change it. */
  class TaskStore {
    var tasks: map<TaskId, Task>
    var created: nat

    /** Every id was drawn from the counter. Since `createTask` demands a due date
        and a priority and `updateTask` can only set them, every stored task has both,
        although the schema leaves them optional. */
    ghost predicate Valid()
      reads this
    {
      && (forall id :: id in tasks ==> id < created)
      && (forall id :: id in tasks ==> tasks[id].dueDate.Some? && tasks[id].priority.Some?)
    }

    constructor ()
      ensures Valid() && tasks == map[] && created == 0
    {
      tasks := map[];
      created := 0;
    }

    /** `createTask`: inserts one incomplete task and returns its fresh id. */
    method CreateTask(title: string, dueDate: string, priority: string, userId: UserId) returns (taskId: TaskId)
      requires Valid()
      modifies this
      ensures Valid()
      ensures taskId == old(created) && taskId !in old(tasks) && created == old(created) + 1
      ensures tasks == old(tasks)[taskId := Task(userId, title, false, Some(dueDate), Some(priority))]
      ensures forall u :: GetUserTasks(tasks, created, u)
                       == (if u == userId then [TaskDoc(taskId, tasks[taskId])] else []) + GetUserTasks(old(tasks), old(created), u)
    {
      taskId := created;
      tasks := tasks[taskId := Task(userId, title, false, Some(dueDate), Some(priority))];
      created := created + 1;
      forall u
        ensures GetUserTasks(tasks, created, u)
             == (if u == userId then [TaskDoc(taskId, tasks[taskId])] else []) + GetUserTasks(old(tasks), old(created), u)
      {
        UserTasksAfterInsert(old(tasks), old(created), tasks[taskId], u);
      }
    }

    /** `updateTask`: patches the supplied fields. The function checks nothing
        itself; patching an id that is not in the table makes the store throw. */
    method UpdateTask(taskId: TaskId, patch: TaskPatch) returns (r: Result<Ack, Error>)
      requires Valid()
      modifies this
      ensures Valid() && created == old(created)
      ensures r.Ok? <==> taskId in old(tasks)
      ensures r.Ok? ==> r.value == Ack(true) && tasks == old(tasks)[taskId := ApplyPatch(old(tasks)[taskId], patch)]
      ensures r.Err? ==> r.error == NonexistentDocument && tasks == old(tasks)
      ensures r.Ok? ==> forall u :: Patched(GetUserTasks(tasks, created, u), GetUserTasks(old(tasks), created, u), taskId, tasks[taskId])
    {
      if taskId !in tasks {
        return Err(NonexistentDocument);
      }
      var t := ApplyPatch(tasks[taskId], patch);
      forall u ensures Patched(GetUserTasks(tasks[taskId := t], created, u), GetUserTasks(tasks, created, u), taskId, t) {
        UserTasksAfterPatch(tasks, created, u, taskId, t);
      }
      tasks := tasks[taskId := t];
      r := Ok(Ack(true));
    }

    /** `deleteTask`: first the existence check, then the identity check; the
        task's owner is never compared with the caller. */
    method DeleteTask(taskId: TaskId, identity: Option<string>) returns (r: Result<Ack, Error>)
      requires Valid()
      modifies this
      ensures Valid() && created == old(created)
      ensures taskId !in old(tasks) ==> r == Err(Thrown("Task not found"))
      ensures taskId in old(tasks) && identity.None? ==> r == Err(Thrown("Unauthorized"))
      ensures taskId in old(tasks) && identity.Some? ==> r == Ok(Ack(true))
      ensures tasks == if r.Ok? then old(tasks) - {taskId} else old(tasks)
      ensures r.Ok? ==> forall u, d :: d in GetUserTasks(tasks, created, u)
                                   <==> d in GetUserTasks(old(tasks), created, u) && d.id != taskId
    {
      if taskId !in tasks {
        return Err(Thrown("Task not found"));
      }
      if identity.None? {
        return Err(Thrown("Unauthorized"));
      }
      tasks := tasks - {taskId};
      r := Ok(Ack(true));
    }

    /** `markTaskAsCompleted`: the same two checks, then stores the negation of
        `completed` and returns it. */
    method MarkTaskAsCompleted(taskId: TaskId, identity: Option<string>) returns (r: Result<Completion, Error>)
      requires Valid()
      modifies this
      ensures Valid() && created == old(created)
      ensures taskId !in old(tasks) ==> r == Err(Thrown("Task not found"))
      ensures taskId in old(tasks) && identity.None? ==> r == Err(Thrown("Unauthorized"))
      ensures taskId in old(tasks) && identity.Some? ==> r == Ok(Completion(true, !old(tasks)[taskId].completed))
      ensures tasks == if r.Ok? then old(tasks)[taskId := old(tasks)[taskId].(completed := r.value.completed)] else old(tasks)
      ensures r.Ok? ==> forall u :: Patched(GetUserTasks(tasks, created, u), GetUserTasks(old(tasks), created, u), taskId, tasks[taskId])
    {
      if taskId !in tasks {
        return Err(Thrown("Task not found"));
      }
      if identity.None? {
        return Err(Thrown("Unauthorized"));
      }
      var newStatus := !tasks[taskId].completed;
      var t := tasks[taskId].(completed := newStatus);
      forall u ensures Patched(GetUserTasks(tasks[taskId := t], created, u), GetUserTasks(tasks, created, u), taskId, t) {
        UserTasksAfterPatch(tasks, created, u, taskId, t);
      }
      tasks := tasks[taskId := t];
      r := Ok(Completion(true, newStatus));
    }
  }

  /** Two `markTaskAsCompleted` calls in a row: with a present task and an identity
      both succeed, the second reports the original status, and the table is back
      where it started. */
  method ToggleTwice(store: TaskStore, taskId: TaskId, identity: Option<string>)
    returns (first: Result<Completion, Error>, second: Result<Completion, Error>)
    requires store.Valid()
    modifies store
    ensures store.Valid()
    ensures store.tasks == old(store.tasks) && store.created == old(store.created)
    ensures first.Ok? <==> second.Ok?
    ensures second.Ok? ==> taskId in old(store.tasks) && second.value.completed == old(store.tasks)[taskId].completed
  {
    first := store.MarkTaskAsCompleted(taskId, identity);
    second := store.MarkTaskAsCompleted(taskId, identity);
  }

  /** Two `deleteTask` calls in a row: once the first succeeds, or whenever an
      identity is present, the second fails with "Task not found". */
  method DeleteTwice(store: TaskStore, taskId: TaskId, identity: Option<string>)
    returns (first: Result<Ack, Error>, second: Result<Ack, Error>)
    requires store.Valid()
    modifies store
    ensures store.Valid()
    ensures first.Ok? || identity.Some? ==> second == Err(Thrown("Task not found"))
    ensures forall u, d :: d in GetUserTasks(store.tasks, store.created, u) ==> first.Err? || d.id != taskId
  {
    first := store.DeleteTask(taskId, identity);
    second := store.DeleteTask(taskId, identity);
  }
}
