/** The two tables of the backend, their record shapes and their index keys. */
module Schema {
  import opened Wrappers

  /** Convex document ids. The model draws them from each table's creation
      counter, so comparing ids compares creation times. */
  type UserId = nat
  type TaskId = nat

  /** A row of `users`: `email` and `clerkId` are required, the rest optional. */
  datatype User = User(
    email: string,
    clerkId: string,
    imageUrl: Option<string>,
    firstName: Option<string>,
    lastName: Option<string>,
    username: Option<string>)

  /** A row of `tasks`. `priority` is any string: the schema does not restrict it
      to Low, Medium and High. */
  datatype Task = Task(
    userId: UserId,
    title: string,
    completed: bool,
    dueDate: Option<string>,
    priority: Option<string>)

  /** What a query or mutation can throw: an `Error` raised by the function itself
      (with its message), a patch of a document that does not exist, a `.unique()`
      read that matched several documents, a JavaScript TypeError, or arguments
      that a function's validators reject. */
  datatype Error = Thrown(message: string) | NonexistentDocument | NotUnique | TypeError | ArgumentValidation

  /** The `{ success: true }` reply of a mutation. */
  datatype Ack = Ack(success: bool)

  /** Key of the `byClerkId` index on `users`. */
  function ByClerkIdKey(u: User): string { u.clerkId }

  /** Key of the `byUserId` index on `tasks`. */
  function ByUserIdKey(t: Task): UserId { t.userId }

  /** Key of the compound `byUserIdDueDate` index on `tasks` (declared, never queried). */
  function ByUserIdDueDateKey(t: Task): (UserId, Option<string>) { (t.userId, t.dueDate) }
}
