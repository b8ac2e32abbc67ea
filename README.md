# Task-manager backend and help center, modelled in Dafny

This project models the server core of a small task-manager app built on Convex, plus one screen of its mobile client:

- **`convex/schema.ts`** defines the `users` and `tasks` tables and their indexes (`schema.dfy`).
- **`convex/tasks.ts`** holds the task queries and mutations (`tasks.dfy`): create, list a user's tasks newest first, list the completed ones, patch, delete, and toggle completion.
- **`convex/users.ts`** holds the user queries and mutations (`users.dfy`): lookup by identity-provider id (`clerkId`), by document id and by the caller's identity; creation with a derived `username`; profile patch; deletion by `clerkId`.
- **`convex/http.ts`** is the identity-provider webhook (`http.dfy`). A `user.created` event provisions a user. Every other event type is acknowledged with status 200.
- **`app/support/helpCenter.tsx`** is the help-center screen (`helpcenter.dfy`). It holds the built-in FAQ data and flattens it into a list. It filters that list by search text or by category, and expands or collapses one question at a time.

`wrappers.dfy` holds the `Option` and `Result` types. `seqs.dfy` holds an order-preserving `Filter` with its subsequence lemmas, which model `Array.prototype.filter`.

How the database is represented:

- **Tables.** Each table is a map from document id to record, together with a creation counter. A new document takes the counter's value as its id. Ids therefore grow with creation time, and "descending `_creationTime`" becomes "descending id".
- **Queries.** A query scans the ids below the counter from newest to oldest.
- **`.unique()`.** No match gives `Ok(None)`, one match gives `Ok(Some(doc))`, and more than one gives `Err(NotUnique)`.
- **`db.patch` and `db.delete`.** Patching an id that is not in the table is `Err(NonexistentDocument)`. Deleting only ever happens after the id has been checked.

Mutations that change a table are methods of the classes `Tasks.TaskStore` and `Users.UserStore`. The screen's React state is the class `HelpCenter.HelpCenterScreen`. Each method states its whole new state in terms of the old one. The lemmas about the query functions then carry the properties across.

Where the code and its design description disagree, the model follows the code:

- `createUser` does not check for an existing user with the same `clerkId`, so a second `user.created` for one id inserts a duplicate. `Http.DeliverTwice` shows the outcome: from then on every `.unique()` lookup of that id fails.
- `createTask` does not validate the title or the owner.
- `updateTask` has no not-found check of its own. The storage layer's error is the only refusal.
- `deleteTask` and `markTaskAsCompleted` check that the task exists before they check the caller's identity, and they never compare the caller with the owner.

## Model

| member | source | states |
|---|---|---|
| Tasks.GetUserTasks | convex/tasks.ts:25-36 | the result holds exactly the stored tasks whose `userId` is the argument, newest first |
| Tasks.UserTasksAreDetermined | convex/tasks.ts:30-34 | any list holding exactly the user's tasks, newest first, equals the query's result, so the index scan with `order("desc")` has only one possible answer |
| Tasks.NewestFirstDetermined | convex/tasks.ts:33 | two newest-first lists with the same members are equal |
| Tasks.SubsequenceKeepsNewestFirst | convex/tasks.ts:118-119 | filtering a newest-first list keeps it newest first and adds no element |
| Tasks.GetCompletedTasks | convex/tasks.ts:110-122 | the result holds exactly the user's tasks with `completed == true`, newest first, in the order of `getUserTasks` |
| Tasks.UserTasksReadOnlyBelow | convex/tasks.ts:30-34 | the query depends only on documents created before the counter |
| Tasks.UserTasksAfterInsert | convex/tasks.ts:13-19 | a task inserted with the next id goes to the front of its owner's list; every other user's list is unchanged |
| Tasks.UserTasksAfterPatch | convex/tasks.ts:48 | replacing a task with one of the same owner keeps every list's ids and order and changes only that entry |
| Tasks.ApplyPatch | convex/tasks.ts:47-48 | each supplied field replaces the stored one, the others are kept, owner and completion never change, and an empty patch changes nothing |
| Tasks.TaskStore.constructor | convex/schema.ts:28-30 | the tasks table starts empty |
| Tasks.TaskStore.CreateTask | convex/tasks.ts:5-22 | inserts one incomplete task with the given fields under a fresh id and returns that id; the owner's list gains it at the front |
| Tasks.TaskStore.UpdateTask | convex/tasks.ts:39-51 | a present task gets the patch and the reply `{ success: true }`; a missing id is the storage error and changes nothing; every list keeps its order |
| Tasks.TaskStore.DeleteTask | convex/tasks.ts:54-75 | "Task not found" for a missing id comes first, then "Unauthorized" without an identity; otherwise the task is removed and nothing else changes |
| Tasks.TaskStore.MarkTaskAsCompleted | convex/tasks.ts:78-108 | the same two checks in the same order; then `completed` is negated and the reply carries the new value |
| Tasks.ToggleTwice | convex/tasks.ts:95-106 | two toggles in a row succeed or fail together and leave the table as it was |
| Tasks.DeleteTwice | convex/tasks.ts:59-63 | a second delete after a successful one, or any second delete with an identity, answers "Task not found"; after a successful first delete, the task is absent from every list |
| Users.ClerkIdMatches | convex/users.ts:10-12 | the scan yields exactly the stored users with the given `clerkId`, one per holder |
| Users.UserByExternalId | convex/users.ts:118-123 | `.unique()` over the `byClerkId` index: none when no user holds the id, the only holder when exactly one does, `NotUnique` when several do |
| Users.ResolveImage | convex/users.ts:15-24 | an `imageUrl` that is absent, empty or starts with "http" is returned unchanged; any other value is replaced by its storage URL, and no other field changes |
| Users.GetUserByClerkId | convex/users.ts:5-26 | an absent `clerkId` gives null; otherwise null, the resolved single holder, or `NotUnique`, according to how many users hold it |
| Users.GetUserById | convex/users.ts:28-45 | null exactly when the id is absent; otherwise the stored record with its image resolved |
| Users.GetUserProfile | convex/users.ts:80-89 | "User not found" exactly when the id is absent; otherwise the raw stored record |
| Users.GetCurrentUser | convex/users.ts:103-116 | "Not authenticated" without an identity, "User not found" when no user holds its subject, `NotUnique` for several; success exactly when one user holds it |
| Users.StoredUsername | convex/users.ts:59 | a non-empty `username` is kept; otherwise the first and last names are concatenated, and an absent part renders as "undefined" |
| Users.ApplyProfilePatch | convex/users.ts:74-75 | each supplied profile field replaces the stored one; `email` and `clerkId` never change; an empty patch changes nothing |
| Users.Unique | convex/users.ts:13 | `.unique()` over a match list: null for none, the match for exactly one, `NotUnique` for several |
| Users.NewUserRecord | convex/users.ts:57-60 | the inserted record copies every argument field and always carries a username, which is the argument's own when that is non-empty |
| Users.UserStore.constructor | convex/schema.ts:25-27 | the users table starts empty |
| Users.UserStore.CreateUser | convex/users.ts:47-63 | inserts the record under a fresh id; the holders of its `clerkId` gain that id and those of every other id are unchanged |
| Users.UserStore.UpdateUserProfile | convex/users.ts:65-78 | a present user gets the patch and `{ success: true }`; a missing id is the storage error and changes nothing |
| Users.UserStore.DeleteFromClerk | convex/users.ts:91-101 | "User not found for Clerk ID: " followed by the id when nobody holds it, `NotUnique` when several do; otherwise the single holder is removed and the id is then free |
| Http.Optional | convex/users.ts:51-53 | `v.optional(v.string())` rejects exactly `null`; a missing field becomes absent and a string is kept |
| Http.Nullable | convex/users.ts:54 | `v.union(v.string(), v.null())` rejects exactly a missing field; `null` becomes absent and a string is kept |
| Http.CreateUserArgs | convex/http.ts:11-18 | the `createUser` arguments are rejected exactly when a name or the image is `null` or the username is missing; otherwise they are the payload's id as `clerkId`, its first email address, and its name, image and username values |
| Http.DoSomething | convex/http.ts:7-25 | `user.created` without email addresses throws a TypeError; one that `createUser`'s validators reject throws before any insert; otherwise exactly the user built from the payload is inserted; every other type changes nothing; every reply is status 200 |
| Http.DeliverTwice | convex/http.ts:10-19 | the same `user.created` delivered twice answers 200 twice and inserts two users, after which `getCurrentUser` and the `clerkId` lookup fail with `NotUnique` |
| HelpCenter.HelpDataNamesDistinct | app/support/helpCenter.tsx:17-66 | the four categories of the built-in data have distinct, non-empty names |
| HelpCenter.Entries | app/support/helpCenter.tsx:90-96 | one entry per question, in order, each tagged with the category's name |
| HelpCenter.Flattened | app/support/helpCenter.tsx:89-97 | an entry is in the list exactly when it is the entry of some question of some category |
| HelpCenter.FlattenedAppend | app/support/helpCenter.tsx:89-97 | flattening distributes over concatenation of the category list |
| HelpCenter.FlattenedSnoc | app/support/helpCenter.tsx:89-97 | flattening one more category appends that category's entries |
| HelpCenter.FlattenedLayout | app/support/helpCenter.tsx:89-97 | a category's block follows the blocks of every category before it and precedes those after it |
| HelpCenter.FlattenFaqs | app/support/helpCenter.tsx:86-97 | the nested `forEach`/`push` loops build exactly the flattened list |
| HelpCenter.ToLower | app/support/helpCenter.tsx:102-103 | same length; each character is lowercased |
| HelpCenter.Contains | app/support/helpCenter.tsx:102-103 | `includes` holds exactly when the text occurs at some position |
| Seqs.Filter | app/support/helpCenter.tsx:100-104 | `Array.prototype.filter`: the result holds exactly the elements that satisfy the predicate, in their original order |
| Seqs.FilterCounts | app/support/helpCenter.tsx:107-109 | filtering keeps every copy of a satisfying element and drops every copy of the others |
| HelpCenter.Filtered | app/support/helpCenter.tsx:99-111 | a non-empty search keeps exactly the entries whose lowercased question or answer contains the lowercased query, each as often as it occurs; else a non-empty category keeps exactly its entries, each as often as it occurs; else everything; order is always kept |
| HelpCenter.SearchIgnoresCategory | app/support/helpCenter.tsx:99-105 | with a non-empty search the selected category does not matter |
| HelpCenter.NoEntriesOfOtherCategories | app/support/helpCenter.tsx:107-109 | filtering by a name that no category has gives nothing |
| HelpCenter.CategoryFilterIsItsEntries | app/support/helpCenter.tsx:107-109 | with distinct names, filtering by a category's name gives exactly that category's entries in order |
| HelpCenter.SelectedCategoryShowsItsEntries | app/support/helpCenter.tsx:99-111 | with an empty search, selecting a category shows exactly its entries |
| HelpCenter.NextExpanded | app/support/helpCenter.tsx:80-83 | nothing is expanded exactly when the pressed question was the expanded one; otherwise the pressed question is |
| HelpCenter.PressTwice | app/support/helpCenter.tsx:80-83 | pressing a question twice restores the state if it was expanded, and otherwise leaves nothing expanded |
| HelpCenter.HelpCenterScreen.constructor | app/support/helpCenter.tsx:70-72 | empty search, no category, nothing expanded |
| HelpCenter.HelpCenterScreen.SetSearchQuery | app/support/helpCenter.tsx:165-169 | sets the search text (the clear button sets it to empty) and nothing else |
| HelpCenter.HelpCenterScreen.HandleCategoryPress | app/support/helpCenter.tsx:74-78 | selects the category and collapses any question; the search is unchanged |
| HelpCenter.HelpCenterScreen.HandleQuestionPress | app/support/helpCenter.tsx:80-83 | toggles the pressed question as `NextExpanded` says; the search and the category are unchanged |
| HelpCenter.HelpCenterScreen.FilteredFaqs | app/support/helpCenter.tsx:85-112 | the displayed list is the filtered flattening of the built-in data; with an empty search and one of its categories selected, it is exactly that category's entries |

## Left out

- Reactivity and subscriptions of Convex queries are not modelled. Each query is a function of the current table state.
- Request parsing in the webhook is not modelled. `request.json()`, the `Response` object and the route registration become an already-parsed `Event`, and the reply is its status code.
- `console.log` of `user.updated` is not modelled, because it is output only.
- Signature verification of webhooks is not modelled, because the source does none.
- The `searchUsers` search index on `username` is not modelled, because no core function queries it.
- The `byUserIdDueDate` compound index is declared only as its key function `Schema.ByUserIdDueDateKey`. No core function queries it, so nothing uses that key.
- Convex's argument validators are modelled only for `createUser` on the webhook path, where a `null` or missing field can arrive. Everywhere else, type checks and the check that an id names the right table are not modelled. Arguments are well-typed by construction, and ids are naturals.
- `ctx.storage.getUrl` is a parameter `string -> Option<string>`. Its failure modes are not modelled, and neither is the difference between returning null and an absent field.
- Http.DoSomething: a rejected payload yields one `ArgumentValidation` error without Convex's message. Payload fields of other JSON types, such as a number, are not modelled, because `Field` holds only missing, `null` or a string.
- HelpCenter.ToLower: lowercases ASCII letters only. JavaScript's `toLowerCase` also folds other Unicode letters, in the query as well as in the data.
- Haptic feedback, navigation, layout and rendering of the screen are not modelled, because they are UI effects.
- Tasks.TaskStore.CreateTask: an owner id that names no user is accepted. That matches the code, but the model does not state foreign-key integrity between the tables.
- `useCallback` memoisation is not modelled. `FilteredFaqs` recomputes the list, which gives the same value.
- Concurrency between mutations is not modelled. Convex runs each mutation as a serialisable transaction, so the model applies them one at a time.
