# Task and role rules of the task-tracking chat bot

This project models the data layer of a chat-platform bot. Users create tasks,
assign them and close them. A member/admin role system decides who may change
a task, and admins may promote or demote other users. The model covers:

- the seven task functions of `src/database/task.ts`;
- the three user functions of `src/database/user.ts`;
- the older `getOrCreateUser` of `src/database/userService.ts`;
- the decision sequences of the `promote` and `demote` commands.

The datastore is an object `Database.Db` with two tables: `tasks`, a map from
the serial `id` to a `Task` row, and `users`, a map from `discord_id` to a `User`
row. Every exported function that writes is a method that does its fetch,
check and write against that object. The five guarded task methods and the user
methods are each specified by a pure function giving their answer;
`TaskService.CreateTask` states its answer and new table in its own contract.
`getUserTasks` only reads, so it is the pure function `TaskQuery.GetUserTasks`
over the `tasks` table; `TaskQuery.ValidTablesAreKeyedBelow` shows that any
valid `Db` meets its requirement. Lemmas relate several calls: completing
twice, reopen then complete, promoting twice, promote then demote.

Datastore behaviour that the tables do not decide comes in as parameters:

- A `.eq(key).single()` lookup is a `Lookup`: `Found(row)`, `Empty` (no row and
  no error) or `Error(code)`. `Rows.Answers` ties a reply to the table. A row
  comes back only if it is the stored one. No row (with or without the no-rows
  code `PGRST116`) comes back only for a missing key. Any other error code can
  come back at any time.
- Every write or query is a `Response`: `Succeeds` or `Fails`. A failed write
  changes nothing.
- Values the database generates are parameters: the `now` timestamp for
  `created_at` and the `newId` of a new user row. The task id comes from the
  object's `nextTaskId` sequence.

Three points are modelled as the code is written:

- `createTask` stores the *username* in `created_by` (`src/database/task.ts:22`).
  Every permission check compares `created_by` with the actor's *chat-platform
  id* (`src/database/task.ts:77`). So a member who created a task passes the
  check only when those two strings are equal (`TaskRules.CreatorPassesOnlyIfUsernameIsId`).
  The declared `Task` interface at `src/database/task.ts:4-11` omits `status` and
  `assignee_id`. The queries use both, so `Rows.Task` has them.
- `promote` and `demote` insert a first-time actor only when the lookup returns
  neither a row nor an error (`src/commands/promote.ts:37`). The user functions
  show that a missing row comes back with the error code `PGRST116`
  (`src/database/user.ts:23`). When it does, nothing is inserted and the actor is
  denied (`PromoteCommand.NoRowsCodeDeniesWithoutInsert`). Both replies are in
  the model.
- `promoteUserToAdmin` throws instead of returning null. The null check at
  `src/commands/promote.ts:74` therefore never fires. The model has the thrown
  error leave `execute` as `Raised`, and proves the "failed to promote" reply
  unreachable.

Further facts about the code that the model keeps:

- `created_by` holds the creator's username, not their chat-platform id.
- `createTask` takes the assignee explicitly; nothing defaults it to the creator.
- None of the modelled functions reads or invalidates a cache.
- `getUserTasks` filters on the creator column `discord_id`, not on the
  assignee. A task created for someone else never shows up in that assignee's
  list (`TaskQuery.AssigneeDoesNotSeeTask`).

## Model

| member | source | states |
|---|---|---|
| TaskRules.Authorize | src/database/task.ts:54-79 | succeeds iff the task is found, the actor is found, and `created_by` equals the actor's id or the actor is admin; a missing task is reported first, a missing actor before the permission test, and the only errors are these three |
| TaskRules.UpdateResult | src/database/task.ts:52-95 | succeeds iff the gate passes and the write succeeds; the result is the fetched row with only `description` replaced; gate errors pass through unchanged, otherwise the error is "Failed to update task" |
| TaskRules.DeleteResult | src/database/task.ts:98-139 | succeeds iff the gate passes and the delete succeeds, answering `{success: true, message: 'Task deleted'}`; gate errors pass through unchanged; a failed delete after the gate throws "Failed to delete task" |
| TaskRules.ReassignResult | src/database/task.ts:142-190 | succeeds iff the gate passes, the new assignee differs from the current one and the write succeeds; the result replaces both assignee columns and nothing else; the same assignee gives the error naming the current `assignee_username`, and only after the gate; a failed write after both checks throws "Failed to update task assignee" |
| TaskRules.CompleteResult | src/database/task.ts:193-241 | succeeds iff the gate passes, the status is not "completed" and the write succeeds; the result differs from the fetched row only in status "completed"; "already marked as completed" is given exactly when the gate passes on a completed task; a failed write after both checks throws "Failed to complete task" |
| TaskRules.ReopenResult | src/database/task.ts:244-292 | succeeds iff the gate passes, the status is exactly "completed" and the write succeeds; the result differs only in status "open"; "not completed and cannot be reopened" is given exactly when the gate passes on any other status; a failed write after both checks throws "Failed to reopen task" |
| TaskRules.CompleteTwiceFails | src/database/task.ts:222-233 | after a successful completion, a second completion of that task fails for any actor and any datastore reply |
| TaskRules.ReopenThenCompleteRestores | src/database/task.ts:222-284 | after a successful reopen, completion by the same actor with a working datastore succeeds and gives back exactly the row before the reopen |
| TaskRules.CompleteThenReopenRestores | src/database/task.ts:222-284 | completing an open task and then reopening it gives back exactly the original row |
| TaskRules.ReassignAgainFails | src/database/task.ts:171-182 | after a successful reassignment to a user, reassigning to that user again fails and names that user's username |
| TaskRules.DeletedTaskNotFound | src/database/task.ts:127-131 | once the row is deleted, every guarded function answers "Task not found" |
| TaskRules.CreatorPassesOnlyIfUsernameIsId | src/database/task.ts:14-79 | a member who created a task passes the permission test on it exactly when the username stored in `created_by` equals their chat-platform id |
| TaskQuery.GetUserTasks | src/database/task.ts:36-49 | a failed query throws "Failed to fetch tasks"; otherwise every row whose `discord_id` (creator column) equals the argument appears exactly once as its selected columns, nothing else appears, and `created_at` never increases along the list |
| TaskQuery.CreatedTaskIsListed | src/database/task.ts:14-48 | a row inserted by `createTask` under the next id appears in its creator's list |
| TaskQuery.AssigneeDoesNotSeeTask | src/database/task.ts:36-41 | a row created by one user for a different assignee does not appear in the assignee's list |
| TaskQuery.DeletedTaskIsNotListed | src/database/task.ts:127-131 | after the row is removed, no user's list contains its id |
| TaskQuery.ValidTablesAreKeyedBelow | src/database/task.ts:36-41 | the `tasks` table of any valid datastore object has every id below the next serial id, so `GetUserTasks` applies to it with that bound |
| TaskQuery.SortByAge | src/database/task.ts:41 | the result is newest-first by `created_at` and a permutation of its input |
| TaskService.CreateTask | src/database/task.ts:14-33 | a failed insert throws "Failed to create task" and leaves the table alone; otherwise exactly one row is added under a fresh id, with the given creator id, description and assignee columns, `created_by` = the username, status "open" and `created_at` = now, and it is returned; users are untouched |
| TaskService.UpdateTask | src/database/task.ts:52-95 | answers as `UpdateResult`; on success only that row changes, to the returned row; on any error neither table changes |
| TaskService.DeleteTask | src/database/task.ts:98-139 | answers as `DeleteResult`; on success exactly that row is removed; on any error neither table changes |
| TaskService.UpdateTaskAssignee | src/database/task.ts:142-190 | answers as `ReassignResult`; on success only that row changes; on any error neither table changes |
| TaskService.CompleteTask | src/database/task.ts:193-241 | answers as `CompleteResult`; on success only that row changes; on any error neither table changes |
| TaskService.ReopenTask | src/database/task.ts:244-292 | answers as `ReopenResult`; on success only that row changes; on any error neither table changes |
| UserRecords.GetOrCreateResult | src/database/user.ts:10-50 | an existing row's chat-platform id is returned; null exactly for a lookup error other than `PGRST116`; with no row, the id is returned after a successful insert and "Failed to create user." is thrown after a failed one; nothing else throws |
| UserRecords.GetOrCreateUser | src/database/user.ts:10-50 | answers as `GetOrCreateResult`; inserts only when the lookup reports no row and the insert succeeds, and then only a row with role member, whatever `role` argument was passed |
| UserRecords.PromoteResult | src/database/user.ts:57-75 | succeeds iff a row with that id and role member exists and the update succeeds; the returned row is that row with role admin; anything else throws "Failed to promote user." |
| UserRecords.PromoteUserToAdmin | src/database/user.ts:57-75 | answers as `PromoteResult`; only the promoted row changes, and only on success |
| UserRecords.DemoteResult | src/database/user.ts:80-93 | returns a row iff a row with that id and role admin exists and the update succeeds; the row returned has role member; otherwise null, never a thrown error |
| UserRecords.DemoteUserToMember | src/database/user.ts:80-93 | answers as `DemoteResult`; only the demoted row changes, and only on success |
| UserRecords.GetOrCreateInsertsOnce | src/database/user.ts:28-49 | after a call that found no row and inserted one, a second call never inserts; it returns the id or null |
| UserRecords.PromoteTwiceFails | src/database/user.ts:61-72 | promoting a user a second time throws, whatever the datastore does |
| UserRecords.PromoteThenDemoteRestores | src/database/user.ts:61-92 | promoting a member and demoting them again gives back exactly the original users table |
| UserService.GetOrCreateResult | src/database/userService.ts:4-38 | an existing row's generated id is returned; with no row, the new id after a successful insert; null exactly for a lookup error other than `PGRST116` or a failed insert |
| UserService.GetOrCreateUser | src/database/userService.ts:4-38 | answers as `GetOrCreateResult`; inserts only when the lookup reports no row and the insert succeeds, with the caller's role |
| UserService.VersionsAgree | src/database/userService.ts:12-37 | this version answers null exactly where the newer version answers null or throws; both insert under the same replies |
| PromoteCommand.Execute | src/commands/promote.ts:18-79 | no target: "User not found" and no change; a first-time actor is denied after a successful insert as member, and answered "Database error" with no change exactly when the insert fails; a lookup error or a non-admin actor is denied with no change; for an admin actor: a missing target gives "does not exist", an admin target "already an admin", a failed update the thrown error; promotion happens iff all checks pass, changing only the target's role to admin; "failed to promote" is never the outcome |
| PromoteCommand.ExecuteCommand | src/commands/promote.ts:18-79 | answers and changes the users table as `Execute`; tasks are untouched |
| PromoteCommand.NoRowsCodeDeniesWithoutInsert | src/commands/promote.ts:27-54 | when the actor's missing row comes back with the `PGRST116` error, the actor is denied and nothing is inserted |
| PromoteCommand.PromoteTwiceAnswersAlreadyAdmin | src/commands/promote.ts:68-70 | after a successful promotion, the same admin promoting the same target again, with lookups that find the rows, answers "already an admin" and changes nothing |
| DemoteCommand.Execute | src/commands/demote.ts:17-75 | the mirror of promote: a first-time actor is denied after a successful insert as member, and answered "Database error" with no change exactly when the insert fails; a missing target gives "does not exist"; a non-admin target "not an admin and cannot be demoted" with no change; demotion happens iff all checks pass, changing only the target's role to member; a failed update answers "Failed to demote" |
| DemoteCommand.ExecuteCommand | src/commands/demote.ts:17-75 | answers and changes the users table as `Execute`; tasks are untouched |
| DemoteCommand.SelfDemotionLocksOut | src/commands/demote.ts:49-74 | an admin who demotes themself with a working datastore succeeds, and a second attempt is then denied |
| DemoteCommand.DenialReusesPromoteWording | src/commands/demote.ts:50 | the denial reply of `demote` is word for word that of `promote`: "You do not have permission to promote users." |

## Left out

- Chat-platform wiring, command registration, reply rendering and logging. The
  replies are reduced to outcome values. `ReplyText` gives their wording,
  including demote's reuse of the "promote users" denial text.
- `setTaskStatus`, `setTaskDueDate`, `getTaskOverview`, `getTaskStatus` and
  `addAllUsers` are imported by commands but not defined in
  `src/database/task.ts`. They are not part of this model, and neither are the
  commands built only on them or on date parsing and the wall clock.
- Caching: the cache client is only constructed, and no function here uses it.
- Concurrency: calls run one after another. A lookup answers the table as it
  stands when the call starts. No write races a fetch.
- The database defaults a new task row takes are assumed: the next serial id,
  status "open" and `created_at` = the `now` parameter. The table definition is
  not part of this model.
- TaskQuery.GetUserTasks: rows with equal `created_at` come in ascending id
  order in the model. The datastore leaves that order unspecified, and the
  contract promises only newest-first.
- Error codes and messages of failed writes are only logged by the source, so
  a write is just `Succeeds` or `Fails`.
- PromoteCommand.Execute: a `Raised` outcome stands for an error escaping
  `execute`. What the platform then shows the user is not modelled.
- The users table is a map keyed by `discord_id`, so the model assumes that
  column is unique. The source does not enforce it; with duplicate rows a
  `.single()` lookup would also answer an error (the datastore reports
  `PGRST116` for "not exactly one row") and `getOrCreateUser` would insert yet
  another row. `Rows.Answers` does not allow that reply for a present key.
- `Rows.Role` has only member and admin, which is all the source ever
  writes. The source's `role` column is a free string: a row with any other
  value would fail both the `=== "admin"` test of the commands and the
  member-filtered update of `promoteUserToAdmin`, which then throws. The model
  cannot hold such a row.
- UserRecords.GetOrCreateUser, UserService.GetOrCreateUser: the source's
  optional `role` argument (default `member`) is a required parameter here;
  a caller that omits it corresponds to passing `Member`.
