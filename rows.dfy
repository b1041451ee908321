/**
 * The rows of the `users` and `tasks` tables, and what the datastore client
 * answers to one request.
 */
module Rows {

  /** The error code the datastore client gives a `.single()` lookup that found no row. */
  const NoRowsCode := "PGRST116"

  /** The status values the task code writes or compares against. */
  const Completed := "completed"
  const Open := "open"

  datatype Role = Member | Admin

  /** A row of `users`: a generated `id`, the chat-platform id, a display name and a role. */
  datatype User = User(id: string, discordId: string, username: string, role: Role)

  /**
   * A row of `tasks` with every column the queries touch. `discordId` is the
   * creator's chat-platform id; `createdBy` is whatever `createTask` stored there.
   */
  datatype Task = Task(
    id: int,
    discordId: string,
    createdBy: string,
    assigneeId: string,
    assigneeUsername: string,
    description: string,
    status: string,
    createdAt: int)

  /** The columns `getUserTasks` selects. */
  datatype TaskListing = TaskListing(
    id: int,
    description: string,
    assigneeUsername: string,
    createdAt: int,
    status: string)

  function Listing(t: Task): TaskListing {
    TaskListing(t.id, t.description, t.assigneeUsername, t.createdAt, t.status)
  }

  /**
   * What a `.eq(key).single()` lookup hands back: a row and no error, neither a
   * row nor an error, or an error with its code.
   */
  datatype Lookup<T> = Found(row: T) | Empty | Error(code: string)

  /**
   * `reply` is an answer the datastore may give to a lookup of `key` in `table`:
   * a row only when it is the stored one; no row (with or without the no-rows
   * code) only when the key is absent; any other error code at any time.
   */
  predicate Answers<K, T(==)>(reply: Lookup<T>, table: map<K, T>, key: K) {
    match reply
    case Found(row) => key in table && table[key] == row
    case Empty => key !in table
    case Error(code) => code == NoRowsCode ==> key !in table
  }

  /**
   * The lookup reports that no row exists: either without an error, or with
   * the no-rows code, which the user functions deliberately ignore.
   */
  predicate NoRow<T>(reply: Lookup<T>) {
    reply.Empty? || reply == Error(NoRowsCode)
  }

  /** What the datastore does with one write or query request. */
  datatype Response = Succeeds | Fails
}
