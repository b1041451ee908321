/** The datastore as one object holding the two tables. */
module Database {
  import opened Rows

  class Db {
    /** `tasks`, keyed by the serial `id` column. */
    var tasks: map<int, Task>
    /** `users`, keyed by the `discord_id` column. */
    var users: map<string, User>
    /** The next value of the `tasks.id` sequence. */
    var nextTaskId: int

    ghost predicate Valid()
      reads this
    {
      && 1 <= nextTaskId
      && (forall id :: id in tasks ==> 1 <= id < nextTaskId && tasks[id].id == id)
      && (forall d :: d in users ==> users[d].discordId == d)
    }

    constructor ()
      ensures Valid()
      ensures tasks == map[] && users == map[] && nextTaskId == 1
    {
      tasks, users, nextTaskId := map[], map[], 1;
    }
  }
}
