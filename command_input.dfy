/** What the `promote` and `demote` commands share: their input and their first-time row. */
module CommandInput {
  import opened Results
  import opened Rows

  /** The user picked in the command's `user` option. */
  datatype Target = Target(id: string, username: string)

  /** The replies the datastore may give to the command's lookups of the actor and the target. */
  predicate Consistent(users: map<string, User>, actorId: string, target: Option<Target>,
                       actorReply: Lookup<User>, targetReply: Lookup<User>)
  {
    && Answers(actorReply, users, actorId)
    && (target.Some? ==> Answers(targetReply, users, target.value.id))
  }

  /** The row inserted for an actor seen for the first time: always a member. */
  function FirstSeen(actorId: string, actorName: string, newId: string): User {
    User(newId, actorId, actorName, Member)
  }
}
