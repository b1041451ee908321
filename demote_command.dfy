/**
 * The `demote` command's decision sequence, the mirror of `promote`, with the
 * chat replies reduced to an outcome.
 */
module DemoteCommand {
  import opened Results
  import opened Rows
  import opened Database
  import opened CommandInput
  import UserRecords
  import PromoteCommand

  datatype Outcome =
    | NoTarget
    | DatabaseError
    | Denied
    | TargetMissing
    | NotAdmin
    | DemoteFailed
    | Demoted(username: string)

  /** What the command replies with; the denial reuses the promote wording. */
  function ReplyText(o: Outcome): string {
    match o
    case NoTarget => "User not found"
    case DatabaseError => "Database error. Try again later."
    case Denied => "You do not have permission to promote users."
    case TargetMissing => "The specified user does not exist in the database."
    case NotAdmin => "This user is not an admin and cannot be demoted."
    case DemoteFailed => "Failed to demote the user. Please try again later."
    case Demoted(name) => "**" + name + "** has been demoted to **member**."
  }

  /** The permission denial of `demote` is word for word the one of `promote`. */
  lemma DenialReusesPromoteWording()
    ensures ReplyText(Denied) == PromoteCommand.ReplyText(PromoteCommand.Denied)
    ensures ReplyText(Denied) == "You do not have permission to promote users."
  {
  }

  /** An outcome and the users table it leaves behind. */
  datatype Effect = Effect(outcome: Outcome, users: map<string, User>)

  /**
   * `execute`. Only an actor whose stored role is admin gets past the
   * permission check; an actor whose lookup came back with neither a row nor
   * an error is first inserted as a member and then denied. A target must
   * exist and be an admin; then only its role changes, to member, and a
   * failed update answers "failed to demote".
   */
  function Execute(users: map<string, User>, actorId: string, actorName: string, target: Option<Target>,
                   actorReply: Lookup<User>, insert: Response, newId: string,
                   targetReply: Lookup<User>, update: Response): (e: Effect)
    requires Consistent(users, actorId, target, actorReply, targetReply)
    ensures target.None? ==> e == Effect(NoTarget, users)
    ensures e.outcome.Demoted? <==>
      && target.Some? && actorReply.Found? && actorReply.row.role == Admin
      && targetReply.Found? && targetReply.row.role == Admin
      && update.Succeeds?
    ensures e.outcome.Demoted? ==>
      e == Effect(Demoted(target.value.username),
                  users[target.value.id := users[target.value.id].(role := Member)])
    ensures e.users != users ==>
      e.outcome.Demoted? ||
      (e.outcome == Denied && actorReply.Empty? && actorId !in users &&
       e.users == users[actorId := FirstSeen(actorId, actorName, newId)])
    ensures target.Some? && actorReply.Empty? ==>
      e.outcome == (if insert.Succeeds? then Denied else DatabaseError) &&
      e.users == if insert.Succeeds? then users[actorId := FirstSeen(actorId, actorName, newId)] else users
    ensures target.Some? && (actorReply.Error? || (actorReply.Found? && actorReply.row.role != Admin)) ==>
      e == Effect(Denied, users)
    ensures target.Some? && actorReply.Found? && actorReply.row.role == Admin ==>
      && (!targetReply.Found? ==> e == Effect(TargetMissing, users))
      && (targetReply.Found? && targetReply.row.role != Admin ==> e == Effect(NotAdmin, users))
      && (targetReply.Found? && targetReply.row.role == Admin && update.Fails? ==> e == Effect(DemoteFailed, users))
  {
    if target.None? then Effect(NoTarget, users)
    else if actorReply.Empty? then
      if insert.Fails? then Effect(DatabaseError, users)
      else
        // the fresh row is a member, so the permission check below denies
        Effect(Denied, users[actorId := FirstSeen(actorId, actorName, newId)])
    else if actorReply.Error? || actorReply.row.role != Admin then Effect(Denied, users)
    else if !targetReply.Found? then Effect(TargetMissing, users)
    else if targetReply.row.role != Admin then Effect(NotAdmin, users)
    else
      match UserRecords.DemoteResult(users, target.value.id, update)
      case None => Effect(DemoteFailed, users)
      case Some(demoted) => Effect(Demoted(target.value.username), users[target.value.id := demoted])
  }

  /**
   * An admin who demotes themself succeeds once; a second attempt is denied,
   * because the actor is no longer an admin.
   */
  lemma SelfDemotionLocksOut(users: map<string, User>, actorId: string, actorName: string, newId: string,
                             reply: Lookup<User>, reply2: Lookup<User>, update2: Response)
    requires actorId in users && users[actorId].role == Admin
    requires reply == Found(users[actorId])
    requires var after := Execute(users, actorId, actorName, Some(Target(actorId, actorName)),
                                  reply, Succeeds, newId, reply, Succeeds).users;
             Answers(reply2, after, actorId)
    ensures Execute(users, actorId, actorName, Some(Target(actorId, actorName)), reply, Succeeds, newId, reply, Succeeds).outcome
            == Demoted(actorName)
    ensures var after := Execute(users, actorId, actorName, Some(Target(actorId, actorName)),
                                 reply, Succeeds, newId, reply, Succeeds).users;
            Execute(after, actorId, actorName, Some(Target(actorId, actorName)), reply2, Succeeds, newId, reply2, update2)
            == Effect(Denied, after)
  {
    var after := Execute(users, actorId, actorName, Some(Target(actorId, actorName)), reply, Succeeds, newId, reply, Succeeds).users;
    assert after[actorId].role == Member;
  }

  /** `execute` against the datastore; `adminData` is reassigned after a first-time insert. */
  method ExecuteCommand(db: Db, actorId: string, actorName: string, target: Option<Target>,
                        actorReply: Lookup<User>, insert: Response, newId: string,
                        targetReply: Lookup<User>, update: Response)
    returns (o: Outcome)
    requires db.Valid() && Consistent(db.users, actorId, target, actorReply, targetReply)
    modifies db
    ensures db.Valid()
    ensures Effect(o, db.users) ==
            Execute(old(db.users), actorId, actorName, target, actorReply, insert, newId, targetReply, update)
    ensures db.tasks == old(db.tasks) && db.nextTaskId == old(db.nextTaskId)
  {
    if target.None? {
      return NoTarget;
    }
    var adminData: Option<User> := if actorReply.Found? then Some(actorReply.row) else None;
    if actorReply.Empty? {
      if insert.Fails? {
        return DatabaseError;
      }
      var newUser := FirstSeen(actorId, actorName, newId);
      db.users := db.users[actorId := newUser];
      adminData := Some(newUser);
    }
    if adminData.None? || adminData.value.role != Admin {
      return Denied;
    }
    if !targetReply.Found? {
      return TargetMissing;
    }
    if targetReply.row.role != Admin {
      return NotAdmin;
    }
    var updated := UserRecords.DemoteUserToMember(db, target.value.id, update);
    if updated.None? {
      return DemoteFailed;
    }
    o := Demoted(target.value.username);
  }
}
