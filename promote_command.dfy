/**
 * The `promote` command's decision sequence, with the chat replies reduced
 * to an outcome.
 */
module PromoteCommand {
  import opened Results
  import opened Rows
  import opened Database
  import opened CommandInput
  import UserRecords

  datatype Outcome =
    | NoTarget
    | DatabaseError
    | Denied
    | TargetMissing
    | AlreadyAdmin
    | PromoteFailed
    | Promoted(username: string)
      /** `promoteUserToAdmin` threw and the error left `execute`. */
    | Raised(message: string)

  /**
   * What the command replies with, for each outcome that replies. It records
   * the wording only; the contracts speak of outcomes.
   */
  function ReplyText(o: Outcome): string {
    match o
    case NoTarget => "User not found"
    case DatabaseError => "Database error. Try again later."
    case Denied => "You do not have permission to promote users."
    case TargetMissing => "The specified user does not exist in the database."
    case AlreadyAdmin => "This user is already an admin."
    case PromoteFailed => "Failed to promote the user. Please try again later."
    case Promoted(name) => "**" + name + "** has been promoted to **admin**."
    case Raised(message) => message
  }

  /** An outcome and the users table it leaves behind. */
  datatype Effect = Effect(outcome: Outcome, users: map<string, User>)

  /**
   * `execute`. Only an actor whose stored role is admin gets past the
   * permission check; an actor whose lookup came back with neither a row nor
   * an error is first inserted as a member and then denied. A target must
   * exist and be a member; then only its role changes, to admin. The
   * "failed to promote" reply is never given, because `promoteUserToAdmin`
   * throws instead of returning null.
   */
  function Execute(users: map<string, User>, actorId: string, actorName: string, target: Option<Target>,
                   actorReply: Lookup<User>, insert: Response, newId: string,
                   targetReply: Lookup<User>, update: Response): (e: Effect)
    requires Consistent(users, actorId, target, actorReply, targetReply)
    ensures e.outcome != PromoteFailed
    ensures target.None? ==> e == Effect(NoTarget, users)
    ensures e.outcome.Promoted? <==>
      && target.Some? && actorReply.Found? && actorReply.row.role == Admin
      && targetReply.Found? && targetReply.row.role == Member
      && update.Succeeds?
    ensures e.outcome.Promoted? ==>
      e == Effect(Promoted(target.value.username),
                  users[target.value.id := users[target.value.id].(role := Admin)])
    ensures e.users != users ==>
      e.outcome.Promoted? ||
      (e.outcome == Denied && actorReply.Empty? && actorId !in users &&
       e.users == users[actorId := FirstSeen(actorId, actorName, newId)])
    ensures target.Some? && actorReply.Empty? ==>
      e.outcome == (if insert.Succeeds? then Denied else DatabaseError) &&
      e.users == if insert.Succeeds? then users[actorId := FirstSeen(actorId, actorName, newId)] else users
    ensures target.Some? && (actorReply.Error? || (actorReply.Found? && actorReply.row.role != Admin)) ==>
      e == Effect(Denied, users)
    ensures target.Some? && actorReply.Found? && actorReply.row.role == Admin ==>
      && (!targetReply.Found? ==> e == Effect(TargetMissing, users))
      && (targetReply.Found? && targetReply.row.role == Admin ==> e == Effect(AlreadyAdmin, users))
      && (targetReply.Found? && targetReply.row.role == Member && update.Fails? ==>
            e == Effect(Raised("Failed to promote user."), users))
  {
    if target.None? then Effect(NoTarget, users)
    else if actorReply.Empty? then
      if insert.Fails? then Effect(DatabaseError, users)
      else
        // the fresh row is a member, so the permission check below denies
        Effect(Denied, users[actorId := FirstSeen(actorId, actorName, newId)])
    else if actorReply.Error? || actorReply.row.role != Admin then Effect(Denied, users)
    else if !targetReply.Found? then Effect(TargetMissing, users)
    else if targetReply.row.role == Admin then Effect(AlreadyAdmin, users)
    else
      match UserRecords.PromoteResult(users, target.value.id, update)
      case Err(error) => Effect(Raised(UserRecords.Message(error)), users)
      case Ok(promoted) => Effect(Promoted(target.value.username), users[target.value.id := promoted])
  }

  /**
   * When a missing row comes back with the no-rows code, as `.single()`
   * lookups report it, the first-time branch is never taken: the actor is
   * denied and nothing is inserted.
   */
  lemma NoRowsCodeDeniesWithoutInsert(users: map<string, User>, actorId: string, actorName: string,
                                      target: Target, insert: Response, newId: string,
                                      targetReply: Lookup<User>, update: Response)
    requires actorId !in users
    requires Answers(targetReply, users, target.id)
    ensures Execute(users, actorId, actorName, Some(target), Error(NoRowsCode), insert, newId, targetReply, update)
            == Effect(Denied, users)
  {
  }

  /** Promoting the same target a second time answers "already an admin" and changes nothing. */
  lemma PromoteTwiceAnswersAlreadyAdmin(users: map<string, User>, actorId: string, actorName: string,
                                        target: Target, actorReply: Lookup<User>, insert: Response, newId: string,
                                        targetReply: Lookup<User>, update: Response,
                                        actorReply2: Lookup<User>, targetReply2: Lookup<User>, update2: Response)
    requires Consistent(users, actorId, Some(target), actorReply, targetReply)
    requires Execute(users, actorId, actorName, Some(target), actorReply, insert, newId, targetReply, update).outcome.Promoted?
    requires actorReply2.Found? && targetReply2.Found?
    requires Consistent(Execute(users, actorId, actorName, Some(target), actorReply, insert, newId, targetReply, update).users,
                        actorId, Some(target), actorReply2, targetReply2)
    ensures var after := Execute(users, actorId, actorName, Some(target), actorReply, insert, newId, targetReply, update).users;
            Execute(after, actorId, actorName, Some(target), actorReply2, insert, newId, targetReply2, update2)
            == Effect(AlreadyAdmin, after)
  {
    var after := Execute(users, actorId, actorName, Some(target), actorReply, insert, newId, targetReply, update).users;
    assert after[target.id].role == Admin;
    if actorId != target.id {
      assert after[actorId] == users[actorId];
    }
    assert actorReply2.row.role == Admin;
  }

  /** `execute` against the datastore; `adminData` is reassigned after a first-time insert. */
  method ExecuteCommand(db: Db, actorId: string, actorName: string, target: Option<Target>,
                        actorReply: Lookup<User>, insert: Response, newId: string,
                        targetReply: Lookup<User>, update: Response)
    returns (o: Outcome)
    requires db.Valid() && Consistent(db.users, actorId, target, actorReply, targetReply)
    modifies db
    ensures db.Valid()
    ensures Effect(o, db.users) ==
            Execute(old(db.users), actorId, actorName, target, actorReply, insert, newId, targetReply, update)
    ensures db.tasks == old(db.tasks) && db.nextTaskId == old(db.nextTaskId)
  {
    if target.None? {
      return NoTarget;
    }
    var adminData: Option<User> := if actorReply.Found? then Some(actorReply.row) else None;
    if actorReply.Empty? {
      if insert.Fails? {
        return DatabaseError;
      }
      var newUser := FirstSeen(actorId, actorName, newId);
      db.users := db.users[actorId := newUser];
      adminData := Some(newUser);
    }
    if adminData.None? || adminData.value.role != Admin {
      return Denied;
    }
    if !targetReply.Found? {
      return TargetMissing;
    }
    if targetReply.row.role == Admin {
      return AlreadyAdmin;
    }
    var updated := UserRecords.PromoteUserToAdmin(db, target.value.id, update);
    if updated.Err? {
      return Raised(UserRecords.Message(updated.error));
    }
    // a returned row is never null, so the PromoteFailed reply is not reachable here
    o := Promoted(target.value.username);
  }
}
