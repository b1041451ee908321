/** The user functions of the user module: get-or-create, promote and demote. */
module UserRecords {
  import opened Results
  import opened Rows
  import opened Database

  /** The errors the user functions throw. */
  datatype UserError = CreateFailed | PromoteFailed

  function Message(e: UserError): string {
    match e
    case CreateFailed => "Failed to create user."
    case PromoteFailed => "Failed to promote user."
  }

  /**
   * `getOrCreateUser`: an existing row's chat-platform id is returned; a
   * lookup error other than no-rows returns null; when no row exists the
   * chat-platform id is returned once the insert succeeds, and a failed
   * insert throws.
   */
  function GetOrCreateResult(reply: Lookup<User>, discordId: string, insert: Response)
    : (r: Result<Option<string>, UserError>)
    ensures reply.Found? ==> r == Ok(Some(reply.row.discordId))
    ensures r == Ok(None) <==> reply.Error? && reply.code != NoRowsCode
    ensures NoRow(reply) ==> r == if insert.Succeeds? then Ok(Some(discordId)) else Err(CreateFailed)
    ensures r.Err? ==> r.error == CreateFailed && NoRow(reply)
  {
    if reply.Error? && reply.code != NoRowsCode then Ok(None)
    else if reply.Found? then Ok(Some(reply.row.discordId))
    else if insert.Fails? then Err(CreateFailed)
    else Ok(Some(discordId))
  }

  /**
   * `getOrCreateUser` against the users table. The `role` argument (in the
   * source optional, `member` by default) is accepted and ignored: a new row
   * always gets the member role.
   */
  method GetOrCreateUser(db: Db, discordId: string, username: string, role: Role, newId: string,
                         reply: Lookup<User>, insert: Response)
    returns (r: Result<Option<string>, UserError>)
    requires db.Valid() && Answers(reply, db.users, discordId)
    modifies db
    ensures db.Valid()
    ensures r == GetOrCreateResult(reply, discordId, insert)
    ensures db.users ==
      if NoRow(reply) && insert.Succeeds? then old(db.users)[discordId := User(newId, discordId, username, Member)]
      else old(db.users)
    ensures NoRow(reply) && insert.Succeeds? ==> discordId !in old(db.users)
    ensures db.tasks == old(db.tasks) && db.nextTaskId == old(db.nextTaskId)
  {
    if reply.Error? && reply.code != NoRowsCode {
      return Ok(None);
    }
    if reply.Found? {
      return Ok(Some(reply.row.discordId));
    }
    if insert.Fails? {
      return Err(CreateFailed);
    }
    var newUser := User(newId, discordId, username, Member);
    db.users := db.users[discordId := newUser];
    r := Ok(Some(newUser.discordId));
  }

  /**
   * `promoteUserToAdmin`: the update is filtered on both the id and the member
   * role; it succeeds only when such a row exists, and then only the role
   * changes. Anything else throws.
   */
  function PromoteResult(users: map<string, User>, discordId: string, update: Response)
    : (r: Result<User, UserError>)
    ensures r.Ok? <==> discordId in users && users[discordId].role == Member && update.Succeeds?
    ensures r.Ok? ==> r.value == users[discordId].(role := Admin) && r.value.role == Admin
    ensures r.Err? ==> r.error == PromoteFailed
  {
    if update.Succeeds? && discordId in users && users[discordId].role == Member then
      Ok(users[discordId].(role := Admin))
    else Err(PromoteFailed)
  }

  method PromoteUserToAdmin(db: Db, discordId: string, update: Response) returns (r: Result<User, UserError>)
    requires db.Valid()
    modifies db
    ensures db.Valid()
    ensures r == PromoteResult(old(db.users), discordId, update)
    ensures db.users == if r.Ok? then old(db.users)[discordId := r.value] else old(db.users)
    ensures db.tasks == old(db.tasks) && db.nextTaskId == old(db.nextTaskId)
  {
    if update.Fails? || discordId !in db.users || db.users[discordId].role != Member {
      return Err(PromoteFailed);
    }
    var updated := db.users[discordId].(role := Admin);
    db.users := db.users[discordId := updated];
    r := Ok(updated);
  }

  /**
   * `demoteUserToMember`: the update is filtered on the id and the admin role;
   * it returns the updated row, or null on any error, and never throws.
   */
  function DemoteResult(users: map<string, User>, discordId: string, update: Response): (r: Option<User>)
    ensures r.Some? <==> discordId in users && users[discordId].role == Admin && update.Succeeds?
    ensures r.Some? ==> r.value == users[discordId].(role := Member) && r.value.role == Member
  {
    if update.Succeeds? && discordId in users && users[discordId].role == Admin then
      Some(users[discordId].(role := Member))
    else None
  }

  method DemoteUserToMember(db: Db, discordId: string, update: Response) returns (r: Option<User>)
    requires db.Valid()
    modifies db
    ensures db.Valid()
    ensures r == DemoteResult(old(db.users), discordId, update)
    ensures db.users == if r.Some? then old(db.users)[discordId := r.value] else old(db.users)
    ensures db.tasks == old(db.tasks) && db.nextTaskId == old(db.nextTaskId)
  {
    if update.Fails? || discordId !in db.users || db.users[discordId].role != Admin {
      return None;
    }
    var updated := db.users[discordId].(role := Member);
    db.users := db.users[discordId := updated];
    r := Some(updated);
  }

  // ----- Properties relating several calls -----

  /**
   * After a `getOrCreateUser` that found no row and inserted one, a second
   * call for the same id never inserts again.
   */
  lemma GetOrCreateInsertsOnce(users: map<string, User>, discordId: string, username: string, newId: string,
                               reply: Lookup<User>, insert: Response, reply2: Lookup<User>, insert2: Response)
    requires Answers(reply, users, discordId) && NoRow(reply)
    requires GetOrCreateResult(reply, discordId, insert) == Ok(Some(discordId))
    requires Answers(reply2, users[discordId := User(newId, discordId, username, Member)], discordId)
    ensures !NoRow(reply2)
    ensures GetOrCreateResult(reply2, discordId, insert2) in {Ok(Some(discordId)), Ok(None)}
  {
  }

  /** Promoting the same user twice fails the second time, whatever the datastore does. */
  lemma PromoteTwiceFails(users: map<string, User>, discordId: string, update: Response, update2: Response)
    requires PromoteResult(users, discordId, update).Ok?
    ensures PromoteResult(users[discordId := PromoteResult(users, discordId, update).value], discordId, update2)
            == Err(PromoteFailed)
  {
  }

  /** Promoting then demoting a member gives back exactly the original table. */
  lemma PromoteThenDemoteRestores(users: map<string, User>, discordId: string)
    requires discordId in users && users[discordId].role == Member
    ensures PromoteResult(users, discordId, Succeeds).Ok?
    ensures var promoted := users[discordId := PromoteResult(users, discordId, Succeeds).value];
            DemoteResult(promoted, discordId, Succeeds).Some? &&
            promoted[discordId := DemoteResult(promoted, discordId, Succeeds).value] == users
  {
    var promoted := users[discordId := PromoteResult(users, discordId, Succeeds).value];
    var back := DemoteResult(promoted, discordId, Succeeds).value;
    assert back == users[discordId];
  }
}
