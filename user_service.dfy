/**
 * The older `getOrCreateUser`: inserts with the role it is given and answers
 * null instead of throwing.
 */
module UserService {
  import opened Results
  import opened Rows
  import opened Database
  import UserRecords

  /**
   * An existing row's generated id is returned; a lookup error other than
   * no-rows gives null; when no row exists the new row's id is returned once
   * the insert succeeds, and null when it fails.
   */
  function GetOrCreateResult(reply: Lookup<User>, newId: string, insert: Response): (r: Option<string>)
    ensures reply.Found? ==> r == Some(reply.row.id)
    ensures NoRow(reply) ==> r == if insert.Succeeds? then Some(newId) else None
    ensures r.None? <==> (reply.Error? && reply.code != NoRowsCode) || (NoRow(reply) && insert.Fails?)
  {
    if reply.Error? && reply.code != NoRowsCode then None
    else if reply.Found? then Some(reply.row.id)
    else if insert.Fails? then None
    else Some(newId)
  }

  /**
   * `getOrCreateUser`; `role` is the caller's. The source's default `member`
   * for an omitted argument is left to the caller, who always passes one here.
   */
  method GetOrCreateUser(db: Db, discordId: string, username: string, role: Role, newId: string,
                         reply: Lookup<User>, insert: Response)
    returns (r: Option<string>)
    requires db.Valid() && Answers(reply, db.users, discordId)
    modifies db
    ensures db.Valid()
    ensures r == GetOrCreateResult(reply, newId, insert)
    ensures db.users ==
      if NoRow(reply) && insert.Succeeds? then old(db.users)[discordId := User(newId, discordId, username, role)]
      else old(db.users)
    ensures NoRow(reply) && insert.Succeeds? ==> discordId !in old(db.users)
    ensures db.tasks == old(db.tasks) && db.nextTaskId == old(db.nextTaskId)
  {
    if reply.Error? && reply.code != NoRowsCode {
      return None;
    }
    if reply.Found? {
      return Some(reply.row.id);
    }
    if insert.Fails? {
      return None;
    }
    var newUser := User(newId, discordId, username, role);
    db.users := db.users[discordId := newUser];
    r := Some(newUser.id);
  }

  /**
   * The two versions answer alike up to what they return: this one answers
   * null exactly where the newer one answers null or throws, and both insert
   * under the same replies.
   */
  lemma VersionsAgree(reply: Lookup<User>, discordId: string, newId: string, insert: Response)
    ensures GetOrCreateResult(reply, newId, insert).None? <==>
            UserRecords.GetOrCreateResult(reply, discordId, insert) in {Ok(None), Err(UserRecords.CreateFailed)}
    ensures NoRow(reply) && insert.Succeeds? ==>
            GetOrCreateResult(reply, newId, insert) == Some(newId) &&
            UserRecords.GetOrCreateResult(reply, discordId, insert) == Ok(Some(discordId))
  {
  }
}
