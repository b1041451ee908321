/**
 * The decisions of the task functions: what each one answers, given the
 * replies the datastore gave to its lookups and its write.
 */
module TaskRules {
  import opened Results
  import opened Rows

  /** The five guarded mutations; each names itself in its permission error. */
  datatype Action = Update | Delete | Reassign | Complete | Reopen

  /** The errors the task functions throw. */
  datatype TaskError =
    | TaskNotFound
    | UserNotFound
    | Forbidden(action: Action)
    | AlreadyCompleted
    | NotCompleted
    | AlreadyAssigned(assigneeUsername: string)
    | WriteFailed(action: Action)
    | CreateFailed
    | FetchFailed

  /** What `deleteTask` returns on success. */
  datatype DeleteReply = DeleteReply(success: bool, message: string)

  function Verb(action: Action): string {
    match action
    case Update => "update"
    case Delete => "delete"
    case Reassign => "reassign"
    case Complete => "complete"
    case Reopen => "reopen"
  }

  /**
   * The message of the `Error` each task function throws. It records the
   * wording only; the contracts speak of `TaskError` values.
   */
  function Message(e: TaskError): string {
    match e
    case TaskNotFound => "Task not found"
    case UserNotFound => "User not found"
    case Forbidden(action) => "You do not have permission to " + Verb(action) + " this task."
    case AlreadyCompleted => "Task is already marked as completed."
    case NotCompleted => "Task is not completed and cannot be reopened."
    case AlreadyAssigned(name) => "Task is already assigned to **" + name + "**."
    case WriteFailed(action) =>
      (match action
       case Update => "Failed to update task"
       case Delete => "Failed to delete task"
       case Reassign => "Failed to update task assignee"
       case Complete => "Failed to complete task"
       case Reopen => "Failed to reopen task")
    case CreateFailed => "Failed to create task"
    case FetchFailed => "Failed to fetch tasks"
  }

  /**
   * The permission test shared by every mutation: the task's `created_by`
   * equals the actor's chat-platform id, or the actor's role is admin.
   */
  predicate MayMutate(task: Task, actorId: string, actor: User) {
    task.createdBy == actorId || actor.role == Admin
  }

  /**
   * The common prefix of the five mutations: look up the task, then the actor,
   * then test permission. A missing task is reported before the actor is
   * looked at, and a missing actor before permission is tested.
   */
  function Authorize(taskReply: Lookup<Task>, userReply: Lookup<User>, actorId: string, action: Action)
    : (r: Result<Task, TaskError>)
    ensures r.Ok? <==> taskReply.Found? && userReply.Found? && MayMutate(taskReply.row, actorId, userReply.row)
    ensures r.Ok? ==> r.value == taskReply.row
    ensures r == Err(TaskNotFound) <==> !taskReply.Found?
    ensures r == Err(UserNotFound) <==> taskReply.Found? && !userReply.Found?
    ensures r.Err? ==> r.error in {TaskNotFound, UserNotFound, Forbidden(action)}
  {
    if !taskReply.Found? then Err(TaskNotFound)
    else if !userReply.Found? then Err(UserNotFound)
    else if !MayMutate(taskReply.row, actorId, userReply.row) then Err(Forbidden(action))
    else Ok(taskReply.row)
  }

  /** The row `createTask` inserts: the username goes into `created_by`. */
  function NewTask(id: int, discordId: string, username: string, description: string,
                   assigneeId: string, assigneeUsername: string, now: int): Task
  {
    Task(id, discordId, username, assigneeId, assigneeUsername, description, Open, now)
  }

  /** `updateTask`: the row with only its description replaced. */
  function UpdateResult(taskReply: Lookup<Task>, userReply: Lookup<User>, actorId: string,
                        newDescription: string, write: Response): (r: Result<Task, TaskError>)
    ensures r.Ok? <==> Authorize(taskReply, userReply, actorId, Update).Ok? && write.Succeeds?
    ensures r.Ok? ==> r.value == taskReply.row.(description := newDescription)
    ensures Authorize(taskReply, userReply, actorId, Update).Err? ==> r == Err(Authorize(taskReply, userReply, actorId, Update).error)
    ensures r.Err? && Authorize(taskReply, userReply, actorId, Update).Ok? ==> r.error == WriteFailed(Update)
  {
    match Authorize(taskReply, userReply, actorId, Update)
    case Err(e) => Err(e)
    case Ok(task) =>
      if write.Fails? then Err(WriteFailed(Update))
      else Ok(task.(description := newDescription))
  }

  /** `deleteTask`: success is the fixed reply; the row goes. */
  function DeleteResult(taskReply: Lookup<Task>, userReply: Lookup<User>, actorId: string,
                        write: Response): (r: Result<DeleteReply, TaskError>)
    ensures r.Ok? <==> Authorize(taskReply, userReply, actorId, Delete).Ok? && write.Succeeds?
    ensures r.Ok? ==> r.value == DeleteReply(true, "Task deleted")
    ensures Authorize(taskReply, userReply, actorId, Delete).Err? ==> r == Err(Authorize(taskReply, userReply, actorId, Delete).error)
    ensures Authorize(taskReply, userReply, actorId, Delete).Ok? && write.Fails? ==> r == Err(WriteFailed(Delete))
  {
    match Authorize(taskReply, userReply, actorId, Delete)
    case Err(e) => Err(e)
    case Ok(_) =>
      if write.Fails? then Err(WriteFailed(Delete))
      else Ok(DeleteReply(true, "Task deleted"))
  }

  /**
   * `updateTaskAssignee`: after the gate, naming the current assignee again is
   * an error that names the current assignee's username; otherwise both
   * assignee columns are replaced and nothing else.
   */
  function ReassignResult(taskReply: Lookup<Task>, userReply: Lookup<User>, actorId: string,
                          newAssigneeId: string, newAssigneeUsername: string, write: Response)
    : (r: Result<Task, TaskError>)
    ensures r.Ok? <==>
      && Authorize(taskReply, userReply, actorId, Reassign).Ok?
      && taskReply.row.assigneeId != newAssigneeId
      && write.Succeeds?
    ensures r.Ok? ==>
      r.value == taskReply.row.(assigneeId := newAssigneeId, assigneeUsername := newAssigneeUsername)
    ensures Authorize(taskReply, userReply, actorId, Reassign).Err? ==>
      r == Err(Authorize(taskReply, userReply, actorId, Reassign).error)
    ensures Authorize(taskReply, userReply, actorId, Reassign).Ok? && taskReply.row.assigneeId == newAssigneeId ==>
      r == Err(AlreadyAssigned(taskReply.row.assigneeUsername))
    ensures Authorize(taskReply, userReply, actorId, Reassign).Ok? && taskReply.row.assigneeId != newAssigneeId && write.Fails? ==>
      r == Err(WriteFailed(Reassign))
  {
    match Authorize(taskReply, userReply, actorId, Reassign)
    case Err(e) => Err(e)
    case Ok(task) =>
      if task.assigneeId == newAssigneeId then Err(AlreadyAssigned(task.assigneeUsername))
      else if write.Fails? then Err(WriteFailed(Reassign))
      else Ok(task.(assigneeId := newAssigneeId, assigneeUsername := newAssigneeUsername))
  }

  /**
   * `completeTask`: after the gate, a completed task is an error; otherwise
   * the status becomes completed and nothing else changes.
   */
  function CompleteResult(taskReply: Lookup<Task>, userReply: Lookup<User>, actorId: string, write: Response)
    : (r: Result<Task, TaskError>)
    ensures r.Ok? <==>
      && Authorize(taskReply, userReply, actorId, Complete).Ok?
      && taskReply.row.status != Completed
      && write.Succeeds?
    ensures r.Ok? ==> r.value == taskReply.row.(status := Completed)
    ensures Authorize(taskReply, userReply, actorId, Complete).Err? ==>
      r == Err(Authorize(taskReply, userReply, actorId, Complete).error)
    ensures r == Err(AlreadyCompleted) <==>
      Authorize(taskReply, userReply, actorId, Complete).Ok? && taskReply.row.status == Completed
    ensures Authorize(taskReply, userReply, actorId, Complete).Ok? && taskReply.row.status != Completed && write.Fails? ==>
      r == Err(WriteFailed(Complete))
  {
    match Authorize(taskReply, userReply, actorId, Complete)
    case Err(e) => Err(e)
    case Ok(task) =>
      if task.status == Completed then Err(AlreadyCompleted)
      else if write.Fails? then Err(WriteFailed(Complete))
      else Ok(task.(status := Completed))
  }

  /**
   * `reopenTask`: after the gate, any status other than exactly completed is
   * an error; otherwise the status becomes open and nothing else changes.
   */
  function ReopenResult(taskReply: Lookup<Task>, userReply: Lookup<User>, actorId: string, write: Response)
    : (r: Result<Task, TaskError>)
    ensures r.Ok? <==>
      && Authorize(taskReply, userReply, actorId, Reopen).Ok?
      && taskReply.row.status == Completed
      && write.Succeeds?
    ensures r.Ok? ==> r.value == taskReply.row.(status := Open)
    ensures Authorize(taskReply, userReply, actorId, Reopen).Err? ==>
      r == Err(Authorize(taskReply, userReply, actorId, Reopen).error)
    ensures r == Err(NotCompleted) <==>
      Authorize(taskReply, userReply, actorId, Reopen).Ok? && taskReply.row.status != Completed
    ensures Authorize(taskReply, userReply, actorId, Reopen).Ok? && taskReply.row.status == Completed && write.Fails? ==>
      r == Err(WriteFailed(Reopen))
  {
    match Authorize(taskReply, userReply, actorId, Reopen)
    case Err(e) => Err(e)
    case Ok(task) =>
      if task.status != Completed then Err(NotCompleted)
      else if write.Fails? then Err(WriteFailed(Reopen))
      else Ok(task.(status := Open))
  }

  // ----- Properties relating several calls -----

  /**
   * Once `completeTask` has succeeded on a task, a second `completeTask` on it,
   * by anyone, fails whatever the datastore answers.
   */
  lemma CompleteTwiceFails(tasks: map<int, Task>, users: map<string, User>, taskId: int,
                           actorId: string, taskReply: Lookup<Task>, userReply: Lookup<User>, write: Response,
                           actorId2: string, taskReply2: Lookup<Task>, userReply2: Lookup<User>, write2: Response)
    requires Answers(taskReply, tasks, taskId)
    requires CompleteResult(taskReply, userReply, actorId, write).Ok?
    requires Answers(taskReply2, tasks[taskId := CompleteResult(taskReply, userReply, actorId, write).value], taskId)
    ensures CompleteResult(taskReply2, userReply2, actorId2, write2).Err?
  {
    var done := CompleteResult(taskReply, userReply, actorId, write).value;
    assert done.status == Completed;
    if taskReply2.Found? {
      assert taskReply2.row == done;
    }
  }

  /**
   * After a successful `reopenTask`, `completeTask` by the same actor with a
   * working datastore succeeds and gives back exactly the row as it was
   * before the reopen.
   */
  lemma ReopenThenCompleteRestores(tasks: map<int, Task>, users: map<string, User>, taskId: int,
                                   actorId: string, taskReply: Lookup<Task>, userReply: Lookup<User>, write: Response,
                                   taskReply2: Lookup<Task>, userReply2: Lookup<User>)
    requires Answers(taskReply, tasks, taskId) && Answers(userReply, users, actorId)
    requires ReopenResult(taskReply, userReply, actorId, write).Ok?
    requires taskReply2.Found?
    requires Answers(taskReply2, tasks[taskId := ReopenResult(taskReply, userReply, actorId, write).value], taskId)
    requires userReply2.Found? && Answers(userReply2, users, actorId)
    ensures CompleteResult(taskReply2, userReply2, actorId, Succeeds) == Ok(tasks[taskId])
  {
    var before := taskReply.row;
    var reopened := ReopenResult(taskReply, userReply, actorId, write).value;
    assert reopened == before.(status := Open);
    assert taskReply2.row == reopened;
    assert userReply2.row == userReply.row;
    assert MayMutate(reopened, actorId, userReply2.row);
    assert reopened.(status := Completed) == before;
  }

  /**
   * Completing a task whose status is open and then reopening it gives back
   * exactly the original row.
   */
  lemma CompleteThenReopenRestores(tasks: map<int, Task>, users: map<string, User>, taskId: int,
                                   actorId: string, taskReply: Lookup<Task>, userReply: Lookup<User>, write: Response,
                                   taskReply2: Lookup<Task>, userReply2: Lookup<User>)
    requires Answers(taskReply, tasks, taskId) && Answers(userReply, users, actorId)
    requires CompleteResult(taskReply, userReply, actorId, write).Ok? && taskReply.row.status == Open
    requires taskReply2.Found?
    requires Answers(taskReply2, tasks[taskId := CompleteResult(taskReply, userReply, actorId, write).value], taskId)
    requires userReply2.Found? && Answers(userReply2, users, actorId)
    ensures ReopenResult(taskReply2, userReply2, actorId, Succeeds) == Ok(tasks[taskId])
  {
    var before := taskReply.row;
    var done := CompleteResult(taskReply, userReply, actorId, write).value;
    assert taskReply2.row == done == before.(status := Completed);
    assert userReply2.row == userReply.row;
    assert done.(status := Open) == before;
  }

  /**
   * After a successful reassignment to some user, reassigning the task to the
   * same user fails and names that user's username.
   */
  lemma ReassignAgainFails(tasks: map<int, Task>, users: map<string, User>, taskId: int,
                           actorId: string, taskReply: Lookup<Task>, userReply: Lookup<User>, write: Response,
                           newAssigneeId: string, newAssigneeUsername: string,
                           taskReply2: Lookup<Task>, userReply2: Lookup<User>, otherName: string, write2: Response)
    requires Answers(taskReply, tasks, taskId) && Answers(userReply, users, actorId)
    requires ReassignResult(taskReply, userReply, actorId, newAssigneeId, newAssigneeUsername, write).Ok?
    requires taskReply2.Found?
    requires Answers(taskReply2,
                     tasks[taskId := ReassignResult(taskReply, userReply, actorId, newAssigneeId, newAssigneeUsername, write).value],
                     taskId)
    requires userReply2.Found? && Answers(userReply2, users, actorId)
    ensures ReassignResult(taskReply2, userReply2, actorId, newAssigneeId, otherName, write2)
            == Err(AlreadyAssigned(newAssigneeUsername))
  {
    var moved := ReassignResult(taskReply, userReply, actorId, newAssigneeId, newAssigneeUsername, write).value;
    assert taskReply2.row == moved;
    assert userReply2.row == userReply.row;
    assert MayMutate(moved, actorId, userReply2.row);
  }

  /** After `deleteTask` succeeds, every guarded function reports the task as not found. */
  lemma DeletedTaskNotFound(tasks: map<int, Task>, taskId: int, taskReply2: Lookup<Task>,
                            userReply2: Lookup<User>, actorId2: string, action: Action)
    requires Answers(taskReply2, tasks - {taskId}, taskId)
    ensures Authorize(taskReply2, userReply2, actorId2, action) == Err(TaskNotFound)
  {
  }

  /**
   * `createTask` stores the username in `created_by` while the gate compares
   * it with the chat-platform id, so a member who created a task passes the
   * gate on it exactly when the two strings coincide.
   */
  lemma CreatorPassesOnlyIfUsernameIsId(id: int, discordId: string, username: string, description: string,
                                        assigneeId: string, assigneeUsername: string, now: int, creator: User)
    requires creator.discordId == discordId && creator.role == Member
    ensures MayMutate(NewTask(id, discordId, username, description, assigneeId, assigneeUsername, now), discordId, creator)
            <==> username == discordId
  {
  }
}
