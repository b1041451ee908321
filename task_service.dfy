/**
 * The exported functions of the task module, each a fetch, check and write
 * against the datastore object. The replies to the lookups and the outcome of
 * the write are parameters; the tables change only through the write.
 */
module TaskService {
  import opened Results
  import opened Rows
  import opened TaskRules
  import opened Database

  /**
   * `createTask`: inserts one row with the next serial id, `created_by` set to
   * the username, the table's default status and `now` as `created_at`, and
   * returns it; a failed insert throws and adds nothing.
   */
  method CreateTask(db: Db, discordId: string, username: string, description: string,
                    assigneeId: string, assigneeUsername: string, now: int, insert: Response)
    returns (r: Result<Task, TaskError>)
    requires db.Valid()
    modifies db
    ensures db.Valid()
    ensures insert.Fails? ==> r == Err(CreateFailed) && db.tasks == old(db.tasks)
    ensures insert.Succeeds? ==> r.Ok? && r.value.id !in old(db.tasks)
    ensures r.Ok? ==>
      && r.value.discordId == discordId
      && r.value.createdBy == username
      && r.value.description == description
      && r.value.assigneeId == assigneeId
      && r.value.assigneeUsername == assigneeUsername
      && r.value.status == Open
      && r.value.createdAt == now
      && db.tasks == old(db.tasks)[r.value.id := r.value]
    ensures db.users == old(db.users)
  {
    if insert.Fails? {
      return Err(CreateFailed);
    }
    var row := NewTask(db.nextTaskId, discordId, username, description, assigneeId, assigneeUsername, now);
    db.tasks := db.tasks[row.id := row];
    db.nextTaskId := db.nextTaskId + 1;
    r := Ok(row);
  }

  /** `updateTask`. */
  method UpdateTask(db: Db, actorId: string, taskId: int, newDescription: string,
                    taskReply: Lookup<Task>, userReply: Lookup<User>, write: Response)
    returns (r: Result<Task, TaskError>)
    requires db.Valid()
    requires Answers(taskReply, db.tasks, taskId) && Answers(userReply, db.users, actorId)
    modifies db
    ensures db.Valid()
    ensures r == UpdateResult(taskReply, userReply, actorId, newDescription, write)
    ensures db.tasks == if r.Ok? then old(db.tasks)[taskId := r.value] else old(db.tasks)
    ensures db.users == old(db.users) && db.nextTaskId == old(db.nextTaskId)
  {
    if !taskReply.Found? {
      return Err(TaskNotFound);
    }
    var task := taskReply.row;
    if !userReply.Found? {
      return Err(UserNotFound);
    }
    var user := userReply.row;
    if task.createdBy != actorId && user.role != Admin {
      return Err(Forbidden(Update));
    }
    if write.Fails? {
      return Err(WriteFailed(Update));
    }
    var updated := task.(description := newDescription);
    db.tasks := db.tasks[taskId := updated];
    r := Ok(updated);
  }

  /** `deleteTask`. */
  method DeleteTask(db: Db, actorId: string, taskId: int,
                    taskReply: Lookup<Task>, userReply: Lookup<User>, write: Response)
    returns (r: Result<DeleteReply, TaskError>)
    requires db.Valid()
    requires Answers(taskReply, db.tasks, taskId) && Answers(userReply, db.users, actorId)
    modifies db
    ensures db.Valid()
    ensures r == DeleteResult(taskReply, userReply, actorId, write)
    ensures db.tasks == if r.Ok? then old(db.tasks) - {taskId} else old(db.tasks)
    ensures r.Ok? ==> taskId in old(db.tasks) && |db.tasks| == |old(db.tasks)| - 1
    ensures db.users == old(db.users) && db.nextTaskId == old(db.nextTaskId)
  {
    if !taskReply.Found? {
      return Err(TaskNotFound);
    }
    var task := taskReply.row;
    if !userReply.Found? {
      return Err(UserNotFound);
    }
    var user := userReply.row;
    if task.createdBy != actorId && user.role != Admin {
      return Err(Forbidden(Delete));
    }
    if write.Fails? {
      return Err(WriteFailed(Delete));
    }
    db.tasks := db.tasks - {taskId};
    r := Ok(DeleteReply(true, "Task deleted"));
  }

  /** `updateTaskAssignee`. */
  method UpdateTaskAssignee(db: Db, actorId: string, taskId: int, newAssigneeId: string, newAssigneeUsername: string,
                            taskReply: Lookup<Task>, userReply: Lookup<User>, write: Response)
    returns (r: Result<Task, TaskError>)
    requires db.Valid()
    requires Answers(taskReply, db.tasks, taskId) && Answers(userReply, db.users, actorId)
    modifies db
    ensures db.Valid()
    ensures r == ReassignResult(taskReply, userReply, actorId, newAssigneeId, newAssigneeUsername, write)
    ensures db.tasks == if r.Ok? then old(db.tasks)[taskId := r.value] else old(db.tasks)
    ensures db.users == old(db.users) && db.nextTaskId == old(db.nextTaskId)
  {
    if !taskReply.Found? {
      return Err(TaskNotFound);
    }
    var task := taskReply.row;
    if !userReply.Found? {
      return Err(UserNotFound);
    }
    var user := userReply.row;
    if task.createdBy != actorId && user.role != Admin {
      return Err(Forbidden(Reassign));
    }
    if task.assigneeId == newAssigneeId {
      return Err(AlreadyAssigned(task.assigneeUsername));
    }
    if write.Fails? {
      return Err(WriteFailed(Reassign));
    }
    var updated := task.(assigneeId := newAssigneeId, assigneeUsername := newAssigneeUsername);
    db.tasks := db.tasks[taskId := updated];
    r := Ok(updated);
  }

  /** `completeTask`. */
  method CompleteTask(db: Db, actorId: string, taskId: int,
                      taskReply: Lookup<Task>, userReply: Lookup<User>, write: Response)
    returns (r: Result<Task, TaskError>)
    requires db.Valid()
    requires Answers(taskReply, db.tasks, taskId) && Answers(userReply, db.users, actorId)
    modifies db
    ensures db.Valid()
    ensures r == CompleteResult(taskReply, userReply, actorId, write)
    ensures db.tasks == if r.Ok? then old(db.tasks)[taskId := r.value] else old(db.tasks)
    ensures db.users == old(db.users) && db.nextTaskId == old(db.nextTaskId)
  {
    if !taskReply.Found? {
      return Err(TaskNotFound);
    }
    var task := taskReply.row;
    if !userReply.Found? {
      return Err(UserNotFound);
    }
    var user := userReply.row;
    if task.createdBy != actorId && user.role != Admin {
      return Err(Forbidden(Complete));
    }
    if task.status == Completed {
      return Err(AlreadyCompleted);
    }
    if write.Fails? {
      return Err(WriteFailed(Complete));
    }
    var updated := task.(status := Completed);
    db.tasks := db.tasks[taskId := updated];
    r := Ok(updated);
  }

  /** `reopenTask`. */
  method ReopenTask(db: Db, actorId: string, taskId: int,
                    taskReply: Lookup<Task>, userReply: Lookup<User>, write: Response)
    returns (r: Result<Task, TaskError>)
    requires db.Valid()
    requires Answers(taskReply, db.tasks, taskId) && Answers(userReply, db.users, actorId)
    modifies db
    ensures db.Valid()
    ensures r == ReopenResult(taskReply, userReply, actorId, write)
    ensures db.tasks == if r.Ok? then old(db.tasks)[taskId := r.value] else old(db.tasks)
    ensures db.users == old(db.users) && db.nextTaskId == old(db.nextTaskId)
  {
    if !taskReply.Found? {
      return Err(TaskNotFound);
    }
    var task := taskReply.row;
    if !userReply.Found? {
      return Err(UserNotFound);
    }
    var user := userReply.row;
    if task.createdBy != actorId && user.role != Admin {
      return Err(Forbidden(Reopen));
    }
    if task.status != Completed {
      return Err(NotCompleted);
    }
    if write.Fails? {
      return Err(WriteFailed(Reopen));
    }
    var updated := task.(status := Open);
    db.tasks := db.tasks[taskId := updated];
    r := Ok(updated);
  }
}
