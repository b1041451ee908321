/**
 * `getUserTasks`: the rows whose `discord_id` column equals the argument,
 * projected onto the selected columns, newest `created_at` first.
 */
module TaskQuery {
  import opened Results
  import opened Rows
  import opened TaskRules
  import opened Database

  /** Every key is the row's own id and lies in [0, upto). */
  ghost predicate KeyedBelow(tasks: map<int, Task>, upto: int) {
    forall id :: id in tasks ==> 0 <= id < upto && tasks[id].id == id
  }

  ghost predicate NewestFirst(s: seq<TaskListing>) {
    forall i, j :: 0 <= i < j < |s| ==> s[i].createdAt >= s[j].createdAt
  }

  /** The listings of the matching rows with id below `n`, in ascending id order. */
  function Scan(tasks: map<int, Task>, discordId: string, n: nat): (r: seq<TaskListing>)
    requires forall id :: id in tasks ==> tasks[id].id == id
    ensures forall x :: x in r ==>
      0 <= x.id < n && x.id in tasks && tasks[x.id].discordId == discordId && x == Listing(tasks[x.id])
    ensures forall id :: 0 <= id < n && id in tasks && tasks[id].discordId == discordId ==>
      multiset(r)[Listing(tasks[id])] == 1
  {
    if n == 0 then []
    else
      var prev := Scan(tasks, discordId, n - 1);
      if n - 1 in tasks && tasks[n - 1].discordId == discordId then
        var last := Listing(tasks[n - 1]);
        assert last !in prev;
        prev + [last]
      else prev
  }

  /** No listing of `s` is newer than `t`. */
  ghost predicate NoNewerThan(s: seq<TaskListing>, t: int) {
    forall k :: 0 <= k < |s| ==> s[k].createdAt <= t
  }

  lemma {:induction false} SameElementsNoNewer(a: seq<TaskListing>, b: seq<TaskListing>, t: int)
    requires multiset(a) == multiset(b) && NoNewerThan(b, t)
    ensures NoNewerThan(a, t)
  {
    forall k | 0 <= k < |a| ensures a[k].createdAt <= t {
      assert a[k] in multiset(b);
      var j :| 0 <= j < |b| && b[j] == a[k];
    }
  }

  lemma PrependNewest(y: TaskListing, s: seq<TaskListing>)
    requires NewestFirst(s) && NoNewerThan(s, y.createdAt)
    ensures NewestFirst([y] + s)
  {
  }

  /** Places `x` in front of the first listing that is not newer than it. */
  function InsertByAge(x: TaskListing, s: seq<TaskListing>): (r: seq<TaskListing>)
    requires NewestFirst(s)
    ensures NewestFirst(r)
    ensures multiset(r) == multiset(s) + multiset{x}
  {
    if s == [] || x.createdAt >= s[0].createdAt then
      PrependNewest(x, s);
      [x] + s
    else
      var rest := InsertByAge(x, s[1..]);
      assert s == [s[0]] + s[1..];
      assert NoNewerThan(s[1..] + [x], s[0].createdAt);
      SameElementsNoNewer(rest, s[1..] + [x], s[0].createdAt);
      PrependNewest(s[0], rest);
      [s[0]] + rest
  }

  function SortByAge(s: seq<TaskListing>): (r: seq<TaskListing>)
    ensures NewestFirst(r)
    ensures multiset(r) == multiset(s)
  {
    if s == [] then []
    else
      assert s == [s[0]] + s[1..];
      InsertByAge(s[0], SortByAge(s[1..]))
  }

  /**
   * The answer of `getUserTasks`: a failed query throws; otherwise every row
   * created by `discordId` appears exactly once, nothing else appears, and the
   * listings run from the newest `created_at` to the oldest.
   */
  function GetUserTasks(tasks: map<int, Task>, upto: int, discordId: string, query: Response)
    : (r: Result<seq<TaskListing>, TaskError>)
    requires KeyedBelow(tasks, upto)
    ensures r.Err? <==> query.Fails?
    ensures r.Err? ==> r.error == FetchFailed
    ensures r.Ok? ==> NewestFirst(r.value)
    ensures r.Ok? ==> forall x :: x in r.value ==>
      x.id in tasks && tasks[x.id].discordId == discordId && x == Listing(tasks[x.id])
    ensures r.Ok? ==> forall id :: id in tasks && tasks[id].discordId == discordId ==>
      multiset(r.value)[Listing(tasks[id])] == 1
  {
    if query.Fails? then Err(FetchFailed)
    else
      var found := Scan(tasks, discordId, if upto < 0 then 0 else upto);
      var sorted := SortByAge(found);
      forall x | x in sorted ensures x in found {
        assert x in multiset(sorted);
      }
      Ok(sorted)
  }

  // ----- The list after a create or a delete -----

  /**
   * A row that `createTask` inserts under the next id shows up in its
   * creator's list.
   */
  lemma CreatedTaskIsListed(tasks: map<int, Task>, upto: int, discordId: string, username: string,
                            description: string, assigneeId: string, assigneeUsername: string, now: int)
    requires KeyedBelow(tasks, upto) && 0 <= upto
    ensures var row := NewTask(upto, discordId, username, description, assigneeId, assigneeUsername, now);
            KeyedBelow(tasks[upto := row], upto + 1) &&
            Listing(row) in GetUserTasks(tasks[upto := row], upto + 1, discordId, Succeeds).value
  {
    var row := NewTask(upto, discordId, username, description, assigneeId, assigneeUsername, now);
    var after := tasks[upto := row];
    assert KeyedBelow(after, upto + 1) by {
      forall id | id in after ensures 0 <= id < upto + 1 && after[id].id == id {
        if id != upto {
          assert id in tasks;
        }
      }
    }
    var listed := GetUserTasks(after, upto + 1, discordId, Succeeds).value;
    assert upto in after && after[upto].discordId == discordId;
    assert multiset(listed)[Listing(after[upto])] == 1;
  }

  /**
   * The list is filtered on the creator column: a task created by one user
   * for a different assignee never shows up in the assignee's list.
   */
  lemma AssigneeDoesNotSeeTask(tasks: map<int, Task>, upto: int, creatorId: string, username: string,
                               description: string, assigneeId: string, assigneeUsername: string, now: int)
    requires KeyedBelow(tasks, upto) && 0 <= upto && assigneeId != creatorId
    ensures var row := NewTask(upto, creatorId, username, description, assigneeId, assigneeUsername, now);
            KeyedBelow(tasks[upto := row], upto + 1) &&
            Listing(row) !in GetUserTasks(tasks[upto := row], upto + 1, assigneeId, Succeeds).value
  {
  }

  /** After `deleteTask` removes a row, no list shows it. */
  lemma DeletedTaskIsNotListed(tasks: map<int, Task>, upto: int, taskId: int, discordId: string)
    requires KeyedBelow(tasks, upto)
    ensures KeyedBelow(tasks - {taskId}, upto)
    ensures forall x :: x in GetUserTasks(tasks - {taskId}, upto, discordId, Succeeds).value ==> x.id != taskId
  {
  }

  /**
   * The datastore object's own tables meet the requirement of `GetUserTasks`
   * with `upto` = the next serial id, so the query can run on any valid `Db`.
   */
  lemma ValidTablesAreKeyedBelow(db: Db)
    requires db.Valid()
    ensures KeyedBelow(db.tasks, db.nextTaskId)
  {
  }
}
