/**
 * Properties of the task routes: the completedAt transition matrix, the
 * cases where the update route breaks "completedAt set iff completed",
 * owner scoping of lookups, and what create, list and delete promise
 * together.
 */
module TaskRouteProperties {
  import opened Wrappers
  import opened Subsequences
  import opened TaskSchema
  import opened TaskRoutes

  // ---------------------------------------------------------------- completedAt

  /**
   * The completedAt outcome of moving a task from one status to another,
   * written as a table: entering completed stamps the time, leaving it
   * clears, every other move keeps the old value.
   */
  function ExpectedCompletedAt(previous: Status, next: Status, before: Option<Time>, now: Time): Option<Time>
  {
    match (previous, next)
    case (Pending, Pending) => before
    case (Pending, InProgress) => before
    case (Pending, Completed) => Some(now)
    case (InProgress, Pending) => before
    case (InProgress, InProgress) => before
    case (InProgress, Completed) => Some(now)
    case (Completed, Pending) => None
    case (Completed, InProgress) => None
    case (Completed, Completed) => before
  }

  /** A status change with a valid status string follows the table above in all nine cases. */
  lemma TransitionMatrix(current: Task, next: Status, now: Time)
    requires current.title != ""
    ensures var r := UpdatedRecord(current, StatusOnly(StatusName(next)), now);
            && r.Ok?
            && r.value.status == next
            && r.value.completedAt == ExpectedCompletedAt(current.status, next, current.completedAt, now)
  {
    ParseStatusName(next);
  }

  /** Saving "completed" again on a completed task does not move its timestamp. */
  lemma CompletedAgainKeepsTimestamp(current: Task, b: UpdateBody, now: Time)
    requires current.title != "" && current.status == Completed
    requires b.status == Some("completed") && b.completedAt == None && Acceptable(b)
    ensures var r := UpdatedRecord(current, b, now);
            r.Ok? && r.value.status == Completed && r.value.completedAt == current.completedAt
  {
  }

  /**
   * The derivation keys on the body's status, not the merged one: a body
   * without a status on a completed task clears completedAt while the task
   * stays completed.
   */
  lemma AbsentStatusClearsCompletedAt(current: Task, b: UpdateBody, now: Time)
    requires current.title != "" && current.status == Completed
    requires b.status == None && Acceptable(b)
    ensures var r := UpdatedRecord(current, b, now);
            && r.Ok?
            && r.value.status == Completed
            && r.value.completedAt == None
            && !CompletionConsistent(r.value)
  {
  }

  /**
   * When neither derivation branch fires, a completedAt in the body is kept
   * as the client sent it, even on a task that is not completed.
   */
  lemma ClientCompletedAtPassesThrough(current: Task, b: UpdateBody, c: Time, now: Time)
    requires current.title != "" && current.status != Completed
    requires b.status != Some("completed") && b.completedAt == Some(Some(c)) && Acceptable(b)
    ensures var r := UpdatedRecord(current, b, now);
            && r.Ok?
            && r.value.status != Completed
            && r.value.completedAt == Some(c)
            && !CompletionConsistent(r.value)
  {
  }

  /**
   * The invariant "completedAt set iff completed" survives an update whenever
   * the two cases above are avoided: the body carries no completedAt, and it
   * carries a status whenever the task is completed. The condition is
   * sufficient, not necessary.
   */
  lemma UpdatePreservesCompletion(current: Task, b: UpdateBody, now: Time)
    requires current.title != "" && CompletionConsistent(current)
    requires b.completedAt == None
    requires current.status == Completed ==> b.status.Some?
    ensures var r := UpdatedRecord(current, b, now);
            r.Ok? ==> CompletionConsistent(r.value)
  {
    var r := UpdatedRecord(current, b, now);
    if r.Ok? && b.status.Some? {
      assert ParseStatus(b.status.value) == Some(r.value.status);
    }
  }

  /**
   * The condition above is not necessary: re-saving "completed" on a
   * completed task with a client completedAt stores that value, and the task
   * stays consistent.
   */
  lemma CompletedAtWithStatusStaysConsistent(current: Task, c: Time, now: Time)
    requires current.title != "" && current.status == Completed
    ensures var r := UpdatedRecord(current, UpdateBody(None, None, Some("completed"), None, None, Some(Some(c)), None), now);
            r.Ok? && r.value.completedAt == Some(c) && CompletionConsistent(r.value)
  {
  }

  /** Failed validation stores nothing, and the update route then answers the schema's reason. */
  lemma EmptyTitleRejected(current: Task, b: UpdateBody, now: Time)
    requires b.title == Some("")
    ensures UpdatedRecord(current, b, now) == Err(Invalid(MissingTitle))
  {
  }

  /** The body's userId is copied too: an update can hand the task to another user. */
  lemma BodyReassignsOwner(current: Task, b: UpdateBody, other: OwnerId, now: Time)
    requires current.title != "" && Acceptable(b) && b.userId == Some(other)
    ensures var r := UpdatedRecord(current, b, now);
            r.Ok? && r.value.userId == other && r.value.id == current.id
  {
  }

  // ---------------------------------------------------------------- create

  /** The only title check is the schema's: a title of blanks is saved. */
  lemma BlankTitleAccepted(owner: OwnerId, id: TaskId, now: Time)
    ensures CreatedRecord(owner, CreateBody(Some("   "), None, None, None), id, now).Ok?
    ensures CreatedRecord(owner, CreateBody(Some(""), None, None, None), id, now) == Err(Invalid(MissingTitle))
    ensures CreatedRecord(owner, CreateBody(None, None, None, None), id, now) == Err(Invalid(MissingTitle))
  {
  }

  /** An out-of-enumeration priority is refused; an absent one becomes medium. */
  lemma CreatePriority(owner: OwnerId, title: string, id: TaskId, now: Time)
    requires title != ""
    ensures CreatedRecord(owner, CreateBody(Some(title), None, Some("urgent"), None), id, now) == Err(Invalid(BadPriority))
    ensures var r := CreatedRecord(owner, CreateBody(Some(title), None, None, None), id, now);
            r.Ok? && r.value.priority == Medium && r.value.status == Pending
  {
  }

  /**
   * A created task is listed for its owner when there is no search term,
   * and never for anyone else, whatever the search.
   */
  lemma CreatedTaskListedForOwnerOnly(ts: seq<Task>, owner: OwnerId, b: CreateBody, id: TaskId, now: Time,
                                      other: OwnerId, search: Option<string>)
    requires CreatedRecord(owner, b, id, now).Ok?
    requires other != owner
    ensures var t := CreatedRecord(owner, b, id, now).value;
            t in ListQuery(ts + [t], owner, None) && t !in ListQuery(ts + [t], other, search)
  {
    var t := CreatedRecord(owner, b, id, now).value;
    assert t in ts + [t];
  }

  // ---------------------------------------------------------------- owner scoping

  /** With unique ids, the owner's lookup of one of their tasks finds exactly that position. */
  lemma OwnTaskFound(ts: seq<Task>, k: nat)
    requires UniqueIds(ts) && k < |ts|
    ensures FindOwned(ts, ts[k].id, ts[k].userId) == Some(k)
  {
  }

  /**
   * With unique ids, another user's lookup of a task finds nothing even with
   * the right id, so update and delete answer not-found and change nothing.
   */
  lemma ForeignTaskNotFound(ts: seq<Task>, k: nat, caller: OwnerId)
    requires UniqueIds(ts) && k < |ts| && ts[k].userId != caller
    ensures FindOwned(ts, ts[k].id, caller) == None
  {
  }

  /** Deleting position i removes exactly the task with that id and keeps the others in order. */
  lemma {:induction false} RemoveAtDropsOne(ts: seq<Task>, i: nat)
    requires UniqueIds(ts) && i < |ts|
    ensures var r := RemoveAt(ts, i);
            && UniqueIds(r)
            && IsSubsequence(r, ts)
            && (forall t :: t in r <==> t in ts && t.id != ts[i].id)
  {
    var r := RemoveAt(ts, i);
    SkipOne(ts, i);
    forall t | t in ts && t.id != ts[i].id
      ensures t in r
    {
      var j :| 0 <= j < |ts| && ts[j] == t;
      if j < i {
        assert r[j] == t;
      } else {
        assert j != i;
        assert r[j - 1] == t;
      }
    }
    forall t | t in r
      ensures t in ts && t.id != ts[i].id
    {
      var j :| 0 <= j < |r| && r[j] == t;
      if j < i {
        assert ts[j] == t;
      } else {
        assert ts[j + 1] == t;
      }
    }
  }

  // ---------------------------------------------------------------- a session

  /** Over a single task the list is that task for its owner and empty for anyone else. */
  lemma ListOfOne(t: Task, caller: OwnerId, search: Option<string>)
    ensures t.userId == caller && search == None ==> ListQuery([t], caller, search) == [t]
    ensures t.userId != caller ==> ListQuery([t], caller, search) == []
  {
    assert [t][1..] == [];
  }

  /**
   * One store, two users: the second user neither sees nor can update or
   * delete the first user's task, though it uses the right id.
   */
  method TwoUsers(alice: OwnerId, bob: OwnerId, id: TaskId, now: Time)
    returns (seenByBob: seq<Task>, updateByBob: Result<Task, Error>, deleteByBob: Result<Task, Error>,
             seenByAlice: seq<Task>)
    requires alice != bob
    ensures seenByBob == [] && updateByBob == Err(NotFound) && deleteByBob == Err(NotFound)
    ensures |seenByAlice| == 1 && seenByAlice[0].id == id && seenByAlice[0].title == "Buy Milk"
  {
    var store := new TaskStore();
    var created := store.Create(alice, CreateBody(Some("Buy Milk"), None, None, None), id, now);
    var task := created.value;
    assert store.tasks == [task];
    ListOfOne(task, bob, None);
    ListOfOne(task, alice, None);
    ForeignTaskNotFound(store.tasks, 0, bob);
    seenByBob := store.List(bob, None);
    updateByBob := store.Update(bob, id, StatusOnly("completed"), now);
    deleteByBob := store.Delete(bob, id);
    seenByAlice := store.List(alice, None);
  }
}
