/**
 * The dashboard's list logic: the list it keeps after create, update,
 * status change and delete, the combined status and search filter, and the
 * per-status counts. Each of these builds a new list from the old one.
 */
module Dashboard {
  import opened Wrappers
  import opened Text
  import opened Subsequences
  import opened TaskSchema
  import TaskRoutes

  // ---------------------------------------------------------------- list updates

  /** After a create: the server's answer first, then the old list. */
  function AfterCreate(tasks: seq<Task>, created: Task): (r: seq<Task>)
    ensures |r| == |tasks| + 1 && r[0] == created && r[1..] == tasks
    ensures IsSubsequence(tasks, r)
    ensures multiset(r) == multiset(tasks) + multiset{created}
  {
    var r := [created] + tasks;
    assert r[1..] == tasks;
    SelfSubsequence(tasks);
    Extend(tasks, r);
    r
  }

  /** After an update or a status change: the task with this id is replaced by the server's answer. */
  function ReplaceById(tasks: seq<Task>, id: TaskId, response: Task): (r: seq<Task>)
    ensures |r| == |tasks|
    ensures forall i :: 0 <= i < |tasks| ==> r[i] == if tasks[i].id == id then response else tasks[i]
    decreases |tasks|
  {
    if tasks == [] then []
    else [if tasks[0].id == id then response else tasks[0]] + ReplaceById(tasks[1..], id, response)
  }

  /** After a delete: every task with this id is dropped. */
  function RemoveById(tasks: seq<Task>, id: TaskId): (r: seq<Task>)
    ensures IsSubsequence(r, tasks)
    ensures forall t :: t in r <==> t in tasks && t.id != id
    ensures forall t :: multiset(r)[t] == if t.id != id then multiset(tasks)[t] else 0
    decreases |tasks|
  {
    if tasks == [] then []
    else
      var rest := RemoveById(tasks[1..], id);
      assert tasks == [tasks[0]] + tasks[1..];
      assert multiset(tasks) == multiset{tasks[0]} + multiset(tasks[1..]);
      if tasks[0].id != id then
        Cons(tasks[0], rest, tasks[1..]);
        [tasks[0]] + rest
      else
        Extend(rest, tasks);
        rest
  }

  // ---------------------------------------------------------------- filter

  /** The status buttons: every task, or the tasks of one status. */
  datatype ViewFilter = All | Only(status: Status)

  /** `x || ""`: a missing or empty text reads as the empty string. */
  function OrEmpty(s: Option<string>): string
  {
    if s.Some? then s.value else ""
  }

  /** A task is shown when its status matches the filter and its title or description contains the term, ignoring case. */
  predicate Shown(t: Task, filter: ViewFilter, term: string): (r: bool)
    ensures r ==> filter.All? || t.status == filter.status
    ensures term == "" ==> (r <==> filter.All? || t.status == filter.status)
  {
    ContainsEmpty(Lower(t.title));
    assert Lower("") == "";
    && (filter.All? || t.status == filter.status)
    && (ContainsIgnoringCase(t.title, term) || ContainsIgnoringCase(OrEmpty(t.description), term))
  }

  /** The list the dashboard renders. */
  function FilteredTasks(tasks: seq<Task>, filter: ViewFilter, term: string): (r: seq<Task>)
    ensures IsSubsequence(r, tasks)
    ensures forall t :: t in r <==> t in tasks && Shown(t, filter, term)
    ensures forall t :: multiset(r)[t] == if Shown(t, filter, term) then multiset(tasks)[t] else 0
    decreases |tasks|
  {
    if tasks == [] then []
    else
      var rest := FilteredTasks(tasks[1..], filter, term);
      assert tasks == [tasks[0]] + tasks[1..];
      assert multiset(tasks) == multiset{tasks[0]} + multiset(tasks[1..]);
      if Shown(tasks[0], filter, term) then
        Cons(tasks[0], rest, tasks[1..]);
        [tasks[0]] + rest
      else
        Extend(rest, tasks);
        rest
  }

  /** With filter "all" and an empty search term every task is shown, in order. */
  lemma {:induction false} ShowAll(tasks: seq<Task>)
    ensures FilteredTasks(tasks, All, "") == tasks
    decreases |tasks|
  {
    if tasks != [] {
      assert Shown(tasks[0], All, "");
      ShowAll(tasks[1..]);
      assert tasks == [tasks[0]] + tasks[1..];
    }
  }

  /**
   * On the search alone the dashboard agrees with the server's list route:
   * an empty term shows everything, and a missing description matches no
   * non-empty term on either side.
   */
  lemma SearchAgreesWithServer(t: Task, term: string)
    ensures Shown(t, All, term) <==> (term != "" ==> TaskRoutes.SearchMatches(term, t))
  {
    if term == "" {
      assert Lower("") == "";
      ContainsEmpty(Lower(t.title));
    } else if t.description.None? || t.description.value == "" {
      assert Lower("") == "";
      assert Lower(term) != "";
      ContainsIff(Lower(""), Lower(term));
    }
  }

  // ---------------------------------------------------------------- counts

  /** The number of tasks with this status. */
  function CountStatus(tasks: seq<Task>, s: Status): (n: nat)
    ensures n <= |tasks|
    decreases |tasks|
  {
    if tasks == [] then 0
    else (if tasks[0].status == s then 1 else 0) + CountStatus(tasks[1..], s)
  }

  datatype TaskStats = TaskStats(total: nat, pending: nat, inProgress: nat, completed: nat)

  /** The counts shown in the header and on the filter buttons. */
  function Stats(tasks: seq<Task>): (r: TaskStats)
    ensures r.total == |tasks|
    ensures r.pending + r.inProgress + r.completed == r.total
  {
    StatusCountsAddUp(tasks);
    TaskStats(|tasks|, CountStatus(tasks, Pending), CountStatus(tasks, InProgress), CountStatus(tasks, Completed))
  }

  /** Every task has exactly one of the three statuses, so the three counts add up to the length. */
  lemma {:induction false} StatusCountsAddUp(tasks: seq<Task>)
    ensures CountStatus(tasks, Pending) + CountStatus(tasks, InProgress) + CountStatus(tasks, Completed) == |tasks|
    decreases |tasks|
  {
    if tasks != [] {
      StatusCountsAddUp(tasks[1..]);
    }
  }

  /** The per-status count equals the length of the list the status button shows with no search term. */
  lemma {:induction false} CountIsFilterLength(tasks: seq<Task>, s: Status)
    ensures CountStatus(tasks, s) == |FilteredTasks(tasks, Only(s), "")|
    decreases |tasks|
  {
    if tasks != [] {
      CountIsFilterLength(tasks[1..], s);
      ContainsEmpty(Lower(tasks[0].title));
      assert Lower("") == "";
    }
  }

  // ---------------------------------------------------------------- list updates, properties

  /** A create adds one task to the total and to the count of its status, and none to the others. */
  lemma StatsAfterCreate(tasks: seq<Task>, created: Task, s: Status)
    ensures Stats(AfterCreate(tasks, created)).total == Stats(tasks).total + 1
    ensures CountStatus(AfterCreate(tasks, created), s)
            == CountStatus(tasks, s) + (if created.status == s then 1 else 0)
  {
    assert AfterCreate(tasks, created)[1..] == tasks;
  }

  /** A newest task put first keeps a list that is newest first in order. */
  lemma AfterCreateKeepsOrder(tasks: seq<Task>, created: Task)
    requires TaskRoutes.SortedByCreatedDesc(tasks)
    requires forall t :: t in tasks ==> t.createdAt <= created.createdAt
    ensures TaskRoutes.SortedByCreatedDesc(AfterCreate(tasks, created))
  {
    var r := AfterCreate(tasks, created);
    forall i, j | 0 <= i < j < |r|
      ensures r[i].createdAt >= r[j].createdAt
    {
      assert r[j] == tasks[j - 1];
      if i > 0 {
        assert r[i] == tasks[i - 1];
      }
    }
  }

  /** After a delete no task has the deleted id, and the total drops by the number of tasks that had it. */
  lemma {:induction false} RemoveByIdCount(tasks: seq<Task>, id: TaskId)
    requires UniqueIds(tasks)
    ensures |RemoveById(tasks, id)| == |tasks| - (if TaskRoutes.HasId(tasks, id) then 1 else 0)
    decreases |tasks|
  {
    if tasks != [] {
      RemoveByIdCount(tasks[1..], id);
      HasIdCons(tasks, id);
      if tasks[0].id == id {
        HeadIdNotInTail(tasks, id);
      }
    }
  }

  lemma HasIdCons(tasks: seq<Task>, id: TaskId)
    requires tasks != []
    ensures TaskRoutes.HasId(tasks, id) <==> tasks[0].id == id || TaskRoutes.HasId(tasks[1..], id)
  {
    if TaskRoutes.HasId(tasks[1..], id) {
      var i :| 0 <= i < |tasks[1..]| && tasks[1..][i].id == id;
      assert tasks[i + 1].id == id;
    }
    if TaskRoutes.HasId(tasks, id) && tasks[0].id != id {
      var i :| 0 <= i < |tasks| && tasks[i].id == id;
      assert tasks[1..][i - 1].id == id;
    }
  }

  /** With unique ids, the head's id does not occur again in the tail. */
  lemma HeadIdNotInTail(tasks: seq<Task>, id: TaskId)
    requires UniqueIds(tasks) && tasks != [] && tasks[0].id == id
    ensures !TaskRoutes.HasId(tasks[1..], id)
  {
  }

  /** With unique ids, the dashboard's replace-by-id is the server's replace at the task's position. */
  lemma ReplaceByIdAtPosition(tasks: seq<Task>, k: nat, response: Task)
    requires UniqueIds(tasks) && k < |tasks|
    ensures ReplaceById(tasks, tasks[k].id, response) == tasks[k := response]
  {
  }

  /** With unique ids, the dashboard's remove-by-id is the server's removal at the task's position. */
  lemma {:induction false} RemoveByIdAtPosition(tasks: seq<Task>, k: nat)
    requires UniqueIds(tasks) && k < |tasks|
    ensures RemoveById(tasks, tasks[k].id) == TaskRoutes.RemoveAt(tasks, k)
    decreases |tasks|
  {
    UniqueTail(tasks, k);
    if k == 0 {
      RemoveHead(tasks);
    } else {
      RemoveByIdAtPosition(tasks[1..], k - 1);
      RemoveLater(tasks, k);
    }
  }

  /** Removing the head's id from a list with unique ids drops just the head. */
  lemma RemoveHead(tasks: seq<Task>)
    requires tasks != []
    requires forall i :: 0 <= i < |tasks[1..]| ==> tasks[1..][i].id != tasks[0].id
    ensures RemoveById(tasks, tasks[0].id) == TaskRoutes.RemoveAt(tasks, 0)
  {
    NoneRemoved(tasks[1..], tasks[0].id);
    RemoveByIdHead(tasks, tasks[0].id);
    assert tasks[..0] + tasks[1..] == tasks[1..];
  }

  /** Removing a later id keeps the head and removes within the tail. */
  lemma RemoveLater(tasks: seq<Task>, k: nat)
    requires 0 < k < |tasks| && tasks[0].id != tasks[k].id && tasks[1..][k - 1] == tasks[k]
    requires RemoveById(tasks[1..], tasks[k].id) == TaskRoutes.RemoveAt(tasks[1..], k - 1)
    ensures RemoveById(tasks, tasks[k].id) == TaskRoutes.RemoveAt(tasks, k)
  {
    RemoveByIdHead(tasks, tasks[k].id);
    RemoveAtTail(tasks, k);
  }

  /** The tail of a list with unique ids has unique ids, and none of them is the id at position k unless k is in the tail. */
  lemma UniqueTail(tasks: seq<Task>, k: nat)
    requires UniqueIds(tasks) && k < |tasks|
    ensures UniqueIds(tasks[1..])
    ensures k == 0 ==> forall i :: 0 <= i < |tasks[1..]| ==> tasks[1..][i].id != tasks[0].id
    ensures k > 0 ==> tasks[0].id != tasks[k].id && tasks[1..][k - 1] == tasks[k]
  {
    var tail := tasks[1..];
    forall i, j | 0 <= i < j < |tail|
      ensures tail[i].id != tail[j].id
    {
      assert tail[i] == tasks[i + 1] && tail[j] == tasks[j + 1];
    }
    if k == 0 {
      forall i | 0 <= i < |tail|
        ensures tail[i].id != tasks[0].id
      {
        assert tail[i] == tasks[i + 1];
      }
    }
  }

  /** One step of remove-by-id. */
  lemma RemoveByIdHead(tasks: seq<Task>, id: TaskId)
    requires tasks != []
    ensures RemoveById(tasks, id) == (if tasks[0].id == id then [] else [tasks[0]]) + RemoveById(tasks[1..], id)
  {
  }

  /** Removing a later position commutes with keeping the head. */
  lemma RemoveAtTail(tasks: seq<Task>, k: nat)
    requires 0 < k < |tasks|
    ensures TaskRoutes.RemoveAt(tasks, k) == [tasks[0]] + TaskRoutes.RemoveAt(tasks[1..], k - 1)
  {
    assert tasks[1..][..k - 1] == tasks[1..k];
    assert tasks[1..][k..] == tasks[k + 1..];
    assert tasks[..k] == [tasks[0]] + tasks[1..k];
  }

  /** Removing an id no task has leaves the list as it was. */
  lemma {:induction false} NoneRemoved(tasks: seq<Task>, id: TaskId)
    requires forall i :: 0 <= i < |tasks| ==> tasks[i].id != id
    ensures RemoveById(tasks, id) == tasks
    decreases |tasks|
  {
    if tasks != [] {
      NoneRemoved(tasks[1..], id);
      assert tasks == [tasks[0]] + tasks[1..];
    }
  }

  /**
   * A status change through the server keeps the dashboard list's length
   * and order: the changed task is where it was, carrying the new status and
   * the completedAt the server derived.
   */
  lemma StatusChangeInPlace(tasks: seq<Task>, k: nat, next: Status, now: Time)
    requires UniqueIds(tasks) && k < |tasks| && tasks[k].title != ""
    ensures var answer := TaskRoutes.UpdatedRecord(tasks[k], TaskRoutes.StatusOnly(StatusName(next)), now);
            && answer.Ok?
            && var r := ReplaceById(tasks, tasks[k].id, answer.value);
            && |r| == |tasks|
            && r[k] == answer.value
            && r[k].status == next
            && r[k].id == tasks[k].id
            && r[k].completedAt == TaskRoutes.DerivedCompletedAt(tasks[k].status, Some(StatusName(next)),
                                                                 tasks[k].completedAt, now)
            && (forall i :: 0 <= i < |tasks| && i != k ==> r[i] == tasks[i])
  {
    ParseStatusName(next);
  }
}
