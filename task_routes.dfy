/**
 * The task routes of the server: list with search, create, update and delete,
 * each scoped to the calling user. The database collection is the TaskStore
 * class; the authenticated user id, the current time and the id the database
 * assigns to a new document are parameters.
 */
module TaskRoutes {
  import opened Wrappers
  import opened Text
  import opened Subsequences
  import opened TaskSchema

  /** What a route answers instead of a task: 404, or one of the failures answered with 500. */
  datatype Error = NotFound | Invalid(reason: SchemaError) | DuplicateKey

  // ---------------------------------------------------------------- list

  /** The query document of the list route: the owner, and optionally a term matched against title or description. */
  datatype Filter = Filter(userId: OwnerId, anyOf: Option<string>)

  /** A query-string value is truthy when it is present and not empty. */
  predicate Truthy(s: Option<string>)
  {
    s.Some? && s.value != ""
  }

  /** The alternatives of the search: the title, or the description when there is one, contains the term ignoring case. */
  predicate SearchMatches(term: string, t: Task): (r: bool)
    ensures r <==> (exists i :: OccursAt(Lower(t.title), Lower(term), i))
                   || (t.description.Some? && exists i :: OccursAt(Lower(t.description.value), Lower(term), i))
  {
    ContainsIff(Lower(t.title), Lower(term));
    ContainsIff(Lower(if t.description.Some? then t.description.value else ""), Lower(term));
    ContainsIgnoringCase(t.title, term)
    || (t.description.Some? && ContainsIgnoringCase(t.description.value, term))
  }

  predicate FilterMatches(f: Filter, t: Task)
  {
    t.userId == f.userId && (f.anyOf.Some? ==> SearchMatches(f.anyOf.value, t))
  }

  /** The documents that match a filter, in stored order. */
  function Find(ts: seq<Task>, f: Filter): (r: seq<Task>)
    ensures IsSubsequence(r, ts)
    ensures forall t :: t in r <==> t in ts && FilterMatches(f, t)
    ensures forall t :: multiset(r)[t] == if FilterMatches(f, t) then multiset(ts)[t] else 0
    decreases |ts|
  {
    if ts == [] then []
    else
      var rest := Find(ts[1..], f);
      assert ts == [ts[0]] + ts[1..];
      assert multiset(ts) == multiset{ts[0]} + multiset(ts[1..]);
      if FilterMatches(f, ts[0]) then
        Cons(ts[0], rest, ts[1..]);
        [ts[0]] + rest
      else
        Extend(rest, ts);
        assert forall t :: t in ts <==> t == ts[0] || t in ts[1..];
        rest
  }

  /** Newest first. */
  predicate SortedByCreatedDesc(ts: seq<Task>)
  {
    forall i, j :: 0 <= i < j < |ts| ==> ts[i].createdAt >= ts[j].createdAt
  }

  /** Prepending a task no older than any in a sorted list keeps it sorted. */
  lemma SortedCons(u: Task, ts: seq<Task>)
    requires SortedByCreatedDesc(ts)
    requires forall k :: 0 <= k < |ts| ==> ts[k].createdAt <= u.createdAt
    ensures SortedByCreatedDesc([u] + ts)
  {
    var r := [u] + ts;
    forall i, j | 0 <= i < j < |r|
      ensures r[i].createdAt >= r[j].createdAt
    {
      if i > 0 {
        assert r[i] == ts[i - 1] && r[j] == ts[j - 1];
      } else {
        assert r[j] == ts[j - 1];
      }
    }
  }

  /** A task older than the head, inserted into the tail, leaves every element no newer than the head. */
  lemma NotNewerThanHead(t: Task, ts: seq<Task>, rest: seq<Task>)
    requires SortedByCreatedDesc(ts) && ts != [] && t.createdAt < ts[0].createdAt
    requires forall u :: u in rest <==> u == t || u in ts[1..]
    ensures forall k :: 0 <= k < |rest| ==> rest[k].createdAt <= ts[0].createdAt
  {
    forall k | 0 <= k < |rest|
      ensures rest[k].createdAt <= ts[0].createdAt
    {
      assert rest[k] in rest;
      if rest[k] != t {
        var j :| 0 <= j < |ts[1..]| && ts[1..][j] == rest[k];
        assert ts[j + 1] == rest[k];
      }
    }
  }

  /** Inserts t into a list sorted newest first, before the first task not newer than it. */
  function InsertByCreatedDesc(t: Task, ts: seq<Task>): (r: seq<Task>)
    requires SortedByCreatedDesc(ts)
    ensures SortedByCreatedDesc(r)
    ensures forall u :: u in r <==> u == t || u in ts
    ensures multiset(r) == multiset(ts) + multiset{t}
    decreases |ts|
  {
    if ts == [] || t.createdAt >= ts[0].createdAt then
      SortedCons(t, ts);
      [t] + ts
    else
      var rest := InsertByCreatedDesc(t, ts[1..]);
      assert ts == [ts[0]] + ts[1..];
      NotNewerThanHead(t, ts, rest);
      SortedCons(ts[0], rest);
      [ts[0]] + rest
  }

  /** The order of the list route's result: by createdAt, newest first. */
  function SortByCreatedDesc(ts: seq<Task>): (r: seq<Task>)
    ensures SortedByCreatedDesc(r)
    ensures multiset(r) == multiset(ts)
    decreases |ts|
  {
    if ts == [] then []
    else
      assert ts == [ts[0]] + ts[1..];
      InsertByCreatedDesc(ts[0], SortByCreatedDesc(ts[1..]))
  }

  /** The filter the list route builds for a caller and an optional search term. */
  function ListFilter(owner: OwnerId, search: Option<string>): (f: Filter)
    ensures forall t :: FilterMatches(f, t) <==> t.userId == owner && (Truthy(search) ==> SearchMatches(search.value, t))
  {
    if Truthy(search) then Filter(owner, search) else Filter(owner, None)
  }

  /**
   * The list route's answer: the caller's tasks that match the search, newest
   * first. A task is listed iff it is the caller's and, when the search term
   * is truthy, its title or description contains the term ignoring case.
   */
  function ListQuery(ts: seq<Task>, owner: OwnerId, search: Option<string>): (r: seq<Task>)
    ensures forall t :: t in r <==> t in ts && t.userId == owner
                                    && (Truthy(search) ==> SearchMatches(search.value, t))
    ensures SortedByCreatedDesc(r)
    ensures multiset(r) == multiset(Find(ts, ListFilter(owner, search)))
  {
    var found := Find(ts, ListFilter(owner, search));
    var r := SortByCreatedDesc(found);
    assert forall t :: t in r <==> t in multiset(found);
    r
  }

  // ---------------------------------------------------------------- create

  /** The fields the create route reads from the request body. */
  datatype CreateBody = CreateBody(
    title: Option<string>,
    description: Option<string>,
    priority: Option<string>,
    dueDate: Option<Time>)

  /** `dueDate || null`: an absent or falsy (zero) due date is stored as null. */
  function DueDateOrNull(d: Option<Time>): (r: Option<Time>)
    ensures r.Some? <==> d.Some? && d.value != 0
    ensures r.Some? ==> r == d
  {
    if d.None? || d.value == 0 then None else d
  }

  /**
   * The record the create route saves. It is saved iff the body has a
   * non-empty title and its priority, if any, is in the enumeration; the
   * caller is the owner, the status and priority take the schema defaults
   * and completedAt starts null.
   */
  function CreatedRecord(owner: OwnerId, b: CreateBody, id: TaskId, now: Time): (r: Result<Task, Error>)
    ensures r.Ok? <==> Present(b.title) && (b.priority.Some? ==> ParsePriority(b.priority.value).Some?)
    ensures !Present(b.title) ==> r == Err(Invalid(MissingTitle))
    ensures r.Ok? ==> && r.value.id == id
                      && r.value.userId == owner
                      && r.value.title == b.title.value
                      && r.value.description == b.description
                      && r.value.status == Pending
                      && r.value.priority == (if b.priority.None? then Medium else ParsePriority(b.priority.value).value)
                      && r.value.completedAt == None
                      && r.value.createdAt == now
    ensures r.Ok? ==> (r.value.dueDate.Some? <==> b.dueDate.Some? && b.dueDate.value != 0)
                      && (r.value.dueDate.Some? ==> r.value.dueDate == b.dueDate)
    ensures r.Ok? ==> CompletionConsistent(r.value)
  {
    var doc := NewDoc(id, Some(owner), b.title, b.description, b.priority, DueDateOrNull(b.dueDate), now);
    match Validate(doc)
    case Err(e) => Err(Invalid(e))
    case Ok(t) => Ok(t)
  }

  // ---------------------------------------------------------------- update

  /**
   * The request body of the update route. A field is None when the body
   * lacks it; for the fields a body may set to null, Some(None) is that null.
   * Every field here is copied onto the loaded document, including
   * completedAt and userId.
   */
  datatype UpdateBody = UpdateBody(
    title: Option<string>,
    description: Option<Option<string>>,
    status: Option<string>,
    priority: Option<string>,
    dueDate: Option<Option<Time>>,
    completedAt: Option<Option<Time>>,
    userId: Option<OwnerId>)

  /** A body that only sets a status, as the dashboard's status selector sends. */
  function StatusOnly(status: string): UpdateBody
  {
    UpdateBody(None, None, Some(status), None, None, None, None)
  }

  /**
   * Shallow merge: every field the body has overwrites the document's. The
   * body carries no id and no creation time, so those stay; an empty body
   * changes nothing.
   */
  function Assign(d: TaskDoc, b: UpdateBody): (r: TaskDoc)
    ensures r.id == d.id && r.createdAt == d.createdAt
    ensures b == UpdateBody(None, None, None, None, None, None, None) ==> r == d
  {
    d.(title := if b.title.Some? then b.title else d.title,
       description := if b.description.Some? then b.description.value else d.description,
       status := if b.status.Some? then b.status.value else d.status,
       priority := if b.priority.Some? then b.priority.value else d.priority,
       dueDate := if b.dueDate.Some? then b.dueDate.value else d.dueDate,
       completedAt := if b.completedAt.Some? then b.completedAt.value else d.completedAt,
       userId := if b.userId.Some? then b.userId else d.userId)
  }

  /** Merging the same body a second time changes nothing more: a repeated update merges as one. */
  lemma AssignIdempotent(d: TaskDoc, b: UpdateBody)
    ensures Assign(Assign(d, b), b) == Assign(d, b)
  {
  }

  /**
   * completedAt after an update, keyed on the status field of the BODY
   * (not of the merged document): stamped when the body says "completed" and
   * the task was not completed, cleared when the task was completed and the
   * body does not say "completed" (an absent status included), otherwise
   * whatever the merge left.
   */
  function DerivedCompletedAt(previous: Status, newStatus: Option<string>, merged: Option<Time>, now: Time): (r: Option<Time>)
    ensures previous != Completed && newStatus == Some("completed") ==> r == Some(now)
    ensures previous == Completed && newStatus != Some("completed") ==> r == None
    ensures (previous == Completed <==> newStatus == Some("completed")) ==> r == merged
  {
    if newStatus == Some("completed") && previous != Completed then Some(now)
    else if previous == Completed && newStatus != Some("completed") then None
    else merged
  }

  /** The body passes validation when merged onto a stored task. */
  predicate Acceptable(b: UpdateBody)
  {
    && (b.title.Some? ==> b.title.value != "")
    && (b.status.Some? ==> ParseStatus(b.status.value).Some?)
    && (b.priority.Some? ==> ParsePriority(b.priority.value).Some?)
  }

  /**
   * The record the update route saves for a loaded task: merge the body,
   * derive completedAt, validate.
   */
  function UpdatedRecord(current: Task, b: UpdateBody, now: Time): (r: Result<Task, Error>)
    ensures current.title != "" ==> (r.Ok? <==> Acceptable(b))
    ensures r.Ok? ==> && r.value.id == current.id
                      && r.value.createdAt == current.createdAt
                      && r.value.title == (if b.title.Some? then b.title.value else current.title)
                      && r.value.description == (if b.description.Some? then b.description.value else current.description)
                      && (if b.status.Some? then ParseStatus(b.status.value) == Some(r.value.status)
                          else r.value.status == current.status)
                      && (if b.priority.Some? then ParsePriority(b.priority.value) == Some(r.value.priority)
                          else r.value.priority == current.priority)
                      && r.value.dueDate == (if b.dueDate.Some? then b.dueDate.value else current.dueDate)
                      && r.value.userId == (if b.userId.Some? then b.userId.value else current.userId)
    ensures r.Ok? && b.status == Some("completed") && current.status != Completed
            ==> r.value.completedAt == Some(now)
    ensures r.Ok? && current.status == Completed && b.status != Some("completed")
            ==> r.value.completedAt == None
    ensures r.Ok? && (current.status == Completed <==> b.status == Some("completed"))
            ==> r.value.completedAt == (if b.completedAt.Some? then b.completedAt.value else current.completedAt)
  {
    var merged := Assign(ToDoc(current), b);
    var completedAt := DerivedCompletedAt(current.status, b.status, merged.completedAt, now);
    ParseStatusName(current.status);
    ParsePriorityName(current.priority);
    match Validate(merged.(completedAt := completedAt))
    case Err(e) => Err(Invalid(e))
    case Ok(t) => Ok(t)
  }

  // ---------------------------------------------------------------- lookup and removal

  /** The position of the task with this id owned by this user, if there is one. */
  function FindOwned(ts: seq<Task>, id: TaskId, owner: OwnerId): (r: Option<nat>)
    ensures r.Some? ==> r.value < |ts| && ts[r.value].id == id && ts[r.value].userId == owner
    ensures r.None? ==> forall i :: 0 <= i < |ts| ==> !(ts[i].id == id && ts[i].userId == owner)
    decreases |ts|
  {
    if ts == [] then None
    else if ts[0].id == id && ts[0].userId == owner then Some(0)
    else match FindOwned(ts[1..], id, owner)
      case None => None
      case Some(k) => Some(k + 1)
  }

  /** Some stored task has this id. */
  predicate HasId(ts: seq<Task>, id: TaskId)
  {
    exists i :: 0 <= i < |ts| && ts[i].id == id
  }

  /** The collection without its i-th document. */
  function RemoveAt(ts: seq<Task>, i: nat): (r: seq<Task>)
    requires i < |ts|
    ensures |r| == |ts| - 1
    ensures forall j :: 0 <= j < i ==> r[j] == ts[j]
    ensures forall j :: i <= j < |r| ==> r[j] == ts[j + 1]
  {
    ts[..i] + ts[i + 1..]
  }

  /** The collection of tasks, in insertion order. */
  class TaskStore {
    var tasks: seq<Task>

    /** Ids are unique and every stored task passed validation, so its title is not empty. */
    ghost predicate Valid()
      reads this
    {
      UniqueIds(tasks) && forall i :: 0 <= i < |tasks| ==> tasks[i].title != ""
    }

    constructor ()
      ensures Valid() && tasks == []
    {
      tasks := [];
    }

    /** GET: the caller's tasks, filtered by the search term when it is truthy, newest first. */
    method List(owner: OwnerId, search: Option<string>) returns (r: seq<Task>)
      ensures r == ListQuery(tasks, owner, search)
      ensures forall t :: t in r ==> t.userId == owner
    {
      var filter := Filter(owner, None);
      if Truthy(search) {
        filter := filter.(anyOf := search);
      }
      r := SortByCreatedDesc(Find(tasks, filter));
    }

    /** POST: build the document from the body, save it, answer the saved task. */
    method Create(owner: OwnerId, body: CreateBody, id: TaskId, now: Time) returns (res: Result<Task, Error>)
      requires Valid()
      modifies this
      ensures Valid()
      ensures CreatedRecord(owner, body, id, now).Err? ==> res == CreatedRecord(owner, body, id, now)
      ensures CreatedRecord(owner, body, id, now).Ok? ==>
                res == (if HasId(old(tasks), id) then Err(DuplicateKey) else CreatedRecord(owner, body, id, now))
      ensures tasks == if res.Ok? then old(tasks) + [res.value] else old(tasks)
    {
      var task := NewDoc(id, Some(owner), body.title, body.description, body.priority,
                         DueDateOrNull(body.dueDate), now);
      var saved := Validate(task);
      if saved.Err? {
        return Err(Invalid(saved.error));
      }
      if HasId(tasks, id) {
        return Err(DuplicateKey);
      }
      tasks := tasks + [saved.value];
      res := Ok(saved.value);
    }

    /**
     * PUT: load the caller's task, copy the body onto it, derive completedAt
     * from the previous status and the body's status, save.
     */
    method Update(owner: OwnerId, id: TaskId, body: UpdateBody, now: Time) returns (res: Result<Task, Error>)
      requires Valid()
      modifies this
      ensures Valid()
      ensures match FindOwned(old(tasks), id, owner)
              case None => res == Err(NotFound) && tasks == old(tasks)
              case Some(i) =>
                && res == UpdatedRecord(old(tasks)[i], body, now)
                && tasks == if res.Ok? then old(tasks)[i := res.value] else old(tasks)
    {
      var found := FindOwned(tasks, id, owner);
      if found.None? {
        return Err(NotFound);
      }
      var i := found.value;
      var task := ToDoc(tasks[i]);
      var previousStatus := task.status;
      var newStatus := body.status;
      task := Assign(task, body);
      if newStatus == Some("completed") && previousStatus != "completed" {
        task := task.(completedAt := Some(now));
      }
      if previousStatus == "completed" && newStatus != Some("completed") {
        task := task.(completedAt := None);
      }
      var saved := Validate(task);
      if saved.Err? {
        return Err(Invalid(saved.error));
      }
      tasks := tasks[i := saved.value];
      res := Ok(saved.value);
    }

    /** DELETE: remove the caller's task with this id, answer the removed task. */
    method Delete(owner: OwnerId, id: TaskId) returns (res: Result<Task, Error>)
      requires Valid()
      modifies this
      ensures Valid()
      ensures match FindOwned(old(tasks), id, owner)
              case None => res == Err(NotFound) && tasks == old(tasks)
              case Some(i) => res == Ok(old(tasks)[i]) && tasks == RemoveAt(old(tasks), i)
    {
      var found := FindOwned(tasks, id, owner);
      if found.None? {
        return Err(NotFound);
      }
      var i := found.value;
      res := Ok(tasks[i]);
      tasks := RemoveAt(tasks, i);
    }
  }
}
