/**
 * The task schema: field types, the status and priority enumerations with
 * their defaults, required fields, and the validation a document passes
 * before it is saved.
 *
 * A document under construction (TaskDoc) may hold values the schema
 * rejects: a missing title or owner, a status or priority string outside its
 * enumeration. Validate turns it into a stored Task or refuses it, as saving
 * a document does.
 */
module TaskSchema {
  import opened Wrappers

  /** Opaque identifiers, as assigned by the database. */
  type TaskId = nat
  type OwnerId = nat

  /** A point in time, in milliseconds since the epoch. */
  type Time = int

  datatype Status = Pending | InProgress | Completed

  datatype Priority = Low | Medium | High

  /** The string each status is stored and sent as. */
  function StatusName(s: Status): string
  {
    match s
    case Pending => "pending"
    case InProgress => "in-progress"
    case Completed => "completed"
  }

  function PriorityName(p: Priority): string
  {
    match p
    case Low => "low"
    case Medium => "medium"
    case High => "high"
  }

  /** The enumeration check of the status field. */
  function ParseStatus(s: string): (r: Option<Status>)
    ensures r.Some? <==> s in {"pending", "in-progress", "completed"}
    ensures r.Some? ==> StatusName(r.value) == s
  {
    if s == "pending" then Some(Pending)
    else if s == "in-progress" then Some(InProgress)
    else if s == "completed" then Some(Completed)
    else None
  }

  /** The enumeration check of the priority field. */
  function ParsePriority(s: string): (r: Option<Priority>)
    ensures r.Some? <==> s in {"low", "medium", "high"}
    ensures r.Some? ==> PriorityName(r.value) == s
  {
    if s == "low" then Some(Low)
    else if s == "medium" then Some(Medium)
    else if s == "high" then Some(High)
    else None
  }

  /** Every status name passes the enumeration check and yields that status. */
  lemma ParseStatusName(s: Status)
    ensures ParseStatus(StatusName(s)) == Some(s)
  {
  }

  lemma ParsePriorityName(p: Priority)
    ensures ParsePriority(PriorityName(p)) == Some(p)
  {
  }

  /** Defaults of the schema for a new document. */
  const DefaultStatus: Status := Pending
  const DefaultPriority: Priority := Medium

  /** A task as stored: every field has passed validation. */
  datatype Task = Task(
    id: TaskId,
    userId: OwnerId,
    title: string,
    description: Option<string>,
    status: Status,
    priority: Priority,
    dueDate: Option<Time>,
    completedAt: Option<Time>,
    createdAt: Time)

  /** A document in memory, before validation: raw strings for the enumerations, optional required fields. */
  datatype TaskDoc = TaskDoc(
    id: TaskId,
    userId: Option<OwnerId>,
    title: Option<string>,
    description: Option<string>,
    status: string,
    priority: string,
    dueDate: Option<Time>,
    completedAt: Option<Time>,
    createdAt: Time)

  /** Why saving a document failed. */
  datatype SchemaError = MissingTitle | MissingOwner | BadStatus | BadPriority

  /** A required string is present and not the empty string. */
  predicate Present(s: Option<string>)
  {
    s.Some? && s.value != ""
  }

  /**
   * New document from the given fields: an absent priority takes the default,
   * the status always starts at the default, completedAt starts at null.
   */
  function NewDoc(id: TaskId, userId: Option<OwnerId>, title: Option<string>, description: Option<string>,
                  priority: Option<string>, dueDate: Option<Time>, now: Time): (r: TaskDoc)
    ensures ParseStatus(r.status) == Some(DefaultStatus)
    ensures priority.None? ==> ParsePriority(r.priority) == Some(DefaultPriority)
    ensures r.id == id && r.userId == userId && r.title == title && r.description == description
    ensures r.dueDate == dueDate && r.completedAt == None && r.createdAt == now
    ensures Validate(r).Ok? <==> Present(title) && userId.Some?
                                 && (priority.Some? ==> ParsePriority(priority.value).Some?)
  {
    ParseStatusName(DefaultStatus);
    ParsePriorityName(DefaultPriority);
    TaskDoc(id, userId, title, description, StatusName(DefaultStatus),
            if priority.Some? then priority.value else PriorityName(DefaultPriority),
            dueDate, None, now)
  }

  /**
   * Validation on save: title and userId are required (an empty title counts
   * as missing), status and priority must lie in their enumerations.
   */
  function Validate(d: TaskDoc): (r: Result<Task, SchemaError>)
    ensures r.Ok? <==> Present(d.title) && d.userId.Some?
                       && ParseStatus(d.status).Some? && ParsePriority(d.priority).Some?
    ensures r.Ok? ==> && ParseStatus(d.status) == Some(r.value.status)
                      && ParsePriority(d.priority) == Some(r.value.priority)
                      && d.title == Some(r.value.title) && r.value.title != ""
                      && d.userId == Some(r.value.userId)
    ensures r.Ok? ==> ToDoc(r.value) == d
  {
    if !Present(d.title) then Err(MissingTitle)
    else if d.userId.None? then Err(MissingOwner)
    else match (ParseStatus(d.status), ParsePriority(d.priority))
      case (None, _) => Err(BadStatus)
      case (_, None) => Err(BadPriority)
      case (Some(s), Some(p)) =>
        Ok(Task(d.id, d.userId.value, d.title.value, d.description, s, p,
                d.dueDate, d.completedAt, d.createdAt))
  }

  /** The in-memory document of a stored task, as a query loads it. */
  function ToDoc(t: Task): TaskDoc
  {
    TaskDoc(t.id, Some(t.userId), Some(t.title), t.description, StatusName(t.status),
            PriorityName(t.priority), t.dueDate, t.completedAt, t.createdAt)
  }

  /** A stored task with a title re-validates to itself: loading and saving unchanged is the identity. */
  lemma ValidateToDoc(t: Task)
    requires t.title != ""
    ensures Validate(ToDoc(t)) == Ok(t)
  {
    ParseStatusName(t.status);
    ParsePriorityName(t.priority);
  }

  /** A document without a title or without an owner is never saved. */
  lemma RequiredFields(d: TaskDoc)
    requires d.title == None || d.title == Some("") || d.userId == None
    ensures Validate(d).Err?
  {
  }

  /** No two stored tasks share an id. */
  predicate UniqueIds(ts: seq<Task>)
  {
    forall i, j :: 0 <= i < j < |ts| ==> ts[i].id != ts[j].id
  }

  /** completedAt is set exactly when the status is completed. */
  predicate CompletionConsistent(t: Task)
  {
    t.completedAt.Some? <==> t.status == Completed
  }
}
