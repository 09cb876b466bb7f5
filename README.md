# Task manager: lifecycle and query engine, in Dafny

This project models the task engine of a small task manager. On the server, an
Express router over a MongoDB collection lists, creates, updates and deletes
the tasks of the authenticated user, and the Mongoose schema gives each task
its fields, enumerations and defaults. On the client, the React dashboard
keeps a copy of the list and updates it after each call. It also filters the
copy by status and search term and counts tasks per status.

Modules, one per source file or concern:

- `Wrappers`: `Option` and `Result`.
- `Text`: ASCII lower-casing and unanchored substring search. MongoDB's
  case-insensitive `$regex` and the client's `toLowerCase().includes` are both
  modelled with it.
- `Subsequences`: order-preserving subsequences, the shape of every filtered list.
- `TaskSchema` (server/models/Task.js): `Status`, `Priority`, the stored `Task`,
  the in-memory document `TaskDoc`, and `Validate`, the check a document must
  pass to be saved. The title and owner are required, and an empty title counts
  as missing. Status and priority must be in their enumerations.
- `TaskRoutes` (server/routes/tasks.js): the `TaskStore` class holds the
  collection as a `seq<Task>` in insertion order. Its methods `List`, `Create`,
  `Update` and `Delete` follow the route handlers step by step. Each is proved
  against a pure function: `ListQuery`, `CreatedRecord`, `UpdatedRecord` and
  `FindOwned`/`RemoveAt`.
- `TaskRouteProperties`: the `completedAt` transition matrix, the update
  route's quirks, owner scoping, and a two-user session.
- `Dashboard` (client/src/components/Dashboard.js): the list updates, the
  filter and the counts, as functions on `seq<Task>`.

The caller's user id, the current time and the id the database assigns are
parameters.

The update route is modelled as the code is written, including these effects
a reader might not expect:

- When deriving `completedAt`, the route reads the status from the request
  body, not from the merged record. So a body with no `status` on a completed
  task clears `completedAt`, and the task stays completed
  (`AbsentStatusClearsCompletedAt`). The dashboard's edit form sends title,
  description, priority and due date but never a status
  (client/src/components/TaskForm.js:25-30 and 45), so every edit of a
  completed task through that form takes this path.
- `Object.assign` copies every field of the body. So a client-supplied
  `completedAt` is kept whenever neither derivation branch fires
  (`ClientCompletedAtPassesThrough`), and a body `userId` reassigns the task
  to another user (`BodyReassignsOwner`).
- "completedAt set iff completed" is preserved whenever both cases are
  avoided (`UpdatePreservesCompletion`). This condition is sufficient, not
  necessary: a body that carries a status and a `completedAt` can still leave
  the task consistent (`CompletedAtWithStatusStaysConsistent`).

Four further behaviours one might intend are not what the code does, and the
model follows the code:

- The server does not refuse blank titles. Its only title check is the
  schema's `required`, so a title of blanks is saved and only a missing or
  empty title is refused (`BlankTitleAccepted`). The dashboard's form does
  refuse a blank title before sending (client/src/components/TaskForm.js:43),
  so only a request from outside the form stores one.
- A missing description does not default to `""`; it stays absent.
- A client-supplied `completedAt` is not discarded.
- The owner id is not immutable under update.

## Model

| member | source | states |
|---|---|---|
| `Text.ContainsIff` | server/routes/tasks.js:15-16 | `Contains` is unanchored substring search: it holds iff the term occurs at some position of the text |
| `Text.ContainsIgnoringCaseIff` | server/routes/tasks.js:15-16 | with the `i` option a text matches iff some window of the text equals the term up to ASCII case |
| `Text.BuyMilkExample` | server/routes/tasks.js:15-16 | "Buy Milk" is found by both "milk" and "MILK" |
| `TaskSchema.ParseStatus` | server/models/Task.js:6-10 | a status string is accepted iff it is one of `pending`, `in-progress`, `completed`, and then it names the status it yields |
| `TaskSchema.ParsePriority` | server/models/Task.js:11-15 | a priority string is accepted iff it is one of `low`, `medium`, `high`, and then it names the priority it yields |
| `TaskSchema.ParseStatusName` | server/models/Task.js:6-10 | every status's stored name passes the enumeration check and yields that status |
| `TaskSchema.ParsePriorityName` | server/models/Task.js:11-15 | every priority's stored name passes the enumeration check and yields that priority |
| `TaskSchema.Validate` | server/models/Task.js:3-29 | a document is saved iff it has a non-empty title and an owner and its status and priority are in their enumerations; the saved task carries exactly the document's values |
| `TaskSchema.NewDoc` | server/routes/tasks.js:32-38 | a new document starts with status pending, priority medium unless the body gives one, completedAt null and createdAt now, and takes id, owner, title, description and due date as given (defaults of server/models/Task.js:9, 14 and 22); it is saved iff title and owner are present and the given priority, if any, is in its enumeration |
| `TaskSchema.ValidateToDoc` | server/models/Task.js:3-29 | loading a stored task into a document and saving it unchanged gives back the same task |
| `TaskSchema.RequiredFields` | server/models/Task.js:4-28 | a document that lacks a title (or has an empty one) or lacks an owner is never saved |
| `TaskRoutes.SearchMatches` | server/routes/tasks.js:14-17 | the `$or` alternative holds iff the lower-cased term occurs at some position of the lower-cased title, or of the lower-cased description when there is one |
| `TaskRoutes.ListFilter` | server/routes/tasks.js:11-18 | a task matches the list route's filter iff it is the caller's and, when the search term is truthy, it matches the search |
| `TaskRoutes.Find` | server/routes/tasks.js:11-20 | the query returns an order-preserving subsequence of the collection that holds every matching task as often as the collection does and no other task |
| `TaskRoutes.InsertByCreatedDesc` | server/routes/tasks.js:20 | inserting into a newest-first list keeps it newest-first and adds exactly that task |
| `TaskRoutes.SortByCreatedDesc` | server/routes/tasks.js:20 | the sort's result is ordered by createdAt descending and is a permutation of its input |
| `TaskRoutes.ListQuery` | server/routes/tasks.js:8-25 | a task is listed iff it belongs to the caller and, when the search term is truthy, its title or description contains the term ignoring case; the list is newest first and holds each match as often as the collection does |
| `TaskRoutes.TaskStore.List` | server/routes/tasks.js:8-25 | builds the filter (owner, plus the `$or` when the search is truthy), finds and sorts; the result is `ListQuery` of the collection and holds only the caller's tasks |
| `TaskRoutes.DueDateOrNull` | server/routes/tasks.js:36 | the stored due date is set iff the body's is present and not zero, and then it is the body's |
| `TaskRoutes.CreatedRecord` | server/routes/tasks.js:28-45 | the new record is saved iff the title is present and non-empty and the priority is absent or valid; it is owned by the caller, takes title and description from the body, has status pending, priority medium unless given, completedAt null, dueDate null when absent or falsy, createdAt now |
| `TaskRoutes.TaskStore.constructor` | server/models/Task.js:31 | a new collection is empty |
| `TaskRoutes.TaskStore.Create` | server/routes/tasks.js:28-45 | an invalid body is refused with the store unchanged; a duplicate id is refused; otherwise the record is appended and returned |
| `TaskRoutes.Assign` | server/routes/tasks.js:63 | the merge never changes id or createdAt, and an empty body leaves the document as it was |
| `TaskRoutes.AssignIdempotent` | server/routes/tasks.js:63 | merging the same body twice gives what merging it once gives |
| `TaskRoutes.DerivedCompletedAt` | server/routes/tasks.js:59-73 | with the body's status, entering completed stamps now, leaving completed clears, and when both or neither of old and new are completed the merged value stays |
| `TaskRoutes.UpdatedRecord` | server/routes/tasks.js:59-75 | the merged record is saved iff the body's title, status and priority are valid. Fields absent from the body keep their old values and present ones take the body's. completedAt is stamped on entering completed and cleared on leaving it, where the body's status decides both. Otherwise completedAt is the merged value |
| `TaskRoutes.FindOwned` | server/routes/tasks.js:50-53 | finds a position whose task has both the id and the caller as owner, or reports that no position has both |
| `TaskRoutes.RemoveAt` | server/routes/tasks.js:85-88 | removing one position shortens the collection by one and keeps the other tasks in order |
| `TaskRoutes.TaskStore.Update` | server/routes/tasks.js:48-80 | not-found leaves the store unchanged; otherwise the task is loaded, the body is merged with Object.assign, the two completedAt branches run in the code's order, and the result is saved at the same position; failed validation leaves the store unchanged; unique ids and non-empty titles are kept |
| `TaskRoutes.TaskStore.Delete` | server/routes/tasks.js:83-98 | not-found leaves the store unchanged; otherwise exactly the found caller-owned task is removed. The removed task is returned because `findOneAndDelete` hands it to the handler; the route itself answers only a "Task deleted" message |
| `TaskRouteProperties.TransitionMatrix` | server/routes/tasks.js:59-73 | for all nine pairs of previous and new status, a status change sets the status and gives completedAt as the table `ExpectedCompletedAt` says |
| `TaskRouteProperties.CompletedAgainKeepsTimestamp` | server/routes/tasks.js:65-73 | saving "completed" again on a completed task leaves completedAt unchanged |
| `TaskRouteProperties.AbsentStatusClearsCompletedAt` | server/routes/tasks.js:59-73 | a body without status on a completed task clears completedAt while the status stays completed, breaking "completedAt set iff completed" |
| `TaskRouteProperties.ClientCompletedAtPassesThrough` | server/routes/tasks.js:63-73 | when neither branch fires, a client-supplied completedAt is stored on a task that is not completed |
| `TaskRouteProperties.UpdatePreservesCompletion` | server/routes/tasks.js:59-73 | "completedAt set iff completed" survives any successful update whose body has no completedAt and has a status whenever the task is completed |
| `TaskRouteProperties.CompletedAtWithStatusStaysConsistent` | server/routes/tasks.js:63-73 | the preservation condition is not necessary: a body with status "completed" and a completedAt on a completed task stores that completedAt and stays consistent |
| `TaskRouteProperties.EmptyTitleRejected` | server/routes/tasks.js:63-75 | a body with an empty title fails validation, so nothing is stored |
| `TaskRouteProperties.BodyReassignsOwner` | server/routes/tasks.js:63 | a body with a userId moves the task to that user, keeping its id |
| `TaskRouteProperties.BlankTitleAccepted` | server/models/Task.js:4 | a title of blanks is saved; an empty or missing title is refused |
| `TaskRouteProperties.CreatePriority` | server/models/Task.js:11-15 | create refuses a priority outside the enumeration and defaults an absent one to medium with status pending |
| `TaskRouteProperties.CreatedTaskListedForOwnerOnly` | server/routes/tasks.js:11-20 | after a create, the task is in its owner's list with no search term and in no other user's list under any search |
| `TaskRouteProperties.OwnTaskFound` | server/routes/tasks.js:50-53 | with unique ids, the owner's lookup of a task finds exactly its position |
| `TaskRouteProperties.ForeignTaskNotFound` | server/routes/tasks.js:50-56 | with unique ids, another user's lookup finds nothing even with the right id, so update and delete answer not-found |
| `TaskRouteProperties.RemoveAtDropsOne` | server/routes/tasks.js:85-92 | deleting keeps ids unique, keeps the rest in order, and leaves exactly the tasks whose id differs from the deleted one |
| `TaskRouteProperties.ListOfOne` | server/routes/tasks.js:11-20 | over a single task, the list is that task for its owner with no search term and empty for every other user |
| `TaskRouteProperties.TwoUsers` | server/routes/tasks.js:8-98 | after one user creates a task, a second user's list is empty and that user's update and delete answer not-found; the first user's list holds the task |
| `Dashboard.AfterCreate` | client/src/components/Dashboard.js:37 | after a create the list is one longer: the server's answer is first and the old list follows unchanged, so it holds the old tasks plus the new one |
| `Dashboard.ReplaceById` | client/src/components/Dashboard.js:48-52 | length is kept; each element with the id is replaced by the answer and every other element is unchanged, in place |
| `Dashboard.RemoveById` | client/src/components/Dashboard.js:68 | the result is an order-preserving subsequence that keeps every task whose id differs, as often as the list holds it, and no task with the id |
| `Dashboard.Shown` | client/src/components/Dashboard.js:98-102 | a shown task always matches the status button; with an empty search term a task is shown iff it matches the status button |
| `Dashboard.FilteredTasks` | client/src/components/Dashboard.js:97-103 | the rendered list is an order-preserving subsequence that keeps, as often as the list holds them, exactly the tasks whose status matches the filter ("all" or equal) and whose title or description (missing read as "") contains the term ignoring case |
| `Dashboard.ShowAll` | client/src/components/Dashboard.js:97-103 | with filter "all" and an empty search term the rendered list is the whole list |
| `Dashboard.SearchAgreesWithServer` | client/src/components/Dashboard.js:99-101 | on search alone the dashboard shows a task iff the server's list route would return it for that term |
| `Dashboard.CountStatus` | client/src/components/Dashboard.js:107-109 | a per-status count never exceeds the number of tasks |
| `Dashboard.Stats` | client/src/components/Dashboard.js:105-110 | total is the list length, and pending + in progress + completed equals total |
| `Dashboard.StatusCountsAddUp` | client/src/components/Dashboard.js:105-110 | the three per-status counts add up to the length of the list |
| `Dashboard.CountIsFilterLength` | client/src/components/Dashboard.js:105-110 | each status count equals the length of that status button's list with no search term |
| `Dashboard.StatsAfterCreate` | client/src/components/Dashboard.js:37 | after a create the total grows by one, the created task's status count grows by one, and the other counts stay the same |
| `Dashboard.AfterCreateKeepsOrder` | client/src/components/Dashboard.js:37 | putting a task no older than the others first keeps a newest-first list newest first |
| `Dashboard.RemoveByIdCount` | client/src/components/Dashboard.js:68 | with unique ids, a delete shortens the list by one if the id was present and by none otherwise |
| `Dashboard.ReplaceByIdAtPosition` | client/src/components/Dashboard.js:48-52 | with unique ids, replacing by id is replacing at the task's position, as the server's update does |
| `Dashboard.RemoveByIdAtPosition` | client/src/components/Dashboard.js:68 | with unique ids, removing by id is removing at the task's position, as the server's delete does |
| `Dashboard.NoneRemoved` | client/src/components/Dashboard.js:68 | removing an id no task has leaves the list unchanged |
| `Dashboard.StatusChangeInPlace` | client/src/components/Dashboard.js:76-87 | a status change through the server keeps the list's length and order; the changed task stays at its position as the server's answer, with the new status and the completedAt the server derived, and every other task is unchanged |

## Left out

- server/index.js is not part of this model: the Express bootstrap, CORS, JSON body parsing, the database connection and the port.
- Authentication: the middleware is not part of this model, and the caller's user id is a parameter.
- HTTP plumbing. The model returns `Error` values: `NotFound` stands for the 404 answer. `Invalid` and `DuplicateKey` stand for failures the catch-all handlers answer with 500. Other database failures and network errors are not modelled.
- Regular expressions: the search term is matched as a literal substring, so regex metacharacters in the term are not covered. Case is folded for ASCII letters only, on the server and in the client's `toLowerCase`.
- Timestamps: `updatedAt` is not modelled. `createdAt` is the creation time passed in, and `_id`, `createdAt` and `updatedAt` in an update body are not modelled.
- Request bodies carry typed values. `dueDate` is a number of milliseconds, so "falsy" means absent or zero. Strings cast to dates, an empty-string `dueDate`, and `null` for title, status, priority or `userId` are not modelled; a `null` `userId` in an update body would be copied by `Object.assign` and fail the schema's `required` check on save, which the route answers with 500.
- Task ids are well-formed: `TaskId` is a `nat`, so a malformed `:id` in the update or delete URL, which fails to cast and is answered with 500 rather than 404, is not modelled.
- Concurrency: each method runs to completion, so concurrent requests and the last-writer-wins race between them are not modelled.
- client/src/components/TaskForm.js and client/src/components/TaskItem.js are not part of this model: form state, time-zone formatting, and the overdue check against the wall clock.
- Dashboard rendering and hooks are not part of this model: the `loading` and `error` state, `window.confirm`, `fetchTasks` (which replaces the list with the server's answer), and the API calls.
- ListQuery: for tasks with equal `createdAt`, the model fixes one order, while MongoDB leaves the order unspecified. The contract states only what the query promises: newest first, and a permutation of the matches.
