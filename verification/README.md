# Task manager: a Dafny model of the task service and its clients

This project models the task manager: an Express/Mongoose REST service for
tasks, and the two web clients that talk to it. The service is mounted at
`/api/tasks` and supports create, list, get, update and delete. The clients
are the Next.js pages and the earlier React single-page app.

Everything is written as immutable datatypes and pure functions. The
MongoDB collection becomes a `Store`: a map from id to task, plus the
collection's natural (insertion) order.

The modules follow the repository's structure:

- `Text`: JavaScript string behaviour. This covers `trim` (with the
  ECMA-262 white-space set), `length` counted in UTF-16 code units,
  `join`, ASCII case folding, substring search, and string `<`.
- `Payload`: request bodies as `express.json()` delivers them. Any field
  may be `undefined`, `null` or any JSON value. `dueDate` is described by
  what Mongoose's Date cast makes of it.
- `Constants`: the status and priority enumerations, the defaults, the
  limits and the fixed messages.
- `TaskModel`: the Task schema.
  - It has `required`, `maxlength`, the `trim` setters, the enums, the
    defaults and the Date cast.
  - The checks `save()` runs are modelled as a list of faults.
  - It includes the pre-save hook that refreshes `updatedAt`.
- `Validators`: `validateCreateTask` and `validateUpdateTask`.
- `TaskOrder`, `Listing`: the query plan of `getTasks`. This covers the
  filter, the two sort orders, the pagination switch, page/limit clamping,
  the page slice and the metadata.
- `Store`: the collection, with insert, lookup, replace, remove and count.
- `Http`, `Errors`: the response model, `errorHandler` and
  `notFoundHandler`.
- `Controller`: the five handlers. Each either answers or throws; a thrown
  error goes to the error middleware.
- `Routes`: the whole request pipeline. The order is: the health check,
  then the router mounted at `/api/tasks` (connection gate, then validator,
  then controller), then the 404 fallback, then the error middleware.
- `ClientRules`: the title check all three forms run before sending.
- `TasksPage`: the task list page of the Next.js client. It covers the
  listing query, how the answer is taken in, the filter and page events,
  the step back after a delete, the page buttons, the "Showing a - b of n"
  line, the inline edit and the error banners.
- `CreatePage`: the create page of the Next.js client. It covers the title
  check, the POST body, the minimum loader time and the reset.
- `ClientApp`, `TaskForm`, `TaskCard`: the earlier React client. They cover
  the in-memory list transforms, the listing query, the create form, and
  the card's status cycle, overdue flag and button label.

Four behaviours of the code are easy to get wrong, and the model follows
the code in each:

- A malformed id raises a CastError. That error is answered with 400
  "Invalid ID format", not treated as "not found".
- The stack trace is added to a 500 body only when `NODE_ENV` is exactly
  "development", not in every non-production build.
- An empty-string status or priority passes the create validator and is
  then defaulted. On update it is refused.
- The status sort compares the wire strings, so the order is
  "completed" < "in-progress" < "pending".

The process supplies several things as an `Env` value:

- the clock (`Date.now()`);
- whether the database connection is open, and its state's name;
- `NODE_ENV`;
- the id the database assigns to the next insert.

The client's elapsed time and its fetch answers are parameters too.

## Model

| member | source | states |
|---|---|---|
| Text.TrimStart | backend/controllers/taskController.js:17 | The first half of `trim()`: the result is the suffix that starts at the first non-space character, and everything cut off is white space. |
| Text.TrimEnd | backend/controllers/taskController.js:17 | The second half of `trim()`: the result is the prefix that ends at the last non-space character, and everything cut off is white space. |
| Text.TrimIsSlice | backend/controllers/taskController.js:17 | `trim()` returns a slice of its input, and only white space is cut at either end. |
| Text.TrimIdempotent | backend/models/Task.js:15-20 | Trimming an already trimmed value changes nothing. The schema's trim setter is therefore harmless after the controller's own `trim()`. |
| Text.TrimmedIff | backend/models/Task.js:15-25 | A string has no white space at either end exactly when `trim()` leaves it unchanged. |
| Text.TrimmedTrim | backend/models/Task.js:15-25 | Whatever `trim()` returns has no white space at either end. |
| Text.BlankIffTrimEmpty | backend/middleware/validators.js:15 | `title.trim() === ""` holds exactly when every character is white space, in both directions. |
| Text.TrimNonBlank | frontend/app/tasks/page.tsx:184-201 | A non-blank string trims to a non-empty, non-blank string. |
| Text.CodeUnits | backend/middleware/validators.js:17 | `length` counts UTF-16 code units: between one and two per character. |
| Text.CodeUnitsAppend | backend/middleware/validators.js:17 | The code-unit length of a concatenation is the sum of the lengths. |
| Text.CodeUnitsSlice | backend/middleware/validators.js:17 | A slice is never longer, in code units, than the string it comes from. |
| Text.TrimCodeUnits | frontend/app/tasks/page.tsx:188-200 | Trimming never makes a title longer. A title checked before trimming is therefore still within the limit once trimmed. |
| Text.Join | backend/middleware/validators.js:32 | `join` of no items is "", of one item is that item, and otherwise starts with the first item. |
| Text.JoinLength | backend/middleware/validators.js:32 | A joined string is as long as its items together plus one separator between each neighbouring pair. |
| Text.Contains | backend/controllers/taskController.js:47 | The scanning substring test holds exactly when the pattern occurs at some offset. |
| Text.JoinContainsEach | backend/middleware/validators.js:32 | Every item of a joined list occurs in the joined string. |
| Text.LowerChar | backend/controllers/taskController.js:47 | The "i" flag's ASCII folding maps A-Z to a-z and leaves every other character alone. |
| Text.Lower | backend/controllers/taskController.js:47 | Folding keeps the length and folds each character. |
| Text.LowerIdempotent | backend/server.js:28 | Folding twice is folding once, so a path folded for routing matches as the original does. |
| Constants.ParseStatus | backend/utils/constants.js:5-17 | A wire string reads back as a status exactly when it is in `VALID_STATUSES`, and then names that status. |
| Constants.ParsePriority | backend/utils/constants.js:11-18 | A wire string reads back as a priority exactly when it is in `VALID_PRIORITIES`, and then names that priority. |
| Constants.StatusNamesRoundTrip | backend/utils/constants.js:5-17 | `VALID_STATUSES` is exactly pending, in-progress, completed, in that order. Every status name reads back as itself. |
| Constants.PriorityNamesRoundTrip | backend/utils/constants.js:11-18 | `VALID_PRIORITIES` is exactly low, medium, high, in that order. Every priority name reads back as itself. |
| Constants.ConstantsAgree | backend/utils/constants.js:20-32 | Both defaults are members of their enumerations. 1 <= 6 <= 100. The title limit is 100. The sort options are exactly "date" and "status". |
| TaskModel.CastStatus | backend/models/Task.js:26-33 | The status enum validator accepts exactly the listed strings. Anything else, including non-strings, fails. |
| TaskModel.CastPriority | backend/models/Task.js:34-41 | The priority enum validator accepts exactly the listed strings. |
| TaskModel.CastDueDate | backend/models/Task.js:42-45 | The Date cast fails exactly for `false` and an unparsable value. `null`, `undefined` and "" become null. The number 0 becomes the epoch, and a date becomes that instant. |
| TaskModel.TitleFault | backend/models/Task.js:15-20 | After the trim setter, a blank title fails `required`. A non-blank title longer than 100 code units once trimmed fails `maxlength`. Nothing else fails. |
| TaskModel.CollectFaults | backend/models/Task.js:13-58 | The fault list holds each failed schema check exactly when that check fails. |
| TaskModel.Faults | backend/models/Task.js:13-58 | A draft fails on save exactly in these cases: a blank title, an over-long trimmed title, a status or priority outside its enum, or a due date the cast rejects. |
| TaskModel.NoFaultsIff | backend/models/Task.js:13-58 | A draft passes every schema check exactly when its title is non-blank and short enough once trimmed, and status, priority and due date all cast. |
| TaskModel.Materialize | backend/models/Task.js:13-58 | A draft becomes a document exactly when no check fails. The document holds the trimmed strings and the cast enum and date values. |
| TaskModel.PreSave | backend/models/Task.js:61-66 | The hook sets `updatedAt` to now exactly for a modified document that is not new. Otherwise `updatedAt` is kept. |
| TaskModel.SaveNew | backend/models/Task.js:46-66 | A new document saves exactly when no check fails. It then gets its id, both timestamps equal to the creation time, and the field values. It satisfies the stored-task invariant: a title that is present, trimmed and at most 100 long, and a trimmed description. |
| TaskModel.SaveExisting | backend/models/Task.js:61-66 | Re-saving keeps the id and `createdAt`. `updatedAt` moves to now exactly when some field changed; otherwise the document is unchanged. The invariant still holds. |
| TaskModel.ResaveUnchanged | backend/models/Task.js:61-66 | Saving a stored task with its own values assigned back returns it unchanged, timestamps included. |
| TaskModel.DraftOf | backend/controllers/taskController.js:139-153 | Writing a stored task's own values back gives a draft whose casts return exactly those values. |
| Validators.Collect | backend/middleware/validators.js:10-30 | The error list contains each reported rule exactly when it was found, with no repeats and in checking order (title, status, priority). |
| Validators.CreateTitleRule | backend/middleware/validators.js:15-19 | Create title rule: "Title is required" exactly when the title is missing, not a string or blank. Otherwise the length error exactly when the untrimmed title is over 100 code units. |
| Validators.UpdateTitleRule | backend/middleware/validators.js:46-52 | Update title rule: nothing for an `undefined` title. "Title cannot be empty" for any other non-string or blank value. The length error for an over-long string. |
| Validators.CreateErrors | backend/middleware/validators.js:10-30 | Create reports the title rule. It reports each enum error only for a truthy value outside its enum, so "" and absent values are not checked. It never reports "Title cannot be empty". Rules come in checking order. |
| Validators.UpdateErrors | backend/middleware/validators.js:41-62 | Update checks every field that is not `undefined`, including "". It never reports "Title is required". Rules come in checking order. |
| Validators.Decide | backend/middleware/validators.js:31-35 | The request passes exactly when the list is empty. Otherwise the answer is 400, its message starts with the first error's text and contains every error's text. |
| Validators.ValidateCreate | backend/middleware/validators.js:10-36 | `validateCreateTask` passes exactly when the title is present, non-blank and at most 100 long, and every truthy enum value is valid. Otherwise it answers 400 with the messages joined by ", ". |
| Validators.ValidateUpdate | backend/middleware/validators.js:41-69 | `validateUpdateTask` passes exactly when every defined field is valid. Otherwise it answers 400 with the joined messages. |
| Validators.JoinContainsAll | backend/middleware/validators.js:32 | Every message occurs in the joined error text. |
| Validators.CreateMissingTitle | backend/middleware/validators.js:15-18 | A missing, non-string or blank title leads the list with "Title is required" and never adds the length error. The request is refused. |
| Validators.EmptyUpdatePasses | backend/middleware/validators.js:41-68 | A PATCH body with no field passes. |
| Validators.EmptyEnumValueDiverges | backend/middleware/validators.js:22-62 | An empty-string status or priority is not checked on create but is refused on update. |
| Validators.ServerTitleRule | backend/middleware/validators.js:15-19 | For string titles, the create title rules accept exactly the non-blank titles of at most 100 code units. |
| Validators.CreateAndUpdateAgreeOnStringTitles | backend/middleware/validators.js:15-51 | For string titles, the create and update validators refuse the same titles, for the same reason. |
| TaskOrder.StatusRankIsWireOrder | backend/controllers/taskController.js:59-60 | Sorting by status ascending compares the wire strings, so "completed" < "in-progress" < "pending". Equal ranks mean equal statuses. |
| TaskOrder.Precedes | backend/controllers/taskController.js:57-63 | In the default date order, which is also used for any `sort` other than "status", a task goes first exactly when it is at least as new. Between equal statuses the newer task goes first, in both orders. In the status order a task whose status string is smaller goes first, and one whose status string is larger never does. |
| TaskOrder.Insert | backend/controllers/taskController.js:57-63 | Inserting into a sorted list keeps it sorted and adds exactly that task. |
| TaskOrder.Sort | backend/controllers/taskController.js:57-63 | The sorted list is ordered and is a permutation of the input. |
| TaskOrder.StatusOrderGroupsByWireString | backend/controllers/taskController.js:59-60 | In a list sorted by status, every task whose status string is smaller comes first. |
| Listing.WhenSet | backend/controllers/taskController.js:40-45 | A status or priority value is used exactly when it is present and non-empty. |
| Listing.BuildFilter | backend/controllers/taskController.js:37-48 | The filter holds status and priority exactly when they are non-empty. It holds a title pattern exactly when the search is non-blank, and the pattern is the trimmed, non-empty search. |
| Listing.Matches | backend/controllers/taskController.js:40-48 | A filter with no status, priority or title matches every task. |
| Listing.MatchesQuery | backend/controllers/taskController.js:40-48 | A task matches a query's filter exactly when each non-empty status and priority equals the task's, and each non-blank search, trimmed, occurs in the title ignoring case. |
| Listing.Select | backend/controllers/taskController.js:54 | The selection keeps exactly the matching tasks, each as often as in the input, and no other task. |
| Listing.SortModeOf | backend/controllers/taskController.js:57-63 | The status order is chosen exactly for `sort=status`. Any other or absent value sorts by date. |
| Listing.PageNumber | backend/controllers/taskController.js:67 | The page number is at least 1. It is the given page when that is at least 1, and 1 otherwise. |
| Listing.PageLimit | backend/controllers/taskController.js:68-74 | The limit lies in 1..100. It is the given value clamped into that range, or 6 when absent or empty. |
| Listing.TotalPages | backend/controllers/taskController.js:79 | `ceil(total/limit)` is the least page count whose pages hold every task. |
| Listing.Window | backend/controllers/taskController.js:75-82 | `skip(s).limit(l)` returns at most `l` tasks, in order from position `s`. It returns nothing past the end. |
| Listing.Matching | backend/controllers/taskController.js:54-63 | The listing holds exactly the matching tasks, each as often as stored, sorted in the requested order. |
| Listing.Paginate | backend/controllers/taskController.js:75-97 | The page is the window at `(page-1)*limit`. `totalTasks` is the full match count. `totalPages` is its ceiling division. `hasNextPage` holds exactly when page < totalPages, and `hasPrevPage` exactly when page > 1. |
| Listing.ListTasks | backend/controllers/taskController.js:51-102 | The plain array is returned exactly when neither `page` nor `limit` is given. Otherwise the answer is a page with clamped page and limit, and totals that do not depend on them. |
| Listing.PageNonEmptyIff | backend/controllers/taskController.js:75-79 | A page holds tasks exactly when its number is at most the page count. |
| Listing.HasNextIffMoreRemain | backend/controllers/taskController.js:94 | `hasNextPage` holds exactly when tasks remain after the current page. |
| Listing.PagesCoverMatches | backend/controllers/taskController.js:75-82 | Every matching task appears on the page its position predicts, and that page is a real one. |
| Listing.PastLastPageIsEmpty | backend/controllers/taskController.js:75-97 | A requested page is empty exactly when it lies past the last page, and the metadata still reports the totals. |
| Listing.ThirteenTasksSixPerPage | backend/controllers/taskController.js:67-79 | Thirteen matches at six per page make pages of 6, 6 and 1, then an empty fourth page. |
| Store.Count | backend/controllers/taskController.js:78 | The document count equals the length of the natural order. |
| Store.DistinctCard | backend/controllers/taskController.js:78 | A duplicate-free order that lists exactly the stored ids is as long as the collection. |
| Store.Lookup | backend/controllers/taskController.js:113-117 | `findById` finds a task exactly when its id is stored, and returns the stored task. |
| Store.Insert | backend/controllers/taskController.js:24 | Inserting under a fresh id keeps the store consistent, adds exactly that record and raises the count by one. |
| Store.Replace | backend/controllers/taskController.js:157 | Saving an existing task replaces that record only and keeps the order. |
| Store.RemoveId | backend/controllers/taskController.js:175 | Removing an id from the order drops exactly that id and keeps the order duplicate-free. An absent id leaves the order as it is. |
| Store.RemoveIdCutsOne | backend/controllers/taskController.js:175 | In a duplicate-free order, removing a listed id cuts out its one position: the ids before it and after it stay, in their order. |
| Store.Remove | backend/controllers/taskController.js:175 | `findByIdAndDelete` removes exactly that id. Every other record is kept unchanged. The natural order loses just that one position and keeps the order of the rest. The count drops by one. |
| Store.Tasks | backend/controllers/taskController.js:54 | The collection in natural order contains exactly the stored tasks. |
| Errors.FaultMessages | backend/middleware/errorHandler.js:11 | There is one detail per failed field check, in order, each being that check's message. |
| Errors.HandleError | backend/middleware/errorHandler.js:4-27 | ValidationError gives 400 "Validation error" with the field messages. CastError gives 400 "Invalid ID format". Any other error gives its non-zero `status` or 500, and its message or "Internal server error". The stack is added exactly in development. |
| Errors.ValidationDetailsPerFault | backend/middleware/errorHandler.js:8-13 | A failed save is answered 400 with exactly one detail per failed check, in order. |
| Errors.MalformedIdIsBadRequest | backend/middleware/errorHandler.js:16-20 | A malformed id is answered 400 "Invalid ID format", never 404, and never carries the stack. |
| Errors.RouteNotFound | backend/middleware/errorHandler.js:32-37 | An unmatched request gets 404 "Route not found" carrying its URL. |
| Controller.StoredIdParsesToItself | backend/controllers/taskController.js:113 | A stored id (24 lower-case hex digits) passes the ObjectId cast unchanged, so a task can always be fetched by the id it was given. |
| Controller.ParseId | backend/controllers/taskController.js:113 | The ObjectId cast accepts exactly 24 hex digits, in either case. The result is a stored-form id: the digits in lower case. |
| Controller.CreateDraft | backend/controllers/taskController.js:16-22 | `createTask` assigns the trimmed title, and falls back to the defaults and null for falsy status, priority and due date. |
| Controller.CreateDescription | backend/controllers/taskController.js:18 | `description?.trim() \|\| ""`: absent or null gives "", a string is trimmed, and any other value throws. |
| Controller.CreatedFields | backend/controllers/taskController.js:12-25 | A created task carries the fresh id and equal timestamps at now. Its title and description are the trimmed input, or "" when no description was sent. Truthy enum values are stored as sent; falsy ones take the defaults. |
| Controller.DefaultedStatus | backend/controllers/taskController.js:19 | A truthy status is stored as sent; a falsy one becomes "pending". |
| Controller.DefaultedPriority | backend/controllers/taskController.js:20 | A truthy priority is stored as sent; a falsy one becomes "medium". |
| Controller.CreateDraftSaves | backend/controllers/taskController.js:16-25 | A body the create validator passes, with a due date the cast accepts or a falsy one, builds a draft that fails no schema check. |
| Controller.CreateTask | backend/controllers/taskController.js:12-29 | `createTask` answers 201 with the stored task and inserts exactly it, or throws and leaves the store unchanged. A non-string title throws a TypeError. Conversely, a body the create validator passes, whose description is absent, null or a string and whose due date is not a rejected truthy value, is always stored and answered. |
| Controller.FalseDueDateCreatesWithoutDate | backend/controllers/taskController.js:21 | `dueDate: false` is falsy, so create stores no due date and answers 201. |
| Controller.GetTasks | backend/controllers/taskController.js:34-106 | For a query whose values are single strings, `getTasks` answers 200 with the plain listing or the page, and never touches the store. |
| Controller.GetTaskById | backend/controllers/taskController.js:111-123 | A malformed id throws a CastError. An unknown id gives 404 "Task not found". A stored id gives 200 with that task. |
| Controller.UpdateString | backend/controllers/taskController.js:139-144 | A field left `undefined` keeps the stored value. A string is trimmed. Any other value throws. |
| Controller.DateFieldOf | backend/controllers/taskController.js:151-153 | A stored due date written back casts to itself. |
| Controller.UpdateDraft | backend/controllers/taskController.js:138-153 | Every supplied field is assigned. Every field left out casts back to its stored value. |
| Controller.UpdatedFields | backend/controllers/taskController.js:128-158 | After an update: the supplied fields hold the trimmed or sent values; every other field, the id and `createdAt` are unchanged; `updatedAt` moves to now exactly when something changed. |
| Controller.KeptText | backend/controllers/taskController.js:139-144 | A text field left out keeps its stored value. A supplied one is stored trimmed. |
| Controller.KeptStatus | backend/controllers/taskController.js:145-147 | A status left out is stored unchanged. |
| Controller.KeptPriority | backend/controllers/taskController.js:148-150 | A priority left out is stored unchanged. |
| Controller.UpdateDraftSaves | backend/controllers/taskController.js:138-153 | A body the update validator passes, with a due date that casts, assigns a draft that fails no schema check. |
| Controller.UpdateFound | backend/controllers/taskController.js:136-158 | Once the task is found: either it answers 200 and replaces exactly that record by the task updated in the supplied fields, or it throws and changes nothing. A validated body with a string or absent description and a due date that casts is always answered. |
| Controller.UpdateTask | backend/controllers/taskController.js:128-162 | A malformed id throws a CastError. An unknown id gives 404 and leaves the store unchanged. On 200 exactly the addressed record is replaced, by a task updated only in the supplied fields. Conversely, a validated body sent to a stored id, whose description is absent or a string and whose due date casts, is always answered 200. |
| Controller.FalseDueDateRefusedOnUpdate | backend/controllers/taskController.js:151-153 | On update `dueDate: false` is assigned as it is. The Date cast rejects it, so the request is not answered 200 and nothing changes. |
| Controller.DeleteTask | backend/controllers/taskController.js:167-180 | A malformed id throws. An unknown id gives 404. A stored id gives 200 "Task deleted successfully" and is removed, with everything else kept. |
| Routes.RouteOf | backend/routes/taskRoutes.js:21-25 | Each method and path shape reaches exactly its handler: POST and GET on `/`, GET, PATCH and DELETE on `/:id`. |
| Routes.Unavailable | backend/middleware/checkMongoConnection.js:7-15 | With the connection not open the answer is 503 with the "Database not connected" message. |
| Routes.Finish | backend/server.js:34 | A handler's answer is sent as is. A thrown error goes through `errorHandler`. The store is whatever the handler left. |
| Routes.Handle | backend/server.js:19-34 | Every request, whatever its shape, leaves the store consistent and every stored task well formed. |
| Routes.MountIgnoresCase | backend/server.js:28 | Routing ignores the case of the mount path, as Express does by default: `/API/Tasks/...` is handled exactly as `/api/tasks/...`. |
| Routes.GateComesFirst | backend/routes/taskRoutes.js:18 | With the database down, every task route answers 503 and nothing changes, whatever the body. |
| Routes.CreateGuarded | backend/routes/taskRoutes.js:21 | A POST the create validator refuses is answered 400 with its joined messages, and nothing is stored. |
| Routes.UpdateGuarded | backend/routes/taskRoutes.js:24 | A PATCH the update validator refuses is answered 400 with its joined messages, and nothing changes. |
| Routes.CreatePersistsOnlyValidated | backend/routes/taskRoutes.js:21 | Whenever a POST changes the store, the validator accepted the body. The stored title is non-blank and at most 100 long. The task stored is the normalised body. |
| Routes.CreateAccepted | backend/routes/taskRoutes.js:21 | A POST whose body the create validator passes, with a description that is absent, null or a string and a due date that is not a rejected truthy value, is answered 201. Exactly that task is inserted under the fresh id, and the count grows by one. |
| Routes.UpdateAccepted | backend/routes/taskRoutes.js:24 | A PATCH to a stored id whose body the update validator passes, with a description that is absent or a string and a due date that casts, is answered 200. The addressed record is replaced by the task updated in the supplied fields. |
| Routes.UpdatePersistsOnlyValidated | backend/routes/taskRoutes.js:24 | Whenever a PATCH changes the store, the validator accepted the body, and only the addressed record changed, in the supplied fields only. |
| Routes.ReadAndDeleteIgnoreBody | backend/routes/taskRoutes.js:22-25 | GET and DELETE carry no validator. Their outcome does not depend on the body. |
| Routes.StoredTasksStayWellFormed | backend/models/Task.js:15-25 | After any request, every stored title is non-empty, trimmed and at most 100 code units. Every stored description is trimmed. `createdAt` <= `updatedAt`. |
| Routes.MalformedIdAnswers400 | backend/middleware/errorHandler.js:16-20 | GET or DELETE with a malformed id is answered 400 "Invalid ID format" and changes nothing. |
| Routes.GetStored | backend/controllers/taskController.js:111-119 | GET by the id of a stored task answers 200 with that task. |
| Routes.CreateThenGet | backend/routes/taskRoutes.js:21-23 | What a POST stored, a GET by its id returns unchanged. |
| Routes.DeleteThenGet | backend/controllers/taskController.js:167-180 | After DELETE removes a task, a GET by its id is 404 "Task not found". |
| ClientRules.TitleProblem | frontend/app/page.tsx:58-65 | A form sends the title exactly when it is non-blank and at most 100 code units. Otherwise it shows "Title is required" for a blank title and the length message for a long one. |
| ClientRules.ClientMatchesServer | client/src/components/TaskForm.tsx:26-33 | For string titles, a form lets a title through exactly when the server's create title rules accept it. |
| ClientRules.ClientMessageIsServerMessage | frontend/app/tasks/page.tsx:184-191 | A form's title message is the message the create validator reports first for the same title. |
| TaskCard.IndexOf | client/src/components/TaskCard.tsx:24 | `indexOf` gives the first position of the value, or -1 exactly when it is absent. |
| TaskCard.NextStatus | client/src/components/TaskCard.tsx:22-26 | The next status is always one of the three valid statuses. |
| TaskCard.NextStatusCycle | client/src/components/TaskCard.tsx:22-26 | The cycle is pending, in-progress, completed, pending. |
| TaskCard.ThreeStepsIsIdentity | client/src/components/TaskCard.tsx:22-26 | Three clicks bring any valid status back to itself. |
| TaskCard.UnknownStatusGoesToPending | client/src/components/TaskCard.tsx:24-25 | An unknown status (index -1) moves to "pending". |
| TaskCard.NextStatusPassesUpdate | client/src/components/TaskCard.tsx:64 | The PATCH a click sends always passes the update validator. |
| TaskCard.IsOverdue | client/src/components/TaskCard.tsx:36 | A task without a due date, or a completed one, is never overdue. Otherwise it is overdue exactly when its due date is strictly before now, so a task due right now is not. |
| TaskCard.OverdueStaysOverdue | client/src/components/TaskCard.tsx:36 | An overdue task stays overdue as time passes, as long as it is not completed. |
| TaskCard.CompletingClearsOverdue | client/src/components/TaskCard.tsx:36 | For an overdue card, the click clears the flag exactly when the card was in progress. |
| TaskCard.ActionLabel | client/src/components/TaskCard.tsx:68-70 | "Start" exactly when the click leads to in-progress. "Complete" exactly when it leads to completed. "Reopen" exactly for a completed task. No label for an unknown status. |
| ClientApp.AddTask | client/src/App.tsx:63-65 | A successful add puts the new task in front and keeps the rest as it was. A failed add changes nothing. |
| ClientApp.ReplaceById | client/src/App.tsx:86 | Mapping replaces exactly the tasks with that id, keeping the length and every other entry. |
| ClientApp.ReplaceByIdIdempotent | client/src/App.tsx:86 | Applying the same server copy twice is applying it once. Every position keeps its id. |
| ClientApp.UpdateStatus | client/src/App.tsx:84-87 | A successful status change replaces the tasks with that id. A failed one changes nothing. |
| ClientApp.WithoutId | client/src/App.tsx:105 | The filter keeps exactly the tasks with another id, each as often as before and in the same order (a subsequence). |
| ClientApp.WithoutAbsentId | client/src/App.tsx:105 | Filtering out an id no task carries changes nothing. |
| ClientApp.SubsequenceSkip | client/src/App.tsx:105 | A subsequence of a list's tail is a subsequence of the list. |
| ClientApp.SubsequenceTail | client/src/App.tsx:105 | Dropping the head of a subsequence keeps it a subsequence. |
| ClientApp.DeleteTask | client/src/App.tsx:104-106 | A successful delete removes every task with that id and keeps the others in order. A failed one changes nothing. |
| ClientApp.DeleteUndoesAdd | client/src/App.tsx:63-105 | Deleting a task that was just added under a new id gives back the list as it was. |
| ClientApp.ListingQuery | client/src/App.tsx:34-37 | The query carries status, priority and sort exactly when they are non-empty, and never page, limit or search. |
| ClientApp.ClientGetsPlainArray | client/src/App.tsx:39-41 | The server answers this client's query with the plain array of every matching task, which is what the client stores. |
| TaskForm.Submit | client/src/components/TaskForm.tsx:20-42 | A blank or over-long title sets its message and sends nothing. A valid title sends the untrimmed title with the current fields, then resets the form with priority back to "medium". |
| TaskForm.Body | client/src/App.tsx:55-60 | The posted body carries the title as a string and no status. |
| TaskForm.FormAgreesWithServer | client/src/components/TaskForm.tsx:26-33 | The form sends a title exactly when the server's create title rules accept it. |
| TaskForm.SentTaskPassesCreate | client/src/components/TaskForm.tsx:35 | With a priority from the select, every task the form sends passes the create validator. |
| TaskForm.SecondSubmitIsRefused | client/src/components/TaskForm.tsx:36-39 | Submitting again right after a send is refused with "Title is required", because the title was cleared. |
| CreatePage.Submit | frontend/app/page.tsx:53-75 | The page posts exactly when the title passes the check, and then sends all five fields with the title untrimmed. Otherwise it shows the check's message. |
| CreatePage.RemainingTime | frontend/app/page.tsx:78-79 | `max(0, 800 - elapsed)` is in 0..800 for a non-negative elapsed time. It is 0 exactly when 800 ms have passed. Elapsed plus wait is at least 800, and exactly 800 when not yet past. |
| CreatePage.Settle | frontend/app/page.tsx:81-103 | On success the form resets to its first state with the success banner. A refusal keeps what was typed and shows the server's `error` text when it is a non-empty string, or "Failed to create task" otherwise. A failed request shows "Error creating task...". |
| CreatePage.FailureShowsServerError | frontend/app/page.tsx:92-94 | A refused request keeps the form and shows the server's `error` text. |
| CreatePage.SentBodyPassesCreate | frontend/app/page.tsx:75 | With status and priority from the selects, every body the page sends passes the create validator. |
| CreatePage.ResetThenSubmitIsRefused | frontend/app/page.tsx:85-90 | After a successful create the title is empty again, so the next submit sends nothing. |
| TasksPage.FetchQuery | frontend/app/tasks/page.tsx:72-78 | The query carries the trimmed search exactly when it is non-blank, the filters and sort exactly when non-empty, and always page and limit=6. |
| TasksPage.FetchIsAlwaysPaged | frontend/app/tasks/page.tsx:47-78 | The server always paginates this page's query, six per page, at the current page. |
| TasksPage.Loaded | frontend/app/tasks/page.tsx:80-101 | A page answer fills the list and the metadata. An array fills the list without metadata. Any other successful answer empties both. The error is shown exactly when the request failed or was not OK: then the list and the metadata are emptied and the message is "Failed to fetch tasks. Make sure backend is running.". The filters and the page are unchanged. |
| TasksPage.Apply | frontend/app/tasks/page.tsx:229-241 | Changing the search, a filter or the sort resets the page to 1 and changes only that field. A page click changes only the page. |
| TasksPage.ResetRestoresFirstQuery | frontend/app/tasks/page.tsx:339-345 | Reset Filters brings the query back to the one the page sends first. |
| TasksPage.AfterDelete | frontend/app/tasks/page.tsx:150-156 | After deleting the only task shown on a page after the first, the page steps back by one. Otherwise the view is kept. |
| TasksPage.DeleteStepsBackToLastPage | frontend/app/tasks/page.tsx:151-153 | Stepping back after emptying the last page lands on the new last page. |
| TasksPage.ButtonPage | frontend/app/tasks/page.tsx:592-601 | With more than five pages the buttons are five consecutive pages, starting two before the current page but slid to stay within 1..totalPages, so every button is a real page. |
| TasksPage.PageWindow | frontend/app/tasks/page.tsx:591-601 | There are `min(5, totalPages)` page buttons, numbered consecutively. |
| TasksPage.SmallWindowShowsAllPages | frontend/app/tasks/page.tsx:593-594 | With at most five pages the buttons are exactly 1..totalPages. |
| TasksPage.WindowInRangeAndHasCurrent | frontend/app/tasks/page.tsx:591-601 | On a real page every button is a real page, and the current page has a button. |
| TasksPage.ShowingRange | frontend/app/tasks/page.tsx:377 | "Showing a - b of n" starts after the earlier pages. It ends at `min(current * pageSize, n)`: at most both, and equal to one of them. |
| TasksPage.ShowingRangeMatchesPage | frontend/app/tasks/page.tsx:377 | On a real page 1 <= a <= b <= n, and b - a + 1 is the number of tasks the server sent. |
| TasksPage.ButtonsStayOnRealPages | frontend/app/tasks/page.tsx:577-629 | Every enabled button (First, Previous, Next, Last or numbered) leads to a real page. |
| TasksPage.ActionError | frontend/app/tasks/page.tsx:126-131 | A failed status change, delete or edit shows the server's `error` text when there is one, otherwise the action's fallback. A failed request shows the action's "Error ..." text. The banner is never empty. |
| TasksPage.RefusedEditShowsValidatorMessages | frontend/app/tasks/page.tsx:210-212 | An edit the update validator refuses shows the validator's own joined messages. |
| TasksPage.SaveEdit | frontend/app/tasks/page.tsx:183-202 | An edit is sent exactly when the title passes the check. It then sends only the trimmed title and description; otherwise it shows the check's message. |
| TasksPage.SavedEditPassesUpdate | frontend/app/tasks/page.tsx:196-202 | Every edit the page sends passes the update validator. |
| TasksPage.StatusSelectPassesUpdate | frontend/app/tasks/page.tsx:527-544 | Every option of the status select passes the update validator. |

## Left out

- MongoDB itself, the connection setup in `backend/config/database.js`, and process start-up and signals. The connection gate is modelled by the `connected` flag and state name of `Env`.
- Dates are abstracted. A `dueDate` is `DateField`: absent, null, "", `false`, the number 0, a truthy value that casts to an instant, or a truthy value the cast rejects. Date parsing itself and `toLocaleDateString` formatting are left out.
- TaskModel.FaultMessage: the due-date cast message is abbreviated to `Cast to date failed for path "dueDate"`. Mongoose's text also quotes the rejected value and its type, and the model does not keep the raw value.
- Errors.CastFailure, Errors.TypeFailure: the `message` texts of thrown CastErrors and TypeErrors are approximations of the engine's and Mongoose's wording. The answer for these errors depends only on the error's name.
- Listing.BuildFilter: the search text is treated as a literal, case-insensitive substring with ASCII folding. Regex metacharacters and Unicode case folding are not modelled.
- Controller.GetTasks: query values are single strings. A repeated key or a bracketed key such as `status[$ne]` arrives as an array or object: a repeated `status` or `priority` becomes a `$in` or operator filter that `Listing.Matches` cannot express, and an array `search` makes `search.trim()` throw a TypeError, which is answered 500. A `search` that is not a valid regular expression makes the database throw, also answered 500. The promise of 200 covers only string values whose search is read literally.
- Listing.PageNumber, Listing.PageLimit: only `parseInt` results that are integers are modelled. NaN from a non-numeric `page` or `limit`, and query values given as arrays, are not.
- TaskOrder.Sort: documents that the sort does not separate keep the collection's natural order (a stable sort). MongoDB does not promise this tie order.
- TaskModel.Faults: for a failed save, the details list the faults in schema path order. Mongoose's own order of `err.errors` is not modelled beyond that.
- TaskModel.Faults: a `null` status or priority is treated as a failed enum check, while Mongoose's enum validator lets `null` through. Through the routes this case never reaches `save()`: create replaces a falsy value by the default, and the update validator refuses `null`.
- Text.LexLess: compares code points, not UTF-16 code units. This only differs for characters outside the Basic Multilingual Plane, and the status wire strings are ASCII.
- Controller.ClockAfter: one `now` serves a whole request, and the clock is assumed not to run backwards past a stored `updatedAt`.
- Routes.Handle: body-parse failures of `express.json()`, CORS, the health check's uptime and ISO timestamp, and methods other than the listed ones are not modelled beyond the 404 fallback. Path segments arrive already split and percent-decoded. Case-insensitive matching is modelled by ASCII folding. That is exact for the lower-case ASCII route literals, because the regex `i` flag never folds a non-ASCII character to an ASCII one.
- Controller.ParseId: accepts exactly 24 hex digits. A 12-character string, which the ObjectId cast also accepts as raw bytes, is modelled as malformed.
- Routes.CreateThenGet: assumes the id the database assigns is in stored form, 24 lower-case hex digits. 12-character ObjectId strings are not modelled.
- `errorHandler`'s `console.error` logging.
- The clients' React rendering and hooks, asynchronous `fetch` flows, timers (`setTimeout` and the 5 s and 3 s banner timeouts), `localStorage` dark mode, `window.confirm` and `scrollTo`. The elapsed loader time, fetch answers and `now` are parameters.
- `alert` on a failed add in the earlier client, and its `fetch` error logging.
- `FilterBar.tsx` and `TaskList.tsx`, which are markup only.
- The index declarations of the Task schema, which only affect performance.
