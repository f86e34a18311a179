/**
 * The application's request pipeline: the health check, the task router
 * mounted at /api/tasks (connection gate, then validator, then controller
 * for each route), the 404 fallback, and the error middleware.
 */
module Routes {
  import opened Wrappers
  import opened Text
  import opened Payload
  import opened Constants
  import opened TaskModel
  import opened Listing
  import opened Store
  import opened Http
  import opened Errors
  import opened Validators
  import opened Controller

  datatype Method = GET | POST | PATCH | DELETE | PUT | OPTIONS

  /**
   * A request after body parsing: the method, the non-empty segments of the
   * URL path, the URL as sent, the JSON body and the query string.
   */
  datatype Request = Request(verb: Method, path: seq<string>, originalUrl: string, body: TaskInput, query: ListQuery)

  /**
   * What the process supplies: whether the database connection is open (and
   * its state's name), whether NODE_ENV is "development", the clock, and the
   * id the database assigns to the next inserted document.
   */
  datatype Env = Env(connected: bool, connectionState: string, development: bool, now: Instant, freshId: Id)

  /** The controller action a request reaches. */
  datatype Route = Create | List | Get(id: string) | Update(id: string) | Delete(id: string) | NoRoute

  /** `router.post("/")`, `router.get("/")`, `router.get("/:id")`, `router.patch("/:id")`, `router.delete("/:id")`. */
  function RouteOf(m: Method, rest: seq<string>): (r: Route)
    ensures r.Create? <==> m == POST && rest == []
    ensures r.List? <==> m == GET && rest == []
    ensures r.Get? <==> m == GET && |rest| == 1
    ensures r.Update? <==> m == PATCH && |rest| == 1
    ensures r.Delete? <==> m == DELETE && |rest| == 1
    ensures r.Get? || r.Update? || r.Delete? ==> r.id == rest[0]
  {
    if rest == [] then
      (if m == POST then Create else if m == GET then List else NoRoute)
    else if |rest| == 1 then
      (if m == GET then Get(rest[0]) else if m == PATCH then Update(rest[0])
       else if m == DELETE then Delete(rest[0]) else NoRoute)
    else NoRoute
  }

  const MountPath: seq<string> := ["api", "tasks"]

  /**
   * Express matches routes case-insensitively by default: a path segment
   * matches a lower-case literal when its ASCII letters fold to it (a
   * non-ASCII character never folds to an ASCII one).
   */
  predicate SegmentIs(segment: string, literal: string) {
    Lower(segment) == literal
  }

  /** `app.get("/health")`. */
  predicate IsHealthPath(path: seq<string>) {
    |path| == 1 && SegmentIs(path[0], "health")
  }

  /** The request enters the task router mounted at `/api/tasks`. */
  predicate UnderTasks(path: seq<string>) {
    |path| >= 2 && SegmentIs(path[0], MountPath[0]) && SegmentIs(path[1], MountPath[1])
  }

  const DatabaseDownMessage: string := "Database not connected. Please check MongoDB connection."

  /** `checkMongoConnection`'s answer when the connection is not open. */
  function Unavailable(state: string): (r: Response)
    ensures r.status == 503 && r.body.ErrorJson? && r.body.error == DatabaseDownMessage
  {
    Response(503, ErrorJson(DatabaseDownMessage, DetailText("MongoDB connection state: " + state)))
  }

  /** A response and the store it leaves behind. */
  datatype Exchange = Exchange(response: Response, store: Store)

  /** A handler's outcome, with thrown errors passed to `errorHandler`. */
  function Finish(s: Step, development: bool): (x: Exchange)
    ensures s.outcome.Respond? ==> x.response == s.outcome.response
    ensures s.outcome.Raise? ==> x.response == HandleError(s.outcome.error, development)
    ensures x.store == s.store
  {
    match s.outcome
    case Respond(r) => Exchange(r, s.store)
    case Raise(e) => Exchange(HandleError(e, development), s.store)
  }

  /** A validator's rejection as a response. */
  function Rejected(v: Verdict): Response
    requires v.Reject?
  {
    Fail(v.status, v.message)
  }

  /** Everything the stack does with one request, given the store before it. */
  function Handle(st: Store, req: Request, env: Env): (x: Exchange)
    requires Valid(st) && env.freshId !in st.records && ClockAfter(st, env.now)
    ensures Valid(x.store)
  {
    if IsHealthPath(req.path) && req.verb == GET then
      Exchange(Response(200, Health(env.now)), st)
    else if !UnderTasks(req.path) then
      Exchange(RouteNotFound(req.originalUrl), st)
    else if !env.connected then
      Exchange(Unavailable(env.connectionState), st)
    else
      match RouteOf(req.verb, req.path[2..])
      case Create =>
        var v := ValidateCreate(req.body);
        if v.Reject? then Exchange(Rejected(v), st)
        else Finish(CreateTask(st, req.body, env.freshId, env.now), env.development)
      case List => Exchange(GetTasks(st, req.query), st)
      case Get(id) => Finish(Step(GetTaskById(st, id), st), env.development)
      case Update(id) =>
        var v := ValidateUpdate(req.body);
        if v.Reject? then Exchange(Rejected(v), st)
        else Finish(UpdateTask(st, id, req.body, env.now), env.development)
      case Delete(id) => Finish(DeleteTask(st, id), env.development)
      case NoRoute => Exchange(RouteNotFound(req.originalUrl), st)
  }

  /** Only the case of the mount segments differs: `/API/Tasks/...` is handled as `/api/tasks/...`. */
  lemma MountIgnoresCase(st: Store, req: Request, env: Env)
    requires Valid(st) && env.freshId !in st.records && ClockAfter(st, env.now)
    requires |req.path| >= 2
    ensures Handle(st, req, env) == Handle(st, req.(path := [Lower(req.path[0]), Lower(req.path[1])] + req.path[2..]), env)
  {
    var folded := [Lower(req.path[0]), Lower(req.path[1])] + req.path[2..];
    LowerIdempotent(req.path[0]);
    LowerIdempotent(req.path[1]);
    assert folded[2..] == req.path[2..];
    assert UnderTasks(folded) <==> UnderTasks(req.path);
  }

  /** The preconditions `Handle` relies on. */
  ghost predicate Ready(st: Store, env: Env) {
    Valid(st) && env.freshId !in st.records && ClockAfter(st, env.now)
  }

  /** With the database down every task route answers 503 and nothing changes. */
  lemma GateComesFirst(st: Store, req: Request, env: Env)
    requires Ready(st, env) && UnderTasks(req.path) && !env.connected
    ensures Handle(st, req, env) == Exchange(Unavailable(env.connectionState), st)
  {
  }

  /** A POST the create validator refuses is answered 400 with its joined messages, and nothing is stored. */
  lemma CreateGuarded(st: Store, req: Request, env: Env)
    requires Ready(st, env) && env.connected && UnderTasks(req.path)
    requires req.verb == POST && |req.path| == 2
    requires CreateErrors(req.body) != []
    ensures var x := Handle(st, req, env);
      && x.store == st
      && x.response == Fail(400, Join(Messages(CreateErrors(req.body)), Separator))
  {
  }

  /** A PATCH the update validator refuses is answered 400 with its joined messages, and nothing changes. */
  lemma UpdateGuarded(st: Store, req: Request, env: Env)
    requires Ready(st, env) && env.connected && UnderTasks(req.path)
    requires req.verb == PATCH && |req.path| == 3
    requires UpdateErrors(req.body) != []
    ensures var x := Handle(st, req, env);
      && x.store == st
      && x.response == Fail(400, Join(Messages(UpdateErrors(req.body)), Separator))
  {
  }

  /** Whenever a POST stores a task, the validator accepted the body and the stored task is normalised from it. */
  lemma CreatePersistsOnlyValidated(st: Store, req: Request, env: Env)
    requires Ready(st, env) && req.verb == POST
    requires Handle(st, req, env).store != st
    ensures ValidateCreate(req.body).Pass?
    ensures var x := Handle(st, req, env);
      && x.response.status == 201 && x.response.body.TaskJson?
      && var t := x.response.body.task;
      && x.store == Insert(st, t)
      && CreatedFrom(t, req.body, env.freshId, env.now)
      && !IsBlank(req.body.title.s) && CodeUnits(req.body.title.s) <= TitleMaxLength
  {
  }

  /** Whenever a PATCH changes the store, the validator accepted the body and only its fields were applied. */
  lemma UpdatePersistsOnlyValidated(st: Store, req: Request, env: Env)
    requires Ready(st, env) && req.verb == PATCH
    requires Handle(st, req, env).store != st
    ensures ValidateUpdate(req.body).Pass?
    ensures var x := Handle(st, req, env);
      && x.response.status == 200 && x.response.body.TaskJson?
      && var t := x.response.body.task;
      && t.id in st.records
      && x.store.records == st.records[t.id := t]
      && UpdatedFrom(t, st.records[t.id], req.body, env.now)
  {
  }

  /**
   * The converse for POST: a body the create validator passes is stored and
   * answered 201, unless its description has no `trim` or its truthy due
   * date fails the cast.
   */
  lemma CreateAccepted(st: Store, req: Request, env: Env)
    requires Ready(st, env) && env.connected && UnderTasks(req.path) && |req.path| == 2 && req.verb == POST
    requires ValidateCreate(req.body).Pass?
    requires req.body.description.Undefined? || req.body.description.Null? || req.body.description.Str?
    requires !req.body.dueDate.BadDate?
    ensures var x := Handle(st, req, env);
      && x.response.status == 201 && x.response.body.TaskJson?
      && x.response.body.task.id == env.freshId
      && x.store == Insert(st, x.response.body.task)
      && Count(x.store) == Count(st) + 1
  {
    assert RouteOf(req.verb, req.path[2..]) == Create;
  }

  /**
   * The converse for PATCH: a body the update validator passes, sent to the
   * id of a stored task, is applied and answered 200, unless its description
   * has no `trim` or its due date fails the cast.
   */
  lemma UpdateAccepted(st: Store, req: Request, env: Env)
    requires Ready(st, env) && env.connected && UnderTasks(req.path) && |req.path| == 3 && req.verb == PATCH
    requires ParseId(req.path[2]).Some? && ParseId(req.path[2]).value in st.records
    requires ValidateUpdate(req.body).Pass?
    requires req.body.description.Undefined? || req.body.description.Str?
    requires CastDueDate(req.body.dueDate).Some?
    ensures var x := Handle(st, req, env);
      && x.response.status == 200 && x.response.body.TaskJson?
      && var t := x.response.body.task;
      && t.id == ParseId(req.path[2]).value
      && x.store == Replace(st, t)
      && UpdatedFrom(t, st.records[t.id], req.body, env.now)
  {
    assert RouteOf(req.verb, req.path[2..]) == Update(req.path[2]);
  }

  /** GET and DELETE carry no validator: their answer does not depend on the body. */
  lemma ReadAndDeleteIgnoreBody(st: Store, req: Request, env: Env, other: TaskInput)
    requires Ready(st, env) && (req.verb == GET || req.verb == DELETE)
    ensures Handle(st, req, env) == Handle(st, req.(body := other), env)
  {
  }

  /** Every request keeps the store valid, so every stored title is trimmed, non-empty and at most 100 long. */
  lemma StoredTasksStayWellFormed(st: Store, req: Request, env: Env, id: Id)
    requires Ready(st, env)
    requires id in Handle(st, req, env).store.records
    ensures var t := Handle(st, req, env).store.records[id];
      && t.title != [] && t.title == Trim(t.title) && CodeUnits(t.title) <= TitleMaxLength
      && t.description == Trim(t.description) && t.createdAt <= t.updatedAt
  {
    var t := Handle(st, req, env).store.records[id];
    TrimmedIff(t.title);
    TrimmedIff(t.description);
  }

  /** A malformed id on GET or DELETE is 400 "Invalid ID format", not 404. */
  lemma MalformedIdAnswers400(st: Store, req: Request, env: Env)
    requires Ready(st, env) && env.connected && UnderTasks(req.path) && |req.path| == 3
    requires req.verb == GET || req.verb == DELETE
    requires ParseId(req.path[2]).None?
    ensures Handle(st, req, env) == Exchange(Fail(400, "Invalid ID format"), st)
  {
  }

  /** GET by the id of a stored task answers 200 with that task. */
  lemma GetStored(st: Store, get: Request, env: Env, t: Task)
    requires Ready(st, env) && env.connected
    requires get.verb == GET && |get.path| == 3 && UnderTasks(get.path) && ParseId(get.path[2]) == Some(t.id)
    requires t.id in st.records && st.records[t.id] == t
    ensures Handle(st, get, env) == Exchange(Response(200, TaskJson(t)), st)
  {
    assert RouteOf(get.verb, get.path[2..]) == Get(get.path[2]);
  }

  /** What POST stored, GET by the same id returns unchanged. */
  lemma CreateThenGet(st: Store, post: Request, env: Env, get: Request, env2: Env)
    requires Ready(st, env) && post.verb == POST && IsObjectId(env.freshId)
    requires Handle(st, post, env).store != st
    requires Ready(Handle(st, post, env).store, env2) && env2.connected
    requires get.verb == GET && |get.path| == 3 && UnderTasks(get.path) && get.path[2] == env.freshId
    ensures Handle(st, post, env).response.body.TaskJson?
    ensures var t := Handle(st, post, env).response.body.task;
      Handle(Handle(st, post, env).store, get, env2).response == Response(200, TaskJson(t))
  {
    CreatePersistsOnlyValidated(st, post, env);
    var x := Handle(st, post, env);
    var t := x.response.body.task;
    assert t.id == env.freshId && x.store.records[t.id] == t;
    StoredIdParsesToItself(env.freshId);
    GetStored(x.store, get, env2, t);
  }

  /** Once DELETE has removed a task, GET by its id is 404 "Task not found". */
  lemma DeleteThenGet(st: Store, del: Request, env: Env, get: Request)
    requires Ready(st, env) && env.connected && del.verb == DELETE && UnderTasks(del.path) && |del.path| == 3
    requires ParseId(del.path[2]).Some? && ParseId(del.path[2]).value in st.records
    requires Ready(Handle(st, del, env).store, env)
    requires get.verb == GET && get.path == del.path
    ensures Handle(st, del, env).response == Response(200, Message(DeletedMessage))
    ensures Handle(Handle(st, del, env).store, get, env) == Exchange(TaskNotFound, Handle(st, del, env).store)
  {
  }
}
