/** Starting an instance, acting on its tasks, and the actions offered to a user. */
module InstanceActions {
  import opened Outcomes
  import opened Json
  import opened WorkflowGraph
  import opened TokenEngine
  import opened Tenants
  import Conditions
  import Text

  datatype User = User(id: UserId, isPlatformAdmin: bool, roleCodes: set<string>, permissions: set<string>) {
    predicate IsAdmin() {
      isPlatformAdmin || "admin" in roleCodes
    }
  }

  datatype Request = Request(taskId: Option<nat>, actionKey: string, payload: Record, idempotencyKey: Option<string>)

  // ---------------------------------------------------------- permissions

  predicate IsPermissionName(s: string) {
    2 <= |s| <= 120 && Text.StartsAlnum(s, false) && Text.AllTail(s, "_.-", false)
  }

  function ConfiguredPermissions(config: Record): seq<Value> {
    if Lookup(config, "requiredPermissions").Arr? then Lookup(config, "requiredPermissions").items
    else if Lookup(config, "requiredPermission").Str? then [Lookup(config, "requiredPermission")]
    else []
  }

  function RequiredPermissions(config: Record): set<string> {
    var values := ConfiguredPermissions(config);
    set i | 0 <= i < |values| && values[i].Str? && IsPermissionName(values[i].s) :: values[i].s
  }

  /** The test that refuses an action. */
  predicate Barred(config: Record, user: User) {
    && RequiredPermissions(config) != {} && !user.isPlatformAdmin && "admin" !in user.roleCodes
    && !exists p :: p in RequiredPermissions(config) && p in user.permissions
  }

  // -------------------------------------------------------- action payload

  predicate Missing(v: Value) {
    Nullish(v) || (v.Str? && Text.Blank(v.s))
  }

  /** `String(type)`, as far as it can name a field type. */
  function TypeName(v: Value): string {
    match v
    case Str(s) => s
    case Arr(items) => if |items| == 1 then TypeName(items[0]) else ""
    case _ => ""
  }

  predicate FitsType(fieldType: Value, v: Value) {
    if fieldType == Str("number") then v.Num?
    else if fieldType == Str("boolean") then v.Bool?
    else TypeName(fieldType) in ["text", "textarea", "date", "select"] ==> v.Str?
  }

  predicate FieldApplies(field: Value, actionKey: string) {
    var actions := Field(field, "actions");
    && Field(field, "key").Str? && Field(field, "key").s != ""
    && (actions.Arr? && actions.items != [] ==> Includes(actions.items, Str(actionKey)))
  }

  predicate FieldAccepts(field: Value, payload: Record, actionKey: string) {
    FieldApplies(field, actionKey) ==>
      var v := Lookup(payload, Field(field, "key").s);
      if Missing(v) then Field(field, "required") != Bool(true)
      else
        && FitsType(Field(field, "type"), v)
        && (Field(field, "type") == Str("select") && Field(field, "options").Arr? ==>
              Includes(Field(field, "options").items, v))
  }

  predicate AcceptsPayload(fields: Value, payload: Record, actionKey: string) {
    fields.Arr? ==> forall i | 0 <= i < |fields.items| :: FieldAccepts(fields.items[i], payload, actionKey)
  }

  // -------------------------------------------------------- acting on a task

  function Config(g: Graph, n: NodeId): Record {
    if n in g.nodes then g.nodes[n].config else map[]
  }

  predicate CandidateTask(tasks: seq<Task>, req: Request, k: nat)
    requires k < |tasks|
  {
    tasks[k].IsOpen() && (req.taskId.None? || req.taskId.value == k)
  }

  predicate Assigned(task: Task, user: User) {
    (user.id in task.assignments && task.assignments[user.id] in {Candidate, Assignee}) || user.IsAdmin()
  }

  function FirstAssigned(tasks: seq<Task>, user: User, req: Request, from: nat): (r: Option<nat>)
    requires from <= |tasks|
    ensures r.Some? ==> r.value < |tasks| && CandidateTask(tasks, req, r.value) && Assigned(tasks[r.value], user)
    ensures r.None? ==> forall k | from <= k < |tasks| :: CandidateTask(tasks, req, k) ==> !Assigned(tasks[k], user)
    decreases |tasks| - from
  {
    if from == |tasks| then None
    else if CandidateTask(tasks, req, from) && Assigned(tasks[from], user) then Some(from)
    else FirstAssigned(tasks, user, req, from + 1)
  }

  function FindEdge(edges: seq<Edge>, n: NodeId, actionKey: string): (r: Option<Edge>)
    ensures r.Some? ==> r.value in edges && r.value.source == n && r.value.actionKey == actionKey
    ensures r.None? ==> forall e | e in edges :: !(e.source == n && e.actionKey == actionKey)
  {
    if edges == [] then None
    else if edges[0].source == n && edges[0].actionKey == actionKey then Some(edges[0])
    else FindEdge(edges[1..], n, actionKey)
  }

  function Merge(context: Context, payload: Record): Context {
    Obj(context.fields + payload)
  }

  datatype Admission = Admission(task: nat, edge: Edge)

  /** Every check made before anything is written. */
  function Admit(g: Graph, context: Context, s: State, user: User, req: Request): (r: Result<Admission, Error>)
    ensures r.Ok? ==> r.value.task < |s.tasks| && s.tasks[r.value.task].IsOpen()
                      && r.value.edge in g.edges && r.value.edge.source == s.tasks[r.value.task].node
  {
    if s.row.status.InstanceCompleted? then Err(InstanceFinished)
    else if forall k | 0 <= k < |s.tasks| :: !CandidateTask(s.tasks, req, k) then Err(NoOpenTask)
    else
      match FirstAssigned(s.tasks, user, req, 0)
      case None => Err(NotAssigned)
      case Some(k) =>
        var n := s.tasks[k].node;
        match FindEdge(g.edges, n, req.actionKey)
        case None => Err(UnknownAction)
        case Some(edge) =>
          if Barred(Config(g, n), user) then Err(PermissionMissing)
          else if !AcceptsPayload(Lookup(Config(g, n), "formFields"), req.payload, req.actionKey) then
            Err(InvalidPayload)
          else if !Open(edge, Merge(context, req.payload)) then Err(ConditionNotMet)
          else Ok(Admission(k, edge))
  }

  function Close(task: Task, user: UserId, now: int): Task {
    task.(status := Completed, claimedBy := Some(user), completedAt := Some(now),
          assignments := if user in task.assignments then task.assignments[user := Assignee] else task.assignments)
  }

  /** The token a task stands for: the one it names, or any active one on its node when it names none. */
  function TokenOf(tokens: seq<Token>, task: Task): (r: Option<nat>)
    ensures r.Some? ==> r.value in ActiveTokens(tokens)
  {
    match task.tokenId
    case Some(t) => if t < |tokens| && tokens[t].status.Active? then Some(t) else None
    case None => FirstWaiting(tokens, task.node, 0)
  }

  function FirstWaiting(tokens: seq<Token>, n: NodeId, from: nat): (r: Option<nat>)
    requires from <= |tokens|
    ensures r.Some? ==> r.value in Waiting(tokens, n)
    decreases |tokens| - from
  {
    if from == |tokens| then None
    else if tokens[from].status.Active? && tokens[from].node == n then Some(from)
    else FirstWaiting(tokens, n, from + 1)
  }

  predicate KeyInLog(log: seq<LogEntry>, key: string) {
    exists i | 0 <= i < |log| :: log[i].idempotencyKey == Some(key)
  }

  predicate KeyUsed(env: Env, log: seq<LogEntry>, key: string) {
    key in env.otherKeys || KeyInLog(log, key)
  }

  /** The state in which the token of an admitted action starts to move. */
  function Entry(env: Env, s: State, user: User, req: Request, admission: Admission): Result<(State, nat), Error>
    requires admission.task < |s.tasks|
  {
    var k, edge := admission.task, admission.edge;
    var task := s.tasks[k];
    var closed := s.(entity := s.row, tasks := s.tasks[k := Close(task, user.id, env.now)]);
    match TokenOf(closed.tokens, task)
    case None => Err(TokenNotActive)
    case Some(t) =>
      if req.idempotencyKey.Some? && KeyUsed(env, s.log, req.idempotencyKey.value) then Err(DuplicateKey)
      else
        var entry := LogEntry(Some(k), Some(user.id), req.actionKey, Some(task.node), Some(edge.target),
                              req.payload, req.idempotencyKey);
        Ok((Shift(env, closed.(log := s.log + [entry]), t, edge.target), |s.tokens|))
  }

  predicate Replayed(env: Env, log: seq<LogEntry>, req: Request) {
    req.idempotencyKey.Some? && req.idempotencyKey.value != "" && KeyUsed(env, log, req.idempotencyKey.value)
  }

  /** One `performAction` transaction; an error leaves the stored state as it was. */
  function Perform(g: Graph, env: Env, s: State, user: User, req: Request): Result<State, Error> {
    if Replayed(env, s.log, req) then Ok(s)
    else
      match Admit(g, env.context, s, user, req)
      case Err(e) => Err(e)
      case Ok(admission) =>
        match Entry(env, s, user, req, admission)
        case Err(e) => Err(e)
        case Ok((s', t)) =>
          match Activate(g, env, s', t, 1)
          case Err(e) => Err(e)
          case Ok(s'') => Ok(Refresh(s'', env.now))
  }

  function Fresh(start: NodeId, actor: Option<UserId>): State {
    var row := Instance(Running, Some(start), None);
    var entry := LogEntry(None, actor, "started", None, Some(start), map[], None);
    State(row, row, [NewToken(start, None)], [], [entry], [])
  }

  /** One `startInstance` transaction. There is no status refresh after the first token has moved. */
  function StartInstance(g: Graph, env: Env, start: NodeId, actor: Option<UserId>): Result<State, Error> {
    if start !in g.nodes || !g.nodes[start].kind.Start? then Err(NoStart)
    else Activate(g, env, Fresh(start, actor), 0, 0)
  }

  // ---------------------------------------------------------- offered actions

  datatype Offer = Offer(taskId: Option<nat>, actionKey: string, target: NodeId)

  /** The test that offers a step's actions. */
  predicate Permitted(config: Record, user: User) {
    || RequiredPermissions(config) == {}
    || (exists p :: p in RequiredPermissions(config) && p in user.permissions)
    || user.IsAdmin()
  }

  predicate Involved(task: Task, user: User) {
    (user.id in task.assignments && !task.assignments[user.id].Watcher?) || user.IsAdmin()
  }

  /** The tests are written twice, differently, and agree. */
  lemma TestsAgree(g: Graph, task: Task, user: User)
    ensures Permitted(Config(g, task.node), user) <==> !Barred(Config(g, task.node), user)
    ensures Involved(task, user) <==> Assigned(task, user)
  {
  }

  predicate Eligible(g: Graph, s: State, user: User, k: nat)
    requires k < |s.tasks|
  {
    Permitted(Config(g, s.tasks[k].node), user) && s.tasks[k].IsOpen() && Involved(s.tasks[k], user)
  }

  function FirstEligible(g: Graph, s: State, user: User, n: NodeId, from: nat): (r: Option<nat>)
    requires from <= |s.tasks|
    ensures r.Some? ==> r.value < |s.tasks| && Eligible(g, s, user, r.value) && s.tasks[r.value].node == n
    ensures r.None? ==> forall k | from <= k < |s.tasks| :: Eligible(g, s, user, k) ==> s.tasks[k].node != n
    decreases |s.tasks| - from
  {
    if from == |s.tasks| then None
    else if Eligible(g, s, user, from) && s.tasks[from].node == n then Some(from)
    else FirstEligible(g, s, user, n, from + 1)
  }

  function Offers(g: Graph, context: Context, s: State, user: User, edges: seq<Edge>): (r: seq<Offer>)
    ensures forall o :: o in r <==> exists e ::
              && e in edges && Open(e, context) && FirstEligible(g, s, user, e.source, 0).Some?
              && o == Offer(FirstEligible(g, s, user, e.source, 0), e.actionKey, e.target)
  {
    if edges == [] then []
    else
      var rest := Offers(g, context, s, user, edges[1..]);
      var k := FirstEligible(g, s, user, edges[0].source, 0);
      if Open(edges[0], context) && k.Some? then [Offer(k, edges[0].actionKey, edges[0].target)] + rest else rest
  }

  function AvailableActions(g: Graph, context: Context, s: State, user: User): seq<Offer> {
    Offers(g, context, s, user, g.edges)
  }

  // -------------------------------------------------------------------- runs

  datatype Command = Command(env: Env, user: User, request: Request)

  /** One transaction attempt: an error rolls everything back. */
  function Attempt(g: Graph, s: State, c: Command): State {
    match Perform(g, c.env, s, c.user, c.request)
    case Ok(s') => s'
    case Err(_) => s
  }

  function RunAll(g: Graph, s: State, commands: seq<Command>): State
    decreases |commands|
  {
    if commands == [] then s else RunAll(g, Attempt(g, s, commands[0]), commands[1..])
  }
}
