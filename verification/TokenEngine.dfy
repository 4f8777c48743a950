/** Reference semantics of a workflow instance: one visit at a time, and the depth-guarded recursion over visits. */
module TokenEngine {
  import opened Outcomes
  import opened Json
  import opened WorkflowGraph
  import opened Tenants
  import Conditions

  datatype TokenStatus = Active | Consumed

  datatype Token = Token(node: NodeId, status: TokenStatus, branchKey: Option<string>, consumedAt: Option<int>)

  datatype TaskStatus = Pending | Claimed | Completed | Cancelled | Blocked

  datatype Role = Candidate | Assignee | Watcher

  datatype Task = Task(
    node: NodeId, name: string, status: TaskStatus, claimedBy: Option<UserId>, completedAt: Option<int>,
    tokenId: Option<nat>, assignments: map<UserId, Role>)
  {
    predicate IsOpen() {
      status.Pending? || status.Claimed? || status.Blocked?
    }
  }

  datatype LogEntry = LogEntry(
    taskId: Option<nat>, actor: Option<UserId>, actionKey: string, from: Option<NodeId>, to: Option<NodeId>,
    payload: Record, idempotencyKey: Option<string>)

  datatype InstanceStatus = Running | InstanceBlocked | InstanceCompleted

  datatype Instance = Instance(status: InstanceStatus, currentNode: Option<NodeId>, completedAt: Option<int>)

  /** What a node did to the tokens; kept as history, nothing reads it. */
  datatype Firing =
    | Passed(node: NodeId)
    | Split(node: NodeId, branches: nat)
    | Joined(node: NodeId, eaten: nat, emitted: nat)
    | Ended(node: NodeId)

  /** `row` is the stored instance; `entity` is the copy the transaction works on and saves over it.
      Tokens, tasks and log entries are identified by their position. */
  datatype State = State(
    row: Instance, entity: Instance, tokens: seq<Token>, tasks: seq<Task>, log: seq<LogEntry>, firings: seq<Firing>)

  datatype Assignees = Assignees(executors: set<UserId>, observers: set<UserId>)

  /** What one transaction sees from outside: the instance's context, who is assigned where, the clock,
      and the idempotency keys used by other instances of the tenant. */
  datatype Env = Env(context: Context, directory: map<NodeId, Assignees>, now: int, otherKeys: set<string>)

  datatype Error =
    | NodeMissing | NoStart | AutomaticLoop | InstanceFinished | NoOpenTask | NotAssigned | UnknownAction
    | PermissionMissing | InvalidPayload | ConditionNotMet | TokenNotActive | DuplicateKey

  const MAX_DEPTH := 64

  // --------------------------------------------------------------- tokens

  function ActiveTokens(tokens: seq<Token>): set<nat> {
    set i | 0 <= i < |tokens| && tokens[i].status.Active?
  }

  function Waiting(tokens: seq<Token>, n: NodeId): set<nat> {
    set i | 0 <= i < |tokens| && tokens[i].status.Active? && tokens[i].node == n
  }

  function Consume(tokens: seq<Token>, ids: set<nat>, now: int): (r: seq<Token>)
    ensures |r| == |tokens|
    ensures forall i | 0 <= i < |tokens| ::
              r[i] == if i in ids then tokens[i].(status := Consumed, consumedAt := Some(now)) else tokens[i]
  {
    seq(|tokens|, i requires 0 <= i < |tokens| =>
      if i in ids then tokens[i].(status := Consumed, consumedAt := Some(now)) else tokens[i])
  }

  function NewToken(n: NodeId, branchKey: Option<string>): Token {
    Token(n, Active, branchKey, None)
  }

  // ------------------------------------------------------ instance status

  function Arrive(s: State, n: NodeId): State {
    var e := s.entity.(currentNode := Some(n), status := Running);
    s.(entity := e, row := e)
  }

  function Block(s: State): State {
    var e := s.entity.(status := InstanceBlocked);
    s.(entity := e, row := e)
  }

  predicate OpenTaskAt(tasks: seq<Task>, n: NodeId) {
    exists k | 0 <= k < |tasks| :: tasks[k].IsOpen() && tasks[k].node == n
  }

  predicate SomeBlocked(tasks: seq<Task>) {
    exists k | 0 <= k < |tasks| :: tasks[k].status.Blocked?
  }

  function FirstActive(tokens: seq<Token>, from: nat): (i: nat)
    requires from < |tokens| && exists u | from <= u < |tokens| :: tokens[u].status.Active?
    ensures from <= i < |tokens| && tokens[i].status.Active?
    decreases |tokens| - from
  {
    if tokens[from].status.Active? then from else FirstActive(tokens, from + 1)
  }

  /** The status recomputed from what remains. Only the stored row is touched. */
  function Refresh(s: State, now: int): State {
    var active := ActiveTokens(s.tokens);
    if active == {} then s.(row := Instance(InstanceCompleted, None, Some(now)))
    else
      assert exists u | 0 <= u < |s.tokens| :: s.tokens[u].status.Active? by {
        var u :| u in active;
      }
      s.(row := s.row.(
        status := if SomeBlocked(s.tasks) then InstanceBlocked else Running,
        currentNode := if |active| == 1 then Some(s.tokens[FirstActive(s.tokens, 0)].node) else s.row.currentNode))
  }

  // ---------------------------------------------------------- one visit

  /** How a visit ends: at rest, with one token to follow, or with branches to open in turn. */
  datatype Hop =
    | Halt(state: State)
    | Go(state: State, next: nat, cost: nat)
    | Fork(state: State, edges: seq<Edge>)

  function Roles(a: Assignees): map<UserId, Role> {
    map u | u in a.executors + a.observers ::
      if u in a.executors then (if |a.executors| == 1 then Assignee else Candidate) else Watcher
  }

  function AssigneesAt(env: Env, n: NodeId): Assignees {
    if n in env.directory then env.directory[n] else Assignees({}, {})
  }

  function OpenTask(node: Node, env: Env, s: State, t: nat): State
    requires t < |s.tokens|
  {
    var n := s.tokens[t].node;
    if OpenTaskAt(s.tasks, n) then s
    else
      var a := AssigneesAt(env, n);
      var task := Task(n, node.name, Pending, None, None, Some(t), map[]);
      if a.executors == {} then Block(s.(tasks := s.tasks + [task.(status := Blocked)]))
      else s.(tasks := s.tasks + [task.(assignments := Roles(a))])
  }

  function Finish(env: Env, s: State, t: nat): State
    requires t < |s.tokens|
  {
    Refresh(s.(tokens := Consume(s.tokens, {t}, env.now), firings := s.firings + [Ended(s.tokens[t].node)]), env.now)
  }

  /** Consume a token and put one on the target. */
  function Shift(env: Env, s: State, t: nat, target: NodeId): State
    requires t < |s.tokens|
  {
    s.(tokens := Consume(s.tokens, {t}, env.now) + [NewToken(target, s.tokens[t].branchKey)],
       firings := s.firings + [Passed(s.tokens[t].node)])
  }

  function Pass(g: Graph, env: Env, s: State, t: nat): Hop
    requires t < |s.tokens|
  {
    var n := s.tokens[t].node;
    match g.Selected(n, env.context)
    case None => Halt(Block(s))
    case Some(e) =>
      var entry := LogEntry(None, None, e.actionKey, Some(n), Some(e.target), map["automatic" := Bool(true)], None);
      Go(Shift(env, s.(log := s.log + [entry]), t, e.target), |s.tokens|, 2)
  }

  function Join(g: Graph, env: Env, s: State, t: nat): Hop
    requires t < |s.tokens| && s.tokens[t].node in g.nodes
  {
    var n := s.tokens[t].node;
    var waiting := Waiting(s.tokens, n);
    if |waiting| as real < g.Threshold(n) then Halt(s)
    else
      var tokens := Consume(s.tokens, waiting, env.now);
      match g.Selected(n, env.context)
      case None => Halt(Block(s.(tokens := tokens, firings := s.firings + [Joined(n, |waiting|, 0)])))
      case Some(e) =>
        Go(s.(tokens := tokens + [NewToken(e.target, s.tokens[t].branchKey)],
              firings := s.firings + [Joined(n, |waiting|, 1)]), |s.tokens|, 1)
  }

  function Divide(g: Graph, env: Env, s: State, t: nat): Hop
    requires t < |s.tokens|
  {
    var n := s.tokens[t].node;
    var branches := g.Branches(n, env.context);
    Fork(s.(tokens := Consume(s.tokens, {t}, env.now), firings := s.firings + [Split(n, |branches|)]), branches)
  }

  function Visit(g: Graph, env: Env, s: State, t: nat): (r: Result<Hop, Error>)
    requires t < |s.tokens|
    ensures r.Err? ==> r.error.NodeMissing?
    ensures r.Ok? && r.value.Go? ==>
              r.value.cost > 0 && r.value.next == |s.tokens| && |r.value.state.tokens| == |s.tokens| + 1
    ensures r.Ok? && !r.value.Go? ==> |r.value.state.tokens| == |s.tokens|
  {
    var n := s.tokens[t].node;
    if n !in g.nodes then Err(NodeMissing)
    else
      var a := Arrive(s, n);
      match g.nodes[n].kind
      case HumanTask => Ok(Halt(OpenTask(g.nodes[n], env, a, t)))
      case End => Ok(Halt(Finish(env, a, t)))
      case ParallelJoin => Ok(Join(g, env, a, t))
      case ParallelSplit => Ok(Divide(g, env, a, t))
      case _ => Ok(Pass(g, env, a, t))
  }

  // -------------------------------------------------------- the recursion

  function Fuel(depth: nat): nat {
    if depth > MAX_DEPTH then 0 else MAX_DEPTH + 1 - depth
  }

  function Activate(g: Graph, env: Env, s: State, t: nat, depth: nat): (r: Result<State, Error>)
    requires t < |s.tokens|
    decreases Fuel(depth), 0
  {
    if depth > MAX_DEPTH then Err(AutomaticLoop)
    else
      match Visit(g, env, s, t)
      case Err(e) => Err(e)
      case Ok(Halt(s')) => Ok(s')
      case Ok(Go(s', next, cost)) =>
        Activate(g, env, s', next, depth + cost)
      case Ok(Fork(s', edges)) => FanOut(g, env, s', edges, depth + 1)
  }

  function Spawn(s: State, e: Edge): State {
    s.(tokens := s.tokens + [NewToken(e.target, Some(e.actionKey))])
  }

  function FanOut(g: Graph, env: Env, s: State, edges: seq<Edge>, depth: nat): (r: Result<State, Error>)
    decreases Fuel(depth), |edges| + 1
  {
    if edges == [] then Ok(s)
    else
      match Activate(g, env, Spawn(s, edges[0]), |s.tokens|, depth)
      case Err(e) => Err(e)
      case Ok(s') => FanOut(g, env, s', edges[1..], depth)
  }

  /** What is left to do after a visit. */
  function After(g: Graph, env: Env, hop: Hop, depth: nat): Result<State, Error>
    requires hop.Go? ==> hop.next < |hop.state.tokens|
  {
    match hop
    case Halt(s) => Ok(s)
    case Go(s, next, cost) => Activate(g, env, s, next, depth + cost)
    case Fork(s, edges) => FanOut(g, env, s, edges, depth + 1)
  }

  lemma ActivateUnfolds(g: Graph, env: Env, s: State, t: nat, depth: nat)
    requires t < |s.tokens|
    ensures Activate(g, env, s, t, depth) ==
            if depth > MAX_DEPTH then Err(AutomaticLoop)
            else if Visit(g, env, s, t).Err? then Err(Visit(g, env, s, t).error)
            else After(g, env, Visit(g, env, s, t).value, depth)
  {
  }

  lemma FanOutUnfolds(g: Graph, env: Env, s: State, e: Edge, rest: seq<Edge>, depth: nat)
    ensures FanOut(g, env, s, [e] + rest, depth) ==
            var first := Activate(g, env, Spawn(s, e), |s.tokens|, depth);
            if first.Err? then first else FanOut(g, env, first.value, rest, depth)
  {
  }
}
