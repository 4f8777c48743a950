/** What every run of an instance keeps. */
module InstanceSafety {
  import opened Outcomes
  import opened Json
  import opened WorkflowGraph
  import opened TokenEngine
  import opened Tenants
  import opened InstanceActions
  import opened EngineSafety

  // -------------------------------------------------------- one transaction

  /** The token named by an open task is there, so the action can only be refused over its idempotency key;
      otherwise exactly that token starts to move and its task is closed. */
  lemma EntryMoving(g: Graph, env: Env, s: State, user: User, req: Request, a: Admission)
    requires g.Closed() && Settled(g, env.context, s)
    requires a.task < |s.tasks| && s.tasks[a.task].IsOpen()
    requires a.edge in g.edges && a.edge.source == s.tasks[a.task].node
    ensures match Entry(env, s, user, req, a)
            case Ok((s', t)) => Moving(g, env.context, s', t) && !s'.tasks[a.task].IsOpen()
            case Err(e) => e.DuplicateKey? && req.idempotencyKey.Some? && KeyUsed(env, s.log, req.idempotencyKey.value)
  {
    var k := a.task;
    var t := s.tasks[k].tokenId.value;
    var closed := s.(entity := s.row, tasks := s.tasks[k := Close(s.tasks[k], user.id, env.now)]);
    assert t in Waiting(s.tokens, s.tasks[k].node);
    assert TokenOf(closed.tokens, s.tasks[k]) == Some(t);
    forall j | 0 <= j < |closed.tasks| && closed.tasks[j].IsOpen()
      ensures j != k && closed.tasks[j] == s.tasks[j] && closed.tasks[j].tokenId != Some(t)
    {
      assert s.tasks[j].tokenId.value in Waiting(s.tokens, s.tasks[j].node);
    }
    assert TasksOwnTokens(g, closed);
    RestingButOne(g, env.context, s.tokens, t);
    var entry := LogEntry(Some(k), Some(user.id), req.actionKey, Some(s.tasks[k].node), Some(a.edge.target),
                          req.payload, req.idempotencyKey);
    var logged := closed.(log := s.log + [entry]);
    assert Moving(g, env.context, logged, t);
    ShiftMoving(g, env, logged, t, a.edge.target);
  }

  /** Taking a token off a human node does not wake anything up. */
  lemma RestingButOne(g: Graph, context: Value, tokens: seq<Token>, t: nat)
    requires Quiescent(g, context, tokens, {}) && t in ActiveTokens(tokens)
    requires tokens[t].node in g.nodes && g.nodes[tokens[t].node].kind.HumanTask?
    ensures Quiescent(g, context, tokens, {t})
  {
    forall u | u in ActiveTokens(tokens) - {t}
      ensures Resting(g, context, tokens, {t}, u)
    {
      assert Resting(g, context, tokens, {}, u);
      var n := tokens[u].node;
      if g.nodes[n].kind.ParallelJoin? {
        assert Waiting(tokens, n) - {t} == Waiting(tokens, n) - {};
      }
    }
  }

  /** What the stored status says about tokens and tasks. */
  ghost predicate StatusAgrees(s: State) {
    && (s.row.status.InstanceCompleted? <==> ActiveTokens(s.tokens) == {})
    && (s.row.status.InstanceBlocked? <==> ActiveTokens(s.tokens) != {} && SomeBlocked(s.tasks))
    && (s.row.completedAt.Some? <==> s.row.status.InstanceCompleted?)
    && (|ActiveTokens(s.tokens)| == 1 ==>
          forall u | u in ActiveTokens(s.tokens) :: s.row.currentNode == Some(s.tokens[u].node))
  }

  lemma RefreshAgrees(g: Graph, context: Value, s: State, now: int)
    requires Settled(g, context, s)
    ensures Settled(g, context, Refresh(s, now)) && StatusAgrees(Refresh(s, now))
  {
    var active := ActiveTokens(s.tokens);
    if active != {} {
      var u :| u in active;
      var first := FirstActive(s.tokens, 0);
      if |active| == 1 {
        assert first in active && |active - {first}| == 0;
      }
    }
  }

  /** After an accepted action everything is at rest and the stored status is a function of tokens and tasks.
      A refusal comes from a check made before any write, or from the depth guard, or from a reused blank key. */
  lemma PerformSettled(g: Graph, env: Env, s: State, user: User, req: Request)
    requires g.Closed() && Settled(g, env.context, s)
    ensures match Perform(g, env, s, user, req)
            case Ok(s') => Settled(g, env.context, s') && (if Replayed(env, s.log, req) then s' == s else StatusAgrees(s'))
            case Err(e) =>
              || e.AutomaticLoop?
              || Admit(g, env.context, s, user, req) == Err(e)
              || (e.DuplicateKey? && req.idempotencyKey == Some(""))
  {
    var admitted := Admit(g, env.context, s, user, req);
    if !Replayed(env, s.log, req) && admitted.Ok? {
      EntryMoving(g, env, s, user, req, admitted.value);
      var entered := Entry(env, s, user, req, admitted.value);
      if entered.Ok? {
        var (s', t) := entered.value;
        ActivateSafe(g, env, s', t, 1);
        var moved := Activate(g, env, s', t, 1);
        if moved.Ok? {
          RefreshAgrees(g, env.context, moved.value, env.now);
        }
      }
    }
  }

  /** The instance's start also leaves everything at rest, or is refused by the depth guard alone. */
  lemma StartSettled(g: Graph, env: Env, start: NodeId, actor: Option<UserId>)
    requires g.Closed()
    ensures match StartInstance(g, env, start, actor)
            case Ok(s) => Settled(g, env.context, s)
            case Err(e) => e.AutomaticLoop? || (e.NoStart? && (start !in g.nodes || !g.nodes[start].kind.Start?))
  {
    if start in g.nodes && g.nodes[start].kind.Start? {
      var s := Fresh(start, actor);
      assert ActiveTokens(s.tokens) == {0};
      ActivateSafe(g, env, s, 0, 0);
    }
  }

  // ------------------------------------------------------------ whole runs

  ghost predicate SameContext(context: Context, commands: seq<Command>) {
    forall c | c in commands :: c.env.context == context
  }

  lemma {:induction false} RunSettled(g: Graph, context: Context, s: State, commands: seq<Command>)
    requires g.Closed() && Settled(g, context, s) && SameContext(context, commands)
    ensures Settled(g, context, RunAll(g, s, commands))
    decreases |commands|
  {
    if commands != [] {
      var c := commands[0];
      assert c in commands;
      PerformSettled(g, c.env, s, c.user, c.request);
      RunSettled(g, context, Attempt(g, s, c), commands[1..]);
    }
  }

  /** Every active token rests on a human task, on a join below its threshold or on an automatic node without an
      enabled exit; every open task owns a distinct active token; a completed instance has no token and no open task. */
  ghost predicate AtRest(g: Graph, context: Value, s: State) {
    && (forall u | u in ActiveTokens(s.tokens) :: s.tokens[u].node in g.nodes && CanWait(g, context, s, s.tokens[u].node))
    && TasksOwnTokens(g, s)
    && (s.row.status.InstanceCompleted? ==>
          ActiveTokens(s.tokens) == {} && forall k | 0 <= k < |s.tasks| :: !s.tasks[k].IsOpen())
  }

  ghost predicate CanWait(g: Graph, context: Value, s: State, n: NodeId)
    requires n in g.nodes
  {
    match g.nodes[n].kind
    case HumanTask => true
    case ParallelJoin => |Waiting(s.tokens, n)| as real < g.Threshold(n)
    case ParallelSplit => false
    case End => false
    case _ => forall e | e in g.edges && e.source == n :: !Open(e, context)
  }

  lemma SettledIsAtRest(g: Graph, context: Value, s: State)
    requires Settled(g, context, s)
    ensures AtRest(g, context, s)
  {
    forall u | u in ActiveTokens(s.tokens)
      ensures s.tokens[u].node in g.nodes && CanWait(g, context, s, s.tokens[u].node)
    {
      assert Resting(g, context, s.tokens, {}, u);
      var n := s.tokens[u].node;
      assert Waiting(s.tokens, n) - {} == Waiting(s.tokens, n);
      NoneSelected(g, n, context);
    }
    forall k | 0 <= k < |s.tasks| && s.tasks[k].IsOpen()
      ensures ActiveTokens(s.tokens) != {}
    {
      assert s.tasks[k].tokenId.value in Waiting(s.tokens, s.tasks[k].node);
      assert s.tasks[k].tokenId.value in ActiveTokens(s.tokens);
    }
  }

  /** Safety over whole runs: from an accepted start, through any sequence of attempts. */
  lemma ReachableAtRest(g: Graph, env: Env, start: NodeId, actor: Option<UserId>, commands: seq<Command>)
    requires g.Closed() && StartInstance(g, env, start, actor).Ok? && SameContext(env.context, commands)
    ensures AtRest(g, env.context, RunAll(g, StartInstance(g, env, start, actor).value, commands))
  {
    StartSettled(g, env, start, actor);
    RunSettled(g, env.context, StartInstance(g, env, start, actor).value, commands);
    SettledIsAtRest(g, env.context, RunAll(g, StartInstance(g, env, start, actor).value, commands));
  }

  lemma NoneSelected(g: Graph, n: NodeId, context: Value)
    ensures g.Selected(n, context).None? <==> forall e | e in g.edges && e.source == n :: !Open(e, context)
  {
    var enabled := Enabled(g.Outgoing(n), context);
    if g.Selected(n, context).None? {
      forall e | e in g.edges && e.source == n
        ensures !Open(e, context)
      {
        assert e in g.Outgoing(n);
        assert e !in enabled;
      }
    } else {
      assert enabled[0] in enabled && enabled[0] in g.Outgoing(n);
    }
  }

  /** A completed instance never changes again. */
  lemma {:induction false} CompletedIsFinal(g: Graph, s: State, commands: seq<Command>)
    requires s.row.status.InstanceCompleted?
    ensures RunAll(g, s, commands) == s
    decreases |commands|
  {
    if commands != [] {
      CompletedIsFinal(g, s, commands[1..]);
    }
  }

  // ------------------------------------------------------- offered actions

  /** The checks of an action sent with an empty payload, in terms of what makes an offer. */
  lemma AdmittedIffEligible(g: Graph, context: Context, s: State, user: User, k: nat, actionKey: string)
    requires Settled(g, context, s) && k < |s.tasks|
    ensures var n := s.tasks[k].node;
            var edge := FindEdge(g.edges, n, actionKey);
            Admit(g, context, s, user, Request(Some(k), actionKey, map[], None)).Ok? <==>
            && Eligible(g, s, user, k) && edge.Some? && Open(edge.value, context)
            && AcceptsPayload(Lookup(Config(g, n), "formFields"), map[], actionKey)
  {
    var req := Request(Some(k), actionKey, map[], None);
    assert Merge(context, map[]) == context;
    TestsAgree(g, s.tasks[k], user);
    hide Permitted, Barred, Involved, Assigned;
    if s.tasks[k].IsOpen() {
      OpenImpliesRunning(g, context, s, k);
      assert CandidateTask(s.tasks, req, k);
    }
    var found := FirstAssigned(s.tasks, user, req, 0);
    assert found.Some? ==> found.value == k;
  }

  lemma OfferedIffEligible(g: Graph, context: Context, s: State, user: User, k: nat, actionKey: string)
    requires g.Deterministic() && Settled(g, context, s) && k < |s.tasks|
    ensures var edge := FindEdge(g.edges, s.tasks[k].node, actionKey);
            (exists o | o in AvailableActions(g, context, s, user) :: o.taskId == Some(k) && o.actionKey == actionKey)
            <==> Eligible(g, s, user, k) && edge.Some? && Open(edge.value, context)
  {
    var n := s.tasks[k].node;
    var offers := AvailableActions(g, context, s, user);
    var edge := FindEdge(g.edges, n, actionKey);
    if Eligible(g, s, user, k) && edge.Some? && Open(edge.value, context) {
      assert FirstEligible(g, s, user, n, 0) == Some(k);
      assert Offer(Some(k), actionKey, edge.value.target) in offers;
    }
    if o :| o in offers && o.taskId == Some(k) && o.actionKey == actionKey {
      var e :| e in g.edges && Open(e, context) && FirstEligible(g, s, user, e.source, 0).Some?
               && o == Offer(FirstEligible(g, s, user, e.source, 0), e.actionKey, e.target);
      assert Eligible(g, s, user, k) && e.source == n;
      UniqueEdge(g, e, edge.value);
    }
  }

  /** With an empty payload and no idempotency key, an action passes every check of `performAction` exactly when
      `availableActions` offers it and the step's form accepts an empty payload. */
  lemma OfferedIffAdmitted(g: Graph, context: Context, s: State, user: User, k: nat, actionKey: string)
    requires g.Deterministic() && Settled(g, context, s) && k < |s.tasks|
    ensures Admit(g, context, s, user, Request(Some(k), actionKey, map[], None)).Ok? <==>
            && (exists o | o in AvailableActions(g, context, s, user) :: o.taskId == Some(k) && o.actionKey == actionKey)
            && AcceptsPayload(Lookup(Config(g, s.tasks[k].node), "formFields"), map[], actionKey)
  {
    AdmittedIffEligible(g, context, s, user, k, actionKey);
    OfferedIffEligible(g, context, s, user, k, actionKey);
  }

  lemma OpenImpliesRunning(g: Graph, context: Context, s: State, k: nat)
    requires Settled(g, context, s) && k < |s.tasks| && s.tasks[k].IsOpen()
    ensures !s.row.status.InstanceCompleted?
  {
    assert s.tasks[k].tokenId.value in Waiting(s.tokens, s.tasks[k].node);
    assert s.tasks[k].tokenId.value in ActiveTokens(s.tokens);
  }

  lemma UniqueEdge(g: Graph, a: Edge, b: Edge)
    requires g.Deterministic() && a in g.edges && b in g.edges
    requires a.source == b.source && a.actionKey == b.actionKey
    ensures a == b
  {
  }

  /** An offered action whose form asks for nothing can then fail on the depth guard only. */
  lemma OfferedOnlyFailsOnDepth(g: Graph, env: Env, s: State, user: User, o: Offer)
    requires g.Closed() && g.Deterministic() && Settled(g, env.context, s)
    requires o in AvailableActions(g, env.context, s, user)
    requires AcceptsPayload(Lookup(Config(g, s.tasks[TaskOf(g, env.context, s, user, o)].node), "formFields"), map[], o.actionKey)
    ensures var r := Perform(g, env, s, user, Request(o.taskId, o.actionKey, map[], None));
            r.Ok? || r == Err(AutomaticLoop)
  {
    var k := TaskOf(g, env.context, s, user, o);
    var req := Request(o.taskId, o.actionKey, map[], None);
    OfferedIffAdmitted(g, env.context, s, user, k, o.actionKey);
    PerformSettled(g, env, s, user, req);
  }

  function TaskOf(g: Graph, context: Context, s: State, user: User, o: Offer): (k: nat)
    requires o in AvailableActions(g, context, s, user)
    ensures k < |s.tasks| && o.taskId == Some(k) && s.tasks[k].IsOpen()
  {
    o.taskId.value
  }
}
