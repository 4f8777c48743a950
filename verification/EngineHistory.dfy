/** How tokens, tasks and the log grow, and the arithmetic of tokens over whole runs. */
module EngineHistory {
  import opened Outcomes
  import opened Json
  import opened WorkflowGraph
  import opened TokenEngine
  import opened Tenants
  import opened InstanceActions
  import opened EngineSafety
  import InstanceSafety

  // -------------------------------------------------------------- accounting

  function Gain(f: Firing): int {
    match f
    case Passed(_) => 0
    case Split(_, branches) => branches - 1
    case Joined(_, eaten, emitted) => emitted - eaten
    case Ended(_) => -1
  }

  function Balance(firings: seq<Firing>): int {
    if firings == [] then 0 else Balance(firings[..|firings| - 1]) + Gain(firings[|firings| - 1])
  }

  lemma BalanceAppend(firings: seq<Firing>, f: Firing)
    ensures Balance(firings + [f]) == Balance(firings) + Gain(f)
  {
  }

  /** Every recorded firing was allowed: a join ate at least its threshold, a split opened its enabled branches. */
  ghost predicate Legal(g: Graph, context: Value, f: Firing) {
    f.node in g.nodes &&
    match f
    case Passed(n) => g.nodes[n].kind in {NodeType.Start, ServiceTask, Condition, HumanTask}
    case Split(n, branches) => g.nodes[n].kind.ParallelSplit? && branches == |g.Branches(n, context)|
    case Joined(n, eaten, emitted) =>
      && g.nodes[n].kind.ParallelJoin? && eaten >= 1 && eaten as real >= g.Threshold(n)
      && emitted == (if g.Selected(n, context).Some? then 1 else 0)
    case Ended(n) => g.nodes[n].kind.End?
  }

  ghost predicate AllLegal(g: Graph, context: Value, firings: seq<Firing>) {
    forall i | 0 <= i < |firings| :: Legal(g, context, firings[i])
  }

  /** Tokens keep their identity and go only from active to consumed. */
  ghost predicate TokensOnlyConsumed(before: seq<Token>, after: seq<Token>) {
    && |before| <= |after|
    && forall i | 0 <= i < |before| ::
         after[i] == before[i] || (before[i].status.Active? && after[i].status.Consumed?
                                   && after[i].node == before[i].node && after[i].branchKey == before[i].branchKey)
  }

  /** The consumption time is set exactly on consumed tokens. */
  ghost predicate TimesAgree(tokens: seq<Token>) {
    forall i | 0 <= i < |tokens| :: tokens[i].consumedAt.Some? <==> tokens[i].status.Consumed?
  }

  /** `after` follows `before`, with `owed` branches of a split still to be opened. */
  ghost predicate Later(g: Graph, context: Value, before: State, after: State, owed: int) {
    && TokensOnlyConsumed(before.tokens, after.tokens)
    && (TimesAgree(before.tokens) ==> TimesAgree(after.tokens))
    && before.tasks <= after.tasks && before.log <= after.log
    && (AllLegal(g, context, before.firings) ==> AllLegal(g, context, after.firings))
    && |ActiveTokens(after.tokens)| + owed - |ActiveTokens(before.tokens)|
       == Balance(after.firings) - Balance(before.firings)
  }

  lemma LaterTransitive(g: Graph, context: Value, a: State, b: State, c: State, owed: int, owed': int)
    requires Later(g, context, a, b, owed) && Later(g, context, b, c, owed')
    ensures Later(g, context, a, c, owed + owed')
  {
  }

  // --------------------------------------------------------------- one visit

  lemma ConsumeCount(tokens: seq<Token>, ids: set<nat>, now: int)
    requires ids <= ActiveTokens(tokens)
    ensures TokensOnlyConsumed(tokens, Consume(tokens, ids, now))
    ensures |ActiveTokens(Consume(tokens, ids, now))| == |ActiveTokens(tokens)| - |ids|
  {
    AfterConsume(tokens, ids, now);
  }

  lemma AppendCount(tokens: seq<Token>, n: NodeId, branchKey: Option<string>)
    ensures TokensOnlyConsumed(tokens, tokens + [NewToken(n, branchKey)])
    ensures |ActiveTokens(tokens + [NewToken(n, branchKey)])| == |ActiveTokens(tokens)| + 1
  {
    AfterAppend(tokens, n, branchKey);
  }

  /** A joint step on tokens and firings. */
  lemma LaterStep(g: Graph, context: Value, s: State, s': State, ids: set<nat>, now: int, spawned: seq<Token>,
                  f: Firing, owed: int)
    requires ids <= ActiveTokens(s.tokens) && |spawned| <= 1
    requires forall x | x in spawned :: x == NewToken(x.node, x.branchKey)
    requires s'.tokens == Consume(s.tokens, ids, now) + spawned && s'.firings == s.firings + [f]
    requires s.tasks <= s'.tasks && s.log <= s'.log && Legal(g, context, f)
    requires |spawned| - |ids| + owed == Gain(f)
    ensures Later(g, context, s, s', owed)
  {
    hide Legal;
    ConsumeCount(s.tokens, ids, now);
    var consumed := Consume(s.tokens, ids, now);
    if spawned == [] {
      assert s'.tokens == consumed;
    } else {
      assert spawned == [NewToken(spawned[0].node, spawned[0].branchKey)];
      AppendCount(consumed, spawned[0].node, spawned[0].branchKey);
    }
    BalanceAppend(s.firings, f);
  }

  lemma FinishLater(g: Graph, env: Env, s: State, t: nat)
    requires t in ActiveTokens(s.tokens) && Legal(g, env.context, Ended(s.tokens[t].node))
    ensures Later(g, env.context, s, Finish(env, s, t), 0)
  {
    var s' := s.(tokens := Consume(s.tokens, {t}, env.now), firings := s.firings + [Ended(s.tokens[t].node)]);
    assert Consume(s.tokens, {t}, env.now) + [] == s'.tokens;
    LaterStep(g, env.context, s, s', {t}, env.now, [], Ended(s.tokens[t].node), 0);
  }

  lemma DivideLater(g: Graph, env: Env, s: State, t: nat)
    requires t in ActiveTokens(s.tokens) && s.tokens[t].node in g.nodes
    requires g.nodes[s.tokens[t].node].kind.ParallelSplit?
    ensures Later(g, env.context, s, Divide(g, env, s, t).state, |Divide(g, env, s, t).edges|)
  {
    var n := s.tokens[t].node;
    var branches := g.Branches(n, env.context);
    var s' := Divide(g, env, s, t).state;
    assert Consume(s.tokens, {t}, env.now) + [] == s'.tokens;
    LaterStep(g, env.context, s, s', {t}, env.now, [], Split(n, |branches|), |branches|);
  }

  /** A join takes all or nothing: below its threshold it leaves every token alone, and when it fires it consumes every
      token waiting on it, no other, and adds one at most. */
  lemma JoinTakesAllOrNothing(g: Graph, env: Env, s: State, t: nat)
    requires t < |s.tokens| && s.tokens[t].node in g.nodes
    ensures var n := s.tokens[t].node;
            var waiting, after := Waiting(s.tokens, n), Join(g, env, s, t).state.tokens;
            if |waiting| as real < g.Threshold(n) then after == s.tokens
            else
              && |after| == |s.tokens| + (if g.Selected(n, env.context).Some? then 1 else 0)
              && forall u: nat | u < |s.tokens| ::
                   if u in waiting then after[u].status.Consumed? && after[u].consumedAt == Some(env.now) else after[u] == s.tokens[u]
  {
  }

  lemma JoinLater(g: Graph, env: Env, s: State, t: nat)
    requires t in ActiveTokens(s.tokens) && s.tokens[t].node in g.nodes
    requires g.nodes[s.tokens[t].node].kind.ParallelJoin?
    ensures Later(g, env.context, s, Join(g, env, s, t).state, 0)
    ensures Join(g, env, s, t).Go? ==> |s.tokens| in ActiveTokens(Join(g, env, s, t).state.tokens)
  {
    var n := s.tokens[t].node;
    var waiting := Waiting(s.tokens, n);
    assert t in waiting;
    if |waiting| as real >= g.Threshold(n) {
      var s' := Join(g, env, s, t).state;
      var spawned := match g.Selected(n, env.context)
        case None => []
        case Some(e) => [NewToken(e.target, s.tokens[t].branchKey)];
      assert s'.tokens == Consume(s.tokens, waiting, env.now) + spawned;
      LaterStep(g, env.context, s, s', waiting, env.now, spawned, Joined(n, |waiting|, |spawned|), 0);
    }
  }

  lemma ShiftLater(g: Graph, env: Env, s: State, t: nat, target: NodeId)
    requires t in ActiveTokens(s.tokens) && Legal(g, env.context, Passed(s.tokens[t].node))
    ensures Later(g, env.context, s, Shift(env, s, t, target), 0)
    ensures |s.tokens| in ActiveTokens(Shift(env, s, t, target).tokens)
  {
    LaterStep(g, env.context, s, Shift(env, s, t, target), {t}, env.now,
              [NewToken(target, s.tokens[t].branchKey)], Passed(s.tokens[t].node), 0);
  }

  lemma PassLater(g: Graph, env: Env, s: State, t: nat)
    requires t in ActiveTokens(s.tokens) && Legal(g, env.context, Passed(s.tokens[t].node))
    ensures Later(g, env.context, s, Pass(g, env, s, t).state, 0)
    ensures Pass(g, env, s, t).Go? ==> |s.tokens| in ActiveTokens(Pass(g, env, s, t).state.tokens)
  {
    var selected := g.Selected(s.tokens[t].node, env.context);
    if selected.Some? {
      var s' := Pass(g, env, s, t).state;
      ShiftLater(g, env, s.(log := s'.log), t, selected.value.target);
      assert s' == Shift(env, s.(log := s'.log), t, selected.value.target);
    }
  }

  lemma VisitLater(g: Graph, env: Env, s: State, t: nat)
    requires t in ActiveTokens(s.tokens) && Visit(g, env, s, t).Ok?
    ensures var hop := Visit(g, env, s, t).value;
            Later(g, env.context, s, hop.state, if hop.Fork? then |hop.edges| else 0)
    ensures var hop := Visit(g, env, s, t).value;
            hop.Go? ==> hop.next in ActiveTokens(hop.state.tokens)
  {
    var n := s.tokens[t].node;
    var a := Arrive(s, n);
    match g.nodes[n].kind {
      case HumanTask =>
      case End => FinishLater(g, env, a, t);
      case ParallelSplit => DivideLater(g, env, a, t);
      case ParallelJoin => JoinLater(g, env, a, t);
      case _ =>
        PassLater(g, env, a, t);
    }
  }

  // ---------------------------------------------------------- the recursion

  lemma {:induction false} ActivateLater(g: Graph, env: Env, s: State, t: nat, depth: nat)
    requires t in ActiveTokens(s.tokens) && Activate(g, env, s, t, depth).Ok?
    ensures Later(g, env.context, s, Activate(g, env, s, t, depth).value, 0)
    decreases Fuel(depth), 0
  {
    hide Visit;
    VisitLater(g, env, s, t);
    var hop := Visit(g, env, s, t).value;
    if hop.Go? {
      ActivateLater(g, env, hop.state, hop.next, depth + hop.cost);
      LaterTransitive(g, env.context, s, hop.state, Activate(g, env, s, t, depth).value, 0, 0);
    } else if hop.Fork? {
      FanOutLater(g, env, hop.state, hop.edges, depth + 1);
      LaterTransitive(g, env.context, s, hop.state, Activate(g, env, s, t, depth).value, |hop.edges|, -|hop.edges|);
    }
  }

  lemma {:induction false} FanOutLater(g: Graph, env: Env, s: State, edges: seq<Edge>, depth: nat)
    requires FanOut(g, env, s, edges, depth).Ok?
    ensures Later(g, env.context, s, FanOut(g, env, s, edges, depth).value, -|edges|)
    decreases Fuel(depth), |edges| + 1
  {
    if edges != [] {
      var spawned := Spawn(s, edges[0]);
      AppendCount(s.tokens, edges[0].target, Some(edges[0].actionKey));
      AfterAppend(s.tokens, edges[0].target, Some(edges[0].actionKey));
      assert Later(g, env.context, s, spawned, -1);
      ActivateLater(g, env, spawned, |s.tokens|, depth);
      var first := Activate(g, env, spawned, |s.tokens|, depth).value;
      FanOutLater(g, env, first, edges[1..], depth);
      var last := FanOut(g, env, s, edges, depth).value;
      LaterTransitive(g, env.context, s, spawned, first, -1, 0);
      LaterTransitive(g, env.context, s, first, last, -1, -|edges[1..]|);
    }
  }

  // -------------------------------------------------------- one transaction

  /** The accounts of a state: everything happened legally, times agree, and tokens are balanced. */
  ghost predicate Audited(g: Graph, context: Value, s: State) {
    && AllLegal(g, context, s.firings) && TimesAgree(s.tokens)
    && |ActiveTokens(s.tokens)| == 1 + Balance(s.firings)
  }

  lemma StartAudited(g: Graph, env: Env, start: NodeId, actor: Option<UserId>)
    requires StartInstance(g, env, start, actor).Ok?
    ensures Audited(g, env.context, StartInstance(g, env, start, actor).value)
  {
    var s := Fresh(start, actor);
    assert ActiveTokens(s.tokens) == {0};
    ActivateLater(g, env, s, 0, 0);
  }

  /** An accepted action closes its own task and no other, and only consumes or adds tokens. */
  lemma PerformAudited(g: Graph, env: Env, s: State, user: User, req: Request)
    requires g.Closed() && Settled(g, env.context, s) && Audited(g, env.context, s)
    requires Perform(g, env, s, user, req).Ok? && !Replayed(env, s.log, req)
    ensures var s' := Perform(g, env, s, user, req).value;
            var k := Admit(g, env.context, s, user, req).value.task;
            && Admit(g, env.context, s, user, req).Ok? && s.tasks[k].IsOpen()
            && Audited(g, env.context, s')
            && TokensOnlyConsumed(s.tokens, s'.tokens)
            && s.log < s'.log && s'.log[|s.log|].taskId == Some(k) && s'.log[|s.log|].actor == Some(user.id)
            && s'.log[|s.log|].idempotencyKey == req.idempotencyKey
            && s.tasks[k := Close(s.tasks[k], user.id, env.now)] <= s'.tasks
  {
    var a := Admit(g, env.context, s, user, req).value;
    InstanceSafety.EntryMoving(g, env, s, user, req, a);
    var (entered, t) := Entry(env, s, user, req, a).value;
    var moving := s.tasks[a.task].tokenId.value;
    assert moving in Waiting(s.tokens, s.tasks[a.task].node);
    var base := s.(tasks := entered.tasks);
    assert base.log <= entered.log;
    LaterStep(g, env.context, base, entered, {moving}, env.now,
              [NewToken(a.edge.target, s.tokens[moving].branchKey)], Passed(s.tasks[a.task].node), 0);
    ActivateLater(g, env, entered, t, 1);
    LaterTransitive(g, env.context, base, entered, Activate(g, env, entered, t, 1).value, 0, 0);
  }

  // ------------------------------------------------------------- whole runs

  lemma {:induction false} RunAudited(g: Graph, context: Context, s: State, commands: seq<Command>)
    requires g.Closed() && Settled(g, context, s) && Audited(g, context, s)
    requires InstanceSafety.SameContext(context, commands)
    ensures Audited(g, context, RunAll(g, s, commands))
    ensures TokensOnlyConsumed(s.tokens, RunAll(g, s, commands).tokens)
    ensures s.log <= RunAll(g, s, commands).log
    decreases |commands|
  {
    if commands != [] {
      var c := commands[0];
      assert c in commands;
      InstanceSafety.PerformSettled(g, c.env, s, c.user, c.request);
      if Perform(g, c.env, s, c.user, c.request).Ok? && !Replayed(c.env, s.log, c.request) {
        PerformAudited(g, c.env, s, c.user, c.request);
      }
      RunAudited(g, context, Attempt(g, s, c), commands[1..]);
    }
  }

  /** Token accounting over whole runs: active = 1 + sum(split branches - 1) - sum(eaten by joins - emitted) - ends. */
  lemma ReachableAudited(g: Graph, env: Env, start: NodeId, actor: Option<UserId>, commands: seq<Command>)
    requires g.Closed() && StartInstance(g, env, start, actor).Ok?
    requires InstanceSafety.SameContext(env.context, commands)
    ensures Audited(g, env.context, RunAll(g, StartInstance(g, env, start, actor).value, commands))
  {
    InstanceSafety.StartSettled(g, env, start, actor);
    StartAudited(g, env, start, actor);
    RunAudited(g, env.context, StartInstance(g, env, start, actor).value, commands);
  }

  /** A retry is harmless: once accepted, the same non-blank idempotency key changes nothing, then or later. */
  lemma RetryIsNoop(g: Graph, env: Env, s: State, user: User, req: Request, commands: seq<Command>,
                    env': Env, user': User)
    requires g.Closed() && Settled(g, env.context, s) && Audited(g, env.context, s)
    requires req.idempotencyKey.Some? && req.idempotencyKey.value != ""
    requires Perform(g, env, s, user, req).Ok? && !Replayed(env, s.log, req)
    requires InstanceSafety.SameContext(env.context, commands)
    ensures var later := RunAll(g, Perform(g, env, s, user, req).value, commands);
            Perform(g, env', later, user', req) == Ok(later)
  {
    PerformAudited(g, env, s, user, req);
    InstanceSafety.PerformSettled(g, env, s, user, req);
    var s' := Perform(g, env, s, user, req).value;
    RunAudited(g, env.context, s', commands);
    var later := RunAll(g, s', commands);
    assert later.log[|s.log|] == s'.log[|s.log|];
    assert KeyInLog(later.log, req.idempotencyKey.value);
  }
}
