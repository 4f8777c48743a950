/** Where tokens come to rest, and how tasks own them. */
module EngineSafety {
  import opened Outcomes
  import opened Json
  import opened WorkflowGraph
  import opened TokenEngine

  // ------------------------------------------------------------ token sets

  lemma AfterConsume(tokens: seq<Token>, ids: set<nat>, now: int)
    ensures ActiveTokens(Consume(tokens, ids, now)) == ActiveTokens(tokens) - ids
    ensures forall n :: Waiting(Consume(tokens, ids, now), n) == Waiting(tokens, n) - ids
  {
  }

  lemma AfterAppend(tokens: seq<Token>, n: NodeId, branchKey: Option<string>)
    ensures ActiveTokens(tokens + [NewToken(n, branchKey)]) == ActiveTokens(tokens) + {|tokens|}
    ensures forall m :: Waiting(tokens + [NewToken(n, branchKey)], m)
                        == Waiting(tokens, m) + (if m == n then {|tokens|} else {})
  {
  }

  // ------------------------------------------------------------ invariants

  /** Token `u` has nothing left to do on its own, when the tokens in `moving` are left out of account. */
  ghost predicate Resting(g: Graph, context: Value, tokens: seq<Token>, moving: set<nat>, u: nat)
    requires u < |tokens|
  {
    var n := tokens[u].node;
    n in g.nodes &&
    match g.nodes[n].kind
    case HumanTask => true
    case ParallelJoin => |Waiting(tokens, n) - moving| as real < g.Threshold(n)
    case ParallelSplit => false
    case End => false
    case _ => g.Selected(n, context).None?
  }

  ghost predicate Quiescent(g: Graph, context: Value, tokens: seq<Token>, moving: set<nat>) {
    forall u | u in ActiveTokens(tokens) - moving :: Resting(g, context, tokens, moving, u)
  }

  /** Every open task names its own active token, on its own node; no node has two open tasks. */
  ghost predicate TasksOwnTokens(g: Graph, s: State) {
    && (forall k | 0 <= k < |s.tasks| && s.tasks[k].IsOpen() ::
          && s.tasks[k].node in g.nodes && g.nodes[s.tasks[k].node].kind.HumanTask?
          && s.tasks[k].tokenId.Some? && s.tasks[k].tokenId.value in Waiting(s.tokens, s.tasks[k].node))
    && (forall j, k | 0 <= j < k < |s.tasks| && s.tasks[j].IsOpen() && s.tasks[k].IsOpen() ::
          s.tasks[j].node != s.tasks[k].node)
  }

  /** The stored row is stamped exactly when completed, and then no token is left. */
  ghost predicate DoneWhenCompleted(s: State) {
    && s.entity.completedAt.None?
    && (s.row.completedAt.Some? <==> s.row.status.InstanceCompleted?)
    && (s.row.status.InstanceCompleted? ==> ActiveTokens(s.tokens) == {})
  }

  /** What holds between transactions. */
  ghost predicate Settled(g: Graph, context: Value, s: State) {
    Quiescent(g, context, s.tokens, {}) && TasksOwnTokens(g, s) && DoneWhenCompleted(s)
  }

  /** What holds while token `t` is on its way: everything else is at rest and no task owns `t`. */
  ghost predicate Moving(g: Graph, context: Value, s: State, t: nat) {
    && t in ActiveTokens(s.tokens) && s.tokens[t].node in g.nodes && s.entity.completedAt.None?
    && Quiescent(g, context, s.tokens, {t})
    && TasksOwnTokens(g, s)
    && forall k | 0 <= k < |s.tasks| && s.tasks[k].IsOpen() :: s.tasks[k].tokenId != Some(t)
  }

  // -------------------------------------------------------------- one visit

  /** Consuming the moving token alone leaves everything at rest. */
  lemma ConsumeMoving(g: Graph, context: Value, s: State, t: nat, now: int)
    requires Moving(g, context, s, t)
    ensures var s' := s.(tokens := Consume(s.tokens, {t}, now));
            Quiescent(g, context, s'.tokens, {}) && TasksOwnTokens(g, s')
  {
    AfterConsume(s.tokens, {t}, now);
    var after := Consume(s.tokens, {t}, now);
    forall u | u in ActiveTokens(after)
      ensures Resting(g, context, after, {}, u)
    {
      assert Resting(g, context, s.tokens, {t}, u);
      assert Waiting(after, after[u].node) - {} == Waiting(s.tokens, s.tokens[u].node) - {t};
    }
  }

  /** A fresh token on a known node starts moving. */
  lemma SpawnMoving(g: Graph, context: Value, s: State, n: NodeId, branchKey: Option<string>)
    requires Quiescent(g, context, s.tokens, {}) && TasksOwnTokens(g, s) && n in g.nodes && s.entity.completedAt.None?
    ensures Moving(g, context, s.(tokens := s.tokens + [NewToken(n, branchKey)]), |s.tokens|)
  {
    var t, after := |s.tokens|, s.tokens + [NewToken(n, branchKey)];
    AfterAppend(s.tokens, n, branchKey);
    forall u | u in ActiveTokens(after) - {t}
      ensures Resting(g, context, after, {t}, u)
    {
      assert Resting(g, context, s.tokens, {}, u);
      assert Waiting(after, after[u].node) - {t} == Waiting(s.tokens, s.tokens[u].node) - {};
    }
    forall k | 0 <= k < |s.tasks| && s.tasks[k].IsOpen()
      ensures s.tasks[k].tokenId.Some? && s.tasks[k].tokenId.value in Waiting(after, s.tasks[k].node)
      ensures s.tasks[k].tokenId != Some(t)
    {
      assert s.tasks[k].tokenId.value in Waiting(s.tokens, s.tasks[k].node);
    }
  }

  /** A firing join eats every token that waits on it, and nothing else. */
  lemma ConsumeWaiting(g: Graph, context: Value, s: State, t: nat, now: int)
    requires Moving(g, context, s, t) && g.nodes[s.tokens[t].node].kind.ParallelJoin?
    ensures var s' := s.(tokens := Consume(s.tokens, Waiting(s.tokens, s.tokens[t].node), now));
            Quiescent(g, context, s'.tokens, {}) && TasksOwnTokens(g, s')
  {
    var n := s.tokens[t].node;
    var waiting := Waiting(s.tokens, n);
    var after := Consume(s.tokens, waiting, now);
    AfterConsume(s.tokens, waiting, now);
    forall u | u in ActiveTokens(after)
      ensures Resting(g, context, after, {}, u)
    {
      assert Resting(g, context, s.tokens, {t}, u);
      var m := s.tokens[u].node;
      assert m != n;
      assert Waiting(after, m) - {} == Waiting(s.tokens, m) - {t};
    }
    forall k | 0 <= k < |s.tasks| && s.tasks[k].IsOpen()
      ensures s.tasks[k].tokenId.value in Waiting(after, s.tasks[k].node)
    {
      assert s.tasks[k].node != n;
    }
  }

  /** A token that stays where it arrived, on a node where it may rest. */
  lemma StayMoving(g: Graph, context: Value, s: State, t: nat)
    requires Moving(g, context, s, t) && Resting(g, context, s.tokens, {}, t)
    ensures Quiescent(g, context, s.tokens, {})
  {
    forall u | u in ActiveTokens(s.tokens)
      ensures Resting(g, context, s.tokens, {}, u)
    {
      if u != t {
        assert Resting(g, context, s.tokens, {t}, u);
        var n := s.tokens[u].node;
        if s.tokens[t].node == n {
          assert Waiting(s.tokens, n) - {} == Waiting(s.tokens, s.tokens[t].node) - {};
        } else {
          assert Waiting(s.tokens, n) - {} == Waiting(s.tokens, n) - {t};
        }
      }
    }
  }

  lemma OpenTaskOwns(g: Graph, env: Env, s: State, t: nat)
    requires Moving(g, env.context, s, t) && g.nodes[s.tokens[t].node].kind.HumanTask?
    ensures TasksOwnTokens(g, OpenTask(g.nodes[s.tokens[t].node], env, s, t))
  {
  }

  ghost predicate HopSafe(g: Graph, context: Value, hop: Hop) {
    match hop
    case Halt(s) => Settled(g, context, s)
    case Go(s, next, _) => Moving(g, context, s, next)
    case Fork(s, edges) => Settled(g, context, s) && forall e | e in edges :: e.target in g.nodes
  }

  lemma VisitSafe(g: Graph, env: Env, s: State, t: nat)
    requires g.Closed() && Moving(g, env.context, s, t)
    ensures Visit(g, env, s, t).Ok? && HopSafe(g, env.context, Visit(g, env, s, t).value)
  {
    var n := s.tokens[t].node;
    var a := Arrive(s, n);
    assert Moving(g, env.context, a, t);
    match g.nodes[n].kind {
      case HumanTask =>
        OpenTaskOwns(g, env, a, t);
        StayMoving(g, env.context, a, t);
      case End =>
        ConsumeMoving(g, env.context, a, t, env.now);
      case ParallelSplit =>
        ConsumeMoving(g, env.context, a, t, env.now);
      case ParallelJoin =>
        JoinSafe(g, env, a, t);
      case _ =>
        PassSafe(g, env, a, t);
    }
  }

  lemma JoinSafe(g: Graph, env: Env, s: State, t: nat)
    requires g.Closed() && Moving(g, env.context, s, t) && g.nodes[s.tokens[t].node].kind.ParallelJoin?
    requires s.row.status.Running? && s.row.completedAt.None?
    ensures HopSafe(g, env.context, Join(g, env, s, t))
  {
    var n := s.tokens[t].node;
    var waiting := Waiting(s.tokens, n);
    if |waiting| as real < g.Threshold(n) {
      assert waiting - {} == waiting;
      StayMoving(g, env.context, s, t);
    } else {
      ConsumeWaiting(g, env.context, s, t, env.now);
      var s1 := s.(tokens := Consume(s.tokens, waiting, env.now));
      match g.Selected(n, env.context)
      case None =>
      case Some(e) =>
        assert e in g.Outgoing(n);
        SpawnMoving(g, env.context, s1, e.target, s.tokens[t].branchKey);
        assert Moving(g, env.context, Join(g, env, s, t).state, |s.tokens|);
    }
  }

  lemma PassSafe(g: Graph, env: Env, s: State, t: nat)
    requires g.Closed() && Moving(g, env.context, s, t)
    requires g.nodes[s.tokens[t].node].kind in {NodeType.Start, ServiceTask, Condition}
    requires s.row.status.Running? && s.row.completedAt.None?
    ensures HopSafe(g, env.context, Pass(g, env, s, t))
  {
    var n := s.tokens[t].node;
    match g.Selected(n, env.context)
    case None =>
      StayMoving(g, env.context, s, t);
    case Some(e) =>
      assert e in g.Outgoing(n);
      ShiftMoving(g, env, s, t, e.target);
      assert Moving(g, env.context, Pass(g, env, s, t).state, |s.tokens|);
  }

  lemma ShiftMoving(g: Graph, env: Env, s: State, t: nat, target: NodeId)
    requires Moving(g, env.context, s, t) && target in g.nodes
    ensures Moving(g, env.context, Shift(env, s, t, target), |s.tokens|)
  {
    ConsumeMoving(g, env.context, s, t, env.now);
    SpawnMoving(g, env.context, s.(tokens := Consume(s.tokens, {t}, env.now)), target, s.tokens[t].branchKey);
  }

  // ---------------------------------------------------------- the recursion

  /** A transaction's token work ends settled, or is refused by the depth guard and by nothing else. */
  lemma {:induction false} ActivateSafe(g: Graph, env: Env, s: State, t: nat, depth: nat)
    requires g.Closed() && Moving(g, env.context, s, t)
    ensures match Activate(g, env, s, t, depth)
            case Ok(s') => Settled(g, env.context, s')
            case Err(e) => e.AutomaticLoop?
    decreases Fuel(depth), 0
  {
    hide Visit;
    if depth <= MAX_DEPTH {
      VisitSafe(g, env, s, t);
      var hop := Visit(g, env, s, t).value;
      if hop.Go? {
        ActivateSafe(g, env, hop.state, hop.next, depth + hop.cost);
      } else if hop.Fork? {
        FanOutSafe(g, env, hop.state, hop.edges, depth + 1);
      }
    }
  }

  lemma {:induction false} FanOutSafe(g: Graph, env: Env, s: State, edges: seq<Edge>, depth: nat)
    requires g.Closed() && Settled(g, env.context, s) && forall e | e in edges :: e.target in g.nodes
    ensures match FanOut(g, env, s, edges, depth)
            case Ok(s') => Settled(g, env.context, s')
            case Err(e) => e.AutomaticLoop?
    decreases Fuel(depth), |edges| + 1
  {
    if edges != [] {
      SpawnMoving(g, env.context, s, edges[0].target, Some(edges[0].actionKey));
      var first := Activate(g, env, Spawn(s, edges[0]), |s.tokens|, depth);
      ActivateSafe(g, env, Spawn(s, edges[0]), |s.tokens|, depth);
      if first.Ok? {
        FanOutSafe(g, env, first.value, edges[1..], depth);
      }
    }
  }
}
