/** The engine played on a marking: how many tokens stand on each node, and nothing else. It decides beforehand whether a
    transaction trips the depth guard, where its tokens land, and whether it completes the instance. */
module EngineMarking {
  import opened Outcomes
  import opened Json
  import opened WorkflowGraph
  import opened TokenEngine
  import opened Tenants
  import opened InstanceActions
  import opened EngineSafety
  import InstanceSafety

  type Marking = multiset<NodeId>

  /** What a token has done by the time it and its branches stop: the marking, the human steps reached, in order, and
      whether the last to stop was at an end. */
  datatype Played = Played(marking: Marking, landings: seq<NodeId>, ended: bool)

  // ------------------------------------------------------------------ the play

  /** A token on `n`, beside the marking, with this many levels left; nothing if the levels run out. */
  function Play(g: Graph, context: Value, m: Marking, n: NodeId, budget: int): Option<Played>
    decreases if budget < 0 then 0 else budget + 1, 0
  {
    if budget < 0 || n !in g.nodes then None
    else
      match g.nodes[n].kind
      case HumanTask => Some(Played(m + multiset{n}, [n], false))
      case End => Some(Played(m, [], true))
      case ParallelJoin =>
        if (m[n] + 1) as real < g.Threshold(n) then Some(Played(m + multiset{n}, [], false))
        else
          (match g.Selected(n, context)
           case None => Some(Played(m[n := 0], [], false))
           case Some(e) => Play(g, context, m[n := 0], e.target, budget - 1))
      case ParallelSplit => PlayAll(g, context, m, g.Branches(n, context), budget - 1)
      case _ =>
        (match g.Selected(n, context)
         case None => Some(Played(m + multiset{n}, [], false))
         case Some(e) => Play(g, context, m, e.target, budget - 2))
  }

  function PlayAll(g: Graph, context: Value, m: Marking, edges: seq<Edge>, budget: int): Option<Played>
    decreases if budget < 0 then 0 else budget + 1, |edges| + 1
  {
    if edges == [] then Some(Played(m, [], false))
    else
      match Play(g, context, m, edges[0].target, budget)
      case None => None
      case Some(first) =>
        match PlayAll(g, context, first.marking, edges[1..], budget)
        case None => None
        case Some(rest) =>
          Some(Played(rest.marking, first.landings + rest.landings, if |edges| == 1 then first.ended else rest.ended))
  }

  // ---------------------------------------------------- what a marking stands for

  ghost predicate Marked(tokens: seq<Token>, gone: set<nat>, m: Marking) {
    forall n :: m[n] == |Waiting(tokens, n) - gone|
  }

  lemma MarkedVia(a: seq<Token>, goneA: set<nat>, b: seq<Token>, goneB: set<nat>, m: Marking)
    requires Marked(a, goneA, m) && forall n :: Waiting(b, n) - goneB == Waiting(a, n) - goneA
    ensures Marked(b, goneB, m)
  {
  }

  /** Token `t` stays where it is. */
  lemma MarkedStays(tokens: seq<Token>, t: nat, m: Marking)
    requires t in ActiveTokens(tokens) && Marked(tokens, {t}, m)
    ensures Marked(tokens, {}, m + multiset{tokens[t].node})
  {
    forall n
      ensures (m + multiset{tokens[t].node})[n] == |Waiting(tokens, n) - {}|
    {
      if n == tokens[t].node {
        assert Waiting(tokens, n) - {} == (Waiting(tokens, n) - {t}) + {t};
      } else {
        assert Waiting(tokens, n) - {} == Waiting(tokens, n) - {t};
      }
    }
  }

  lemma NoneLeftIff(tokens: seq<Token>, m: Marking)
    requires Marked(tokens, {}, m)
    ensures ActiveTokens(tokens) == {} <==> m == multiset{}
  {
    if ActiveTokens(tokens) == {} {
      forall n
        ensures m[n] == 0
      {
        assert Waiting(tokens, n) - {} == {};
      }
      assert m == multiset{};
    }
    forall u | u in ActiveTokens(tokens)
      ensures m[tokens[u].node] > 0
    {
      assert u in Waiting(tokens, tokens[u].node) - {};
    }
    if m == multiset{} {
      assert ActiveTokens(tokens) == {};
    }
  }

  predicate Completed(s: State) {
    s.row.status.InstanceCompleted?
  }

  /** The state is what the play says. */
  ghost predicate Agrees(s: State, p: Played) {
    Marked(s.tokens, {}, p.marking) && (Completed(s) <==> p.ended && p.marking == multiset{})
  }

  // ----------------------------------------------------------------- one visit

  predicate Arrived(g: Graph, s: State, t: nat) {
    t < |s.tokens| && t in ActiveTokens(s.tokens) && s.tokens[t].node in g.nodes
  }

  lemma HumanPlays(g: Graph, env: Env, s: State, t: nat, m: Marking, budget: nat)
    requires Arrived(g, s, t) && Marked(s.tokens, {t}, m) && g.nodes[s.tokens[t].node].kind.HumanTask?
    ensures Visit(g, env, s, t).Ok? && Visit(g, env, s, t).value.Halt?
    ensures var p := Play(g, env.context, m, s.tokens[t].node, budget);
            p.Some? && Agrees(Visit(g, env, s, t).value.state, p.value)
  {
    hide Marked, OpenTaskAt, Roles;
    MarkedStays(s.tokens, t, m);
  }

  lemma EndPlays(g: Graph, env: Env, s: State, t: nat, m: Marking, budget: nat)
    requires Arrived(g, s, t) && Marked(s.tokens, {t}, m) && g.nodes[s.tokens[t].node].kind.End?
    ensures Visit(g, env, s, t).Ok? && Visit(g, env, s, t).value.Halt?
    ensures var p := Play(g, env.context, m, s.tokens[t].node, budget);
            p.Some? && Agrees(Visit(g, env, s, t).value.state, p.value)
  {
    var after := Consume(s.tokens, {t}, env.now);
    AfterConsume(s.tokens, {t}, env.now);
    MarkedVia(s.tokens, {t}, after, {}, m);
    NoneLeftIff(after, m);
    hide Marked, SomeBlocked, FirstActive, Consume;
  }

  lemma SplitPlays(g: Graph, env: Env, s: State, t: nat, m: Marking, budget: nat)
    requires Arrived(g, s, t) && Marked(s.tokens, {t}, m) && g.nodes[s.tokens[t].node].kind.ParallelSplit?
    ensures Visit(g, env, s, t).Ok? && Visit(g, env, s, t).value.Fork?
    ensures var hop := Visit(g, env, s, t).value;
            && Marked(hop.state.tokens, {}, m) && !Completed(hop.state) && (forall e | e in hop.edges :: e in g.edges)
            && Play(g, env.context, m, s.tokens[t].node, budget) == PlayAll(g, env.context, m, hop.edges, budget - 1)
  {
    hide From, PlayAll;
    AfterConsume(s.tokens, {t}, env.now);
    MarkedVia(s.tokens, {t}, Consume(s.tokens, {t}, env.now), {}, m);
    hide Marked, Consume;
  }

  /** The token goes on, as one on the target beside the marking `m'`. */
  ghost predicate GoesOn(g: Graph, context: Value, hop: Hop, m': Marking, p: Option<Played>, budget: nat) {
    && hop.Go? && hop.next in ActiveTokens(hop.state.tokens) && Marked(hop.state.tokens, {hop.next}, m')
    && (exists e :: e in g.edges && e.target == hop.state.tokens[hop.next].node)
    && p == Play(g, context, m', hop.state.tokens[hop.next].node, budget - hop.cost)
  }

  /** Moving on: some tokens are consumed, and there is a new one on the target. */
  lemma MovesOn(g: Graph, env: Env, s: State, s': State, gone: set<nat>, e: Edge, branchKey: Option<string>, cost: nat, m': Marking,
                p: Option<Played>, budget: nat)
    requires s'.tokens == Consume(s.tokens, gone, env.now) + [NewToken(e.target, branchKey)] && e in g.edges
    requires Marked(Consume(s.tokens, gone, env.now), {}, m') && p == Play(g, env.context, m', e.target, budget - cost)
    ensures GoesOn(g, env.context, Go(s', |s.tokens|, cost), m', p, budget)
  {
    hide Play, Marked, ActiveTokens;
    AppendedMark(Consume(s.tokens, gone, env.now), e.target, branchKey, m');
  }

  lemma AppendedMark(tokens: seq<Token>, n: NodeId, branchKey: Option<string>, m: Marking)
    requires Marked(tokens, {}, m)
    ensures Marked(tokens + [NewToken(n, branchKey)], {|tokens|}, m)
    ensures |tokens| in ActiveTokens(tokens + [NewToken(n, branchKey)])
  {
    AfterAppend(tokens, n, branchKey);
    MarkedVia(tokens, {}, tokens + [NewToken(n, branchKey)], {|tokens|}, m);
  }

  lemma SelectedIsEdge(g: Graph, context: Value, n: NodeId)
    requires g.Selected(n, context).Some?
    ensures g.Selected(n, context).value in g.edges
  {
    hide From, Enabled;
    assert g.Selected(n, context).value in Enabled(g.Outgoing(n), context);
  }

  lemma PassPlays(g: Graph, env: Env, s: State, t: nat, m: Marking, budget: nat)
    requires Arrived(g, s, t) && Marked(s.tokens, {t}, m)
    requires var kind := g.nodes[s.tokens[t].node].kind; kind.Start? || kind.ServiceTask? || kind.Condition?
    ensures Visit(g, env, s, t).Ok? && !Visit(g, env, s, t).value.Fork?
    ensures var hop, p := Visit(g, env, s, t).value, Play(g, env.context, m, s.tokens[t].node, budget);
            if hop.Halt? then p.Some? && Agrees(hop.state, p.value) else GoesOn(g, env.context, hop, m, p, budget)
  {
    hide Graph.Selected, Marked, GoesOn, Consume, ActiveTokens;
    var n := s.tokens[t].node;
    if g.Selected(n, env.context).None? {
      MarkedStays(s.tokens, t, m);
    } else {
      var e, hop := g.Selected(n, env.context).value, Visit(g, env, s, t).value;
      SelectedIsEdge(g, env.context, n);
      OneConsumed(s.tokens, t, m, env.now);
      MovesOn(g, env, s, hop.state, {t}, e, s.tokens[t].branchKey, 2, m, Play(g, env.context, m, n, budget), budget);
    }
  }

  lemma OneConsumed(tokens: seq<Token>, t: nat, m: Marking, now: int)
    requires Marked(tokens, {t}, m)
    ensures Marked(Consume(tokens, {t}, now), {}, m)
  {
    AfterConsume(tokens, {t}, now);
    MarkedVia(tokens, {t}, Consume(tokens, {t}, now), {}, m);
  }

  lemma JoinPlays(g: Graph, env: Env, s: State, t: nat, m: Marking, budget: nat)
    requires Arrived(g, s, t) && Marked(s.tokens, {t}, m) && g.nodes[s.tokens[t].node].kind.ParallelJoin?
    ensures Visit(g, env, s, t).Ok? && !Visit(g, env, s, t).value.Fork?
    ensures var n := s.tokens[t].node;
            var hop, p := Visit(g, env, s, t).value, Play(g, env.context, m, n, budget);
            if hop.Halt? then p.Some? && Agrees(hop.state, p.value) else GoesOn(g, env.context, hop, m[n := 0], p, budget)
  {
    hide Graph.Selected, Graph.Threshold, Marked, GoesOn, Consume, ActiveTokens, Waiting;
    var n := s.tokens[t].node;
    var waiting := Waiting(s.tokens, n);
    WaitingCount(s.tokens, t, m);
    MarkedStays(s.tokens, t, m);
    JoinEats(s.tokens, t, m, env.now);
    if !(|waiting| as real < g.Threshold(n)) && g.Selected(n, env.context).Some? {
      var e, hop := g.Selected(n, env.context).value, Visit(g, env, s, t).value;
      SelectedIsEdge(g, env.context, n);
      MovesOn(g, env, s, hop.state, waiting, e, s.tokens[t].branchKey, 1, m[n := 0], Play(g, env.context, m, n, budget), budget);
    }
  }

  lemma WaitingCount(tokens: seq<Token>, t: nat, m: Marking)
    requires t in ActiveTokens(tokens) && Marked(tokens, {t}, m)
    ensures |Waiting(tokens, tokens[t].node)| == m[tokens[t].node] + 1
  {
    var waiting := Waiting(tokens, tokens[t].node);
    assert waiting == (waiting - {t}) + {t};
  }

  /** A firing join clears its node. */
  lemma JoinEats(tokens: seq<Token>, t: nat, m: Marking, now: int)
    requires t in ActiveTokens(tokens) && Marked(tokens, {t}, m)
    ensures Marked(Consume(tokens, Waiting(tokens, tokens[t].node), now), {}, m[tokens[t].node := 0])
  {
    var n := tokens[t].node;
    AfterConsume(tokens, Waiting(tokens, n), now);
    var eaten := Consume(tokens, Waiting(tokens, n), now);
    forall k
      ensures m[n := 0][k] == |Waiting(eaten, k) - {}|
    {
      if k == n {
        assert Waiting(eaten, k) - {} == {};
      } else {
        assert Waiting(eaten, k) - {} == Waiting(tokens, k) - {t};
      }
    }
  }

  // ------------------------------------------------------------ the recursion

  /** The engine does what the play says, on any graph: it fails exactly if the play runs out of levels, and else agrees with
      it on every node. */
  lemma {:induction false} ActivatePlays(g: Graph, env: Env, s: State, t: nat, depth: nat, m: Marking)
    requires g.Closed() && Arrived(g, s, t) && Marked(s.tokens, {t}, m)
    ensures var p, r := Play(g, env.context, m, s.tokens[t].node, MAX_DEPTH - depth), Activate(g, env, s, t, depth);
            if p.None? then r == Err(AutomaticLoop) else r.Ok? && Agrees(r.value, p.value)
    decreases Fuel(depth), 0
  {
    hide Graph.Closed, Marked, Agrees, ActiveTokens, Activate, FanOut, Visit, Play, PlayAll;
    ActivateUnfolds(g, env, s, t, depth);
    if depth > MAX_DEPTH {
      OutOfLevels(g, env.context, m, s.tokens[t].node, MAX_DEPTH - depth);
    } else {
      var n, budget := s.tokens[t].node, MAX_DEPTH - depth;
      var hop := VisitPlays(g, env, s, t, m, budget);
      if hop.Go? {
        var m' := if g.nodes[n].kind.ParallelJoin? then m[n := 0] else m;
        GoneOn(g, env.context, hop, m', Play(g, env.context, m, n, budget), budget);
        ActivatePlays(g, env, hop.state, hop.next, depth + hop.cost, m');
      } else if hop.Fork? && hop.edges == [] {
        NothingOpened(g, env, hop.state, hop.edges, depth + 1, m);
      } else if hop.Fork? {
        TargetsThere(g, hop.edges);
        FanOutPlays(g, env, hop.state, hop.edges, depth + 1, m);
      }
    }
  }

  lemma OutOfLevels(g: Graph, context: Value, m: Marking, n: NodeId, budget: int)
    requires budget < 0
    ensures Play(g, context, m, n, budget).None?
  {
  }

  lemma VisitPlays(g: Graph, env: Env, s: State, t: nat, m: Marking, budget: nat) returns (hop: Hop)
    requires Arrived(g, s, t) && Marked(s.tokens, {t}, m)
    ensures Visit(g, env, s, t) == Ok(hop)
    ensures var n := s.tokens[t].node;
            var p := Play(g, env.context, m, n, budget);
            match hop
            case Halt(s') => p.Some? && Agrees(s', p.value)
            case Go(_, _, _) => GoesOn(g, env.context, hop, if g.nodes[n].kind.ParallelJoin? then m[n := 0] else m, p, budget)
            case Fork(s', edges) =>
              && Marked(s'.tokens, {}, m) && !Completed(s') && (forall e | e in edges :: e in g.edges)
              && p == PlayAll(g, env.context, m, edges, budget - 1)
  {
    hide Visit, Play, PlayAll, Marked, Agrees, GoesOn, ActiveTokens;
    match g.nodes[s.tokens[t].node].kind {
      case HumanTask => HumanPlays(g, env, s, t, m, budget);
      case End => EndPlays(g, env, s, t, m, budget);
      case ParallelJoin => JoinPlays(g, env, s, t, m, budget);
      case ParallelSplit => SplitPlays(g, env, s, t, m, budget);
      case _ => PassPlays(g, env, s, t, m, budget);
    }
    hop := Visit(g, env, s, t).value;
  }

  lemma GoneOn(g: Graph, context: Value, hop: Hop, m': Marking, p: Option<Played>, budget: nat)
    requires g.Closed() && GoesOn(g, context, hop, m', p, budget)
    ensures hop.Go? && Arrived(g, hop.state, hop.next) && Marked(hop.state.tokens, {hop.next}, m')
    ensures p == Play(g, context, m', hop.state.tokens[hop.next].node, budget - hop.cost)
  {
    hide Play, Marked;
  }

  lemma TargetsThere(g: Graph, edges: seq<Edge>)
    requires g.Closed() && forall e | e in edges :: e in g.edges
    ensures forall e | e in edges :: e.target in g.nodes
  {
  }

  lemma NothingOpened(g: Graph, env: Env, s: State, edges: seq<Edge>, depth: nat, m: Marking)
    requires Marked(s.tokens, {}, m) && !Completed(s) && edges == []
    ensures var p, r := PlayAll(g, env.context, m, edges, MAX_DEPTH - depth), FanOut(g, env, s, edges, depth);
            p.Some? && r.Ok? && Agrees(r.value, p.value)
  {
    hide Marked;
  }

  lemma {:induction false} FanOutPlays(g: Graph, env: Env, s: State, edges: seq<Edge>, depth: nat, m: Marking)
    requires g.Closed() && Marked(s.tokens, {}, m) && edges != [] && forall e | e in edges :: e.target in g.nodes
    ensures var p, r := PlayAll(g, env.context, m, edges, MAX_DEPTH - depth), FanOut(g, env, s, edges, depth);
            if p.None? then r == Err(AutomaticLoop) else r.Ok? && Agrees(r.value, p.value)
    decreases Fuel(depth), |edges| + 1
  {
    hide Graph.Closed, Marked, ActiveTokens, Activate, Play;
    var spawned := Spawn(s, edges[0]);
    AppendedMark(s.tokens, edges[0].target, Some(edges[0].actionKey), m);
    ActivatePlays(g, env, spawned, |s.tokens|, depth, m);
    var first := Play(g, env.context, m, edges[0].target, MAX_DEPTH - depth);
    if first.Some? && |edges| > 1 {
      FanOutPlays(g, env, Activate(g, env, spawned, |s.tokens|, depth).value, edges[1..], depth, first.value.marking);
    }
  }

  // ------------------------------------------------------------- transactions

  /** The marking of a state. */
  function MarkingOf(tokens: seq<Token>): Marking {
    if tokens == [] then multiset{}
    else
      var last := tokens[|tokens| - 1];
      MarkingOf(tokens[..|tokens| - 1]) + if last.status.Active? then multiset{last.node} else multiset{}
  }

  lemma {:induction false} MarkingOfCounts(tokens: seq<Token>)
    ensures Marked(tokens, {}, MarkingOf(tokens))
  {
    if tokens == [] {
      assert forall n :: Waiting(tokens, n) - {} == {};
    } else {
      var rest := tokens[..|tokens| - 1];
      MarkingOfCounts(rest);
      forall n
        ensures MarkingOf(tokens)[n] == |Waiting(tokens, n) - {}|
      {
        WaitingLast(tokens, n);
        assert MarkingOf(rest)[n] == |Waiting(rest, n) - {}|;
        hide Waiting;
        assert Waiting(rest, n) - {} == Waiting(rest, n) && Waiting(tokens, n) - {} == Waiting(tokens, n);
      }
    }
  }

  lemma WaitingLast(tokens: seq<Token>, n: NodeId)
    requires tokens != []
    ensures var rest, last := tokens[..|tokens| - 1], tokens[|tokens| - 1];
            && |rest| !in Waiting(rest, n)
            && Waiting(tokens, n) == Waiting(rest, n) + if last.status.Active? && last.node == n then {|rest|} else {}
  {
  }

  /** The play of a start: nothing else is on the graph. */
  function StartPlay(g: Graph, context: Value, start: NodeId): Option<Played> {
    Play(g, context, multiset{}, start, MAX_DEPTH)
  }

  predicate Completes(p: Option<Played>) {
    p.Some? && p.value.ended && p.value.marking == multiset{}
  }

  /** On any graph: a start succeeds exactly if its play does not run out of levels, and completes the instance exactly if the
      play leaves nothing behind and ends at an end. */
  lemma StartPlays(g: Graph, env: Env, start: NodeId, actor: Option<UserId>)
    requires g.Closed() && start in g.nodes && g.nodes[start].kind.Start?
    ensures var r, p := StartInstance(g, env, start, actor), StartPlay(g, env.context, start);
            && (r.Ok? <==> p.Some?) && (r.Err? ==> r.error.AutomaticLoop?)
            && (r.Ok? ==> Agrees(r.value, p.value) && (Completed(r.value) <==> Completes(p)))
  {
    hide Activate, Play, Graph.Closed;
    var s := Fresh(start, actor);
    assert forall n :: Waiting(s.tokens, n) - {0} == {};
    ActivatePlays(g, env, s, 0, 0, multiset{});
    hide Marked;
  }

  /** The play of an action: the token acted on leaves its step and stands on the target, one level deeper. */
  function ActionPlay(g: Graph, context: Value, s: State, a: Admission): Option<Played>
    requires a.task < |s.tasks|
  {
    Play(g, context, MarkingOf(s.tokens) - multiset{s.tasks[a.task].node}, a.edge.target, MAX_DEPTH - 1)
  }

  lemma EntryMarked(g: Graph, env: Env, s: State, user: User, req: Request, a: Admission)
    requires TasksOwnTokens(g, s) && a.task < |s.tasks| && s.tasks[a.task].IsOpen() && Entry(env, s, user, req, a).Ok?
    ensures var (entered, t) := Entry(env, s, user, req, a).value;
            && Marked(entered.tokens, {t}, MarkingOf(s.tokens) - multiset{s.tasks[a.task].node})
            && t in ActiveTokens(entered.tokens) && entered.tokens[t].node == a.edge.target
  {
    var gone, n := s.tasks[a.task].tokenId.value, s.tasks[a.task].node;
    assert gone in Waiting(s.tokens, n);
    MarkingOfCounts(s.tokens);
    var m := MarkingOf(s.tokens) - multiset{n};
    forall k
      ensures m[k] == |Waiting(s.tokens, k) - {gone}|
    {
      assert Waiting(s.tokens, k) - {} == Waiting(s.tokens, k);
      if k == n {
        assert Waiting(s.tokens, k) == (Waiting(s.tokens, k) - {gone}) + {gone};
      } else {
        assert Waiting(s.tokens, k) - {gone} == Waiting(s.tokens, k);
      }
    }
    OneConsumed(s.tokens, gone, m, env.now);
    AppendedMark(Consume(s.tokens, {gone}, env.now), a.edge.target, s.tokens[gone].branchKey, m);
    hide Marked, MarkingOf;
  }

  /** On any graph and in any reachable state: an admitted action succeeds exactly if its play does not run out of levels, and
      leaves the marking the play says. */
  lemma PerformPlays(g: Graph, env: Env, s: State, user: User, req: Request)
    requires g.Closed() && Settled(g, env.context, s)
    requires !Replayed(env, s.log, req) && req.idempotencyKey != Some("") && Admit(g, env.context, s, user, req).Ok?
    ensures var r, p := Perform(g, env, s, user, req), ActionPlay(g, env.context, s, Admit(g, env.context, s, user, req).value);
            (r.Ok? <==> p.Some?) && (r.Ok? ==> Marked(r.value.tokens, {}, p.value.marking))
  {
    hide Activate, Play, Graph.Closed, Marked, Settled, MarkingOf, Admit, Entry, Moving, TasksOwnTokens;
    var a := Admit(g, env.context, s, user, req).value;
    InstanceSafety.EntryMoving(g, env, s, user, req, a);
    SettledOwnsTokens(g, env.context, s);
    EntryMarked(g, env, s, user, req, a);
    var (entered, t) := Entry(env, s, user, req, a).value;
    ActivatePlays(g, env, entered, t, 1, MarkingOf(s.tokens) - multiset{s.tasks[a.task].node});
  }

  lemma SettledOwnsTokens(g: Graph, context: Value, s: State)
    requires Settled(g, context, s)
    ensures TasksOwnTokens(g, s)
  {
  }
}
