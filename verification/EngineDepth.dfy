/** What the depth guard of the token recursion measures: weighted automatic paths. */
module EngineDepth {
  import opened Outcomes
  import opened Json
  import opened WorkflowGraph
  import opened TokenEngine
  import opened Tenants
  import opened InstanceActions
  import opened EngineSafety
  import InstanceSafety

  /** The edges a token arriving on a node may be sent along within the same transaction. */
  function Onward(g: Graph, context: Value, n: NodeId): seq<Edge> {
    if n !in g.nodes then []
    else
      match g.nodes[n].kind
      case HumanTask => []
      case End => []
      case ParallelSplit => g.Branches(n, context)
      case _ => match g.Selected(n, context) case None => [] case Some(e) => [e]
  }

  /** What leaving a node costs: an automatic hop counts twice, a split or a join once. */
  function Cost(g: Graph, n: NodeId): (c: nat)
    ensures 1 <= c <= 2
  {
    if n in g.nodes && (g.nodes[n].kind.ParallelSplit? || g.nodes[n].kind.ParallelJoin?) then 1 else 2
  }

  // ------------------------------------------------------------------ paths

  ghost predicate Leads(g: Graph, context: Value, a: NodeId, b: NodeId) {
    exists e :: e in Onward(g, context, a) && e.target == b
  }

  ghost predicate Path(g: Graph, context: Value, p: seq<NodeId>) {
    p != [] && (|p| > 1 ==> Leads(g, context, p[0], p[1]) && Path(g, context, p[1..]))
  }

  ghost function Weight(g: Graph, p: seq<NodeId>): nat {
    if |p| <= 1 then 0 else Cost(g, p[0]) + Weight(g, p[1..])
  }

  /** Every automatic path from `n` weighs at most `budget`. */
  ghost predicate Fits(g: Graph, context: Value, n: NodeId, budget: int)
    decreases if budget < 0 then 0 else budget + 1
  {
    budget >= 0 && forall e | e in Onward(g, context, n) :: Fits(g, context, e.target, budget - Cost(g, n))
  }

  lemma {:induction false} FitsAlong(g: Graph, context: Value, p: seq<NodeId>, budget: int)
    requires Path(g, context, p) && Fits(g, context, p[0], budget)
    ensures Fits(g, context, p[|p| - 1], budget - Weight(g, p))
    decreases |p|
  {
    hide Onward;
    if |p| > 1 {
      FitsAlong(g, context, p[1..], budget - Cost(g, p[0]));
    }
  }

  lemma {:induction false} HeavyPath(g: Graph, context: Value, n: NodeId, budget: int) returns (p: seq<NodeId>)
    requires !Fits(g, context, n, budget)
    ensures Path(g, context, p) && p[0] == n && Weight(g, p) > budget
    decreases if budget < 0 then 0 else budget + 1
  {
    hide Onward;
    if budget < 0 {
      p := [n];
    } else {
      var e :| e in Onward(g, context, n) && !Fits(g, context, e.target, budget - Cost(g, n));
      var q := HeavyPath(g, context, e.target, budget - Cost(g, n));
      p := [n] + q;
      assert p[1..] == q && Leads(g, context, n, e.target);
    }
  }

  /** The recursive budget is exactly a bound on path weights. */
  lemma FitsIffPathsFit(g: Graph, context: Value, n: NodeId, budget: int)
    ensures Fits(g, context, n, budget) <==>
            forall p | Path(g, context, p) && p[0] == n :: Weight(g, p) <= budget
  {
    hide Onward, Leads, Weight;
    if Fits(g, context, n, budget) {
      forall p | Path(g, context, p) && p[0] == n
        ensures Weight(g, p) <= budget
      {
        FitsAlong(g, context, p, budget);
      }
    } else {
      var p := HeavyPath(g, context, n, budget);
    }
  }

  /** An automatic cycle fits no budget. */
  lemma {:induction false} CycleNeverFits(g: Graph, context: Value, p: seq<NodeId>, budget: int)
    requires Path(g, context, p) && |p| > 1 && p[0] == p[|p| - 1]
    ensures !Fits(g, context, p[0], budget)
    decreases if budget < 0 then 0 else budget + 1
  {
    hide Onward, Leads;
    if Fits(g, context, p[0], budget) {
      FitsAlong(g, context, p, budget);
      CycleNeverFits(g, context, p, budget - Weight(g, p));
    }
  }

  // -------------------------------------------------------------- the guard

  /** Where a visit sends tokens. */
  lemma VisitGoesOnward(g: Graph, env: Env, s: State, t: nat)
    requires t < |s.tokens| && Visit(g, env, s, t).Ok?
    ensures var n := s.tokens[t].node;
            match Visit(g, env, s, t).value
            case Halt(_) => true
            case Go(s', next, cost) =>
              && cost == Cost(g, n) && next < |s'.tokens|
              && exists e :: e in Onward(g, env.context, n) && e.target == s'.tokens[next].node
            case Fork(_, edges) => edges == Onward(g, env.context, n) && Cost(g, n) == 1
  {
    var n := s.tokens[t].node;
    var hop := Visit(g, env, s, t).value;
    if hop.Go? {
      var e := g.Selected(n, env.context).value;
      assert Onward(g, env.context, n) == [e];
      assert e in Onward(g, env.context, n);
      assert hop.state.tokens[hop.next].node == e.target;
    }
  }

  /** The guard never fires when every automatic path fits what is left of the 64 levels. */
  lemma {:induction false} FittingNeverFails(g: Graph, env: Env, s: State, t: nat, depth: nat)
    requires t < |s.tokens| && Fits(g, env.context, s.tokens[t].node, MAX_DEPTH - depth)
    ensures Activate(g, env, s, t, depth) != Err(AutomaticLoop)
    decreases Fuel(depth), 0
  {
    hide Visit, Onward;
    var v := Visit(g, env, s, t);
    if v.Ok? {
      VisitGoesOnward(g, env, s, t);
      var hop := v.value;
      if hop.Go? {
        FittingNeverFails(g, env, hop.state, hop.next, depth + hop.cost);
      } else if hop.Fork? {
        FittingBranchesNeverFail(g, env, hop.state, hop.edges, depth + 1);
      }
    }
  }

  lemma {:induction false} FittingBranchesNeverFail(g: Graph, env: Env, s: State, edges: seq<Edge>, depth: nat)
    requires forall e | e in edges :: Fits(g, env.context, e.target, MAX_DEPTH - depth)
    ensures FanOut(g, env, s, edges, depth) != Err(AutomaticLoop)
    decreases Fuel(depth), |edges| + 1
  {
    hide Onward;
    if edges != [] {
      FittingNeverFails(g, env, Spawn(s, edges[0]), |s.tokens|, depth);
      var first := Activate(g, env, Spawn(s, edges[0]), |s.tokens|, depth);
      if first.Ok? {
        FittingBranchesNeverFail(g, env, first.value, edges[1..], depth);
      }
    }
  }

  /** No join ever holds a token back: one token is enough for each. So it is in graphs without joins. */
  ghost predicate JoinsNeverWait(g: Graph) {
    forall n | n in g.nodes && g.nodes[n].kind.ParallelJoin? :: g.Threshold(n) <= 1.0
  }

  /** Token `t` is on a node of the graph; if that is a join, it is active there. */
  predicate Arrives(g: Graph, s: State, t: nat) {
    t < |s.tokens| && s.tokens[t].node in g.nodes && (g.nodes[s.tokens[t].node].kind.ParallelJoin? ==> s.tokens[t].status.Active?)
  }

  /** Where no join holds a token back every automatic path is really taken, so the guard fires exactly on the paths that
      do not fit. */
  lemma {:induction false} GuardIsExact(g: Graph, env: Env, s: State, t: nat, depth: nat)
    requires g.Closed() && JoinsNeverWait(g) && Arrives(g, s, t)
    ensures Activate(g, env, s, t, depth) == Err(AutomaticLoop)
            <==> !Fits(g, env.context, s.tokens[t].node, MAX_DEPTH - depth)
    ensures Activate(g, env, s, t, depth).Err? ==> Activate(g, env, s, t, depth).error.AutomaticLoop?
    decreases Fuel(depth), 0
  {
    hide Visit, Onward;
    var n := s.tokens[t].node;
    if depth <= MAX_DEPTH {
      VisitTakesAll(g, env, s, t);
      OnwardClosed(g, env.context, n);
      var hop := Visit(g, env, s, t).value;
      if hop.Go? {
        GuardIsExact(g, env, hop.state, hop.next, depth + hop.cost);
      } else if hop.Fork? {
        FanOutIsExact(g, env, hop.state, hop.edges, depth + 1);
      }
    }
  }

  lemma VisitTakesAll(g: Graph, env: Env, s: State, t: nat)
    requires JoinsNeverWait(g) && Arrives(g, s, t)
    ensures Visit(g, env, s, t).Ok?
    ensures var n := s.tokens[t].node;
            match Visit(g, env, s, t).value
            case Halt(_) => Onward(g, env.context, n) == []
            case Go(s', next, cost) =>
              && cost == Cost(g, n) && next < |s'.tokens| && s'.tokens[next].status.Active?
              && (exists e :: e in Onward(g, env.context, n) && e.target == s'.tokens[next].node)
              && (forall e | e in Onward(g, env.context, n) :: e.target == s'.tokens[next].node)
            case Fork(_, edges) => edges == Onward(g, env.context, n) && Cost(g, n) == 1
  {
    hide From, Enabled, Graph.Threshold, Roles, AssigneesAt, SomeBlocked, FirstActive, OpenTaskAt, Refresh, OpenTask;
    var n := s.tokens[t].node;
    VisitGoesOnward(g, env, s, t);
    assert g.nodes[n].kind.ParallelJoin? ==> t in Waiting(s.tokens, n);
    var hop := Visit(g, env, s, t).value;
    if hop.Go? {
      assert hop.state.tokens[hop.next].node == g.Selected(n, env.context).value.target;
    }
  }

  lemma OnwardClosed(g: Graph, context: Value, n: NodeId)
    requires g.Closed()
    ensures forall e | e in Onward(g, context, n) :: e.target in g.nodes
  {
  }

  lemma {:induction false} FanOutIsExact(g: Graph, env: Env, s: State, edges: seq<Edge>, depth: nat)
    requires g.Closed() && JoinsNeverWait(g) && forall e | e in edges :: e.target in g.nodes
    ensures FanOut(g, env, s, edges, depth) == Err(AutomaticLoop)
            <==> exists e :: e in edges && !Fits(g, env.context, e.target, MAX_DEPTH - depth)
    ensures FanOut(g, env, s, edges, depth).Err? ==> FanOut(g, env, s, edges, depth).error.AutomaticLoop?
    decreases Fuel(depth), |edges| + 1
  {
    if edges != [] {
      GuardIsExact(g, env, Spawn(s, edges[0]), |s.tokens|, depth);
      var first := Activate(g, env, Spawn(s, edges[0]), |s.tokens|, depth);
      assert edges[0] in edges;
      if first.Ok? {
        FanOutIsExact(g, env, first.value, edges[1..], depth);
        assert forall e :: e in edges <==> e == edges[0] || e in edges[1..];
      }
    }
  }

  // -------------------------------------------------------- whole transactions

  lemma EntryOnTarget(env: Env, s: State, user: User, req: Request, a: Admission)
    requires a.task < |s.tasks| && Entry(env, s, user, req, a).Ok?
    ensures var (entered, t) := Entry(env, s, user, req, a).value;
            t < |entered.tokens| && entered.tokens[t].node == a.edge.target
  {
  }

  /** An admitted action is refused by the guard only if some automatic path from its target weighs more than 63. */
  lemma PerformGuard(g: Graph, env: Env, s: State, user: User, req: Request)
    requires g.Closed() && Settled(g, env.context, s)
    requires !Replayed(env, s.log, req) && req.idempotencyKey != Some("") && Admit(g, env.context, s, user, req).Ok?
    ensures var target := Admit(g, env.context, s, user, req).value.edge.target;
            && (Fits(g, env.context, target, MAX_DEPTH - 1) ==> Perform(g, env, s, user, req).Ok?)
            && (JoinsNeverWait(g) ==> (Fits(g, env.context, target, MAX_DEPTH - 1) <==> Perform(g, env, s, user, req).Ok?))
  {
    hide Visit, Onward, Activate, Fits, JoinsNeverWait;
    var a := Admit(g, env.context, s, user, req).value;
    InstanceSafety.EntryMoving(g, env, s, user, req, a);
    InstanceSafety.PerformSettled(g, env, s, user, req);
    EntryOnTarget(env, s, user, req, a);
    hide Entry, Settled, Moving, Admit;
    var (entered, t) := Entry(env, s, user, req, a).value;
    if Fits(g, env.context, a.edge.target, MAX_DEPTH - 1) {
      FittingNeverFails(g, env, entered, t, 1);
    }
    if JoinsNeverWait(g) {
      GuardIsExact(g, env, entered, t, 1);
    }
  }

  /** A start on a known start node is refused only if some automatic path from it weighs more than 64. */
  lemma StartGuard(g: Graph, env: Env, start: NodeId, actor: Option<UserId>)
    requires g.Closed() && start in g.nodes && g.nodes[start].kind.Start?
    ensures Fits(g, env.context, start, MAX_DEPTH) ==> StartInstance(g, env, start, actor).Ok?
    ensures JoinsNeverWait(g) ==> (Fits(g, env.context, start, MAX_DEPTH) <==> StartInstance(g, env, start, actor).Ok?)
  {
    hide Visit, Onward;
    InstanceSafety.StartSettled(g, env, start, actor);
    var s := Fresh(start, actor);
    if Fits(g, env.context, start, MAX_DEPTH) {
      FittingNeverFails(g, env, s, 0, 0);
    }
    if JoinsNeverWait(g) {
      GuardIsExact(g, env, s, 0, 0);
    }
  }
}
