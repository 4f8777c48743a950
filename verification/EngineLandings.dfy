/** Where the tokens of one transaction come to stand on human steps. */
module EngineLandings {
  import opened Json
  import opened Outcomes
  import opened WorkflowGraph
  import opened TokenEngine
  import opened EngineSafety
  import opened EngineDepth
  import opened EngineMarking
  import Conditions

  predicate OnHuman(g: Graph, n: NodeId) {
    n in g.nodes && g.nodes[n].kind.HumanTask?
  }

  // ------------------------------------------------------------------ landings

  /** The human steps that a token from `n` and its branches reach on their own, in the order in which they get there. */
  function Landings(g: Graph, context: Value, n: NodeId, budget: int): seq<NodeId>
    decreases if budget < 0 then 0 else budget + 1, 0
  {
    if budget < 0 then []
    else if OnHuman(g, n) then [n]
    else LandingsOf(g, context, Onward(g, context, n), budget - Cost(g, n))
  }

  function LandingsOf(g: Graph, context: Value, edges: seq<Edge>, budget: int): seq<NodeId>
    decreases if budget < 0 then 0 else budget + 1, |edges| + 1
  {
    if edges == [] then []
    else Landings(g, context, edges[0].target, budget) + LandingsOf(g, context, edges[1..], budget)
  }

  predicate Distinct(l: seq<NodeId>) {
    forall i, j | 0 <= i < j < |l| :: l[i] != l[j]
  }

  function Times(l: seq<NodeId>, n: NodeId): nat {
    if l == [] then 0 else (if l[0] == n then 1 else 0) + Times(l[1..], n)
  }

  lemma {:induction false} TimesAppend(a: seq<NodeId>, b: seq<NodeId>, n: NodeId)
    ensures Times(a + b, n) == Times(a, n) + Times(b, n)
  {
    if a == [] {
      assert a + b == b;
    } else {
      TimesAppend(a[1..], b, n);
      assert (a + b)[1..] == a[1..] + b;
    }
  }

  lemma {:induction false} TimesMember(l: seq<NodeId>, n: NodeId)
    ensures Times(l, n) > 0 <==> n in l
  {
    if l != [] {
      TimesMember(l[1..], n);
    }
  }

  lemma DistinctHead(l: seq<NodeId>)
    requires l != []
    ensures Distinct(l) <==> l[0] !in l[1..] && Distinct(l[1..])
  {
    var rest := l[1..];
    assert forall i | 0 <= i < |rest| :: rest[i] == l[i + 1];
    if l[0] !in rest && Distinct(rest) {
      forall i, j | 0 <= i < j < |l|
        ensures l[i] != l[j]
      {
        assert l[j] == rest[j - 1] && (i > 0 ==> l[i] == rest[i - 1]);
      }
    }
  }

  lemma {:induction false} DistinctIffOnce(l: seq<NodeId>)
    ensures Distinct(l) <==> forall n :: Times(l, n) <= 1
  {
    if l != [] {
      var rest := l[1..];
      DistinctHead(l);
      DistinctIffOnce(rest);
      hide Distinct;
      if Distinct(l) {
        forall n
          ensures Times(l, n) <= 1
        {
          TimesMember(rest, n);
          assert Times(rest, n) <= 1;
        }
      } else if l[0] in rest {
        TimesMember(rest, l[0]);
        assert Times(l, l[0]) > 1;
      } else {
        var n :| Times(rest, n) > 1;
        assert Times(l, n) > 1;
      }
    }
  }

  // ------------------------------------------------------- landings of a play

  /** What a play adds to human steps are its landings. */
  lemma {:induction false} PlayLands(g: Graph, context: Value, m: Marking, n: NodeId, budget: int)
    requires Play(g, context, m, n, budget).Some?
    ensures var p := Play(g, context, m, n, budget).value;
            && (forall h | h in p.landings :: OnHuman(g, h))
            && forall h | OnHuman(g, h) :: p.marking[h] == m[h] + Times(p.landings, h)
    decreases if budget < 0 then 0 else budget + 1, 0
  {
    hide Graph.Selected, Graph.Branches, Graph.Threshold;
    assert [n][1..] == [];
    match g.nodes[n].kind
    case HumanTask =>
    case End =>
    case ParallelJoin =>
      if !((m[n] + 1) as real < g.Threshold(n)) && g.Selected(n, context).Some? {
        PlayLands(g, context, m[n := 0], g.Selected(n, context).value.target, budget - 1);
      }
    case ParallelSplit => PlayAllLands(g, context, m, g.Branches(n, context), budget - 1);
    case _ =>
      if g.Selected(n, context).Some? {
        PlayLands(g, context, m, g.Selected(n, context).value.target, budget - 2);
      }
  }

  lemma {:induction false} PlayAllLands(g: Graph, context: Value, m: Marking, edges: seq<Edge>, budget: int)
    requires PlayAll(g, context, m, edges, budget).Some?
    ensures var p := PlayAll(g, context, m, edges, budget).value;
            && (forall h | h in p.landings :: OnHuman(g, h))
            && forall h | OnHuman(g, h) :: p.marking[h] == m[h] + Times(p.landings, h)
    decreases if budget < 0 then 0 else budget + 1, |edges| + 1
  {
    hide Play;
    if edges != [] {
      PlayLands(g, context, m, edges[0].target, budget);
      var first := Play(g, context, m, edges[0].target, budget).value;
      PlayAllLands(g, context, first.marking, edges[1..], budget);
      var rest := PlayAll(g, context, first.marking, edges[1..], budget).value;
      forall h
        ensures Times(first.landings + rest.landings, h) == Times(first.landings, h) + Times(rest.landings, h)
      {
        TimesAppend(first.landings, rest.landings, h);
      }
      hide Times;
    }
  }

  /** `a` lands nowhere more often than `b`. */
  ghost predicate Within(a: seq<NodeId>, b: seq<NodeId>) {
    forall n :: Times(a, n) <= Times(b, n)
  }

  lemma WithinAppend(a: seq<NodeId>, b: seq<NodeId>, c: seq<NodeId>, d: seq<NodeId>)
    requires Within(a, c) && Within(b, d)
    ensures Within(a + b, c + d)
  {
    forall n
      ensures Times(a + b, n) <= Times(c + d, n)
    {
      TimesAppend(a, b, n);
      TimesAppend(c, d, n);
    }
  }

  lemma JoinLandings(g: Graph, context: Value, n: NodeId, budget: int)
    requires n in g.nodes && g.nodes[n].kind.ParallelJoin? && budget >= 0
    ensures g.Selected(n, context).Some? ==>
              Landings(g, context, n, budget) == Landings(g, context, g.Selected(n, context).value.target, budget - 1)
  {
    hide Graph.Selected, Graph.Threshold;
    if g.Selected(n, context).Some? {
      LandingsOfOne(g, context, [g.Selected(n, context).value], budget - 1);
    }
  }

  /** A play lands on no more than lies ahead; where no join holds a token back, on all of it. */
  lemma {:induction false} PlaysWithin(g: Graph, context: Value, m: Marking, n: NodeId, budget: int)
    requires Play(g, context, m, n, budget).Some?
    ensures var p := Play(g, context, m, n, budget).value;
            && Within(p.landings, Landings(g, context, n, budget))
            && (JoinsNeverWait(g) ==> p.landings == Landings(g, context, n, budget))
    decreases if budget < 0 then 0 else budget + 1, 0
  {
    hide Graph.Selected, Graph.Branches, Graph.Threshold, Times;
    forall n
      ensures Times([], n) == 0
    {
      NoTimes(n);
    }
    match g.nodes[n].kind
    case HumanTask =>
    case End =>
    case ParallelJoin =>
      JoinLandings(g, context, n, budget);
      if g.Selected(n, context).Some? && !((m[n] + 1) as real < g.Threshold(n)) {
        PlaysWithin(g, context, m[n := 0], g.Selected(n, context).value.target, budget - 1);
      }
    case ParallelSplit => AllPlayWithin(g, context, m, g.Branches(n, context), budget - 1);
    case _ =>
      if g.Selected(n, context).Some? {
        var e := g.Selected(n, context).value;
        LandingsOfOne(g, context, [e], budget - 2);
        PlaysWithin(g, context, m, e.target, budget - 2);
      }
  }

  lemma NoTimes(n: NodeId)
    ensures Times([], n) == 0
  {
  }

  lemma {:induction false} AllPlayWithin(g: Graph, context: Value, m: Marking, edges: seq<Edge>, budget: int)
    requires PlayAll(g, context, m, edges, budget).Some?
    ensures var p := PlayAll(g, context, m, edges, budget).value;
            && Within(p.landings, LandingsOf(g, context, edges, budget))
            && (JoinsNeverWait(g) ==> p.landings == LandingsOf(g, context, edges, budget))
    decreases if budget < 0 then 0 else budget + 1, |edges| + 1
  {
    hide Play, Landings, JoinsNeverWait;
    if edges != [] {
      PlaysWithin(g, context, m, edges[0].target, budget);
      var first := Play(g, context, m, edges[0].target, budget).value;
      AllPlayWithin(g, context, first.marking, edges[1..], budget);
      var rest := PlayAll(g, context, first.marking, edges[1..], budget).value;
      hide Within;
      WithinAppend(first.landings, rest.landings, Landings(g, context, edges[0].target, budget),
                   LandingsOf(g, context, edges[1..], budget));
    }
  }

  lemma LandingsOfOne(g: Graph, context: Value, edges: seq<Edge>, budget: int)
    requires |edges| == 1
    ensures LandingsOf(g, context, edges, budget) == Landings(g, context, edges[0].target, budget)
  {
    hide Landings;
    assert edges[1..] == [];
    assert LandingsOf(g, context, edges, budget) == Landings(g, context, edges[0].target, budget) + [];
  }

  lemma WithinDistinct(a: seq<NodeId>, b: seq<NodeId>)
    requires Within(a, b)
    ensures Distinct(b) ==> Distinct(a)
    ensures forall n | n in a :: n in b
  {
    DistinctIffOnce(a);
    DistinctIffOnce(b);
    hide Distinct, Times;
    forall n
      ensures (Times(a, n) > 0 <==> n in a) && (Times(b, n) > 0 <==> n in b)
    {
      TimesMember(a, n);
      TimesMember(b, n);
    }
    if Distinct(b) {
      forall n
        ensures Times(a, n) <= 1
      {
        assert Times(a, n) <= Times(b, n) <= 1;
      }
    }
  }

  // --------------------------------------------------- tokens on human steps

  /** `after` holds on each human step what `before` held, `gone` aside, and the landings. */
  ghost predicate Lands(g: Graph, before: seq<Token>, gone: set<nat>, after: seq<Token>, landings: seq<NodeId>) {
    forall n | OnHuman(g, n) :: |Waiting(after, n)| == |Waiting(before, n) - gone| + Times(landings, n)
  }

  /** What the engine adds to human steps are the landings of the play, whatever the graph. */
  lemma ActivateLands(g: Graph, env: Env, s: State, t: nat, depth: nat, m: Marking)
    requires g.Closed() && Arrived(g, s, t) && Marked(s.tokens, {t}, m) && Activate(g, env, s, t, depth).Ok?
    ensures var p := Play(g, env.context, m, s.tokens[t].node, MAX_DEPTH - depth);
            && p.Some? && Lands(g, s.tokens, {t}, Activate(g, env, s, t, depth).value.tokens, p.value.landings)
            && forall n | n in p.value.landings :: OnHuman(g, n)
  {
    hide Activate, Play, Graph.Closed, Waiting, Times;
    ActivatePlays(g, env, s, t, depth, m);
    var p, after := Play(g, env.context, m, s.tokens[t].node, MAX_DEPTH - depth).value, Activate(g, env, s, t, depth).value.tokens;
    PlayLands(g, env.context, m, s.tokens[t].node, MAX_DEPTH - depth);
    forall n | OnHuman(g, n)
      ensures |Waiting(after, n)| == |Waiting(s.tokens, n) - {t}| + Times(p.landings, n)
    {
      assert Waiting(after, n) - {} == Waiting(after, n);
    }
  }
}
