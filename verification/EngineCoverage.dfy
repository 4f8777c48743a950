/** When an active token on a human step has an open task of its own, and when it is left without one. */
module EngineCoverage {
  import opened Outcomes
  import opened Json
  import opened WorkflowGraph
  import opened TokenEngine
  import opened Tenants
  import opened InstanceActions
  import opened EngineSafety
  import opened EngineDepth
  import opened EngineLandings
  import opened EngineMarking
  import InstanceSafety
  import EngineHistory

  /** Every human step that holds a token, `moving` ones aside, has an open task. */
  ghost predicate Attended(g: Graph, s: State, moving: set<nat>) {
    forall u | u in ActiveTokens(s.tokens) - moving && OnHuman(g, s.tokens[u].node) ::
      OpenTaskAt(s.tasks, s.tokens[u].node)
  }

  /** Every token on a human step is the token of an open task. */
  ghost predicate Covered(g: Graph, s: State) {
    forall u | u in ActiveTokens(s.tokens) && OnHuman(g, s.tokens[u].node) :: Owned(s, u)
  }

  ghost predicate Owned(s: State, u: nat) {
    exists k | 0 <= k < |s.tasks| :: s.tasks[k].IsOpen() && s.tasks[k].tokenId == Some(u)
  }

  /** No human step holds two tokens. */
  ghost predicate Exclusive(g: Graph, s: State) {
    forall u, v | u in ActiveTokens(s.tokens) && v in ActiveTokens(s.tokens) && OnHuman(g, s.tokens[u].node) ::
      s.tokens[u].node == s.tokens[v].node ==> u == v
  }

  // --------------------------------------------------------------- the engine

  lemma Keeps(g: Graph, s: State, s': State, moving: set<nat>, moving': set<nat>)
    requires Attended(g, s, moving) && s.tasks <= s'.tasks
    requires forall u | u in ActiveTokens(s'.tokens) - moving' ::
               u in ActiveTokens(s.tokens) - moving && s'.tokens[u].node == s.tokens[u].node
    ensures Attended(g, s', moving')
  {
  }

  lemma VisitOpensTask(g: Graph, env: Env, s: State, t: nat)
    requires t < |s.tokens| && Visit(g, env, s, t).Ok? && OnHuman(g, s.tokens[t].node)
    ensures var hop := Visit(g, env, s, t).value;
            hop.Halt? && hop.state.tokens == s.tokens && OpenTaskAt(hop.state.tasks, s.tokens[t].node)
  {
    var n := s.tokens[t].node;
    if !OpenTaskAt(s.tasks, n) {
      var tasks := Visit(g, env, s, t).value.state.tasks;
      assert tasks[|s.tasks|].node == n && tasks[|s.tasks|].IsOpen();
    }
  }

  lemma VisitAttended(g: Graph, env: Env, s: State, t: nat)
    requires t in ActiveTokens(s.tokens) && Attended(g, s, {t}) && Visit(g, env, s, t).Ok?
    ensures var hop := Visit(g, env, s, t).value;
            Attended(g, hop.state, if hop.Go? then {hop.next} else {})
  {
    hide Visit;
    var n := s.tokens[t].node;
    var hop := Visit(g, env, s, t).value;
    EngineHistory.VisitLater(g, env, s, t);
    var moving := if hop.Go? then {hop.next} else {};
    Keeps(g, s, hop.state, {t}, moving + {t});
    if OnHuman(g, n) {
      VisitOpensTask(g, env, s, t);
    }
  }

  lemma {:induction false} ActivateAttended(g: Graph, env: Env, s: State, t: nat, depth: nat)
    requires t in ActiveTokens(s.tokens) && Attended(g, s, {t}) && Activate(g, env, s, t, depth).Ok?
    ensures Attended(g, Activate(g, env, s, t, depth).value, {})
    decreases Fuel(depth), 0
  {
    hide Visit;
    VisitAttended(g, env, s, t);
    EngineHistory.VisitLater(g, env, s, t);
    var hop := Visit(g, env, s, t).value;
    if hop.Go? {
      ActivateAttended(g, env, hop.state, hop.next, depth + hop.cost);
    } else if hop.Fork? {
      FanOutAttended(g, env, hop.state, hop.edges, depth + 1);
    }
  }

  lemma {:induction false} FanOutAttended(g: Graph, env: Env, s: State, edges: seq<Edge>, depth: nat)
    requires Attended(g, s, {}) && FanOut(g, env, s, edges, depth).Ok?
    ensures Attended(g, FanOut(g, env, s, edges, depth).value, {})
    decreases Fuel(depth), |edges| + 1
  {
    if edges != [] {
      var spawned := Spawn(s, edges[0]);
      AfterAppend(s.tokens, edges[0].target, Some(edges[0].actionKey));
      Keeps(g, s, spawned, {}, {|s.tokens|});
      ActivateAttended(g, env, spawned, |s.tokens|, depth);
      FanOutAttended(g, env, Activate(g, env, spawned, |s.tokens|, depth).value, edges[1..], depth);
    }
  }

  // ------------------------------------------------------------ the condition

  /** Given an open task on every occupied human step, each token there has its own task exactly when no two share a step. */
  lemma CoveredIffExclusive(g: Graph, s: State)
    requires TasksOwnTokens(g, s) && Attended(g, s, {})
    ensures Covered(g, s) <==> Exclusive(g, s)
  {
  }

  lemma CoveredIsExclusive(g: Graph, s: State)
    requires TasksOwnTokens(g, s) && Covered(g, s)
    ensures Exclusive(g, s)
  {
  }

  lemma StartExclusive(g: Graph, env: Env, start: NodeId, actor: Option<UserId>)
    requires g.Closed() && StartInstance(g, env, start, actor).Ok?
    ensures var s := StartInstance(g, env, start, actor).value;
            Covered(g, s) <==> Exclusive(g, s)
  {
    var initial := Fresh(start, actor);
    assert ActiveTokens(initial.tokens) == {0};
    InstanceSafety.StartSettled(g, env, start, actor);
    ActivateAttended(g, env, initial, 0, 0);
    CoveredIffExclusive(g, StartInstance(g, env, start, actor).value);
  }

  lemma PerformExclusive(g: Graph, env: Env, s: State, user: User, req: Request)
    requires g.Closed() && Settled(g, env.context, s) && Covered(g, s)
    requires Perform(g, env, s, user, req).Ok?
    ensures var s' := Perform(g, env, s, user, req).value;
            Covered(g, s') <==> Exclusive(g, s')
  {
    CoveredIsExclusive(g, s);
    if !Replayed(env, s.log, req) {
      var a := Admit(g, env.context, s, user, req).value;
      InstanceSafety.EntryMoving(g, env, s, user, req, a);
      var (entered, t) := Entry(env, s, user, req, a).value;
      EntryAttended(g, env, s, user, req, a);
      ActivateAttended(g, env, entered, t, 1);
      InstanceSafety.PerformSettled(g, env, s, user, req);
      CoveredIffExclusive(g, Perform(g, env, s, user, req).value);
    }
  }

  lemma EntryAttended(g: Graph, env: Env, s: State, user: User, req: Request, a: Admission)
    requires g.Closed() && Settled(g, env.context, s) && Covered(g, s)
    requires a.task < |s.tasks| && s.tasks[a.task].IsOpen() && Entry(env, s, user, req, a).Ok?
    ensures var (entered, t) := Entry(env, s, user, req, a).value;
            Attended(g, entered, {t})
  {
    var k := a.task;
    var gone := s.tasks[k].tokenId.value;
    var (entered, t) := Entry(env, s, user, req, a).value;
    assert gone in Waiting(s.tokens, s.tasks[k].node);
    forall u | u in ActiveTokens(entered.tokens) - {t} && OnHuman(g, entered.tokens[u].node)
      ensures OpenTaskAt(entered.tasks, entered.tokens[u].node)
    {
      assert u != gone && entered.tokens[u] == s.tokens[u];
      assert Owned(s, u);
      var j :| 0 <= j < |s.tasks| && s.tasks[j].IsOpen() && s.tasks[j].tokenId == Some(u);
      assert u in Waiting(s.tokens, s.tasks[j].node);
      assert entered.tasks[j] == s.tasks[j];
    }
  }

  // ----------------------------------------------------------------- the guard

  /** While a token arrives on a human step and all others there have their tasks, it gets one exactly when the step has
      no open task yet. */
  lemma ArrivalCoveredIff(g: Graph, env: Env, s: State, t: nat)
    requires Moving(g, env.context, s, t) && OnHuman(g, s.tokens[t].node)
    requires forall u | u in ActiveTokens(s.tokens) - {t} && OnHuman(g, s.tokens[u].node) :: Owned(s, u)
    ensures Covered(g, Visit(g, env, s, t).value.state) <==> !OpenTaskAt(s.tasks, s.tokens[t].node)
  {
    var n := s.tokens[t].node;
    var s' := Visit(g, env, s, t).value.state;
    if OpenTaskAt(s.tasks, n) {
      assert s'.tasks == s.tasks && s'.tokens == s.tokens;
      assert !Owned(s', t);
    } else {
      assert s'.tasks[|s.tasks|].IsOpen() && s'.tasks[|s.tasks|].tokenId == Some(t);
      forall u | u in ActiveTokens(s'.tokens) && OnHuman(g, s'.tokens[u].node) && u != t
        ensures Owned(s', u)
      {
        var k :| 0 <= k < |s.tasks| && s.tasks[k].IsOpen() && s.tasks[k].tokenId == Some(u);
        assert s'.tasks[k] == s.tasks[k];
      }
    }
  }

  // --------------------------------------------------------- whole transactions

  lemma ExclusiveIffOnce(g: Graph, s: State)
    ensures Exclusive(g, s) <==> forall n | OnHuman(g, n) :: |Waiting(s.tokens, n)| <= 1
  {
    if Exclusive(g, s) {
      forall n | OnHuman(g, n)
        ensures |Waiting(s.tokens, n)| <= 1
      {
        if u :| u in Waiting(s.tokens, n) {
          assert Waiting(s.tokens, n) == {u};
        }
      }
    }
    if forall n | OnHuman(g, n) :: |Waiting(s.tokens, n)| <= 1 {
      forall u, v | u in ActiveTokens(s.tokens) && v in ActiveTokens(s.tokens) && OnHuman(g, s.tokens[u].node)
                    && s.tokens[u].node == s.tokens[v].node
        ensures u == v
      {
        var here := Waiting(s.tokens, s.tokens[u].node);
        assert {u, v} <= here && |here - {u, v}| == |here| - |{u, v}|;
      }
    }
  }

  /** Landings on top of at most one token per human step: no step ends up with two exactly when the landings are distinct
      and none is on an occupied step. */
  ghost predicate Free(g: Graph, tokens: seq<Token>, gone: set<nat>, landings: seq<NodeId>) {
    Distinct(landings) && forall n | n in landings :: Waiting(tokens, n) - gone == {}
  }

  lemma LandingsExclusive(g: Graph, before: seq<Token>, gone: set<nat>, s: State, landings: seq<NodeId>)
    requires Lands(g, before, gone, s.tokens, landings)
    requires forall n | n in landings :: OnHuman(g, n)
    requires forall n | OnHuman(g, n) :: |Waiting(before, n) - gone| <= 1
    ensures Free(g, before, gone, landings) <==> Exclusive(g, s)
  {
    hide Waiting, Distinct, Exclusive;
    ExclusiveIffOnce(g, s);
    DistinctIffOnce(landings);
    forall n
      ensures Times(landings, n) > 0 <==> n in landings
    {
      TimesMember(landings, n);
    }
    if Free(g, before, gone, landings) {
      forall n | OnHuman(g, n)
        ensures |Waiting(s.tokens, n)| <= 1
      {
        assert Times(landings, n) <= 1;
        assert n in landings ==> |Waiting(before, n) - gone| == 0;
      }
    }
    if Exclusive(g, s) {
      forall n
        ensures Times(landings, n) <= 1 && (n in landings ==> Waiting(before, n) - gone == {})
      {
        assert OnHuman(g, n) ==> |Waiting(s.tokens, n)| <= 1;
      }
    }
  }

  /** On any graph: after a start every token on a human step has its own task exactly if the play of the start lands on
      distinct steps. That is so if the steps that lie ahead are distinct, and where no join holds a token back the play
      lands on all of those. */
  lemma StartCoveredIff(g: Graph, env: Env, start: NodeId, actor: Option<UserId>)
    requires g.Closed() && StartInstance(g, env, start, actor).Ok?
    ensures var s, p := StartInstance(g, env, start, actor).value, StartPlay(g, env.context, start);
            var ahead := Landings(g, env.context, start, MAX_DEPTH);
            && p.Some? && (Covered(g, s) <==> Distinct(p.value.landings))
            && (Distinct(ahead) ==> Distinct(p.value.landings))
            && (JoinsNeverWait(g) ==> p.value.landings == ahead)
  {
    hide Activate, Play, Landings, JoinsNeverWait, Covered, Exclusive, Distinct, Within, Graph.Closed;
    var initial := Fresh(start, actor);
    StartPlays(g, env, start, actor);
    StartExclusive(g, env, start, actor);
    assert forall n :: Waiting(initial.tokens, n) - {0} == {};
    ActivateLands(g, env, initial, 0, 0, multiset{});
    PlaysWithin(g, env.context, multiset{}, start, MAX_DEPTH);
    var landings := StartPlay(g, env.context, start).value.landings;
    WithinDistinct(landings, Landings(g, env.context, start, MAX_DEPTH));
    hide Lands, Waiting, Marked, StartInstance;
    LandingsExclusive(g, initial.tokens, {0}, StartInstance(g, env, start, actor).value, landings);
  }

  /** A human step of `l` has another open task than the one acted on. */
  predicate Taken(s: State, k: nat, l: seq<NodeId>) {
    exists j | 0 <= j < |s.tasks| && j != k :: s.tasks[j].IsOpen() && s.tasks[j].node in l
  }

  /** Where every token on a human step has its task, a step is occupied, apart from the token acted on, exactly when it
      has another open task; and then once. */
  lemma OccupiedIffTaken(g: Graph, s: State, k: nat, n: NodeId)
    requires TasksOwnTokens(g, s) && Covered(g, s) && OnHuman(g, n)
    requires k < |s.tasks| && s.tasks[k].IsOpen()
    ensures var rest := Waiting(s.tokens, n) - {s.tasks[k].tokenId.value};
            |rest| <= 1 && (rest == {} <==> !Taken(s, k, [n]))
  {
    var gone := s.tasks[k].tokenId.value;
    var rest := Waiting(s.tokens, n) - {gone};
    CoveredIsExclusive(g, s);
    ExclusiveIffOnce(g, s);
    assert |rest| <= |Waiting(s.tokens, n)| by {
      assert rest <= Waiting(s.tokens, n);
      assert |Waiting(s.tokens, n) - rest| == |Waiting(s.tokens, n)| - |rest|;
    }
    if u :| u in rest {
      assert u in ActiveTokens(s.tokens) && Owned(s, u);
      var j :| 0 <= j < |s.tasks| && s.tasks[j].IsOpen() && s.tasks[j].tokenId == Some(u);
      assert u in Waiting(s.tokens, s.tasks[j].node);
      assert s.tasks[j].node in [n];
    }
    if j :| 0 <= j < |s.tasks| && j != k && s.tasks[j].IsOpen() && s.tasks[j].node in [n] {
      assert gone in Waiting(s.tokens, s.tasks[k].node);
      assert s.tasks[j].tokenId.value in rest;
    }
  }

  /** On any graph: an action leaves every token on a human step with its own task exactly if its play lands on distinct steps
      and none of them has an open task beside the one acted on. That is so if it is so of the steps that lie ahead, and where
      no join holds a token back the play lands on all of those. */
  lemma PerformCoveredIff(g: Graph, env: Env, s: State, user: User, req: Request)
    requires g.Closed() && Settled(g, env.context, s) && Covered(g, s)
    requires !Replayed(env, s.log, req) && Perform(g, env, s, user, req).Ok?
    ensures var a := Admit(g, env.context, s, user, req).value;
            var s', p := Perform(g, env, s, user, req).value, ActionPlay(g, env.context, s, a);
            var ahead := Landings(g, env.context, a.edge.target, MAX_DEPTH - 1);
            && p.Some? && (Covered(g, s') <==> Distinct(p.value.landings) && !Taken(s, a.task, p.value.landings))
            && (Distinct(ahead) && !Taken(s, a.task, ahead) ==> Distinct(p.value.landings) && !Taken(s, a.task, p.value.landings))
            && (JoinsNeverWait(g) ==> p.value.landings == ahead)
  {
    hide Activate, Play, Landings, JoinsNeverWait, Exclusive, Covered, Distinct, Within, MarkingOf;
    var a := Admit(g, env.context, s, user, req).value;
    InstanceSafety.EntryMoving(g, env, s, user, req, a);
    PerformExclusive(g, env, s, user, req);
    PerformLands(g, env, s, user, req, a);
    SettledOwns(g, env.context, s);
    var (entered, t) := Entry(env, s, user, req, a).value;
    var s', landings := Perform(g, env, s, user, req).value, ActionPlay(g, env.context, s, a).value.landings;
    EntryOnHumans(g, env, s, user, req, a);
    PlaysWithin(g, env.context, MarkingOf(s.tokens) - multiset{s.tasks[a.task].node}, a.edge.target, MAX_DEPTH - 1);
    WithinDistinct(landings, Landings(g, env.context, a.edge.target, MAX_DEPTH - 1));
    hide Entry, Admit, Perform, Settled, Moving, Lands, Waiting, Replayed, Free, TasksOwnTokens, ActionPlay;
    TakenWithin(s, a.task, landings, Landings(g, env.context, a.edge.target, MAX_DEPTH - 1));
    hide Taken;
    FreeIffNotTaken(g, s, a.task, entered.tokens, t, landings);
    LandingsExclusive(g, entered.tokens, {t}, s', landings);
  }

  lemma TakenWithin(s: State, k: nat, a: seq<NodeId>, b: seq<NodeId>)
    requires forall n | n in a :: n in b
    ensures Taken(s, k, a) ==> Taken(s, k, b)
  {
  }

  lemma SettledOwns(g: Graph, context: Value, s: State)
    requires Settled(g, context, s)
    ensures TasksOwnTokens(g, s)
  {
  }

  lemma PerformUnfolds(g: Graph, env: Env, s: State, user: User, req: Request, a: Admission)
    requires !Replayed(env, s.log, req) && Perform(g, env, s, user, req).Ok? && Admit(g, env.context, s, user, req) == Ok(a)
    requires Entry(env, s, user, req, a).Ok? && Entry(env, s, user, req, a).value.1 < |Entry(env, s, user, req, a).value.0.tokens|
    ensures var (entered, t) := Entry(env, s, user, req, a).value;
            && Activate(g, env, entered, t, 1).Ok?
            && Perform(g, env, s, user, req).value.tokens == Activate(g, env, entered, t, 1).value.tokens
  {
    hide Activate, Entry, Admit, Replayed;
  }

  /** What an action lands on top of the tokens that were there. */
  lemma PerformLands(g: Graph, env: Env, s: State, user: User, req: Request, a: Admission)
    requires g.Closed() && Settled(g, env.context, s)
    requires !Replayed(env, s.log, req) && Perform(g, env, s, user, req).Ok? && Admit(g, env.context, s, user, req) == Ok(a)
    requires Entry(env, s, user, req, a).Ok?
    ensures var (entered, t) := Entry(env, s, user, req, a).value;
            var p := ActionPlay(g, env.context, s, a);
            && p.Some? && Lands(g, entered.tokens, {t}, Perform(g, env, s, user, req).value.tokens, p.value.landings)
            && forall n | n in p.value.landings :: OnHuman(g, n)
  {
    hide Play, Lands, Perform, Admit, Activate, Replayed, MarkingOf, Marked, Settled, TasksOwnTokens, Graph.Closed;
    SettledOwns(g, env.context, s);
    EntryMarked(g, env, s, user, req, a);
    TargetThere(g, a.edge);
    hide Entry;
    PerformUnfolds(g, env, s, user, req, a);
    var (entered, t) := Entry(env, s, user, req, a).value;
    ActivateLands(g, env, entered, t, 1, MarkingOf(s.tokens) - multiset{s.tasks[a.task].node});
  }

  lemma TargetThere(g: Graph, e: Edge)
    requires g.Closed() && e in g.edges
    ensures e.target in g.nodes
  {
  }

  lemma EntryOnHumans(g: Graph, env: Env, s: State, user: User, req: Request, a: Admission)
    requires TasksOwnTokens(g, s) && a.task < |s.tasks| && s.tasks[a.task].IsOpen() && Entry(env, s, user, req, a).Ok?
    ensures var (entered, t) := Entry(env, s, user, req, a).value;
            && s.tasks[a.task].tokenId.Some?
            && forall n :: Waiting(entered.tokens, n) - {t} == Waiting(s.tokens, n) - {s.tasks[a.task].tokenId.value}
  {
    var gone := s.tasks[a.task].tokenId.value;
    assert gone in Waiting(s.tokens, s.tasks[a.task].node);
    AfterConsume(s.tokens, {gone}, env.now);
    AfterAppend(Consume(s.tokens, {gone}, env.now), a.edge.target, s.tokens[gone].branchKey);
  }

  lemma FreeIffNotTaken(g: Graph, s: State, k: nat, tokens: seq<Token>, t: nat, landings: seq<NodeId>)
    requires TasksOwnTokens(g, s) && Covered(g, s) && k < |s.tasks| && s.tasks[k].IsOpen() && s.tasks[k].tokenId.Some?
    requires forall n :: Waiting(tokens, n) - {t} == Waiting(s.tokens, n) - {s.tasks[k].tokenId.value}
    requires forall n | n in landings :: OnHuman(g, n)
    ensures Free(g, tokens, {t}, landings) <==> Distinct(landings) && !Taken(s, k, landings)
    ensures forall n | OnHuman(g, n) :: |Waiting(tokens, n) - {t}| <= 1
  {
    hide Waiting, Covered, Distinct, TasksOwnTokens;
    forall n | OnHuman(g, n)
      ensures |Waiting(tokens, n) - {t}| <= 1
      ensures Waiting(tokens, n) - {t} == {} <==> !Taken(s, k, [n])
    {
      OccupiedIffTaken(g, s, k, n);
    }
    assert Taken(s, k, landings) <==> exists n :: n in landings && Taken(s, k, [n]) by {
      if j :| 0 <= j < |s.tasks| && j != k && s.tasks[j].IsOpen() && s.tasks[j].node in landings {
        assert Taken(s, k, [s.tasks[j].node]);
      }
    }
  }
}
