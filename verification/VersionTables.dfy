/** The versions of a workflow and the tables their graphs are kept in: what the rows say, step after step. */
module VersionTables {
  import opened Outcomes
  import opened WorkflowGraph
  import opened GraphInput
  import opened GraphStore
  import opened GraphRoundTrip
  import opened WorkflowDrawings
  import H = VersionHistory
  import GraphValidator
  import ActionKeys
  import InstanceActions
  import TokenEngine

  // ------------------------------------------------------------------ one graph

  /** In whatever order its rows are read, the version's graph is `d` up to order. */
  ghost predicate Holds(db: Tables, v: GraphStore.VersionId, d: Drawing) {
    forall view | Loaded(db, v, view) :: Connected(view) && SameUpToOrder(NodesToInput(view), TransitionsToInput(view), d.nodes, d.transitions)
  }

  /** The rows of a version are the same in both tables. */
  ghost predicate RowsKept(db: Tables, db': Tables, v: GraphStore.VersionId) {
    && NodesOf(db', v) == NodesOf(db, v) && TransitionsOf(db', v) == TransitionsOf(db, v)
    && forall n | n in NodesOf(db, v) :: RulesOf(db', n.id) == RulesOf(db, n.id)
  }

  ghost predicate Sane(db: Tables) {
    db.Valid() && DistinctIds(db)
  }

  lemma ReplacedSane(db: Tables, v: GraphStore.VersionId, ns: seq<NodeInput>, ts: seq<TransitionInput>)
    requires Sane(db) && Joined(ns, ts)
    ensures Sane(Replaced(db, v, ns, ts))
  {
    ReplacedValid(db, v, ns, ts);
    ReplacedDistinctIds(db, v, ns, ts);
  }

  lemma AcceptableJoined(d: Drawing)
    requires Acceptable(d)
    ensures Joined(d.nodes, d.transitions)
  {
    WellFormedJoined(d.nodes, d.transitions);
    hide GraphValidator.WellFormed, HasKey;
  }

  lemma HoldsReplaced(db: Tables, v: GraphStore.VersionId, d: Drawing)
    requires Sane(db) && Joined(d.nodes, d.transitions)
    ensures Holds(Replaced(db, v, d.nodes, d.transitions), v, Stored(d))
  {
    hide Loads, Joined, Connected, Replaced, SameGraph, Tables.Valid;
    var db' := Replaced(db, v, d.nodes, d.transitions);
    forall view | Loaded(db', v, view)
      ensures Connected(view)
      ensures SameUpToOrder(NodesToInput(view), TransitionsToInput(view), Stored(d).nodes, Stored(d).transitions)
    {
      var p, q, r, s :| Loads(db', v, view, p, q, r, s);
      RoundTrip(db, v, d.nodes, d.transitions, view, p, q, r, s);
    }
  }

  lemma KeptLoads(db: Tables, db': Tables, v: GraphStore.VersionId, view: View)
    requires RowsKept(db, db', v) && Loaded(db', v, view)
    ensures Loaded(db, v, view)
  {
    hide NodesOf, RulesOf, TransitionsOf, SameRules;
    var p, q, r, s :| Loads(db', v, view, p, q, r, s);
    forall i | 0 <= i < |view.nodes|
      ensures SameRules(view.nodes[i].rules, RulesOf(db, view.nodes[i].row.id))
    {
      assert NodesOf(db, v)[p[i]] in NodesOf(db, v);
    }
    assert Loads(db, v, view, p, q, r, s);
  }

  lemma HoldsKept(db: Tables, db': Tables, v: GraphStore.VersionId, d: Drawing)
    requires RowsKept(db, db', v) && Holds(db, v, d)
    ensures Holds(db', v, d)
  {
    hide RowsKept, Loaded, Connected, SameUpToOrder;
    forall view | Loaded(db', v, view)
      ensures Connected(view) && SameUpToOrder(NodesToInput(view), TransitionsToInput(view), d.nodes, d.transitions)
    {
      KeptLoads(db, db', v, view);
    }
  }

  lemma OthersKept(db: Tables, v: GraphStore.VersionId, ns: seq<NodeInput>, ts: seq<TransitionInput>, w: GraphStore.VersionId)
    requires Sane(db) && Joined(ns, ts) && w != v
    ensures RowsKept(db, Replaced(db, v, ns, ts), w)
  {
    ReplacedLeavesOthers(db, v, ns, ts, w);
  }

  lemma RowsKeptTransitive(a: Tables, b: Tables, c: Tables, v: GraphStore.VersionId)
    requires RowsKept(a, b, v) && RowsKept(b, c, v)
    ensures RowsKept(a, c, v)
  {
  }

  lemma RearrangedKeyed(ts': seq<TransitionInput>, ts: seq<TransitionInput>, r: seq<nat>, s: seq<nat>)
    requires Rearranges(ts', ts, r, s) && ActionKeys.KeyedAll(ts)
    ensures ActionKeys.KeyedAll(ts')
  {
    hide ActionKeys.IsActionKey;
  }

  lemma AlikeAddressable(d': Drawing, d: Drawing)
    requires SameUpToOrder(d'.nodes, d'.transitions, d.nodes, d.transitions) && Addressable(d)
    ensures Addressable(d')
  {
    var p, q, r, s :| SameGraph(d'.nodes, d'.transitions, d.nodes, d.transitions, p, q, r, s);
    hide SameUpToOrder;
    forall n | n in d'.nodes
      ensures ':' !in n.key
    {
      var i :| 0 <= i < |d'.nodes| && d'.nodes[i] == n;
      assert NodeAlike(n, d.nodes[p[i]]) && d.nodes[p[i]] in d.nodes;
    }
    forall t | t in d'.transitions
      ensures t.actionKey.Some?
    {
      var i :| 0 <= i < |d'.transitions| && d'.transitions[i] == t;
      assert d.transitions[r[i]] in d.transitions;
    }
  }

  /** Order does not matter to acceptance. */
  lemma AlikeAcceptable(d': Drawing, d: Drawing)
    requires SameUpToOrder(d'.nodes, d'.transitions, d.nodes, d.transitions) && Acceptable(d)
    ensures Acceptable(d')
  {
    hide Addressable, GraphValidator.WellFormed, ActionKeys.KeyedAll;
    AlikeAddressable(d', d);
    var p, q, r, s :| SameGraph(d'.nodes, d'.transitions, d.nodes, d.transitions, p, q, r, s);
    SameGraphSameVerdict(d'.nodes, d'.transitions, d.nodes, d.transitions, p, q, r, s);
    RearrangedKeyed(d'.transitions, d.transitions, r, s);
  }

  lemma AlikeStored(d': Drawing, d: Drawing)
    requires SameUpToOrder(d'.nodes, d'.transitions, d.nodes, d.transitions) && Stored(d) == d
    ensures Stored(d') == d'
  {
    var p, q, r, s :| SameGraph(d'.nodes, d'.transitions, d.nodes, d.transitions, p, q, r, s);
    hide SameGraph;
    LoadedAllNormal(d'.nodes, d'.transitions, d.nodes, d.transitions, p, q, r, s);
  }

  function Drawn(view: View): Drawing
    requires Connected(view)
  {
    Drawing(NodesToInput(view), TransitionsToInput(view))
  }

  /** A version's graph, read in any order and saved as another version, is there the same. */
  lemma HoldsCopied(db: Tables, v: GraphStore.VersionId, d: Drawing, view: View, w: GraphStore.VersionId)
    requires Sane(db) && Holds(db, v, d) && Loaded(db, v, view) && Acceptable(d) && Stored(d) == d
    ensures Connected(view) && Acceptable(Drawn(view)) && Joined(Drawn(view).nodes, Drawn(view).transitions)
    ensures Holds(Replaced(db, w, Drawn(view).nodes, Drawn(view).transitions), w, d)
  {
    hide Loaded, Connected, Acceptable, SameUpToOrder, NodesToInput, TransitionsToInput, Replaced, Joined, Stored, Sane;
    var d' := Drawn(view);
    AlikeAcceptable(d', d);
    AlikeStored(d', d);
    AcceptableJoined(d');
    HoldsReplaced(db, w, d');
    var db' := Replaced(db, w, d'.nodes, d'.transitions);
    forall again | Loaded(db', w, again)
      ensures Connected(again) && SameUpToOrder(NodesToInput(again), TransitionsToInput(again), d.nodes, d.transitions)
    {
      SameUpToOrderTransitive(NodesToInput(again), TransitionsToInput(again), d'.nodes, d'.transitions, d.nodes, d.transitions);
    }
  }

  // ------------------------------------------------------------- all versions

  /** The tables hold, under each version's identifier, the graph that the history says the version has. */
  ghost predicate Coupled(db: Tables, h: H.History<Drawing>) {
    Sane(db) && forall i | 0 <= i < |h.versions| :: Holds(db, h.versions[i].id, h.versions[i].content)
  }

  /** Making sure of a draft: a new one gets a copy of the current version's graph, as it happens to be read. */
  ghost predicate DraftMade(db: Tables, h: H.History<Drawing>, db': Tables) {
    if H.LatestDraft(h.versions).Some? || H.CurrentAt(h).None? then db' == db
    else CopyMade(db, h.versions[H.CurrentAt(h).value].id, h.nextId, db')
  }

  ghost predicate CopyMade(db: Tables, v: GraphStore.VersionId, w: GraphStore.VersionId, db': Tables) {
    exists view :: Loaded(db, v, view) && Connected(view) && CopyOf(db, view, w, db')
  }

  ghost predicate CopyOf(db: Tables, view: View, w: GraphStore.VersionId, db': Tables)
    requires Connected(view)
  {
    Joined(Drawn(view).nodes, Drawn(view).transitions) && db' == Replaced(db, w, Drawn(view).nodes, Drawn(view).transitions)
  }

  /** One operation on the tables. Only an accepted save writes to them: the draft is made sure of and its graph replaced. */
  ghost predicate Stepped(db: Tables, h: H.History<Drawing>, command: H.Command<Drawing>, db': Tables) {
    if command.Save? && Acceptable(command.content) then
      Joined(command.content.nodes, command.content.transitions) &&
      exists made ::
        && DraftMade(db, h, made)
        && var ready := H.EnsureDraft(h, WorkflowRules());
           H.LatestDraft(ready.versions).Some?
           && db' == Replaced(made, ready.versions[H.LatestDraft(ready.versions).value].id,
                              command.content.nodes, command.content.transitions)
    else db' == db
  }

  ghost predicate Ran(db: Tables, h: H.History<Drawing>, commands: seq<H.Command<Drawing>>, db': Tables)
    decreases |commands|
  {
    if commands == [] then db' == db
    else exists mid :: Stepped(db, h, commands[0], mid) && Ran(mid, H.Attempt(h, WorkflowRules(), commands[0]), commands[1..], db')
  }

  lemma DraftMadeCoupled(db: Tables, h: H.History<Drawing>, db': Tables)
    requires H.Sound(h, WorkflowRules()) && Coupled(db, h) && DraftMade(db, h, db')
    ensures Coupled(db', H.EnsureDraft(h, WorkflowRules()))
    ensures h.versions != [] && forall w | w != H.DraftId(h) :: RowsKept(db, db', w)
  {
    H.SoundNotEmpty(h, WorkflowRules());
    H.SoundQueries(h);
    hide H.Sound, H.LatestDraft, H.CurrentAt, H.EnsureDraft, H.Staged, H.Numbered, H.Identified, CopyMade, Coupled, RowsKept, WorkflowRules;
    H.EnsureDraftShape(h, WorkflowRules());
    if H.Newest(h).status.Draft? {
      forall w
        ensures RowsKept(db, db, w)
      {
        RowsKeptSelf(db, w);
      }
    } else {
      CopyCoupled(db, h, db');
    }
  }

  lemma CoupledNext(db: Tables, h: H.History<Drawing>, db': Tables, h': H.History<Drawing>, w: GraphStore.VersionId, d: Drawing)
    requires Coupled(db, h) && Sane(db') && Holds(db', w, d) && H.DiffersAt(h, h', w, d)
    requires forall v | v != w :: RowsKept(db, db', v)
    ensures Coupled(db', h')
  {
    hide Holds, RowsKept, Sane;
    forall i | 0 <= i < |h'.versions|
      ensures Holds(db', h'.versions[i].id, h'.versions[i].content)
    {
      if h'.versions[i].id != w {
        HoldsKept(db, db', h'.versions[i].id, h'.versions[i].content);
      }
    }
  }

  /** A copy changes no rows but those of the version it is made for. */
  lemma CopyKeeps(db: Tables, v: GraphStore.VersionId, d: Drawing, w: GraphStore.VersionId, db': Tables)
    requires Sane(db) && Holds(db, v, d) && Acceptable(d) && Stored(d) == d && CopyMade(db, v, w, db')
    ensures Sane(db') && Holds(db', w, d) && forall x | x != w :: RowsKept(db, db', x)
  {
    hide Holds, Loaded, Connected, Acceptable, Stored, Replaced, Sane, RowsKept, Joined, Drawn;
    var view :| Loaded(db, v, view) && Connected(view) && CopyOf(db, view, w, db');
    HoldsCopied(db, v, d, view, w);
    ReplacedSane(db, w, Drawn(view).nodes, Drawn(view).transitions);
    forall x | x != w
      ensures RowsKept(db, db', x)
    {
      OthersKept(db, w, Drawn(view).nodes, Drawn(view).transitions, x);
    }
  }

  lemma CopyCoupled(db: Tables, h: H.History<Drawing>, db': Tables)
    requires H.Sound(h, WorkflowRules()) && Coupled(db, h) && h.versions != [] && !H.Newest(h).status.Draft?
    requires CopyMade(db, H.Newest(h).id, h.nextId, db')
    ensures Coupled(db', H.EnsureDraft(h, WorkflowRules()))
    ensures forall w | w != h.nextId :: RowsKept(db, db', w)
  {
    var last := |h.versions| - 1;
    H.SoundContent(h, WorkflowRules(), last);
    H.DraftAdded(h, WorkflowRules());
    hide H.Sound, Holds, Acceptable, Stored, Sane, RowsKept, H.EnsureDraft, H.DiffersAt, CopyMade;
    CopyKeeps(db, h.versions[last].id, h.versions[last].content, h.nextId, db');
    CoupledNext(db, h, db', H.EnsureDraft(h, WorkflowRules()), h.nextId, h.versions[last].content);
  }

  /** A save of an accepted graph: the draft's rows hold it, and nothing else changes in the tables. */
  lemma SaveCoupled(db: Tables, h: H.History<Drawing>, d: Drawing, db': Tables)
    requires H.Sound(h, WorkflowRules()) && Coupled(db, h) && Acceptable(d) && Stepped(db, h, H.Save(d), db')
    ensures Coupled(db', H.Attempt(h, WorkflowRules(), H.Save(d)))
    ensures h.versions != [] && forall w | w != H.DraftId(h) :: RowsKept(db, db', w)
  {
    H.SoundNotEmpty(h, WorkflowRules());
    H.DraftAmongOthers(h, WorkflowRules());
    H.SavedDiffers(h, WorkflowRules(), d);
    var draft, ready := H.DraftId(h), H.EnsureDraft(h, WorkflowRules());
    hide H.Sound, H.EnsureDraft, Acceptable, DraftMade, H.SaveDraft, Holds, Replaced, Sane, RowsKept, Joined, Stored, H.DiffersAt;
    hide H.LatestDraft, H.Attempt, H.DraftId;
    var made :| DraftMade(db, h, made)
                && db' == Replaced(made, ready.versions[H.LatestDraft(ready.versions).value].id, d.nodes, d.transitions);
    DraftMadeCoupled(db, h, made);
    SaveKeeps(made, draft, d, db');
    forall w | w != draft
      ensures RowsKept(db, db', w)
    {
      RowsKeptTransitive(db, made, db', w);
    }
    CoupledNext(made, ready, db', H.Attempt(h, WorkflowRules(), H.Save(d)), draft, Stored(d));
  }

  lemma SaveKeeps(db: Tables, w: GraphStore.VersionId, d: Drawing, db': Tables)
    requires Sane(db) && Joined(d.nodes, d.transitions) && db' == Replaced(db, w, d.nodes, d.transitions)
    ensures Sane(db') && Holds(db', w, Stored(d)) && forall x | x != w :: RowsKept(db, db', x)
  {
    hide Holds, Replaced, Sane, RowsKept, Joined, Stored;
    HoldsReplaced(db, w, d);
    ReplacedSane(db, w, d.nodes, d.transitions);
    forall x | x != w
      ensures RowsKept(db, db', x)
    {
      OthersKept(db, w, d.nodes, d.transitions, x);
    }
  }

  lemma SaveStepCoupled(db: Tables, h: H.History<Drawing>, d: Drawing, db': Tables)
    requires H.Sound(h, WorkflowRules()) && Coupled(db, h) && Acceptable(d) && Stepped(db, h, H.Save(d), db')
    ensures Coupled(db', H.Attempt(h, WorkflowRules(), H.Save(d)))
    ensures forall i | 0 <= i < |h.versions| && !h.versions[i].status.Draft? :: RowsKept(db, db', h.versions[i].id)
  {
    H.SoundNotEmpty(h, WorkflowRules());
    H.DraftAmongOthers(h, WorkflowRules());
    hide H.Sound, Coupled, Acceptable, H.EnsureDraft, H.LatestDraft, RowsKept, Stepped, H.Attempt;
    SaveCoupled(db, h, d, db');
  }

  lemma StepCoupled(db: Tables, h: H.History<Drawing>, command: H.Command<Drawing>, db': Tables)
    requires H.Sound(h, WorkflowRules()) && Coupled(db, h) && Stepped(db, h, command, db')
    ensures Coupled(db', H.Attempt(h, WorkflowRules(), command))
    ensures forall i | 0 <= i < |h.versions| && !h.versions[i].status.Draft? :: RowsKept(db, db', h.versions[i].id)
  {
    hide H.Sound, H.Attempt, Acceptable, Holds, Sane, RowsKept, H.EnsureDraft;
    if command.Save? && Acceptable(command.content) {
      hide Stepped, Coupled;
      SaveStepCoupled(db, h, command.content, db');
    } else {
      WorkflowRulesLawful();
      H.SameContents(h, WorkflowRules(), command);
      forall w
        ensures RowsKept(db, db, w)
      {
        RowsKeptSelf(db, w);
      }
    }
  }

  /** Frozen rows: through any run of operations, reading orders included, the node, rule and transition rows of every
      published and retired version stay as they are, and all versions' rows keep saying what the history says. */
  lemma {:induction false} RunFreezesRows(db: Tables, h: H.History<Drawing>, commands: seq<H.Command<Drawing>>, db': Tables)
    requires H.Sound(h, WorkflowRules()) && Coupled(db, h) && Ran(db, h, commands, db')
    ensures Coupled(db', H.Run(h, WorkflowRules(), commands))
    ensures forall i | 0 <= i < |h.versions| && !h.versions[i].status.Draft? :: RowsKept(db, db', h.versions[i].id)
    decreases |commands|
  {
    hide H.Sound, Coupled, Stepped, H.Attempt, RowsKept, H.Extends;
    if commands == [] {
      forall w
        ensures RowsKept(db, db, w)
      {
        RowsKeptSelf(db, w);
      }
    } else {
      var next := H.Attempt(h, WorkflowRules(), commands[0]);
      var mid :| Stepped(db, h, commands[0], mid) && Ran(mid, next, commands[1..], db');
      StepCoupled(db, h, commands[0], mid);
      WorkflowRulesLawful();
      H.StepSound(h, WorkflowRules(), commands[0]);
      H.StepExtends(h, WorkflowRules(), commands[0]);
      RunFreezesRows(mid, next, commands[1..], db');
      forall i | 0 <= i < |h.versions| && !h.versions[i].status.Draft?
        ensures RowsKept(db, db', h.versions[i].id)
      {
        H.StillFrozen(h, next, i);
        RowsKeptTransitive(db, mid, db', h.versions[i].id);
      }
    }
  }

  /** A version that is not this definition's, during the run or after it. */
  ghost predicate Foreign(h: H.History<Drawing>, w: GraphStore.VersionId) {
    forall i | 0 <= i < |h.versions| :: h.versions[i].id != w
  }

  lemma ForeignBefore(later: H.History<Drawing>, h: H.History<Drawing>, w: GraphStore.VersionId)
    requires H.Extends(later.versions, h.versions) && Foreign(later, w)
    ensures Foreign(h, w)
  {
  }

  /** No other definition's graph is touched by any run of operations on this one. */
  lemma {:induction false} OthersUntouched(db: Tables, h: H.History<Drawing>, commands: seq<H.Command<Drawing>>, db': Tables,
                                           w: GraphStore.VersionId)
    requires H.Sound(h, WorkflowRules()) && Coupled(db, h) && Ran(db, h, commands, db')
    requires Foreign(H.Run(h, WorkflowRules(), commands), w)
    ensures RowsKept(db, db', w)
    decreases |commands|
  {
    hide H.Sound, Coupled, H.Attempt, RowsKept, H.Extends, Foreign, DraftMade, Acceptable, H.DraftId, H.EnsureDraft, Replaced, Joined;
    if commands == [] {
      RowsKeptSelf(db, w);
    } else {
      var next := H.Attempt(h, WorkflowRules(), commands[0]);
      var mid :| Stepped(db, h, commands[0], mid) && Ran(mid, next, commands[1..], db');
      WorkflowRulesLawful();
      StepCoupled(db, h, commands[0], mid);
      H.StepSound(h, WorkflowRules(), commands[0]);
      H.RunExtends(next, WorkflowRules(), commands[1..]);
      ForeignBefore(H.Run(next, WorkflowRules(), commands[1..]), next, w);
      OthersUntouched(mid, next, commands[1..], db', w);
      StepLeavesOthers(db, h, commands[0], mid, w);
      RowsKeptTransitive(db, mid, db', w);
    }
  }

  lemma StepLeavesOthers(db: Tables, h: H.History<Drawing>, command: H.Command<Drawing>, db': Tables, w: GraphStore.VersionId)
    requires H.Sound(h, WorkflowRules()) && Coupled(db, h) && Stepped(db, h, command, db')
    requires Foreign(H.Attempt(h, WorkflowRules(), command), w)
    ensures RowsKept(db, db', w)
  {
    if command.Save? && Acceptable(command.content) {
      hide H.Sound, Coupled, Stepped, Acceptable, H.Attempt, RowsKept, H.DraftId;
      H.SoundNotEmpty(h, WorkflowRules());
      SaveCoupled(db, h, command.content, db');
      H.DraftStays(h, WorkflowRules(), command.content);
    } else {
      hide H.Sound, Coupled, H.Attempt, RowsKept, Acceptable;
      RowsKeptSelf(db, w);
    }
  }

  lemma RowsKeptSelf(db: Tables, v: GraphStore.VersionId)
    ensures RowsKept(db, db, v)
  {
  }

  // --------------------------------------------------------- what instances run

  /** However the current version is read, the engine gets a graph it can run: edges between its nodes, one edge per source
      and action, exactly one start node. */
  lemma CurrentGraphRuns(db: Tables, h: H.History<Drawing>, view: View)
    requires H.Sound(h, WorkflowRules()) && Coupled(db, h) && H.CurrentAt(h).Some?
    requires Loaded(db, h.versions[H.CurrentAt(h).value].id, view)
    ensures Connected(view) && Acceptable(Drawn(view))
    ensures EngineGraph(view).Closed() && EngineGraph(view).Deterministic()
    ensures exists start :: OnlyStart(EngineGraph(view), start)
  {
    var at := H.CurrentAt(h).value;
    H.SoundContent(h, WorkflowRules(), at);
    hide H.Sound, H.CurrentAt;
    ViewRuns(db, h.versions[at].id, h.versions[at].content, view);
  }

  lemma ViewAcceptable(db: Tables, v: GraphStore.VersionId, d: Drawing, view: View)
    requires Holds(db, v, d) && Loaded(db, v, view) && Acceptable(d)
    ensures Connected(view) && Acceptable(Drawn(view))
  {
    hide Loaded, Connected, Acceptable, SameUpToOrder;
    AlikeAcceptable(Drawn(view), d);
  }

  lemma ViewRuns(db: Tables, v: GraphStore.VersionId, d: Drawing, view: View)
    requires Sane(db) && Holds(db, v, d) && Loaded(db, v, view) && Acceptable(d)
    ensures Connected(view) && Acceptable(Drawn(view))
    ensures EngineGraph(view).Closed() && EngineGraph(view).Deterministic()
    ensures exists start :: OnlyStart(EngineGraph(view), start)
  {
    ViewAcceptable(db, v, d, view);
    var p, q, r, s :| Loads(db, v, view, p, q, r, s);
    LoadedRowsDistinct(db, v, view, p, q, r, s);
    hide Loads, Connected, GraphValidator.WellFormed, Addressable, ActionKeys.KeyedAll, EngineGraph, DistinctRows, Holds, Sane, OnlyStart;
    AcceptedGraphRuns(view);
    AcceptedGraphStarts(view);
  }

  /** A running instance is pinned to rows: whatever is read of its version after any run could have been read when it was
      started. */
  lemma PinnedRows(db: Tables, h: H.History<Drawing>, commands: seq<H.Command<Drawing>>, db': Tables, id: GraphStore.VersionId,
                   view: View)
    requires H.Sound(h, WorkflowRules()) && Coupled(db, h) && Ran(db, h, commands, db')
    requires h.current == Some(id) && Loaded(db', id, view)
    ensures Loaded(db, id, view)
  {
    CurrentIsFrozen(h);
    hide H.Sound, Coupled, Ran, RowsKept, Loaded, H.CurrentAt;
    RunFreezesRows(db, h, commands, db');
    KeptLoads(db, db', id, view);
  }

  lemma CurrentIsFrozen(h: H.History<Drawing>)
    requires H.Sound(h, WorkflowRules()) && h.current.Some?
    ensures exists i | 0 <= i < |h.versions| :: h.versions[i].id == h.current.value && !h.versions[i].status.Draft?
  {
    H.SoundQueries(h);
    var i := H.CurrentAt(h).value;
    assert h.versions[i].id == h.current.value && !h.versions[i].status.Draft?;
  }
}
