/** Saving, loading and copying a graph: nothing but identifiers, order and white space changes. */
module GraphRoundTrip {
  import opened Outcomes
  import opened Json
  import opened WorkflowGraph
  import opened GraphInput
  import opened GraphStore
  import GraphValidator
  import ActionKeys
  import InstanceActions
  import InstanceSafety
  import TokenEngine
  import Tenants
  import Text

  // ------------------------------------------------------------------ filters

  lemma {:induction false} FilterMembers<T(!new)>(s: seq<T>, keep: T -> bool)
    ensures forall x :: x in Filter(s, keep) <==> x in s && keep(x)
  {
    if s != [] {
      FilterMembers(s[1..], keep);
    }
  }

  lemma {:induction false} FilterAppend<T(!new)>(a: seq<T>, b: seq<T>, keep: T -> bool)
    ensures Filter(a + b, keep) == Filter(a, keep) + Filter(b, keep)
  {
    if a == [] {
      assert a + b == b;
    } else {
      FilterAppend(a[1..], b, keep);
      assert (a + b)[1..] == a[1..] + b;
      var head := if keep(a[0]) then [a[0]] else [];
      assert Filter(a + b, keep) == head + Filter(a[1..] + b, keep);
      assert Filter(a, keep) == head + Filter(a[1..], keep);
    }
  }

  lemma {:induction false} FilterAll<T(!new)>(s: seq<T>, keep: T -> bool)
    requires forall x | x in s :: keep(x)
    ensures Filter(s, keep) == s
  {
    if s != [] {
      FilterAll(s[1..], keep);
    }
  }

  lemma {:induction false} FilterNone<T(!new)>(s: seq<T>, keep: T -> bool)
    requires forall x | x in s :: !keep(x)
    ensures Filter(s, keep) == []
  {
    if s != [] {
      FilterNone(s[1..], keep);
    }
  }

  /** A filter that drops only rows the second filter drops anyway makes no difference to it. */
  lemma {:induction false} FilterTwice<T(!new)>(s: seq<T>, first: T -> bool, second: T -> bool)
    requires forall x | x in s && second(x) :: first(x)
    ensures Filter(Filter(s, first), second) == Filter(s, second)
  {
    if s != [] {
      FilterTwice(s[1..], first, second);
      FilterAppend(if first(s[0]) then [s[0]] else [], Filter(s[1..], first), second);
    }
  }

  // --------------------------------------------------------- what was replaced

  lemma RowsNameNode(id: NodeId, rules: seq<RuleInput>)
    ensures forall r | r in SaveRules(id, rules) :: r.nodeId == id
  {
  }

  lemma SavedRulesOfLast(base: NodeId, ns: seq<NodeInput>, id: NodeId)
    requires ns != []
    ensures var last := |ns| - 1;
            Filter(SavedRules(base, ns), IsRule(id))
            == Filter(SavedRules(base, ns[..last]), IsRule(id))
               + if id == base + last then SaveRules(id, ns[last].assignees) else []
  {
    hide SaveRules, Filter;
    var last := |ns| - 1;
    var rows := SaveRules(base + last, ns[last].assignees);
    RowsNameNode(base + last, ns[last].assignees);
    FilterAppend(SavedRules(base, ns[..last]), rows, IsRule(id));
    if id == base + last {
      FilterAll(rows, IsRule(id));
    } else {
      FilterNone(rows, IsRule(id));
    }
  }

  lemma {:induction false} SavedRulesOf(base: NodeId, ns: seq<NodeInput>, id: NodeId)
    ensures Filter(SavedRules(base, ns), IsRule(id))
            == if base <= id < base + |ns| then SaveRules(id, ns[id - base].assignees) else []
  {
    if ns != [] {
      hide SaveRules, Filter, SavedRules, IsRule;
      SavedRulesOf(base, ns[..|ns| - 1], id);
      SavedRulesOfLast(base, ns, id);
    }
  }

  lemma ReplacedNodes(db: Tables, v: VersionId, ns: seq<NodeInput>, ts: seq<TransitionInput>)
    requires Joined(ns, ts)
    ensures NodesOf(Replaced(db, v, ns, ts), v) == SavedNodes(db.nextId, v, ns)
  {
    hide Joined, SavedRules, SavedTransitions;
    var kept, saved := Filter(db.nodes, OtherNode(v)), SavedNodes(db.nextId, v, ns);
    FilterMembers(db.nodes, OtherNode(v));
    hide Filter;
    FilterAppend(kept, saved, IsNode(v));
    FilterNone(kept, IsNode(v));
    FilterAll(saved, IsNode(v));
    assert [] + saved == saved;
  }

  lemma ReplacedTransitions(db: Tables, v: VersionId, ns: seq<NodeInput>, ts: seq<TransitionInput>)
    requires Joined(ns, ts)
    ensures TransitionsOf(Replaced(db, v, ns, ts), v) == SavedTransitions(db.nextId, v, ns, ts)
  {
    hide HasKey, SavedRules, SavedNodes;
    var kept, saved := Filter(db.transitions, OtherTransition(v)), SavedTransitions(db.nextId, v, ns, ts);
    FilterMembers(db.transitions, OtherTransition(v));
    hide Filter;
    FilterAppend(kept, saved, IsTransition(v));
    FilterNone(kept, IsTransition(v));
    FilterAll(saved, IsTransition(v));
    assert [] + saved == saved;
  }

  lemma NoOldRules(db: Tables, gone: set<NodeId>, id: NodeId)
    requires db.Valid() && db.nextId <= id
    ensures Filter(Filter(db.rules, OtherRule(gone)), IsRule(id)) == []
  {
    FilterMembers(db.rules, OtherRule(gone));
    hide Filter;
    FilterNone(Filter(db.rules, OtherRule(gone)), IsRule(id));
  }

  lemma ReplacedRules(db: Tables, v: VersionId, ns: seq<NodeInput>, ts: seq<TransitionInput>, j: nat)
    requires db.Valid() && Joined(ns, ts) && j < |ns|
    ensures RulesOf(Replaced(db, v, ns, ts), db.nextId + j) == SaveRules(db.nextId + j, ns[j].assignees)
  {
    hide Joined, SavedRules, SavedNodes, SavedTransitions, SaveRules, Filter, Tables.Valid;
    var id, kept := db.nextId + j, Filter(db.rules, OtherRule(NodeIds(db.nodes, v)));
    NoOldRules(db, NodeIds(db.nodes, v), id);
    FilterAppend(kept, SavedRules(db.nextId, ns), IsRule(id));
    SavedRulesOf(db.nextId, ns, id);
    assert [] + SaveRules(id, ns[j].assignees) == SaveRules(id, ns[j].assignees);
  }

  /** The replaced version holds exactly the submitted graph. */
  lemma ReplacedHolds(db: Tables, v: VersionId, ns: seq<NodeInput>, ts: seq<TransitionInput>)
    requires db.Valid() && Joined(ns, ts)
    ensures var db' := Replaced(db, v, ns, ts);
            && NodesOf(db', v) == SavedNodes(db.nextId, v, ns)
            && TransitionsOf(db', v) == SavedTransitions(db.nextId, v, ns, ts)
            && forall j | 0 <= j < |ns| :: RulesOf(db', db.nextId + j) == SaveRules(db.nextId + j, ns[j].assignees)
  {
    hide NodesOf, TransitionsOf, RulesOf, Replaced, HasKey;
    ReplacedNodes(db, v, ns, ts);
    ReplacedTransitions(db, v, ns, ts);
    forall j | 0 <= j < |ns|
      ensures RulesOf(Replaced(db, v, ns, ts), db.nextId + j) == SaveRules(db.nextId + j, ns[j].assignees)
    {
      ReplacedRules(db, v, ns, ts, j);
    }
  }

  ghost predicate RowIdsDistinct(rows: seq<NodeRow>) {
    forall i, j | 0 <= i < j < |rows| :: rows[i].id != rows[j].id
  }

  ghost predicate DistinctIds(db: Tables) {
    RowIdsDistinct(db.nodes)
  }

  lemma OtherNodes(db: Tables, v: VersionId, ns: seq<NodeInput>, ts: seq<TransitionInput>, w: VersionId)
    requires Joined(ns, ts) && v != w
    ensures NodesOf(Replaced(db, v, ns, ts), w) == NodesOf(db, w)
  {
    hide Joined, SavedRules, SavedTransitions;
    var saved := SavedNodes(db.nextId, v, ns);
    FilterAppend(Filter(db.nodes, OtherNode(v)), saved, IsNode(w));
    FilterNone(saved, IsNode(w));
    FilterTwice(db.nodes, OtherNode(v), IsNode(w));
    assert NodesOf(db, w) + [] == NodesOf(db, w);
  }

  lemma OtherTransitions(db: Tables, v: VersionId, ns: seq<NodeInput>, ts: seq<TransitionInput>, w: VersionId)
    requires Joined(ns, ts) && v != w
    ensures TransitionsOf(Replaced(db, v, ns, ts), w) == TransitionsOf(db, w)
  {
    hide HasKey, IndexOf, SavedRules, SavedNodes;
    var saved := SavedTransitions(db.nextId, v, ns, ts);
    FilterAppend(Filter(db.transitions, OtherTransition(v)), saved, IsTransition(w));
    FilterNone(saved, IsTransition(w));
    FilterTwice(db.transitions, OtherTransition(v), IsTransition(w));
    assert TransitionsOf(db, w) + [] == TransitionsOf(db, w);
  }

  lemma OneOfEachId(db: Tables, m: NodeRow, n: NodeRow)
    requires DistinctIds(db) && m in db.nodes && n in db.nodes && m.id == n.id
    ensures m == n
  {
  }

  lemma OtherRules(db: Tables, v: VersionId, ns: seq<NodeInput>, ts: seq<TransitionInput>, id: NodeId)
    requires Joined(ns, ts) && id < db.nextId && id !in NodeIds(db.nodes, v)
    ensures RulesOf(Replaced(db, v, ns, ts), id) == RulesOf(db, id)
  {
    hide Joined, SavedNodes, SavedRules, SavedTransitions, SaveRules;
    var gone := NodeIds(db.nodes, v);
    FilterAppend(Filter(db.rules, OtherRule(gone)), SavedRules(db.nextId, ns), IsRule(id));
    SavedRulesOf(db.nextId, ns, id);
    FilterTwice(db.rules, OtherRule(gone), IsRule(id));
    assert RulesOf(db, id) + [] == RulesOf(db, id);
  }

  /** Every other version keeps its nodes, rules and transitions to the letter. */
  lemma ReplacedLeavesOthers(db: Tables, v: VersionId, ns: seq<NodeInput>, ts: seq<TransitionInput>, w: VersionId)
    requires db.Valid() && DistinctIds(db) && Joined(ns, ts) && v != w
    ensures var db' := Replaced(db, v, ns, ts);
            && NodesOf(db', w) == NodesOf(db, w) && TransitionsOf(db', w) == TransitionsOf(db, w)
            && forall n | n in NodesOf(db, w) :: RulesOf(db', n.id) == RulesOf(db, n.id)
  {
    OtherNodes(db, v, ns, ts, w);
    OtherTransitions(db, v, ns, ts, w);
    FilterMembers(db.nodes, IsNode(w));
    forall m, n | m in db.nodes && n in db.nodes && m.id == n.id
      ensures m == n
    {
      OneOfEachId(db, m, n);
    }
    hide DistinctIds;
    hide Filter, Replaced, RulesOf, TransitionsOf, Joined;
    forall n | n in NodesOf(db, w)
      ensures RulesOf(Replaced(db, v, ns, ts), n.id) == RulesOf(db, n.id)
    {
      OtherRules(db, v, ns, ts, n.id);
    }
  }

  // ------------------------------------------------------------ the same graph

  ghost predicate NodeAlike(a: NodeInput, b: NodeInput) {
    && a.(assignees := []) == b.(assignees := [])
    && exists p, q :: Rearranges(a.assignees, b.assignees, p, q)
  }

  /** Two submissions that differ in the order of nodes, rules and transitions only. */
  ghost predicate SameGraph(ns': seq<NodeInput>, ts': seq<TransitionInput>, ns: seq<NodeInput>, ts: seq<TransitionInput>,
                            p: seq<nat>, q: seq<nat>, r: seq<nat>, s: seq<nat>) {
    && Permutes(p, q, |ns'|) && |ns'| == |ns|
    && (forall i | 0 <= i < |ns'| :: NodeAlike(ns'[i], ns[p[i]]))
    && Rearranges(ts', ts, r, s)
  }

  function NormalNodes(ns: seq<NodeInput>): seq<NodeInput> {
    seq(|ns|, i requires 0 <= i < |ns| => NormalNode(ns[i]))
  }

  function NormalTransitions(ts: seq<TransitionInput>): seq<TransitionInput> {
    seq(|ts|, i requires 0 <= i < |ts| => NormalTransition(ts[i]))
  }

  lemma LoadedNodeAlike(n: NodeInput, id: NodeId, v: VersionId, view: NodeView)
    requires view.row == SaveNode(id, v, n) && SameRules(view.rules, SaveRules(id, n.assignees))
    ensures NodeAlike(LoadNode(view), NormalNode(n))
  {
    var p, q :| Rearranges(view.rules, SaveRules(id, n.assignees), p, q);
    assert Rearranges(LoadNode(view).assignees, NormalNode(n).assignees, p, q);
  }

  lemma KeyRestored(ns: seq<NodeInput>, base: NodeId, v: VersionId, nodes: seq<NodeView>, p: seq<nat>, q: seq<nat>, j: nat)
    requires Permutes(p, q, |nodes|) && |nodes| == |ns| && j < |ns|
    requires forall i | 0 <= i < |nodes| :: nodes[i].row == SaveNode(base + p[i], v, ns[p[i]])
    ensures InView(nodes, base + j) && KeyById(nodes, base + j) == ns[j].key
  {
    assert nodes[q[j]].row.id == base + j;
    hide SaveNode;
    var key := KeyById(nodes, base + j);
    var i :| 0 <= i < |nodes| && nodes[i].row.id == base + j && nodes[i].row.key == key;
    SaveNodeKey(base + p[i], v, ns[p[i]]);
  }

  lemma SaveNodeKey(id: NodeId, v: VersionId, n: NodeInput)
    ensures SaveNode(id, v, n).id == id && SaveNode(id, v, n).key == n.key
  {
  }

  /** The round trip: a saved graph, read back in any order, is the submitted one with its texts trimmed and its
      defaults filled in. */
  lemma RoundTrip(db: Tables, v: VersionId, ns: seq<NodeInput>, ts: seq<TransitionInput>, view: View,
                  p: seq<nat>, q: seq<nat>, r: seq<nat>, s: seq<nat>)
    requires db.Valid() && Joined(ns, ts) && Loads(Replaced(db, v, ns, ts), v, view, p, q, r, s)
    ensures Connected(view)
    ensures SameGraph(NodesToInput(view), TransitionsToInput(view), NormalNodes(ns), NormalTransitions(ts), p, q, r, s)
  {
    hide NodesOf, TransitionsOf, RulesOf, Replaced, Connected, NormalNode, SaveNode, LoadNode, SaveRules, KeyById;
    var base := db.nextId;
    ReplacedHolds(db, v, ns, ts);
    RowsRestored(db, v, ns, ts, view, p, q, r, s);
    forall i | 0 <= i < |view.nodes|
      ensures NodeAlike(NodesToInput(view)[i], NormalNodes(ns)[p[i]])
    {
      SaveNodeId(base + p[i], v, ns[p[i]]);
      LoadedNodeAlike(ns[p[i]], base + p[i], v, view.nodes[i]);
    }
    forall i | 0 <= i < |view.transitions|
      ensures InView(view.nodes, view.transitions[i].sourceId) && InView(view.nodes, view.transitions[i].targetId)
      ensures LoadTransition(view.nodes, view.transitions[i]) == NormalTransition(ts[r[i]])
    {
      TransitionRestored(ns, base, v, view.nodes, p, q, ts[r[i]]);
    }
    AllConnected(view);
  }

  lemma SaveNodeId(id: NodeId, v: VersionId, n: NodeInput)
    ensures SaveNode(id, v, n).id == id
  {
  }

  lemma AllConnected(view: View)
    requires forall i | 0 <= i < |view.transitions| ::
               InView(view.nodes, view.transitions[i].sourceId) && InView(view.nodes, view.transitions[i].targetId)
    ensures Connected(view)
  {
  }

  lemma RowsRestored(db: Tables, v: VersionId, ns: seq<NodeInput>, ts: seq<TransitionInput>, view: View,
                     p: seq<nat>, q: seq<nat>, r: seq<nat>, s: seq<nat>)
    requires db.Valid() && Joined(ns, ts) && Loads(Replaced(db, v, ns, ts), v, view, p, q, r, s)
    ensures |view.nodes| == |ns| && |view.transitions| == |ts|
    ensures forall i | 0 <= i < |ns| :: view.nodes[i].row == SaveNode(db.nextId + p[i], v, ns[p[i]])
    ensures forall i | 0 <= i < |ns| :: SameRules(view.nodes[i].rules, SaveRules(db.nextId + p[i], ns[p[i]].assignees))
    ensures forall i | 0 <= i < |ts| :: HasKey(ns, ts[r[i]].sourceKey) && HasKey(ns, ts[r[i]].targetKey)
                                        && ts[r[i]].actionKey.Some?
    ensures forall i | 0 <= i < |ts| :: view.transitions[i] == SaveTransition(db.nextId, v, ns, ts[r[i]])
  {
    hide NodesOf, TransitionsOf, RulesOf, Replaced, SaveRules, SaveTransition, HasKey;
    ReplacedHolds(db, v, ns, ts);
    forall i | 0 <= i < |ts|
      ensures ts[r[i]] in ts
    {
    }
  }

  /** A transition row names the nodes that carry its keys. */
  lemma TransitionRestored(ns: seq<NodeInput>, base: NodeId, v: VersionId, nodes: seq<NodeView>, p: seq<nat>, q: seq<nat>,
                           t: TransitionInput)
    requires Permutes(p, q, |nodes|) && |nodes| == |ns|
    requires forall i | 0 <= i < |nodes| :: nodes[i].row == SaveNode(base + p[i], v, ns[p[i]])
    requires HasKey(ns, t.sourceKey) && HasKey(ns, t.targetKey) && t.actionKey.Some?
    ensures var row := SaveTransition(base, v, ns, t);
            && InView(nodes, row.sourceId) && InView(nodes, row.targetId)
            && LoadTransition(nodes, row) == NormalTransition(t)
  {
    hide SaveNode, HasKey, InView, KeyById, Permutes;
    KeyRestored(ns, base, v, nodes, p, q, IndexOf(ns, t.sourceKey));
    KeyRestored(ns, base, v, nodes, p, q, IndexOf(ns, t.targetKey));
  }

  // ----------------------------------------------------------------- validity

  /** Alike as far as the validator can see. */
  ghost predicate JudgedAlike(ns': seq<NodeInput>, ts': seq<TransitionInput>, ns: seq<NodeInput>, ts: seq<TransitionInput>,
                              p: seq<nat>, q: seq<nat>, r: seq<nat>, s: seq<nat>) {
    && Permutes(p, q, |ns'|) && |ns'| == |ns|
    && (forall i | 0 <= i < |ns'| ::
          && ns'[i].key == ns[p[i]].key && ns'[i].kind == ns[p[i]].kind
          && (GraphValidator.NodeFits(ns[p[i]]) ==> GraphValidator.NodeFits(ns'[i])))
    && Permutes(r, s, |ts'|) && |ts'| == |ts|
    && (forall i | 0 <= i < |ts'| ::
          && ts'[i].sourceKey == ts[r[i]].sourceKey && ts'[i].targetKey == ts[r[i]].targetKey
          && ts'[i].actionKey == ts[r[i]].actionKey && ts'[i].condition == ts[r[i]].condition)
  }

  lemma {:induction false} ChainKept(ts: seq<TransitionInput>, ts': seq<TransitionInput>, path: seq<string>)
    requires forall a, b :: GraphValidator.Linked(ts, a, b) ==> GraphValidator.Linked(ts', a, b)
    requires GraphValidator.Chain(ts, path)
    ensures GraphValidator.Chain(ts', path)
    decreases |path|
  {
    if |path| > 1 {
      ChainKept(ts, ts', path[..|path| - 1]);
    }
  }

  lemma ReachesKept(ts: seq<TransitionInput>, ts': seq<TransitionInput>, a: string, b: string)
    requires forall x, y :: GraphValidator.Linked(ts, x, y) ==> GraphValidator.Linked(ts', x, y)
    requires GraphValidator.Reaches(ts, a, b)
    ensures GraphValidator.Reaches(ts', a, b)
  {
    var path :| GraphValidator.Chain(ts, path) && path[0] == a && path[|path| - 1] == b;
    ChainKept(ts, ts', path);
  }

  lemma SomeAtKept(ts': seq<TransitionInput>, ts: seq<TransitionInput>, r: seq<nat>, s: seq<nat>,
                   side: GraphValidator.Side, key: string)
    requires Permutes(r, s, |ts'|) && |ts'| == |ts|
    requires forall i | 0 <= i < |ts'| :: ts'[i].sourceKey == ts[r[i]].sourceKey && ts'[i].targetKey == ts[r[i]].targetKey
    ensures GraphValidator.SomeAt(ts', side, key) <==> GraphValidator.SomeAt(ts, side, key)
    ensures GraphValidator.TwoAt(ts', side, key) <==> GraphValidator.TwoAt(ts, side, key)
  {
    if i :| 0 <= i < |ts| && GraphValidator.EndKey(ts[i], side) == key {
      assert GraphValidator.EndKey(ts'[s[i]], side) == key;
    }
    if i, j :| 0 <= i < j < |ts| && GraphValidator.EndKey(ts[i], side) == key && GraphValidator.EndKey(ts[j], side) == key {
      assert r[s[i]] != r[s[j]];
      TwoSpots(ts', side, key, s[i], s[j]);
    }
    if i, j :| 0 <= i < j < |ts'| && GraphValidator.EndKey(ts'[i], side) == key && GraphValidator.EndKey(ts'[j], side) == key {
      assert s[r[i]] != s[r[j]];
      TwoSpots(ts, side, key, r[i], r[j]);
    }
  }

  lemma TwoSpots(ts: seq<TransitionInput>, side: GraphValidator.Side, key: string, i: nat, j: nat)
    requires i < |ts| && j < |ts| && i != j
    requires GraphValidator.EndKey(ts[i], side) == key && GraphValidator.EndKey(ts[j], side) == key
    ensures GraphValidator.TwoAt(ts, side, key)
  {
  }

  lemma LinkedKept(ts': seq<TransitionInput>, ts: seq<TransitionInput>, r: seq<nat>, s: seq<nat>, a: string, b: string)
    requires Permutes(r, s, |ts'|) && |ts'| == |ts|
    requires forall i | 0 <= i < |ts'| :: ts'[i].sourceKey == ts[r[i]].sourceKey && ts'[i].targetKey == ts[r[i]].targetKey
    requires GraphValidator.Linked(ts, a, b)
    ensures GraphValidator.Linked(ts', a, b)
  {
    var t :| t in ts && t.sourceKey == a && t.targetKey == b;
    var i :| 0 <= i < |ts| && ts[i] == t;
    assert ts'[s[i]] in ts';
  }

  lemma DegreesKept(ns': seq<NodeInput>, ts': seq<TransitionInput>, ns: seq<NodeInput>, ts: seq<TransitionInput>,
                    p: seq<nat>, q: seq<nat>, r: seq<nat>, s: seq<nat>, i: nat)
    requires JudgedAlike(ns', ts', ns, ts, p, q, r, s) && i < |ns'| && GraphValidator.DegreesFit(ns[p[i]], ts)
    ensures GraphValidator.DegreesFit(ns'[i], ts')
  {
    SomeAtKept(ts', ts, r, s, GraphValidator.Source, ns'[i].key);
    SomeAtKept(ts', ts, r, s, GraphValidator.Target, ns'[i].key);
    forall t | t in ts' && t.sourceKey == ns'[i].key && ns'[i].kind.Condition?
      ensures t.condition.Some?
    {
      var j :| 0 <= j < |ts'| && ts'[j] == t;
      assert ts[r[j]] in ts;
    }
  }

  lemma KnownKept(ns': seq<NodeInput>, ns: seq<NodeInput>, p: seq<nat>, q: seq<nat>, key: string)
    requires Permutes(p, q, |ns'|) && |ns'| == |ns| && forall i | 0 <= i < |ns'| :: ns'[i].key == ns[p[i]].key
    requires GraphValidator.Known(ns, key)
    ensures GraphValidator.Known(ns', key)
  {
    var n :| n in ns && n.key == key;
    var i :| 0 <= i < |ns| && ns[i] == n;
    assert ns'[q[i]] in ns';
  }

  lemma UniqueKept(ns': seq<NodeInput>, ns: seq<NodeInput>, p: seq<nat>, q: seq<nat>)
    requires Permutes(p, q, |ns'|) && |ns'| == |ns| && forall i | 0 <= i < |ns'| :: ns'[i].key == ns[p[i]].key
    requires GraphValidator.UniqueKeys(ns)
    ensures GraphValidator.UniqueKeys(ns')
  {
  }

  lemma JudgedAlikeKeeps(ns': seq<NodeInput>, ts': seq<TransitionInput>, ns: seq<NodeInput>, ts: seq<TransitionInput>,
                         p: seq<nat>, q: seq<nat>, r: seq<nat>, s: seq<nat>)
    requires JudgedAlike(ns', ts', ns, ts, p, q, r, s) && GraphValidator.WellFormed(ns, ts)
    ensures GraphValidator.WellFormed(ns', ts')
  {
    hide GraphValidator.DegreesFit, GraphValidator.NodeFits, GraphValidator.Reaches, GraphValidator.TransitionFits;
    UniqueKept(ns', ns, p, q);
    ActionKeys.RearrangedDistinct(ts', ts, r, s);
    var start: nat :| GraphValidator.StartsAt(ns, start) && forall n | n in ns :: GraphValidator.Reaches(ts, ns[start].key, n.key);
    assert GraphValidator.StartsAt(ns', q[start]);
    forall a, b | GraphValidator.Linked(ts, a, b)
      ensures GraphValidator.Linked(ts', a, b)
    {
      LinkedKept(ts', ts, r, s, a, b);
    }
    forall i | 0 <= i < |ns'|
      ensures GraphValidator.NodeFits(ns'[i]) && GraphValidator.DegreesFit(ns'[i], ts')
      ensures GraphValidator.Reaches(ts', ns'[q[start]].key, ns'[i].key)
    {
      assert ns[p[i]] in ns;
      DegreesKept(ns', ts', ns, ts, p, q, r, s, i);
      ReachesKept(ts, ts', ns[start].key, ns[p[i]].key);
    }
    var end :| end in ns && end.kind.End?;
    var e :| 0 <= e < |ns| && ns[e] == end;
    assert ns'[q[e]] in ns' && ns'[q[e]].kind.End?;
    TransitionsKept(ns', ts', ns, ts, p, q, r, s);
  }

  lemma TransitionsKept(ns': seq<NodeInput>, ts': seq<TransitionInput>, ns: seq<NodeInput>, ts: seq<TransitionInput>,
                        p: seq<nat>, q: seq<nat>, r: seq<nat>, s: seq<nat>)
    requires JudgedAlike(ns', ts', ns, ts, p, q, r, s)
    requires forall t | t in ts :: GraphValidator.Known(ns, t.sourceKey) && GraphValidator.Known(ns, t.targetKey)
                                   && GraphValidator.TransitionFits(t)
    ensures forall t | t in ts' :: GraphValidator.Known(ns', t.sourceKey) && GraphValidator.Known(ns', t.targetKey)
                                   && GraphValidator.TransitionFits(t)
  {
    forall t | t in ts'
      ensures GraphValidator.Known(ns', t.sourceKey) && GraphValidator.Known(ns', t.targetKey)
      ensures GraphValidator.TransitionFits(t)
    {
      var i :| 0 <= i < |ts'| && ts'[i] == t;
      assert ts[r[i]] in ts;
      KnownKept(ns', ns, p, q, t.sourceKey);
      KnownKept(ns', ns, p, q, t.targetKey);
    }
  }

  /** A rule the validator accepts is already trimmed. */
  lemma NormalRuleFits(r: RuleInput)
    requires GraphValidator.RuleFits(r)
    ensures GraphValidator.RuleFits(NormalRule(r))
  {
    if r.variableKey.Some? {
      var key := r.variableKey.value;
      assert !Text.IsSpace(key[0]);
      assert key[|key| - 1] in key && !Text.IsSpace(key[|key| - 1]);
      assert Text.Trim(key) == key;
    }
  }

  /** The validator reads three settings of a node and its rules. */
  lemma FitsBySettings(a: NodeInput, b: NodeInput)
    requires GraphValidator.NodeFits(a) && b.kind == a.kind && (b.assignees == [] ==> a.assignees == [])
    requires forall r | r in b.assignees :: GraphValidator.RuleFits(r)
    requires forall key | key in {"requiredPermissions", "requiredPermission", "formFields"} ::
               GraphValidator.ConfigField(b, key) == GraphValidator.ConfigField(a, key)
    ensures GraphValidator.NodeFits(b)
  {
  }

  lemma NormalNodeFits(n: NodeInput)
    requires GraphValidator.NodeFits(n)
    ensures GraphValidator.NodeFits(NormalNode(n))
  {
    forall i | 0 <= i < |n.assignees|
      ensures GraphValidator.RuleFits(NormalNode(n).assignees[i])
    {
      NormalRuleFits(n.assignees[i]);
    }
    FitsBySettings(n, NormalNode(n));
  }

  lemma AlikeFits(a: NodeInput, b: NodeInput)
    requires NodeAlike(a, b) && GraphValidator.NodeFits(b)
    ensures GraphValidator.NodeFits(a)
  {
  }

  lemma NormalWellFormed(ns: seq<NodeInput>, ts: seq<TransitionInput>)
    requires GraphValidator.WellFormed(ns, ts)
    ensures GraphValidator.WellFormed(NormalNodes(ns), NormalTransitions(ts))
  {
    hide GraphValidator.NodeFits, GraphValidator.WellFormed;
    forall i | 0 <= i < |ns| && GraphValidator.NodeFits(ns[i])
      ensures GraphValidator.NodeFits(NormalNodes(ns)[i])
    {
      NormalNodeFits(ns[i]);
    }
    hide NormalNode, NormalTransition;
    var p, r := Positions(|ns|), Positions(|ts|);
    forall i | 0 <= i < |ns|
      ensures NormalNodes(ns)[i].key == ns[i].key && NormalNodes(ns)[i].kind == ns[i].kind
    {
      NormalKeeps(ns[i]);
    }
    forall i | 0 <= i < |ts|
      ensures var t := NormalTransitions(ts)[i];
              && t.sourceKey == ts[i].sourceKey && t.targetKey == ts[i].targetKey
              && t.actionKey == ts[i].actionKey && t.condition == ts[i].condition
    {
      NormalTransitionKeeps(ts[i]);
    }
    assert JudgedAlike(NormalNodes(ns), NormalTransitions(ts), ns, ts, p, p, r, r);
    JudgedAlikeKeeps(NormalNodes(ns), NormalTransitions(ts), ns, ts, p, p, r, r);
  }

  lemma NormalKeeps(n: NodeInput)
    ensures NormalNode(n).key == n.key && NormalNode(n).kind == n.kind
  {
  }

  lemma NormalTransitionKeeps(t: TransitionInput)
    ensures var t' := NormalTransition(t);
            && t'.sourceKey == t.sourceKey && t'.targetKey == t.targetKey
            && t'.actionKey == t.actionKey && t'.condition == t.condition
  {
  }

  lemma SameGraphSymmetric(ns': seq<NodeInput>, ts': seq<TransitionInput>, ns: seq<NodeInput>, ts: seq<TransitionInput>,
                           p: seq<nat>, q: seq<nat>, r: seq<nat>, s: seq<nat>)
    requires SameGraph(ns', ts', ns, ts, p, q, r, s)
    ensures SameGraph(ns, ts, ns', ts', q, p, s, r)
  {
    forall i | 0 <= i < |ns|
      ensures NodeAlike(ns[i], ns'[q[i]])
    {
      assert NodeAlike(ns'[q[i]], ns[p[q[i]]]);
      var a, b :| Rearranges(ns'[q[i]].assignees, ns[i].assignees, a, b);
      assert Rearranges(ns[i].assignees, ns'[q[i]].assignees, b, a);
    }
  }

  /** One permutation after another. */
  function Compose(p: seq<nat>, q: seq<nat>): seq<nat>
    requires forall i | 0 <= i < |p| :: p[i] < |q|
  {
    seq(|p|, i requires 0 <= i < |p| => q[p[i]])
  }

  lemma PermutesCompose(p: seq<nat>, q: seq<nat>, p': seq<nat>, q': seq<nat>, n: nat)
    requires Permutes(p, q, n) && Permutes(p', q', n)
    ensures Permutes(Compose(p, p'), Compose(q', q), n)
  {
    var a, b := Compose(p, p'), Compose(q', q);
    forall i | 0 <= i < n
      ensures a[i] < n && b[i] < n && b[a[i]] == i && a[b[i]] == i
    {
      assert q'[p'[p[i]]] == p[i] && p[q[q'[i]]] == q'[i];
    }
  }

  lemma RearrangesCompose<T(!new)>(a: seq<T>, b: seq<T>, c: seq<T>, p: seq<nat>, q: seq<nat>, p': seq<nat>, q': seq<nat>)
    requires Rearranges(a, b, p, q) && Rearranges(b, c, p', q')
    ensures Rearranges(a, c, Compose(p, p'), Compose(q', q))
  {
    PermutesCompose(p, q, p', q', |a|);
  }

  lemma NodeAlikeTransitive(a: NodeInput, b: NodeInput, c: NodeInput)
    requires NodeAlike(a, b) && NodeAlike(b, c)
    ensures NodeAlike(a, c)
  {
    var p, q :| Rearranges(a.assignees, b.assignees, p, q);
    var p', q' :| Rearranges(b.assignees, c.assignees, p', q');
    RearrangesCompose(a.assignees, b.assignees, c.assignees, p, q, p', q');
  }

  /** The same graph, up to order. */
  ghost predicate SameUpToOrder(ns': seq<NodeInput>, ts': seq<TransitionInput>, ns: seq<NodeInput>, ts: seq<TransitionInput>) {
    exists p, q, r, s :: SameGraph(ns', ts', ns, ts, p, q, r, s)
  }

  lemma SameUpToOrderTransitive(ns'': seq<NodeInput>, ts'': seq<TransitionInput>, ns': seq<NodeInput>, ts': seq<TransitionInput>,
                                ns: seq<NodeInput>, ts: seq<TransitionInput>)
    requires SameUpToOrder(ns'', ts'', ns', ts') && SameUpToOrder(ns', ts', ns, ts)
    ensures SameUpToOrder(ns'', ts'', ns, ts)
  {
    var p, q, r, s :| SameGraph(ns'', ts'', ns', ts', p, q, r, s);
    var p', q', r', s' :| SameGraph(ns', ts', ns, ts, p', q', r', s');
    PermutesCompose(p, q, p', q', |ns''|);
    RearrangesCompose(ts'', ts', ts, r, s, r', s');
    hide NodeAlike;
    forall i | 0 <= i < |ns''|
      ensures NodeAlike(ns''[i], ns[p'[p[i]]])
    {
      NodeAlikeTransitive(ns''[i], ns'[p[i]], ns[p'[p[i]]]);
    }
    assert SameGraph(ns'', ts'', ns, ts, Compose(p, p'), Compose(q', q), Compose(r, r'), Compose(s', s));
  }

  lemma SameGraphKeeps(ns': seq<NodeInput>, ts': seq<TransitionInput>, ns: seq<NodeInput>, ts: seq<TransitionInput>,
                       p: seq<nat>, q: seq<nat>, r: seq<nat>, s: seq<nat>)
    requires SameGraph(ns', ts', ns, ts, p, q, r, s) && GraphValidator.WellFormed(ns, ts)
    ensures GraphValidator.WellFormed(ns', ts')
  {
    hide GraphValidator.NodeFits, GraphValidator.WellFormed;
    forall i | 0 <= i < |ns'| && GraphValidator.NodeFits(ns[p[i]])
      ensures GraphValidator.NodeFits(ns'[i])
    {
      AlikeFits(ns'[i], ns[p[i]]);
    }
    assert JudgedAlike(ns', ts', ns, ts, p, q, r, s);
    JudgedAlikeKeeps(ns', ts', ns, ts, p, q, r, s);
  }

  /** The validator's verdict does not depend on order. */
  lemma SameGraphSameVerdict(ns': seq<NodeInput>, ts': seq<TransitionInput>, ns: seq<NodeInput>, ts: seq<TransitionInput>,
                             p: seq<nat>, q: seq<nat>, r: seq<nat>, s: seq<nat>)
    requires SameGraph(ns', ts', ns, ts, p, q, r, s)
    ensures GraphValidator.WellFormed(ns', ts') <==> GraphValidator.WellFormed(ns, ts)
  {
    hide GraphValidator.WellFormed, SameGraph;
    SameGraphSymmetric(ns', ts', ns, ts, p, q, r, s);
    if GraphValidator.WellFormed(ns, ts) {
      SameGraphKeeps(ns', ts', ns, ts, p, q, r, s);
    }
    if GraphValidator.WellFormed(ns', ts') {
      SameGraphKeeps(ns, ts, ns', ts', q, p, s, r);
    }
  }

  lemma WellFormedJoined(ns: seq<NodeInput>, ts: seq<TransitionInput>)
    requires GraphValidator.WellFormed(ns, ts)
    ensures forall t | t in ts :: HasKey(ns, t.sourceKey) && HasKey(ns, t.targetKey)
  {
    forall t | t in ts
      ensures HasKey(ns, t.sourceKey) && HasKey(ns, t.targetKey)
    {
      var a :| a in ns && a.key == t.sourceKey;
      var b :| b in ns && b.key == t.targetKey;
    }
  }

  /** What `saveDraft` accepts, `publish` accepts: an accepted graph is still accepted when it is read back. */
  lemma SavedIsAccepted(db: Tables, v: VersionId, ns: seq<NodeInput>, ts: seq<TransitionInput>, view: View,
                        p: seq<nat>, q: seq<nat>, r: seq<nat>, s: seq<nat>)
    requires db.Valid() && GraphValidator.WellFormed(ns, ts) && Joined(ns, ts)
    requires Loads(Replaced(db, v, ns, ts), v, view, p, q, r, s)
    ensures Connected(view) && GraphValidator.WellFormed(NodesToInput(view), TransitionsToInput(view))
  {
    RoundTrip(db, v, ns, ts, view, p, q, r, s);
    NormalWellFormed(ns, ts);
    SameGraphSameVerdict(NodesToInput(view), TransitionsToInput(view), NormalNodes(ns), NormalTransitions(ts), p, q, r, s);
  }

  // ------------------------------------------------------------------- copies

  lemma NormalIdempotent(n: NodeInput)
    ensures NormalNode(NormalNode(n)) == NormalNode(n)
  {
  }

  lemma NormalTransitionIdempotent(t: TransitionInput)
    ensures NormalTransition(NormalTransition(t)) == NormalTransition(t)
  {
  }

  lemma LoadedIsNormal(a: NodeInput, n: NodeInput)
    requires NodeAlike(a, NormalNode(n))
    ensures NormalNode(a) == a
  {
  }

  /** A copy is faithful: reading a saved graph back, saving that as another version and reading it again gives the same
      graph, and the keys prepared for the copy are the source's own. */
  lemma CopyIsFaithful(db: Tables, v: VersionId, ns: seq<NodeInput>, ts: seq<TransitionInput>, view: View,
                       p: seq<nat>, q: seq<nat>, r: seq<nat>, s: seq<nat>,
                       w: VersionId, fold: string -> string, prepared: seq<TransitionInput>, copy: View,
                       p': seq<nat>, q': seq<nat>, r': seq<nat>, s': seq<nat>)
    requires db.Valid() && GraphValidator.WellFormed(ns, ts) && Joined(ns, ts) && ActionKeys.KeyedAll(ts)
    requires Loads(Replaced(db, v, ns, ts), v, view, p, q, r, s) && Connected(view)
    requires ActionKeys.Prepared(TransitionsToInput(view), fold, prepared) && Joined(NodesToInput(view), prepared)
    requires Loads(Replaced(Replaced(db, v, ns, ts), w, NodesToInput(view), prepared), w, copy, p', q', r', s')
    ensures prepared == TransitionsToInput(view) && Connected(copy)
    ensures SameGraph(NodesToInput(copy), TransitionsToInput(copy), NodesToInput(view), TransitionsToInput(view), p', q', r', s')
  {
    hide Loads, Connected, Joined, GraphValidator.WellFormed, NodesToInput, TransitionsToInput, Replaced, Tables.Valid;
    hide SameGraph, ActionKeys.Prepared, NormalNodes, NormalTransitions;
    var ns1, ts1 := NodesToInput(view), TransitionsToInput(view);
    RoundTrip(db, v, ns, ts, view, p, q, r, s);
    SavedIsAccepted(db, v, ns, ts, view, p, q, r, s);
    LoadedKeyed(ns1, ts1, ns, ts, p, q, r, s);
    WellFormedDistinct(ns1, ts1);
    LoadedAllNormal(ns1, ts1, ns, ts, p, q, r, s);
    ActionKeys.PreparedIdentity(ts1, fold, prepared);
    ReplacedValid(db, v, ns, ts);
    RoundTrip(Replaced(db, v, ns, ts), w, ns1, ts1, copy, p', q', r', s');
  }

  lemma LoadedKeyed(ns': seq<NodeInput>, ts': seq<TransitionInput>, ns: seq<NodeInput>, ts: seq<TransitionInput>,
                    p: seq<nat>, q: seq<nat>, r: seq<nat>, s: seq<nat>)
    requires SameGraph(ns', ts', NormalNodes(ns), NormalTransitions(ts), p, q, r, s) && ActionKeys.KeyedAll(ts)
    ensures ActionKeys.KeyedAll(ts')
  {
  }

  lemma LoadedAllNormal(ns': seq<NodeInput>, ts': seq<TransitionInput>, ns: seq<NodeInput>, ts: seq<TransitionInput>,
                        p: seq<nat>, q: seq<nat>, r: seq<nat>, s: seq<nat>)
    requires SameGraph(ns', ts', NormalNodes(ns), NormalTransitions(ts), p, q, r, s)
    ensures NormalNodes(ns') == ns' && NormalTransitions(ts') == ts'
  {
    hide NormalNode, NodeAlike;
    forall i | 0 <= i < |ns'|
      ensures NormalNode(ns'[i]) == ns'[i]
    {
      LoadedIsNormal(ns'[i], ns[p[i]]);
    }
    forall i | 0 <= i < |ts'|
      ensures NormalTransition(ts'[i]) == ts'[i]
    {
      Text.TrimIdempotent(ts[r[i]].caption);
    }
  }

  lemma ReplacedValid(db: Tables, v: VersionId, ns: seq<NodeInput>, ts: seq<TransitionInput>)
    requires db.Valid() && Joined(ns, ts)
    ensures Replaced(db, v, ns, ts).Valid()
  {
    SavedRulesBelow(db.nextId, ns);
    FilterMembers(db.nodes, OtherNode(v));
    FilterMembers(db.rules, OtherRule(NodeIds(db.nodes, v)));
  }

  lemma {:induction false} FilterDistinct(rows: seq<NodeRow>, keep: NodeRow -> bool)
    requires RowIdsDistinct(rows)
    ensures RowIdsDistinct(Filter(rows, keep))
  {
    if rows != [] {
      var rest := Filter(rows[1..], keep);
      FilterDistinct(rows[1..], keep);
      FilterMembers(rows[1..], keep);
      if keep(rows[0]) {
        assert Filter(rows, keep) == [rows[0]] + rest;
        forall j | 0 <= j < |rest|
          ensures rest[j].id != rows[0].id
        {
          assert rest[j] in rows[1..];
        }
      }
    }
  }

  /** Replacing a graph keeps row identifiers unique. */
  lemma ReplacedDistinctIds(db: Tables, v: VersionId, ns: seq<NodeInput>, ts: seq<TransitionInput>)
    requires db.Valid() && DistinctIds(db) && Joined(ns, ts)
    ensures DistinctIds(Replaced(db, v, ns, ts))
  {
    hide Joined, SavedRules, SavedTransitions, SaveNode;
    var kept, saved := Filter(db.nodes, OtherNode(v)), SavedNodes(db.nextId, v, ns);
    FilterDistinct(db.nodes, OtherNode(v));
    FilterMembers(db.nodes, OtherNode(v));
    hide Filter;
    forall i | 0 <= i < |saved|
      ensures saved[i].id == db.nextId + i
    {
      SaveNodeId(db.nextId + i, v, ns[i]);
    }
    forall i | 0 <= i < |kept|
      ensures kept[i].id < db.nextId
    {
      assert kept[i] in db.nodes;
    }
    assert Replaced(db, v, ns, ts).nodes == kept + saved;
  }

  lemma {:induction false} SavedRulesBelow(base: NodeId, ns: seq<NodeInput>)
    ensures forall r | r in SavedRules(base, ns) :: r.nodeId < base + |ns|
  {
    if ns != [] {
      SavedRulesBelow(base, ns[..|ns| - 1]);
    }
  }

  // ------------------------------------------------------- what the engine runs

  function EngineGraph(view: View): Graph {
    Graph(
      map id | id in (set n | n in view.nodes :: n.row.id) :: NodeAt(view.nodes, id),
      seq(|view.transitions|, i requires 0 <= i < |view.transitions| =>
        var t := view.transitions[i]; Edge(t.sourceId, t.targetId, t.actionKey, t.caption, t.condition)))
  }

  function NodeAt(nodes: seq<NodeView>, id: NodeId): Node {
    if nodes == [] then Node(End, "", map[])
    else if nodes[0].row.id == id then Node(nodes[0].row.kind, nodes[0].row.name, nodes[0].row.config)
    else NodeAt(nodes[1..], id)
  }

  ghost predicate DistinctRows(view: View) {
    forall i, j | 0 <= i < j < |view.nodes| :: view.nodes[i].row.id != view.nodes[j].row.id
  }

  lemma LoadedRowsDistinct(db: Tables, v: VersionId, view: View, p: seq<nat>, q: seq<nat>, r: seq<nat>, s: seq<nat>)
    requires DistinctIds(db) && Loads(db, v, view, p, q, r, s)
    ensures DistinctRows(view)
  {
    FilterDistinct(db.nodes, IsNode(v));
    hide Filter, NodesOf;
    var rows := NodesOf(db, v);
    assert RowIdsDistinct(rows) by {
      NodesAreFiltered(db, v);
    }
    forall i, j | 0 <= i < j < |view.nodes|
      ensures view.nodes[i].row.id != view.nodes[j].row.id
    {
      assert q[p[i]] != q[p[j]];
      var a, b := if p[i] < p[j] then p[i] else p[j], if p[i] < p[j] then p[j] else p[i];
      assert rows[a].id != rows[b].id;
    }
  }

  lemma NodesAreFiltered(db: Tables, v: VersionId)
    ensures NodesOf(db, v) == Filter(db.nodes, IsNode(v))
  {
  }

  lemma {:induction false} NodeAtPlace(nodes: seq<NodeView>, i: nat)
    requires i < |nodes| && forall j, k | 0 <= j < k < |nodes| :: nodes[j].row.id != nodes[k].row.id
    ensures NodeAt(nodes, nodes[i].row.id) == Node(nodes[i].row.kind, nodes[i].row.name, nodes[i].row.config)
  {
    if i > 0 {
      NodeAtPlace(nodes[1..], i - 1);
    }
  }

  /** `id` is the one start node of the graph. */
  ghost predicate OnlyStart(g: Graph, id: NodeId) {
    forall n :: n in g.nodes && g.nodes[n].kind.Start? <==> n == id
  }

  /** An accepted graph has exactly one start node, so looking it up succeeds. */
  lemma AcceptedGraphStarts(view: View)
    requires Connected(view) && DistinctRows(view) && GraphValidator.WellFormed(NodesToInput(view), TransitionsToInput(view))
    ensures exists id :: OnlyStart(EngineGraph(view), id)
  {
    var place := StartPlace(NodesToInput(view), TransitionsToInput(view));
    hide GraphValidator.WellFormed, GraphValidator.StartsAt;
    StartOfView(view, place);
  }

  /** With it no start of an instance is refused for want of a start node. */
  lemma StartIsFound(view: View, env: TokenEngine.Env, id: NodeId, actor: Option<Tenants.UserId>)
    requires Connected(view) && GraphValidator.WellFormed(NodesToInput(view), TransitionsToInput(view))
    requires OnlyStart(EngineGraph(view), id)
    ensures var r := InstanceActions.StartInstance(EngineGraph(view), env, id, actor); r.Ok? || r == Err(TokenEngine.AutomaticLoop)
  {
    AcceptedGraphRuns(view);
    hide GraphValidator.WellFormed, EngineGraph, Connected;
    InstanceSafety.StartSettled(EngineGraph(view), env, id, actor);
  }

  lemma StartPlace(ns: seq<NodeInput>, ts: seq<TransitionInput>) returns (place: nat)
    requires GraphValidator.WellFormed(ns, ts)
    ensures GraphValidator.StartsAt(ns, place)
  {
    place :| GraphValidator.StartsAt(ns, place);
  }

  lemma StartOfView(view: View, place: nat)
    requires DistinctRows(view) && GraphValidator.StartsAt(NodesToInput(view), place)
    ensures OnlyStart(EngineGraph(view), view.nodes[place].row.id)
  {
    var g, start := EngineGraph(view), view.nodes[place].row.id;
    forall i | 0 <= i < |view.nodes|
      ensures view.nodes[i].row.id in g.nodes && (g.nodes[view.nodes[i].row.id].kind.Start? <==> i == place)
    {
      assert view.nodes[i] in view.nodes;
      NodeAtPlace(view.nodes, i);
      assert NodesToInput(view)[i].kind == view.nodes[i].row.kind;
    }
    forall n | n in g.nodes
      ensures g.nodes[n].kind.Start? <==> n == start
    {
      var x :| x in view.nodes && x.row.id == n;
      var i :| 0 <= i < |view.nodes| && view.nodes[i] == x;
    }
  }

  lemma EndsAreNodes(view: View, t: TransitionRow)
    requires InView(view.nodes, t.sourceId) && InView(view.nodes, t.targetId)
    ensures t.sourceId in EngineGraph(view).nodes && t.targetId in EngineGraph(view).nodes
  {
  }

  /** An accepted graph gives the engine what it relies on: closed edges and one edge per source and action. */
  lemma AcceptedGraphRuns(view: View)
    requires Connected(view) && GraphValidator.WellFormed(NodesToInput(view), TransitionsToInput(view))
    ensures EngineGraph(view).Closed() && EngineGraph(view).Deterministic()
  {
    hide InView, GraphValidator.WellFormed, NodesToInput, KeyById;
    var g, ts := EngineGraph(view), TransitionsToInput(view);
    forall i | 0 <= i < |g.edges|
      ensures g.edges[i].source in g.nodes && g.edges[i].target in g.nodes
    {
      assert view.transitions[i] in view.transitions;
      EndsAreNodes(view, view.transitions[i]);
    }
    WellFormedDistinct(NodesToInput(view), ts);
    forall i, j | 0 <= i < j < |g.edges| && g.edges[i].source == g.edges[j].source
      ensures g.edges[i].actionKey != g.edges[j].actionKey
    {
      assert ts[i].sourceKey == ts[j].sourceKey;
      assert ts[i].actionKey != ts[j].actionKey;
    }
  }

  lemma WellFormedDistinct(ns: seq<NodeInput>, ts: seq<TransitionInput>)
    requires GraphValidator.WellFormed(ns, ts)
    ensures ActionKeys.DistinctKeys(ts)
  {
  }
}
