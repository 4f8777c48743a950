/** The organization chart: the tree built from the active units, and the plant a unit belongs to. */
module OrganizationTree {
  import opened Outcomes
  import opened Organization

  /** The active units on their own: a unit whose parent is missing or inactive stands at the top. */
  function Cut(active: Units): (cut: Units)
    ensures cut.Keys == active.Keys
  {
    map id | id in active :: active[id].(parent := ActiveParent(active, id))
  }

  function ActiveParent(active: Units, id: UnitId): Option<UnitId>
    requires id in active
  {
    if active[id].parent.Some? && active[id].parent.value in active then active[id].parent else None
  }

  lemma CutParent(active: Units, id: UnitId)
    requires id in active
    ensures Cut(active)[id].parent == ActiveParent(active, id)
  {
  }

  lemma {:induction false} RootedCut(units: Units, active: Units, id: UnitId, n: nat)
    requires forall id | id in active :: id in units && active[id] == units[id]
    requires id in active && Rooted(units, id, n)
    ensures Rooted(Cut(active), id, n)
    decreases n
  {
    if ActiveParent(active, id).Some? {
      RootedCut(units, active, units[id].parent.value, n - 1);
    }
  }

  /** Whatever is deactivated, what remains is a forest. */
  lemma CutForest(units: Units, active: Units)
    requires Forest(units) && forall id | id in active :: id in units && active[id] == units[id]
    ensures Forest(Cut(active))
  {
    forall id | id in active
      ensures HasRoot(Cut(active), id)
    {
      var n: nat :| Rooted(units, id, n);
      RootedCut(units, active, id, n);
    }
  }

  // --------------------------------------------------------- children and roots

  ghost predicate NoDuplicates(ids: seq<UnitId>) {
    forall i, j | 0 <= i < j < |ids| :: ids[i] != ids[j]
  }

  /** `order` lists the active units, each once. */
  ghost predicate Lists(order: seq<UnitId>, active: Units) {
    NoDuplicates(order) && forall id :: id in order <==> id in active
  }

  /** The units of `ids`, in order, whose active parent is `parent`. */
  function Under(active: Units, ids: seq<UnitId>, parent: Option<UnitId>): (r: seq<UnitId>)
    requires forall id | id in ids :: id in active
  {
    if ids == [] then []
    else
      var last := ids[|ids| - 1];
      Under(active, ids[..|ids| - 1], parent) + if ActiveParent(active, last) == parent then [last] else []
  }

  lemma {:induction false} UnderMembers(active: Units, ids: seq<UnitId>, parent: Option<UnitId>)
    requires NoDuplicates(ids) && forall id | id in ids :: id in active
    ensures forall id :: id in Under(active, ids, parent) <==> id in ids && ActiveParent(active, id) == parent
    ensures NoDuplicates(Under(active, ids, parent))
  {
    if ids != [] {
      var rest, last := ids[..|ids| - 1], ids[|ids| - 1];
      UnderMembers(active, rest, parent);
      assert forall id :: id in ids <==> id in rest || id == last;
    }
  }

  lemma UnderNext(active: Units, ids: seq<UnitId>, id: UnitId, parent: Option<UnitId>)
    requires id in active && forall x | x in ids :: x in active
    ensures Under(active, ids + [id], parent) == Under(active, ids, parent) + if ActiveParent(active, id) == parent then [id] else []
  {
  }

  /** Each unit of `ids` has been pushed onto its parent's children or onto the roots. */
  ghost predicate Placed(active: Units, ids: seq<UnitId>, children: map<UnitId, seq<UnitId>>, roots: seq<UnitId>)
    requires forall id | id in ids :: id in active
  {
    && children.Keys == active.Keys
    && (forall id | id in active :: children[id] == Under(active, ids, Some(id)))
    && roots == Under(active, ids, None)
  }

  lemma PlacedNext(active: Units, ids: seq<UnitId>, children: map<UnitId, seq<UnitId>>, roots: seq<UnitId>, id: UnitId)
    requires (forall x | x in ids :: x in active) && Placed(active, ids, children, roots) && id in active
    ensures ActiveParent(active, id).None? ==> Placed(active, ids + [id], children, roots + [id])
    ensures ActiveParent(active, id).Some? ==>
              var p := ActiveParent(active, id).value;
              Placed(active, ids + [id], children[p := children[p] + [id]], roots)
  {
    hide Under, ActiveParent;
    UnderNext(active, ids, id, None);
    forall x | x in active
      ensures Under(active, ids + [id], Some(x))
              == Under(active, ids, Some(x)) + if ActiveParent(active, id) == Some(x) then [id] else []
    {
      UnderNext(active, ids, id, Some(x));
    }
    ActiveParentKnown(active, id);
  }

  lemma ActiveParentKnown(active: Units, id: UnitId)
    requires id in active
    ensures ActiveParent(active, id).Some? ==> ActiveParent(active, id).value in active
  {
  }

  /** The two maps of the chart: every active unit is pushed once, onto its parent's children or onto the roots. */
  method OrganizationTree(active: Units, order: seq<UnitId>) returns (children: map<UnitId, seq<UnitId>>, roots: seq<UnitId>)
    requires Lists(order, active)
    ensures children.Keys == active.Keys
    ensures forall id | id in active :: children[id] == Under(active, order, Some(id))
    ensures roots == Under(active, order, None)
  {
    children, roots := map id | id in active :: [], [];
    for i := 0 to |order|
      invariant children.Keys == active.Keys && Placed(active, order[..i], children, roots)
    {
      var id := order[i];
      assert id in order && order[..i + 1] == order[..i] + [id];
      PlacedNext(active, order[..i], children, roots, id);
      hide Placed;
      var parent := active[id].parent;
      if parent.Some? && parent.value in active {
        children := children[parent.value := children[parent.value] + [id]];
      } else {
        roots := roots + [id];
      }
    }
    assert order[..|order|] == order;
  }

  // ----------------------------------------------------------- the nested chart

  datatype Tree = Tree(id: UnitId, children: seq<Tree>)

  /** The chart under some units, followed `levels` levels down. */
  function Nest(active: Units, order: seq<UnitId>, ids: seq<UnitId>, levels: nat): seq<Tree>
    requires forall id | id in order :: id in active
    decreases levels, 1, |ids|
  {
    if ids == [] then []
    else
      [Tree(ids[0], Subtrees(active, order, ids[0], levels))] + Nest(active, order, ids[1..], levels)
  }

  /** How often a unit occurs in a nested chart. */
  function Count(trees: seq<Tree>, x: UnitId): nat {
    if trees == [] then 0
    else (if trees[0].id == x then 1 else 0) + Count(trees[0].children, x) + Count(trees[1..], x)
  }

  /** `id` is met on the way up from `x`, at most `levels` steps up. */
  ghost predicate Met(cut: Units, x: UnitId, id: UnitId, levels: nat) {
    exists k: nat :: k <= levels && Up(cut, x, k) == Some(id)
  }

  ghost function Hits(cut: Units, ids: seq<UnitId>, x: UnitId, levels: nat): nat {
    if ids == [] then 0 else (if Met(cut, x, ids[0], levels) then 1 else 0) + Hits(cut, ids[1..], x, levels)
  }

  lemma {:induction false} NoHits(cut: Units, ids: seq<UnitId>, x: UnitId, levels: nat)
    requires forall id | id in ids :: !Met(cut, x, id, levels)
    ensures Hits(cut, ids, x, levels) == 0
  {
    if ids != [] {
      NoHits(cut, ids[1..], x, levels);
    }
  }

  lemma {:induction false} OneHit(cut: Units, ids: seq<UnitId>, x: UnitId, levels: nat, hit: UnitId)
    requires NoDuplicates(ids) && hit in ids && Met(cut, x, hit, levels)
    requires forall id | id in ids && Met(cut, x, id, levels) :: id == hit
    ensures Hits(cut, ids, x, levels) == 1
  {
    if ids[0] == hit {
      NoHits(cut, ids[1..], x, levels);
    } else {
      OneHit(cut, ids[1..], x, levels, hit);
    }
  }

  lemma SharedParentLoops(cut: Units, a: UnitId, d: nat, b: UnitId)
    requires d > 0 && Up(cut, a, d) == Some(b) && a in cut && b in cut && cut[a].parent == cut[b].parent
    ensures cut[a].parent.Some? && Up(cut, cut[a].parent.value, d) == cut[a].parent
  {
    UpAdd(cut, a, d, 1);
    assert Up(cut, b, 1) == Up(cut, cut[b].parent.value, 0);
  }

  /** Two units on one way up that have the same parent are the same unit. */
  lemma SiblingsOnOneWay(cut: Units, x: UnitId, a: UnitId, j: nat, b: UnitId, k: nat)
    requires Forest(cut) && Up(cut, x, j) == Some(a) && Up(cut, x, k) == Some(b) && j <= k
    requires a in cut && b in cut && cut[a].parent == cut[b].parent
    ensures a == b
  {
    ForestAcyclic(cut);
    UpAdd(cut, x, j, k - j);
    if j < k {
      SharedParentLoops(cut, a, k - j, b);
    }
  }

  lemma ChildMet(active: Units, order: seq<UnitId>, id: UnitId, x: UnitId, levels: nat)
    returns (hit: UnitId)
    requires Lists(order, active) && Forest(Cut(active)) && id in active && x in active
    requires x != id && Met(Cut(active), x, id, levels + 1)
    ensures hit in Under(active, order, Some(id)) && Met(Cut(active), x, hit, levels)
  {
    var cut := Cut(active);
    UnderMembers(active, order, Some(id));
    hide Under, NoDuplicates, Forest;
    var k: nat :| k <= levels + 1 && Up(cut, x, k) == Some(id);
    UpAdd(cut, x, k - 1, 1);
    hit := Up(cut, x, k - 1).value;
    assert Up(cut, hit, 1) == if hit in cut && cut[hit].parent.Some? then Up(cut, cut[hit].parent.value, 0) else None;
  }

  lemma ChildrenMeetOnce(cut: Units, x: UnitId, levels: nat, a: UnitId, b: UnitId)
    requires Forest(cut) && Met(cut, x, a, levels) && Met(cut, x, b, levels)
    requires a in cut && b in cut && cut[a].parent == cut[b].parent
    ensures a == b
  {
    var j: nat :| j <= levels && Up(cut, x, j) == Some(a);
    var k: nat :| k <= levels && Up(cut, x, k) == Some(b);
    if j <= k {
      SiblingsOnOneWay(cut, x, a, j, b, k);
    } else {
      SiblingsOnOneWay(cut, x, b, k, a, j);
    }
  }

  lemma ParentMet(cut: Units, x: UnitId, child: UnitId, levels: nat)
    requires Acyclic(cut) && child in cut && cut[child].parent.Some? && Met(cut, x, child, levels) && x in cut
    ensures x != cut[child].parent.value && Met(cut, x, cut[child].parent.value, levels + 1)
  {
    var j: nat :| j <= levels && Up(cut, x, j) == Some(child);
    UpAdd(cut, x, j, 1);
    assert Up(cut, child, 1) == Up(cut, cut[child].parent.value, 0);
    assert Up(cut, x, j + 1) == cut[child].parent;
  }

  /** Among the children of a unit, the way up from `x` meets exactly one if it meets the unit further up, else none. */
  lemma ChildrenHit(active: Units, order: seq<UnitId>, id: UnitId, x: UnitId, levels: nat)
    requires Lists(order, active) && Forest(Cut(active)) && id in active && x in active
    ensures Hits(Cut(active), Under(active, order, Some(id)), x, levels)
            == if x != id && Met(Cut(active), x, id, levels + 1) then 1 else 0
  {
    var cut, children := Cut(active), Under(active, order, Some(id));
    UnderMembers(active, order, Some(id));
    hide Under, NoDuplicates, Met;
    if x != id && Met(cut, x, id, levels + 1) {
      var hit := ChildMet(active, order, id, x, levels);
      forall child | child in children && Met(cut, x, child, levels)
        ensures child == hit
      {
        ChildrenMeetOnce(cut, x, levels, child, hit);
      }
      OneHit(cut, children, x, levels, hit);
    } else {
      ForestAcyclic(cut);
      forall child | child in children
        ensures !Met(cut, x, child, levels)
      {
        if Met(cut, x, child, levels) {
          ParentMet(cut, x, child, levels);
        }
      }
      NoHits(cut, children, x, levels);
    }
  }

  lemma MetSelf(cut: Units, x: UnitId, id: UnitId, levels: nat)
    ensures id == x ==> Met(cut, x, id, levels)
    ensures levels == 0 && Met(cut, x, id, levels) ==> id == x
  {
    assert Up(cut, x, 0) == Some(x);
  }

  function Subtrees(active: Units, order: seq<UnitId>, id: UnitId, levels: nat): seq<Tree>
    requires forall id | id in order :: id in active
    decreases levels, 0, 0
  {
    if levels == 0 then [] else Nest(active, order, Under(active, order, Some(id)), levels - 1)
  }

  lemma CountNested(active: Units, order: seq<UnitId>, ids: seq<UnitId>, levels: nat, x: UnitId)
    requires ids != [] && forall id | id in order :: id in active
    ensures Count(Nest(active, order, ids, levels), x)
            == (if ids[0] == x then 1 else 0) + Count(Subtrees(active, order, ids[0], levels), x)
               + Count(Nest(active, order, ids[1..], levels), x)
  {
  }

  /** One unit with what is below it shows `x` once if it is met on the way up from `x`. */
  lemma HeadCounts(active: Units, order: seq<UnitId>, id: UnitId, levels: nat, x: UnitId)
    requires Lists(order, active) && Forest(Cut(active)) && x in active && id in active
    requires levels > 0 ==>
               Count(Subtrees(active, order, id, levels), x) == Hits(Cut(active), Under(active, order, Some(id)), x, levels - 1)
    ensures (if id == x then 1 else 0) + Count(Subtrees(active, order, id, levels), x) == if Met(Cut(active), x, id, levels) then 1 else 0
  {
    hide Met, Under, Forest, Nest, Hits, Cut;
    MetSelf(Cut(active), x, id, levels);
    if levels > 0 {
      hide Count;
      ChildrenHit(active, order, id, x, levels - 1);
    } else {
      CountNothing(x);
    }
  }

  lemma {:induction false} NestCounts(active: Units, order: seq<UnitId>, ids: seq<UnitId>, levels: nat, x: UnitId)
    requires Lists(order, active) && Forest(Cut(active)) && x in active && forall id | id in ids :: id in active
    ensures Count(Nest(active, order, ids, levels), x) == Hits(Cut(active), ids, x, levels)
    decreases levels, |ids|
  {
    if ids != [] {
      hide Met, Under, NoDuplicates, Forest, Nest, Count, Cut;
      if levels > 0 {
        UnderMembers(active, order, Some(ids[0]));
        NestCounts(active, order, Under(active, order, Some(ids[0])), levels - 1, x);
      }
      CountNested(active, order, ids, levels, x);
      HeadCounts(active, order, ids[0], levels, x);
      NestCounts(active, order, ids[1..], levels, x);
    } else {
      CountNothing(x);
    }
  }

  lemma CountNothing(x: UnitId)
    ensures Count([], x) == 0
  {
  }

  lemma {:induction false} NestHoldsOnlyActive(active: Units, order: seq<UnitId>, ids: seq<UnitId>, levels: nat, x: UnitId)
    requires Lists(order, active) && x !in active && forall id | id in ids :: id in active
    ensures Count(Nest(active, order, ids, levels), x) == 0
    decreases levels, |ids|
  {
    if ids != [] {
      CountNested(active, order, ids, levels, x);
      if levels > 0 {
        UnderMembers(active, order, Some(ids[0]));
        NestHoldsOnlyActive(active, order, Under(active, order, Some(ids[0])), levels - 1, x);
      }
      NestHoldsOnlyActive(active, order, ids[1..], levels, x);
    }
  }

  lemma {:induction false} RootMet(cut: Units, x: UnitId, n: nat) returns (root: UnitId, k: nat)
    requires ParentsWithin(cut) && Rooted(cut, x, n)
    ensures k <= n && Up(cut, x, k) == Some(root) && root in cut && cut[root].parent.None?
    decreases n
  {
    if cut[x].parent.None? {
      root, k := x, 0;
    } else {
      root, k := RootMet(cut, cut[x].parent.value, n - 1);
      k := k + 1;
    }
  }

  lemma RootReached(active: Units, levels: nat, x: UnitId) returns (root: UnitId)
    requires Forest(Cut(active)) && x in active && levels >= |active|
    ensures root in active && ActiveParent(active, root).None? && Met(Cut(active), x, root, levels)
  {
    var cut := Cut(active);
    ForestAcyclic(cut);
    AcyclicRooted(cut, x, {});
    hide Forest, Acyclic, Up;
    assert cut.Keys - {} == active.Keys && |active.Keys| == |active|;
    var k;
    root, k := RootMet(cut, x, |cut.Keys - {}|);
  }

  lemma RootsHit(active: Units, order: seq<UnitId>, levels: nat, x: UnitId)
    requires Lists(order, active) && Forest(Cut(active)) && x in active && levels >= |active|
    ensures Hits(Cut(active), Under(active, order, None), x, levels) == 1
  {
    var cut, roots := Cut(active), Under(active, order, None);
    UnderMembers(active, order, None);
    hide Under, NoDuplicates, Met, Forest, Hits;
    var root := RootReached(active, levels, x);
    forall id | id in roots && Met(cut, x, id, levels)
      ensures id == root
    {
      ChildrenMeetOnce(cut, x, levels, id, root);
    }
    OneHit(cut, roots, x, levels, root);
  }

  /** The chart shows every active unit exactly once, and nothing else. */
  lemma ShownExactlyOnce(units: Units, active: Units, order: seq<UnitId>, levels: nat, x: UnitId)
    requires Forest(units) && Lists(order, active) && levels >= |active|
    requires forall id | id in active :: id in units && active[id] == units[id]
    ensures Count(Nest(active, order, Under(active, order, None), levels), x) == if x in active then 1 else 0
  {
    CutForest(units, active);
    UnderMembers(active, order, None);
    hide Forest, Under, NoDuplicates, Nest, Hits, Count;
    if x in active {
      RootsHit(active, order, levels, x);
      NestCounts(active, order, Under(active, order, None), levels, x);
    } else {
      NestHoldsOnlyActive(active, order, Under(active, order, None), levels, x);
    }
  }

  // --------------------------------------------------------------------- plants

  /** The walk to the plant a unit belongs to: the nearest active ancestor of that kind. */
  method PlantNameForUnit(active: Units, unitId: UnitId) returns (name: Option<string>)
    requires Forest(Cut(active))
    ensures name.Some? <==> exists n: nat, u :: Up(Cut(active), unitId, n) == Some(u) && u in active && active[u].kind == "plant"
    ensures name.Some? ==>
              exists n: nat, u ::
                && Up(Cut(active), unitId, n) == Some(u) && u in active && active[u].kind == "plant" && active[u].name == name.value
                && forall m: nat, v | m < n && Up(Cut(active), unitId, m) == Some(v) :: v in active && active[v].kind != "plant"
  {
    hide Cut;
    ghost var cut := Cut(active);
    assert Up(cut, unitId, 0) == Some(unitId);
    if unitId !in active {
      assert forall n: nat :: n > 0 ==> Up(cut, unitId, n).None?;
      return None;
    }
    var unit := unitId;
    ghost var left: nat :| Rooted(cut, unitId, left);
    ghost var steps: nat := 0;
    while true
      invariant unit in active && Rooted(cut, unit, left) && Up(cut, unitId, steps) == Some(unit)
      invariant forall m: nat, v | m < steps && Up(cut, unitId, m) == Some(v) :: v in active && active[v].kind != "plant"
      decreases left
    {
      if active[unit].kind == "plant" {
        return Some(active[unit].name);
      }
      UpAdd(cut, unitId, steps, 1);
      CutParent(active, unit);
      if active[unit].parent.Some? && active[unit].parent.value in active {
        assert Up(cut, unit, 1) == Up(cut, active[unit].parent.value, 0);
        unit := active[unit].parent.value;
        left, steps := left - 1, steps + 1;
      } else {
        forall n: nat | n > steps
          ensures Up(cut, unitId, n).None?
        {
          UpAdd(cut, unitId, steps, n - steps);
        }
        return None;
      }
    }
  }
}
