/** Organization units: parent pointers that never form a cycle. */
module Organization {
  import opened Outcomes
  import opened Tenants
  import Text

  type UnitId = string

  datatype Unit = Unit(
    tenant: TenantId, parent: Option<UnitId>, code: string, name: string, kind: string, sortOrder: nat, active: bool)

  type Units = map<UnitId, Unit>

  datatype Failure = NotFound | OwnParent | Cycle | CodeTaken | InUse

  datatype CreateInput = CreateInput(
    parentId: Option<UnitId>, code: string, name: string, kind: Option<string>, sortOrder: Option<nat>)

  /** A field the client may leave out, or set; a parent may also be set to nothing. */
  datatype UpdateInput = UpdateInput(
    code: Option<string>, name: Option<string>, kind: Option<string>, parentId: Option<Option<UnitId>>,
    sortOrder: Option<nat>, active: Option<bool>)

  // ------------------------------------------------------------------- forests

  /** The unit `n` steps up, if the walk gets that far. */
  function Up(units: Units, id: UnitId, n: nat): Option<UnitId>
    decreases n
  {
    if n == 0 then Some(id)
    else if id in units && units[id].parent.Some? then Up(units, units[id].parent.value, n - 1)
    else None
  }

  /** The walk up from `id` stays in the table and ends at a root within `n` steps. */
  predicate Rooted(units: Units, id: UnitId, n: nat)
    decreases n
  {
    id in units && (units[id].parent.None? || (n > 0 && Rooted(units, units[id].parent.value, n - 1)))
  }

  ghost predicate HasRoot(units: Units, id: UnitId) {
    exists n: nat :: Rooted(units, id, n)
  }

  ghost predicate ParentsWithin(units: Units) {
    forall id | id in units && units[id].parent.Some? ::
      units[id].parent.value in units && units[units[id].parent.value].tenant == units[id].tenant
  }

  /** Every walk up ends, without leaving the tenant. */
  ghost predicate Forest(units: Units) {
    ParentsWithin(units) && forall id | id in units :: HasRoot(units, id)
  }

  ghost predicate Acyclic(units: Units) {
    forall id, n: nat | id in units && n > 0 :: Up(units, id, n) != Some(id)
  }

  /** `u` is properly above `id`. */
  ghost predicate Below(units: Units, id: UnitId, u: UnitId) {
    exists n: nat :: n > 0 && Up(units, id, n) == Some(u)
  }

  /** `u` is `id` or one of the units above it. */
  ghost predicate Above(units: Units, u: UnitId, id: UnitId) {
    exists n: nat :: Up(units, id, n) == Some(u)
  }

  lemma {:induction false} RootedLonger(units: Units, id: UnitId, n: nat, m: nat)
    requires Rooted(units, id, n) && n <= m
    ensures Rooted(units, id, m)
    decreases n
  {
    if units[id].parent.Some? {
      RootedLonger(units, units[id].parent.value, n - 1, m - 1);
    }
  }

  lemma {:induction false} RootedEnds(units: Units, id: UnitId, n: nat, m: nat)
    requires Rooted(units, id, n) && n < m
    ensures Up(units, id, m).None?
    decreases n
  {
    if units[id].parent.Some? {
      RootedEnds(units, units[id].parent.value, n - 1, m - 1);
    }
  }

  lemma {:induction false} UpAdd(units: Units, id: UnitId, n: nat, m: nat)
    ensures Up(units, id, n + m) == if Up(units, id, n).Some? then Up(units, Up(units, id, n).value, m) else None
    decreases n
  {
    if n > 0 && id in units && units[id].parent.Some? {
      UpAdd(units, units[id].parent.value, n - 1, m);
    }
  }

  lemma {:induction false} UpAgain(units: Units, id: UnitId, n: nat, times: nat)
    requires Up(units, id, n) == Some(id)
    ensures Up(units, id, n * times) == Some(id)
    decreases times
  {
    if times > 0 {
      UpAgain(units, id, n, times - 1);
      UpAdd(units, id, n * (times - 1), n);
      assert n * (times - 1) + n == n * times;
    }
  }

  lemma ForestAcyclic(units: Units)
    requires Forest(units)
    ensures Acyclic(units)
  {
    forall id, n: nat | id in units && n > 0 && Up(units, id, n) == Some(id)
      ensures false
    {
      var m: nat :| Rooted(units, id, m);
      UpAgain(units, id, n, m + 1);
      assert n * (m + 1) >= m + 1;
      RootedEnds(units, id, m, n * (m + 1));
    }
  }

  lemma BelowParent(units: Units, v: UnitId, id: UnitId)
    requires id in units && units[id].parent.Some? && (v == id || Below(units, v, id))
    ensures Below(units, v, units[id].parent.value)
  {
    var p := units[id].parent.value;
    assert Up(units, id, 1) == Up(units, p, 0);
    if v == id {
      assert Up(units, v, 1) == Some(p);
    } else {
      var n: nat :| n > 0 && Up(units, v, n) == Some(id);
      UpAdd(units, v, n, 1);
      assert Up(units, v, n + 1) == Some(p);
    }
  }

  /** Pigeonhole: a walk that never repeats a unit is over before the units run out. */
  lemma {:induction false} AcyclicRooted(units: Units, id: UnitId, seen: set<UnitId>)
    requires ParentsWithin(units) && Acyclic(units) && id in units && seen <= units.Keys
    requires forall v | v in seen :: Below(units, v, id)
    ensures Rooted(units, id, |units.Keys - seen|)
    decreases |units.Keys - seen|
  {
    assert !Below(units, id, id);
    hide Below, Acyclic, Up;
    assert id in units.Keys - seen;
    if units[id].parent.Some? {
      var p := units[id].parent.value;
      forall v | v in seen + {id}
        ensures Below(units, v, p)
      {
        BelowParent(units, v, id);
      }
      assert units.Keys - (seen + {id}) == units.Keys - seen - {id};
      AcyclicRooted(units, p, seen + {id});
    }
  }

  /** All walks end exactly when no unit is above itself. */
  lemma ForestIffAcyclic(units: Units)
    requires ParentsWithin(units)
    ensures Forest(units) <==> Acyclic(units)
  {
    if Forest(units) {
      ForestAcyclic(units);
    }
    if Acyclic(units) {
      forall id | id in units
        ensures HasRoot(units, id)
      {
        AcyclicRooted(units, id, {});
      }
    }
  }

  // ------------------------------------------------------------ moving a unit

  predicate InTenant(units: Units, id: UnitId, tenant: TenantId) {
    id in units && units[id].tenant == tenant
  }

  /** What is wrong with hanging a unit under a parent. */
  ghost function ParentFailure(units: Units, parentId: Option<UnitId>, tenant: TenantId, unitId: Option<UnitId>): Option<Failure> {
    if parentId.None? then None
    else if !InTenant(units, parentId.value, tenant) then Some(NotFound)
    else if unitId == parentId then Some(OwnParent)
    else if unitId.Some? && Above(units, unitId.value, parentId.value) then Some(Cycle)
    else None
  }

  lemma {:induction false} RootedAside(units: Units, u: UnitId, unit: Unit, id: UnitId, n: nat)
    requires Rooted(units, id, n) && !Above(units, u, id)
    ensures Rooted(units[u := unit], id, n)
    decreases n
  {
    assert Up(units, id, 0) == Some(id);
    if units[id].parent.Some? {
      var p := units[id].parent.value;
      forall m: nat
        ensures Up(units, p, m) != Some(u)
      {
        assert Up(units, id, m + 1) == Up(units, p, m);
      }
      RootedAside(units, u, unit, p, n - 1);
    }
  }

  lemma {:induction false} RootedAfterMove(units: Units, u: UnitId, unit: Unit, id: UnitId, n: nat, m: nat)
    requires Rooted(units, id, n) && Rooted(units[u := unit], u, m)
    ensures Rooted(units[u := unit], id, n + m)
    decreases n
  {
    if id == u {
      RootedLonger(units[u := unit], u, m, n + m);
    } else if units[id].parent.Some? {
      RootedAfterMove(units, u, unit, units[id].parent.value, n - 1, m);
    }
  }

  /** Hanging a new or an existing unit where the check lets it hang keeps the forest. */
  lemma MoveKeepsForest(units: Units, u: UnitId, unit: Unit)
    requires Forest(units) && ParentFailure(units, unit.parent, unit.tenant, Some(u)).None?
    requires u in units ==> units[u].tenant == unit.tenant
    ensures Forest(units[u := unit])
  {
    var m: nat := 0;
    if unit.parent.Some? {
      var k: nat :| Rooted(units, unit.parent.value, k);
      RootedAside(units, u, unit, unit.parent.value, k);
      m := k + 1;
    }
    assert Rooted(units[u := unit], u, m);
    forall id | id in units && id != u
      ensures HasRoot(units[u := unit], id)
    {
      var n: nat :| Rooted(units, id, n);
      RootedAfterMove(units, u, unit, id, n, m);
    }
  }

  lemma StayIsAllowed(units: Units, u: UnitId)
    requires Forest(units) && u in units
    ensures ParentFailure(units, units[u].parent, units[u].tenant, Some(u)).None?
  {
    ForestAcyclic(units);
    if units[u].parent.Some? {
      var p := units[u].parent.value;
      forall n: nat
        ensures Up(units, p, n) != Some(u)
      {
        assert Up(units, u, n + 1) == Up(units, p, n);
      }
      assert Up(units, p, 0) != Some(u);
    }
  }

  predicate HasChildren(units: Units, u: UnitId) {
    exists id :: id in units && units[id].parent == Some(u)
  }

  lemma {:induction false} RootedWithout(units: Units, u: UnitId, id: UnitId, n: nat)
    requires Rooted(units, id, n) && id != u && !HasChildren(units, u)
    ensures Rooted(units - {u}, id, n)
    decreases n
  {
    if units[id].parent.Some? {
      RootedWithout(units, u, units[id].parent.value, n - 1);
    }
  }

  lemma RemoveKeepsForest(units: Units, u: UnitId)
    requires Forest(units) && !HasChildren(units, u)
    ensures Forest(units - {u})
  {
    forall id | id in units - {u}
      ensures HasRoot(units - {u}, id)
    {
      var n: nat :| Rooted(units, id, n);
      RootedWithout(units, u, id, n);
    }
  }

  // --------------------------------------------------------------- operations

  ghost predicate UniqueCodes(units: Units) {
    forall a, b | a in units && b in units && units[a].tenant == units[b].tenant && units[a].code == units[b].code :: a == b
  }

  /** What the table keeps at all times. */
  ghost predicate Sound(units: Units) {
    Forest(units) && UniqueCodes(units)
  }

  predicate Carries(units: Units, id: UnitId, tenant: TenantId, code: string) {
    InTenant(units, id, tenant) && units[id].code == code
  }

  ghost function FindCode(units: Units, tenant: TenantId, code: string): (r: Option<UnitId>)
    ensures r.Some? ==> Carries(units, r.value, tenant, code)
    ensures r.None? ==> forall id :: !Carries(units, id, tenant, code)
  {
    if id :| Carries(units, id, tenant, code) then Some(id) else None
  }

  function TextOr(text: Option<string>, default: string): string {
    if text.Some? && Text.Trim(text.value) != "" then Text.Trim(text.value) else default
  }

  function NewUnit(tenant: TenantId, dto: CreateInput): Unit {
    Unit(tenant, dto.parentId, Text.Upper(Text.Trim(dto.code)), Text.Trim(dto.name), TextOr(dto.kind, "department"),
         if dto.sortOrder.Some? then dto.sortOrder.value else 0, true)
  }

  function Revived(unit: Unit, dto: CreateInput): Unit {
    unit.(parent := dto.parentId, name := Text.Trim(dto.name), kind := TextOr(dto.kind, "department"),
          sortOrder := if dto.sortOrder.Some? then dto.sortOrder.value else unit.sortOrder, active := true)
  }

  ghost function Create(units: Units, tenant: TenantId, dto: CreateInput, newId: UnitId): Result<Units, Failure> {
    var existing := FindCode(units, tenant, Text.Upper(Text.Trim(dto.code)));
    var failure := ParentFailure(units, dto.parentId, tenant, existing);
    if failure.Some? then Err(failure.value)
    else if existing.Some? then
      if units[existing.value].active then Err(CodeTaken)
      else Ok(units[existing.value := Revived(units[existing.value], dto)])
    else Ok(units[newId := NewUnit(tenant, dto)])
  }

  function Updated(unit: Unit, dto: UpdateInput): Unit {
    Unit(unit.tenant,
         if dto.parentId.Some? then dto.parentId.value else unit.parent,
         if dto.code.Some? then Text.Trim(dto.code.value) else unit.code,
         if dto.name.Some? then Text.Trim(dto.name.value) else unit.name,
         if dto.kind.Some? then Text.Trim(dto.kind.value) else unit.kind,
         if dto.sortOrder.Some? then dto.sortOrder.value else unit.sortOrder,
         if dto.active.Some? then dto.active.value else unit.active)
  }

  ghost function Update(units: Units, tenant: TenantId, id: UnitId, dto: UpdateInput): Result<Units, Failure> {
    if !InTenant(units, id, tenant) then Err(NotFound)
    else
      var failure := if dto.parentId.Some? then ParentFailure(units, dto.parentId.value, tenant, Some(id)) else None;
      var unit := Updated(units[id], dto);
      var holder := FindCode(units, tenant, unit.code);
      if failure.Some? then Err(failure.value)
      else if holder.Some? && holder.value != id then Err(CodeTaken)
      else Ok(units[id := unit])
  }

  /** `positions` and `memberships` say how many of each refer to the unit. */
  function Remove(units: Units, tenant: TenantId, id: UnitId, positions: nat, memberships: nat): Result<Units, Failure> {
    if !InTenant(units, id, tenant) then Err(NotFound)
    else if HasChildren(units, id) || positions > 0 || memberships > 0 then Err(InUse)
    else Ok(units - {id})
  }

  datatype Command =
    | Creating(tenant: TenantId, create: CreateInput, newId: UnitId)
    | Updating(tenant: TenantId, id: UnitId, update: UpdateInput)
    | Removing(tenant: TenantId, id: UnitId, positions: nat, memberships: nat)

  ghost function Attempt(units: Units, command: Command): Units {
    var r := match command
      case Creating(tenant, dto, newId) => Create(units, tenant, dto, newId)
      case Updating(tenant, id, dto) => Update(units, tenant, id, dto)
      case Removing(tenant, id, positions, memberships) => Remove(units, tenant, id, positions, memberships);
    if r.Ok? then r.value else units
  }

  ghost function Run(units: Units, commands: seq<Command>): Units
    decreases |commands|
  {
    if commands == [] then units else Run(Attempt(units, commands[0]), commands[1..])
  }

  lemma CreateKeeps(units: Units, tenant: TenantId, dto: CreateInput, newId: UnitId)
    requires Sound(units) && newId !in units && Create(units, tenant, dto, newId).Ok?
    ensures Sound(Create(units, tenant, dto, newId).value)
  {
    var existing := FindCode(units, tenant, Text.Upper(Text.Trim(dto.code)));
    if existing.Some? {
      MoveKeepsForest(units, existing.value, Revived(units[existing.value], dto));
    } else {
      if dto.parentId.Some? {
        NewIsBelowNobody(units, dto.parentId.value, newId);
      }
      MoveKeepsForest(units, newId, NewUnit(tenant, dto));
      assert forall id | id in units :: !Carries(units, id, tenant, NewUnit(tenant, dto).code);
    }
  }

  lemma {:induction false} WalkStaysInside(units: Units, id: UnitId, n: nat)
    requires Forest(units) && id in units && Up(units, id, n).Some?
    ensures Up(units, id, n).value in units
    decreases n
  {
    if n > 0 {
      WalkStaysInside(units, units[id].parent.value, n - 1);
    }
  }

  lemma NewIsBelowNobody(units: Units, parentId: UnitId, newId: UnitId)
    requires Forest(units) && newId !in units && parentId in units
    ensures !Above(units, newId, parentId)
  {
    forall n: nat | Up(units, parentId, n).Some?
      ensures Up(units, parentId, n).value != newId
    {
      WalkStaysInside(units, parentId, n);
    }
  }

  lemma UpdateKeeps(units: Units, tenant: TenantId, id: UnitId, dto: UpdateInput)
    requires Sound(units) && Update(units, tenant, id, dto).Ok?
    ensures Sound(Update(units, tenant, id, dto).value)
  {
    var unit := Updated(units[id], dto);
    StayIsAllowed(units, id);
    MoveKeepsForest(units, id, unit);
    assert forall other | other in units && other != id :: !Carries(units, other, tenant, unit.code);
  }

  /** No sequence of creations, reactivations, moves and removals makes a cycle, crosses tenants or doubles a code. */
  lemma {:induction false} RunKeeps(units: Units, commands: seq<Command>)
    requires Sound(units) && NewIdsFresh(units, commands)
    ensures Sound(Run(units, commands)) && Acyclic(Run(units, commands))
    decreases |commands|
  {
    if commands == [] {
      ForestAcyclic(units);
    } else {
      match commands[0] {
        case Creating(tenant, dto, newId) =>
          if Create(units, tenant, dto, newId).Ok? {
            CreateKeeps(units, tenant, dto, newId);
          }
        case Updating(tenant, id, dto) =>
          if Update(units, tenant, id, dto).Ok? {
            UpdateKeeps(units, tenant, id, dto);
          }
        case Removing(tenant, id, positions, memberships) =>
          if Remove(units, tenant, id, positions, memberships).Ok? {
            RemoveKeepsForest(units, id);
          }
      }
      RunKeeps(Attempt(units, commands[0]), commands[1..]);
    }
  }

  /** The store never generates an identifier that is in use. */
  ghost predicate NewIdsFresh(units: Units, commands: seq<Command>)
    decreases |commands|
  {
    commands != [] ==>
      && (commands[0].Creating? ==> commands[0].newId !in units)
      && NewIdsFresh(Attempt(units, commands[0]), commands[1..])
  }

  // ------------------------------------------------------------------ the table

  class UnitTable {
    var units: Units

    method FindOneBy(tenant: TenantId, code: string) returns (found: Option<UnitId>)
      requires UniqueCodes(units)
      ensures found == FindCode(units, tenant, code)
    {
      var rest: set<UnitId> := units.Keys;
      while |rest| > 0
        invariant rest <= units.Keys
        invariant forall id | id in units && Carries(units, id, tenant, code) :: id in rest
      {
        var id :| id in rest;
        if Carries(units, id, tenant, code) {
          return Some(id);
        }
        rest := rest - {id};
      }
      found := None;
    }

    /** The walk up from the proposed parent: it ends because the stored units form a forest. */
    method AssertOrganizationParent(parentId: Option<UnitId>, tenant: TenantId, unitId: Option<UnitId>)
      returns (failure: Option<Failure>)
      requires Forest(units)
      ensures failure == ParentFailure(units, parentId, tenant, unitId)
    {
      if parentId.None? {
        return None;
      }
      if !InTenant(units, parentId.value, tenant) {
        return Some(NotFound);
      }
      var parent := parentId.value;
      if unitId == Some(parent) {
        return Some(OwnParent);
      }
      ghost var left: nat :| Rooted(units, parent, left);
      ghost var steps: nat := 0;
      while units[parent].parent.Some?
        invariant InTenant(units, parent, tenant) && Rooted(units, parent, left)
        invariant Up(units, parentId.value, steps) == Some(parent)
        invariant forall n: nat | n <= steps :: Up(units, parentId.value, n) != unitId
        decreases left
      {
        UpAdd(units, parentId.value, steps, 1);
        assert Up(units, parent, 1) == Up(units, units[parent].parent.value, 0);
        if units[parent].parent == unitId {
          assert Up(units, parentId.value, steps + 1) == unitId;
          return Some(Cycle);
        }
        parent := units[parent].parent.value;
        left, steps := left - 1, steps + 1;
      }
      forall n: nat | n > steps
        ensures Up(units, parentId.value, n).None?
      {
        UpAdd(units, parentId.value, steps, n - steps);
      }
      failure := None;
    }

    method CreateUnit(tenant: TenantId, dto: CreateInput, newId: UnitId) returns (failure: Option<Failure>)
      requires Sound(units) && newId !in units
      modifies this
      ensures Sound(units) && units == Attempt(old(units), Creating(tenant, dto, newId))
      ensures var r := Create(old(units), tenant, dto, newId); failure == if r.Err? then Some(r.error) else None
    {
      hide Sound, Forest, UniqueCodes, ParentFailure;
      assert UniqueCodes(units) && Forest(units) by {
        SoundParts(units);
      }
      if Create(units, tenant, dto, newId).Ok? {
        CreateKeeps(units, tenant, dto, newId);
      }
      var existing := FindOneBy(tenant, Text.Upper(Text.Trim(dto.code)));
      failure := AssertOrganizationParent(dto.parentId, tenant, existing);
      if failure.Some? {
        return;
      }
      if existing.Some? {
        if units[existing.value].active {
          return Some(CodeTaken);
        }
        units := units[existing.value := Revived(units[existing.value], dto)];
      } else {
        units := units[newId := NewUnit(tenant, dto)];
      }
    }

    method UpdateUnit(tenant: TenantId, id: UnitId, dto: UpdateInput) returns (failure: Option<Failure>)
      requires Sound(units)
      modifies this
      ensures Sound(units) && units == Attempt(old(units), Updating(tenant, id, dto))
      ensures var r := Update(old(units), tenant, id, dto); failure == if r.Err? then Some(r.error) else None
    {
      hide Sound, Forest, UniqueCodes, ParentFailure;
      assert UniqueCodes(units) && Forest(units) by {
        SoundParts(units);
      }
      if Update(units, tenant, id, dto).Ok? {
        UpdateKeeps(units, tenant, id, dto);
      }
      if !InTenant(units, id, tenant) {
        return Some(NotFound);
      }
      if dto.parentId.Some? {
        failure := AssertOrganizationParent(dto.parentId.value, tenant, Some(id));
        if failure.Some? {
          return;
        }
      }
      var unit := Updated(units[id], dto);
      var holder := FindOneBy(tenant, unit.code);
      if holder.Some? && holder.value != id {
        return Some(CodeTaken);
      }
      units := units[id := unit];
      failure := None;
    }

    method RemoveUnit(tenant: TenantId, id: UnitId, positions: nat, memberships: nat) returns (failure: Option<Failure>)
      requires Sound(units)
      modifies this
      ensures Sound(units) && units == Attempt(old(units), Removing(tenant, id, positions, memberships))
      ensures failure == None <==> InTenant(old(units), id, tenant) && !HasChildren(old(units), id) && positions == memberships == 0
    {
      if !InTenant(units, id, tenant) {
        return Some(NotFound);
      }
      var children := |set child | child in units && units[child].parent == Some(id)|;
      ChildrenCounted(units, id);
      if children > 0 || positions > 0 || memberships > 0 {
        return Some(InUse);
      }
      RemoveKeepsForest(units, id);
      units := units - {id};
      failure := None;
    }
  }

  lemma ChildrenCounted(units: Units, u: UnitId)
    ensures HasChildren(units, u) <==> |set child | child in units && units[child].parent == Some(u)| > 0
  {
    var children := set child | child in units && units[child].parent == Some(u);
    if HasChildren(units, u) {
      var child :| child in units && units[child].parent == Some(u);
      assert child in children;
    }
    if |children| > 0 {
      var child :| child in children;
    }
  }

  lemma SoundParts(units: Units)
    requires Sound(units)
    ensures Forest(units) && UniqueCodes(units)
  {
  }
}
