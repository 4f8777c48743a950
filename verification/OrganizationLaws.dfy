/** When an organization unit is created, reactivated, changed or removed, and what it is afterwards. */
module OrganizationLaws {
  import opened Outcomes
  import opened Organization
  import opened ManagerWalk
  import opened Tenants
  import Text

  // -------------------------------------------------------------------- parents

  /** A way up: every unit is followed by its parent. */
  predicate WayUp(units: Units, p: seq<UnitId>) {
    p != [] && forall i | 0 <= i < |p| - 1 :: p[i] in units && units[p[i]].parent == Some(p[i + 1])
  }

  ghost predicate LeadsUp(units: Units, id: UnitId, u: UnitId) {
    exists p :: WayUp(units, p) && p[0] == id && p[|p| - 1] == u
  }

  lemma {:induction false} WayOf(units: Units, id: UnitId, n: nat) returns (p: seq<UnitId>)
    requires Up(units, id, n).Some?
    ensures WayUp(units, p) && p[0] == id && Some(p[|p| - 1]) == Up(units, id, n)
    decreases n
  {
    if n == 0 {
      p := [id];
    } else {
      var rest := WayOf(units, units[id].parent.value, n - 1);
      p := [id] + rest;
      assert forall i | 0 < i < |p| :: p[i] == rest[i - 1];
    }
  }

  lemma {:induction false} StepsOf(units: Units, p: seq<UnitId>)
    requires WayUp(units, p)
    ensures Up(units, p[0], |p| - 1) == Some(p[|p| - 1])
    decreases |p|
  {
    if |p| > 1 {
      assert forall i | 0 <= i < |p[1..]| :: p[1..][i] == p[i + 1];
      StepsOf(units, p[1..]);
      assert units[p[0]].parent == Some(p[0 + 1]);
    }
  }

  lemma AboveIs(units: Units, u: UnitId, id: UnitId)
    ensures Above(units, u, id) <==> LeadsUp(units, id, u)
  {
    if n: nat :| Up(units, id, n) == Some(u) {
      var p := WayOf(units, id, n);
    }
    if p :| WayUp(units, p) && p[0] == id && p[|p| - 1] == u {
      StepsOf(units, p);
    }
  }

  ghost predicate Hangs(units: Units, parent: Option<UnitId>, tenant: TenantId, unit: Option<UnitId>) {
    parent.Some? ==>
      && parent.value in units && units[parent.value].tenant == tenant
      && (unit.Some? ==> !LeadsUp(units, parent.value, unit.value))
  }

  /** A parent may be any unit of the tenant from which no way up leads to the unit itself. */
  lemma ParentLaw(units: Units, parent: Option<UnitId>, tenant: TenantId, unit: Option<UnitId>)
    ensures ParentFailure(units, parent, tenant, unit) == None <==> Hangs(units, parent, tenant, unit)
    ensures ParentFailure(units, parent, tenant, unit) == Some(NotFound)
            <==> parent.Some? && !(parent.value in units && units[parent.value].tenant == tenant)
    ensures ParentFailure(units, parent, tenant, unit) == Some(OwnParent)
            <==> parent.Some? && parent.value in units && units[parent.value].tenant == tenant && unit == parent
    ensures ParentFailure(units, parent, tenant, unit) == Some(Cycle)
            <==> parent.Some? && parent.value in units && units[parent.value].tenant == tenant && unit != parent
                 && unit.Some? && LeadsUp(units, parent.value, unit.value)
  {
    if parent.Some? && unit.Some? {
      AboveIs(units, unit.value, parent.value);
      assert unit == parent ==> Up(units, parent.value, 0) == unit;
    }
    hide Above, LeadsUp;
  }

  // ------------------------------------------------------------------- creation

  predicate Holds(units: Units, id: UnitId, tenant: TenantId, code: string) {
    id in units && units[id].tenant == tenant && units[id].code == code
  }

  ghost predicate Free(units: Units, tenant: TenantId, code: string) {
    forall id | id in units :: !Holds(units, id, tenant, code)
  }

  /** What is written in the place of a text that is missing or blank. */
  function OrDepartment(kind: Option<string>): string {
    if kind.Some? && Text.Trim(kind.value) != "" then Text.Trim(kind.value) else "department"
  }

  /** A code that is free makes a new active unit, under a parent it may hang under. */
  lemma CreationLaw(units: Units, tenant: TenantId, dto: CreateInput, newId: UnitId)
    requires Free(units, tenant, Text.Upper(Text.Trim(dto.code))) && newId !in units
    ensures Create(units, tenant, dto, newId).Ok? <==> Hangs(units, dto.parentId, tenant, None)
    ensures Create(units, tenant, dto, newId).Err? ==> Create(units, tenant, dto, newId) == Err(NotFound)
    ensures Create(units, tenant, dto, newId).Ok? ==>
              var r := Create(units, tenant, dto, newId).value;
              && r.Keys == units.Keys + {newId} && (forall id | id in units :: r[id] == units[id])
              && r[newId].tenant == tenant && r[newId].code == Text.Upper(Text.Trim(dto.code)) && r[newId].parent == dto.parentId
              && r[newId].name == Text.Trim(dto.name) && r[newId].kind == OrDepartment(dto.kind)
              && (dto.sortOrder.Some? ==> r[newId].sortOrder == dto.sortOrder.value)
              && (dto.sortOrder.None? ==> r[newId].sortOrder == 0)
              && r[newId].active
  {
    ParentLaw(units, dto.parentId, tenant, None);
    hide Hangs;
  }

  /** The code of an inactive unit brings that unit back: it is active, where and what the request says, and keeps its order if
      none is sent. The code of an active unit is taken. */
  lemma ReactivationLaw(units: Units, tenant: TenantId, dto: CreateInput, newId: UnitId, id: UnitId)
    requires UniqueCodes(units) && Holds(units, id, tenant, Text.Upper(Text.Trim(dto.code)))
    ensures Create(units, tenant, dto, newId).Ok? <==> Hangs(units, dto.parentId, tenant, Some(id)) && !units[id].active
    ensures Hangs(units, dto.parentId, tenant, Some(id)) && units[id].active ==> Create(units, tenant, dto, newId) == Err(CodeTaken)
    ensures Create(units, tenant, dto, newId).Ok? ==>
              var r := Create(units, tenant, dto, newId).value;
              && r.Keys == units.Keys && (forall other | other in units && other != id :: r[other] == units[other])
              && r[id].active && r[id].parent == dto.parentId
              && r[id].name == Text.Trim(dto.name) && r[id].kind == OrDepartment(dto.kind)
              && (dto.sortOrder.Some? ==> r[id].sortOrder == dto.sortOrder.value)
              && (dto.sortOrder.None? ==> r[id].sortOrder == units[id].sortOrder)
              && r[id].tenant == units[id].tenant && r[id].code == units[id].code
  {
    var code := Text.Upper(Text.Trim(dto.code));
    var found := FindCode(units, tenant, code);
    assert Carries(units, id, tenant, code);
    assert found == Some(id);
    ParentLaw(units, dto.parentId, tenant, Some(id));
    hide Hangs, ParentFailure, FindCode;
  }

  // -------------------------------------------------------------------- changes

  /** A unit of the tenant can be changed if it may hang where it is sent to and the code it then has is nobody else's. */
  lemma ChangeRefused(units: Units, tenant: TenantId, id: UnitId, dto: UpdateInput)
    requires UniqueCodes(units)
    ensures !(id in units && units[id].tenant == tenant) ==> Update(units, tenant, id, dto) == Err(NotFound)
    ensures id in units && units[id].tenant == tenant ==>
              var code := if dto.code.Some? then Text.Trim(dto.code.value) else units[id].code;
              var hangs := dto.parentId.Some? ==> Hangs(units, dto.parentId.value, tenant, Some(id));
              var taken := exists other :: other != id && Holds(units, other, tenant, code);
              && (Update(units, tenant, id, dto).Ok? <==> hangs && !taken)
              && (hangs && taken ==> Update(units, tenant, id, dto) == Err(CodeTaken))
  {
    if id in units && units[id].tenant == tenant {
      var code := if dto.code.Some? then Text.Trim(dto.code.value) else units[id].code;
      var found := FindCode(units, tenant, code);
      assert forall other :: Carries(units, other, tenant, code) <==> Holds(units, other, tenant, code);
      if dto.parentId.Some? {
        ParentLaw(units, dto.parentId.value, tenant, Some(id));
      }
      hide Hangs, ParentFailure, FindCode;
    }
  }

  /** What is sent is written, trimmed where it is text; what is not sent stays; no other unit changes. */
  lemma ChangeLaw(units: Units, tenant: TenantId, id: UnitId, dto: UpdateInput)
    requires Update(units, tenant, id, dto).Ok?
    ensures id in units
    ensures var r := Update(units, tenant, id, dto).value;
            && r.Keys == units.Keys && (forall other | other in units && other != id :: r[other] == units[other])
            && r[id].tenant == units[id].tenant
            && (dto.parentId.Some? ==> r[id].parent == dto.parentId.value) && (dto.parentId.None? ==> r[id].parent == units[id].parent)
            && (dto.code.Some? ==> r[id].code == Text.Trim(dto.code.value)) && (dto.code.None? ==> r[id].code == units[id].code)
            && (dto.name.Some? ==> r[id].name == Text.Trim(dto.name.value)) && (dto.name.None? ==> r[id].name == units[id].name)
            && (dto.kind.Some? ==> r[id].kind == Text.Trim(dto.kind.value)) && (dto.kind.None? ==> r[id].kind == units[id].kind)
            && (dto.sortOrder.Some? ==> r[id].sortOrder == dto.sortOrder.value)
            && (dto.sortOrder.None? ==> r[id].sortOrder == units[id].sortOrder)
            && (dto.active.Some? ==> r[id].active == dto.active.value) && (dto.active.None? ==> r[id].active == units[id].active)
  {
    hide ParentFailure, FindCode;
  }

  /** A unit of the tenant goes exactly if it is nobody's parent and no position and no membership refers to it. */
  lemma RemovalLaw(units: Units, tenant: TenantId, id: UnitId, positions: nat, memberships: nat)
    ensures var r := Remove(units, tenant, id, positions, memberships);
            && (!(id in units && units[id].tenant == tenant) ==> r == Err(NotFound))
            && (r.Ok? <==>
                  && id in units && units[id].tenant == tenant && positions == 0 && memberships == 0
                  && forall child | child in units :: units[child].parent != Some(id))
            && (r.Ok? ==> r.value.Keys == units.Keys - {id} && forall other | other in r.value :: r.value[other] == units[other])
            && (r.Err? && id in units && units[id].tenant == tenant ==> r == Err(InUse))
  {
  }

  // ------------------------------------------------------------------- managers

  /** A unit is managed by the user its metadata names, if that user is active; else, if a position is configured, by the first
      who holds that position in the unit. */
  lemma {:induction false} ManagerLaw(staff: Staff, unit: UnitId, position: Option<PositionId>, m: UserId)
    ensures ManagerAt(staff, unit, position) == Some(m)
            <==> if unit in staff.chiefs && staff.chiefs[unit] in staff.active then m == staff.chiefs[unit]
                 else position.Some? && exists i ::
                   && 0 <= i < |staff.posts| && staff.posts[i] == Post(unit, position.value, m)
                   && forall j | 0 <= j < i :: !(staff.posts[j].unit == unit && staff.posts[j].position == position.value)
  {
    if position.Some? {
      FirstLaw(staff.posts, unit, position.value, m);
    }
  }

  lemma {:induction false} FirstLaw(posts: seq<Post>, unit: UnitId, position: PositionId, m: UserId)
    ensures FirstPost(posts, unit, position) == Some(m)
            <==> exists i ::
                   && 0 <= i < |posts| && posts[i] == Post(unit, position, m)
                   && forall j | 0 <= j < i :: !(posts[j].unit == unit && posts[j].position == position)
  {
    if posts != [] {
      var rest := posts[1..];
      FirstLaw(rest, unit, position, m);
      assert forall i | 0 <= i < |rest| :: rest[i] == posts[i + 1];
      if posts[0].unit == unit && posts[0].position == position {
      } else {
        if i :| 0 <= i < |rest| && rest[i] == Post(unit, position, m)
                && forall j | 0 <= j < i :: !(rest[j].unit == unit && rest[j].position == position) {
          assert posts[i + 1] == Post(unit, position, m);
        }
        if i :| 0 <= i < |posts| && posts[i] == Post(unit, position, m)
                && forall j | 0 <= j < i :: !(posts[j].unit == unit && posts[j].position == position) {
          assert rest[i - 1] == Post(unit, position, m);
        }
      }
    }
  }
}
