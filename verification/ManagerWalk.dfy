/** The walk up the organization that finds a requester's manager for a workflow step. */
module ManagerWalk {
  import opened Outcomes
  import opened Organization
  import opened Tenants

  type PositionId = string

  /** An active membership that holds a position in a unit. */
  datatype Post = Post(unit: UnitId, position: PositionId, user: UserId)

  /** `chiefs` is the manager named in a unit's metadata; `active` are the users with an active membership. */
  datatype Staff = Staff(chiefs: map<UnitId, UserId>, active: set<UserId>, posts: seq<Post>)

  const MAX_LEVELS := 20

  function FirstPost(posts: seq<Post>, unit: UnitId, position: PositionId): (r: Option<UserId>)
    ensures r.Some? <==> exists p :: p in posts && p.unit == unit && p.position == position
  {
    if posts == [] then None
    else if posts[0].unit == unit && posts[0].position == position then Some(posts[0].user)
    else
      var rest := FirstPost(posts[1..], unit, position);
      assert posts == [posts[0]] + posts[1..];
      rest
  }

  /** Who manages one unit: its named manager while active, else the holder of the configured position. */
  function ManagerAt(staff: Staff, unit: UnitId, position: Option<PositionId>): Option<UserId> {
    if unit in staff.chiefs && staff.chiefs[unit] in staff.active then Some(staff.chiefs[unit])
    else if position.Some? then FirstPost(staff.posts, unit, position.value)
    else None
  }

  /** The unit `n` steps up is the tenant's, and has no manager. */
  ghost predicate Unmanaged(units: Units, tenant: TenantId, staff: Staff, position: Option<PositionId>, start: UnitId, n: nat) {
    var u := Up(units, start, n);
    u.Some? && InTenant(units, u.value, tenant) && ManagerAt(staff, u.value, position).None?
  }

  /** `m` manages the unit `n` steps up, and nobody manages one further down. */
  ghost predicate Nearest(units: Units, tenant: TenantId, staff: Staff, position: Option<PositionId>, start: UnitId, n: nat, m: UserId) {
    var u := Up(units, start, n);
    && u.Some? && InTenant(units, u.value, tenant) && ManagerAt(staff, u.value, position) == Some(m)
    && forall k: nat | k < n :: Unmanaged(units, tenant, staff, position, start, k)
  }

  lemma NearestUnique(units: Units, tenant: TenantId, staff: Staff, position: Option<PositionId>, start: UnitId,
                      n: nat, m: UserId, n': nat, m': UserId)
    requires Nearest(units, tenant, staff, position, start, n, m) && Nearest(units, tenant, staff, position, start, n', m')
    ensures n == n' && m == m'
  {
    assert n < n' ==> Unmanaged(units, tenant, staff, position, start, n);
    assert n' < n ==> Unmanaged(units, tenant, staff, position, start, n');
  }

  /** The walk finds the nearest manager exactly when there is one fewer than twenty levels up; it needs no forest to end. */
  method ResolveRequesterManager(units: Units, tenant: TenantId, staff: Staff, position: Option<PositionId>, start: Option<UnitId>)
    returns (m: Option<UserId>)
    ensures m.Some? ==> start.Some? && exists n: nat :: n < 20 && Nearest(units, tenant, staff, position, start.value, n, m.value)
    ensures m.None? && start.Some? ==>
              forall n: nat, x | Nearest(units, tenant, staff, position, start.value, n, x) :: n >= 20
  {
    var unitId := start;
    for depth := 0 to MAX_LEVELS
      invariant start.Some? ==> unitId == Up(units, start.value, depth)
      invariant start.None? ==> unitId.None?
      invariant start.Some? ==> forall k: nat | k < depth :: Unmanaged(units, tenant, staff, position, start.value, k)
    {
      if unitId.None? {
        NothingFurther(units, tenant, staff, position, start, depth);
        return None;
      }
      if !InTenant(units, unitId.value, tenant) {
        NothingFurther(units, tenant, staff, position, start, depth);
        return None;
      }
      m := ManagerAt(staff, unitId.value, position);
      if m.Some? {
        assert Nearest(units, tenant, staff, position, start.value, depth, m.value);
        return;
      }
      assert Unmanaged(units, tenant, staff, position, start.value, depth);
      UpAdd(units, start.value, depth, 1);
      assert units[unitId.value].parent.Some? ==> Up(units, units[unitId.value].parent.value, 0) == units[unitId.value].parent;
      unitId := units[unitId.value].parent;
    }
    m := None;
    if start.Some? {
      forall n: nat, x | Nearest(units, tenant, staff, position, start.value, n, x)
        ensures n >= MAX_LEVELS
      {
        assert n < MAX_LEVELS ==> Unmanaged(units, tenant, staff, position, start.value, n);
      }
    }
  }

  lemma NothingFurther(units: Units, tenant: TenantId, staff: Staff, position: Option<PositionId>, start: Option<UnitId>, depth: nat)
    requires start.Some? ==>
               var u := Up(units, start.value, depth);
               && (u.Some? ==> !InTenant(units, u.value, tenant))
               && forall k: nat | k < depth :: Unmanaged(units, tenant, staff, position, start.value, k)
    ensures start.Some? ==> forall n: nat, x :: !Nearest(units, tenant, staff, position, start.value, n, x)
  {
    if start.Some? {
      forall n: nat, x
        ensures !Nearest(units, tenant, staff, position, start.value, n, x)
      {
        assert n < depth ==> Unmanaged(units, tenant, staff, position, start.value, n);
        assert Nearest(units, tenant, staff, position, start.value, n, x) && depth < n ==>
               Unmanaged(units, tenant, staff, position, start.value, depth);
      }
    }
  }

  /** In an organization of at most twenty levels the bound makes no difference. */
  lemma ShallowNeedsNoBound(units: Units, tenant: TenantId, staff: Staff, position: Option<PositionId>, start: UnitId, n: nat, m: UserId)
    requires Rooted(units, start, 19) && Nearest(units, tenant, staff, position, start, n, m)
    ensures n < 20
  {
    if n >= 20 {
      RootedEnds(units, start, 19, n);
    }
  }

  // -------------------------------------------------- one level further up

  function Name(k: nat): (name: UnitId)
    ensures |name| == k
  {
    if k == 0 then "" else Name(k - 1) + "u"
  }

  /** Units in a row, the one without a name at the top. */
  function Tower(height: nat): Units {
    if height == 0 then map[Name(0) := Unit("t", None, "", "", "department", 0, true)]
    else Tower(height - 1)[Name(height) := Unit("t", Some(Name(height - 1)), "", "", "department", 0, true)]
  }

  lemma {:induction false} TowerAt(height: nat, i: nat)
    requires i <= height
    ensures Name(i) in Tower(height) && Tower(height)[Name(i)].tenant == "t"
    ensures Tower(height)[Name(i)].parent == if i > 0 then Some(Name(i - 1)) else None
  {
    hide Name;
    if i < height {
      TowerAt(height - 1, i);
    }
  }

  lemma {:induction false} TowerUp(height: nat, i: nat, n: nat)
    requires n <= i <= height
    ensures Up(Tower(height), Name(i), n) == Some(Name(i - n))
    decreases n
  {
    hide Tower, Name;
    if n > 0 {
      TowerAt(height, i);
      TowerUp(height, i - 1, n - 1);
    }
  }

  /** A manager twenty levels up is there, and is out of the walk's reach. */
  lemma ManagerOutOfReach()
    ensures Nearest(Tower(20), "t", Staff(map["" := "boss"], {"boss"}, []), None, Name(20), 20, "boss")
  {
    hide Tower, Name;
    var staff := Staff(map["" := "boss"], {"boss"}, []);
    forall k: nat | k <= 20
      ensures Up(Tower(20), Name(20), k) == Some(Name(20 - k))
      ensures InTenant(Tower(20), Name(20 - k), "t")
    {
      TowerUp(20, 20, k);
      TowerAt(20, 20 - k);
    }
    assert Name(20 - 20) == "";
  }
}
