/** Turning maintenance schedules and events into occurrences. */
module MaintenancePlanner {
  import opened Outcomes
  import opened Json
  import opened Occurrences
  import opened Tenants
  import Conditions

  type GroupId = string

  datatype Target = ForEquipment(equipment: EquipmentId) | ForGroup(group: GroupId)

  datatype Directory = Directory(
    equipment: map<EquipmentId, TenantId>, groups: map<GroupId, TenantId>, members: seq<(GroupId, EquipmentId)>)

  datatype TriggerKind = TimeRule | MeterThreshold | DomainEvent | ConditionEvent

  /** `dates` is what the rule of a time trigger generates, in ascending order. */
  datatype Trigger = Trigger(id: TriggerId, schedule: ScheduleId, kind: TriggerKind, config: Record, dates: seq<Instant>, active: bool)

  /** `minutes` is the estimate of the job plan's current version. */
  datatype Schedule = Schedule(id: ScheduleId, active: bool, minutes: Option<nat>, targets: seq<Target>)

  datatype Event = Event(key: string, equipment: Option<EquipmentId>, payload: Record, externalId: string, occurredAt: Instant)

  // -------------------------------------------------------------------- targets

  predicate Reaches(d: Directory, tenant: TenantId, target: Target, e: EquipmentId) {
    match target
    case ForEquipment(id) => id == e && Belongs(d.equipment, id, tenant)
    case ForGroup(g) => Belongs(d.groups, g, tenant) && (g, e) in d.members
  }

  /** What `expandTargets` lists. */
  predicate Expands(d: Directory, tenant: TenantId, targets: seq<Target>, e: EquipmentId) {
    exists i | 0 <= i < |targets| :: Reaches(d, tenant, targets[i], e)
  }

  /** What `targetContainsEquipment` accepts. */
  predicate Covers(d: Directory, tenant: TenantId, targets: seq<Target>, e: EquipmentId) {
    && Belongs(d.equipment, e, tenant)
    && (ForEquipment(e) in targets || exists m | m in d.members :: m.1 == e && ForGroup(m.0) in targets)
  }

  /** The references were checked when the schedule was saved. */
  predicate TargetsOwned(d: Directory, tenant: TenantId, targets: seq<Target>) {
    forall i | 0 <= i < |targets| && targets[i].ForGroup? :: Belongs(d.groups, targets[i].group, tenant)
  }

  /** On the tenant's own equipment, what is expanded is contained; and what is contained is expanded exactly when it is
      a target itself or belongs to a targeted group of the tenant. */
  lemma TargetsAgreeIff(d: Directory, tenant: TenantId, targets: seq<Target>, e: EquipmentId)
    ensures Expands(d, tenant, targets, e) && Belongs(d.equipment, e, tenant) ==> Covers(d, tenant, targets, e)
    ensures Covers(d, tenant, targets, e) ==>
              (Expands(d, tenant, targets, e) <==>
               ForEquipment(e) in targets
               || exists m :: m in d.members && m.1 == e && ForGroup(m.0) in targets && Belongs(d.groups, m.0, tenant))
  {
  }

  lemma OwnedTargetsAgree(d: Directory, tenant: TenantId, targets: seq<Target>, e: EquipmentId)
    requires TargetsOwned(d, tenant, targets)
    ensures Covers(d, tenant, targets, e) <==> Expands(d, tenant, targets, e) && Belongs(d.equipment, e, tenant)
  {
  }

  // --------------------------------------------------------------- wanted rows

  /** `estimatedMinutes`, where nothing and zero both mean no due date. */
  function DueAt(minutes: Option<nat>, start: Instant): Option<Instant> {
    if minutes.Some? && minutes.value > 0 then Some(start + minutes.value * 60000) else None
  }

  function NewRow(s: Schedule, trigger: TriggerId, e: EquipmentId, cause: Cause, start: Instant): Occurrence {
    Occurrence(Slot(s.id, trigger, e, cause), start, DueAt(s.minutes, start), Planned, None)
  }

  predicate Selected(s: Schedule, only: Option<ScheduleId>) {
    s.active && (only.None? || only.value == s.id)
  }

  predicate Ticks(t: Trigger, s: Schedule) {
    t.schedule == s.id && t.kind.TimeRule? && t.active
  }

  /** One rule date of one trigger, on every piece of equipment that the schedule expands to. */
  ghost predicate OnDate(d: Directory, tenant: TenantId, s: Schedule, t: Trigger, date: Instant, row: Occurrence) {
    exists e :: Expands(d, tenant, s.targets, e) && row == NewRow(s, t.id, e, At(date), date)
  }

  ghost predicate OnDates(d: Directory, tenant: TenantId, s: Schedule, t: Trigger, dates: seq<Instant>, row: Occurrence) {
    exists date :: date in dates && OnDate(d, tenant, s, t, date, row)
  }

  ghost predicate OnTriggers(d: Directory, tenant: TenantId, s: Schedule, triggers: seq<Trigger>, from: Instant, to: Instant,
                             row: Occurrence) {
    exists t :: t in triggers && Ticks(t, s) && OnDates(d, tenant, s, t, Between(t.dates, from, to), row)
  }

  ghost predicate OnSchedules(d: Directory, tenant: TenantId, schedules: seq<Schedule>, triggers: seq<Trigger>,
                              only: Option<ScheduleId>, from: Instant, to: Instant, row: Occurrence) {
    exists s :: s in schedules && Selected(s, only) && OnTriggers(d, tenant, s, triggers, from, to, row)
  }

  /** `between`, both ends included. */
  function Between(dates: seq<Instant>, from: Instant, to: Instant): (r: seq<Instant>)
    ensures forall date :: date in r <==> date in dates && from <= date <= to
  {
    if dates == [] then []
    else (if from <= dates[0] <= to then [dates[0]] else []) + Between(dates[1..], from, to)
  }

  /** Everything a window asks for. */
  ghost function WindowRows(d: Directory, tenant: TenantId, schedules: seq<Schedule>, triggers: seq<Trigger>,
                            only: Option<ScheduleId>, from: Instant, to: Instant): iset<Occurrence> {
    iset row: Occurrence | OnSchedules(d, tenant, schedules, triggers, only, from, to, row)
  }

  /** A row that some window asks for. */
  ghost predicate RuleRow(d: Directory, tenant: TenantId, schedules: seq<Schedule>, triggers: seq<Trigger>, only: Option<ScheduleId>,
                          row: Occurrence) {
    exists s, t ::
      && s in schedules && Selected(s, only) && t in triggers && Ticks(t, s) && OnDates(d, tenant, s, t, t.dates, row)
  }

  lemma InWindow(d: Directory, tenant: TenantId, schedules: seq<Schedule>, triggers: seq<Trigger>, only: Option<ScheduleId>,
                 from: Instant, to: Instant, row: Occurrence)
    ensures row in WindowRows(d, tenant, schedules, triggers, only, from, to) <==>
            RuleRow(d, tenant, schedules, triggers, only, row) && from <= row.plannedStart <= to
  {
  }

  /** Windows that overlap or touch compose. */
  lemma WindowsCompose(d: Directory, tenant: TenantId, schedules: seq<Schedule>, triggers: seq<Trigger>, only: Option<ScheduleId>,
                       a: Instant, b: Instant, c: Instant, e: Instant)
    requires a <= c <= b + 1 && b <= e
    ensures WindowRows(d, tenant, schedules, triggers, only, a, b) + WindowRows(d, tenant, schedules, triggers, only, c, e)
            == WindowRows(d, tenant, schedules, triggers, only, a, e)
  {
  }

  predicate DatesOnly(dates: seq<Instant>) {
    forall date | date in dates :: Dated(date)
  }

  /** Schedules, triggers and equipment carry generated identifiers, each schedule its own, and rules generate dates. */
  ghost predicate Identified(d: Directory, schedules: seq<Schedule>, triggers: seq<Trigger>) {
    && (forall s | s in schedules :: IsUuid(s.id)) && (forall t | t in triggers :: IsUuid(t.id))
    && (forall e | e in d.equipment :: IsUuid(e)) && (forall m | m in d.members :: IsUuid(m.1))
    && (forall a, b | a in schedules && b in schedules && a.id == b.id :: a == b)
    && (forall t | t in triggers :: DatesOnly(t.dates))
  }

  lemma DatesOf(d: Directory, schedules: seq<Schedule>, triggers: seq<Trigger>, t: Trigger)
    requires Identified(d, schedules, triggers) && t in triggers
    ensures DatesOnly(t.dates)
  {
  }

  lemma RuleRowPlain(d: Directory, tenant: TenantId, schedules: seq<Schedule>, triggers: seq<Trigger>, only: Option<ScheduleId>,
                     row: Occurrence)
    requires Identified(d, schedules, triggers) && RuleRow(d, tenant, schedules, triggers, only, row)
    ensures Plain(row.slot)
    ensures exists s :: s in schedules && row == NewRow(s, row.slot.trigger, row.slot.equipment, At(row.plannedStart), row.plannedStart)
  {
  }

  lemma RuleKeyFits(d: Directory, tenant: TenantId, schedules: seq<Schedule>, triggers: seq<Trigger>,
                    s: Schedule, t: Trigger, e: EquipmentId, date: Instant, iso: Instant -> string)
    requires Identified(d, schedules, triggers) && Renders(iso)
    requires s in schedules && t in triggers && Expands(d, tenant, s.targets, e) && Dated(date)
    ensures |Key(NewRow(s, t.id, e, At(date), date).slot, iso)| <= MAX_KEY
  {
  }

  lemma EventKeyFitsIff(d: Directory, tenant: TenantId, schedules: seq<Schedule>, triggers: seq<Trigger>,
                        s: Schedule, t: Trigger, e: EquipmentId, event: Event, iso: Instant -> string)
    requires Identified(d, schedules, triggers) && s in schedules && t in triggers && Covers(d, tenant, s.targets, e)
    ensures |Key(NewRow(s, t.id, e, OnEvent(event.externalId), event.occurredAt).slot, iso)| <= MAX_KEY <==> |event.externalId| <= 63
  {
  }

  /** No two rows that any windows ask for share a key, so what the windows fill in is determined. */
  lemma RuleRowsConsistent(d: Directory, tenant: TenantId, schedules: seq<Schedule>, triggers: seq<Trigger>, only: Option<ScheduleId>,
                           iso: Instant -> string, a: Occurrence, b: Occurrence)
    requires Identified(d, schedules, triggers) && Renders(iso) && Key(a.slot, iso) == Key(b.slot, iso)
    requires RuleRow(d, tenant, schedules, triggers, only, a) && RuleRow(d, tenant, schedules, triggers, only, b)
    ensures a == b
  {
    RuleRowPlain(d, tenant, schedules, triggers, only, a);
    RuleRowPlain(d, tenant, schedules, triggers, only, b);
    KeyInjective(a.slot, b.slot, iso);
  }

  // ------------------------------------------------------------ many windows

  type Window = (Instant, Instant)

  ghost function AllRows(d: Directory, tenant: TenantId, schedules: seq<Schedule>, triggers: seq<Trigger>, only: Option<ScheduleId>,
                         windows: seq<Window>): iset<Occurrence> {
    if windows == [] then iset{}
    else
      WindowRows(d, tenant, schedules, triggers, only, windows[0].0, windows[0].1)
      + AllRows(d, tenant, schedules, triggers, only, windows[1..])
  }

  /** The table after materializing one window after another. */
  ghost predicate Materialized(d: Directory, tenant: TenantId, schedules: seq<Schedule>, triggers: seq<Trigger>, only: Option<ScheduleId>,
                               iso: Instant -> string, windows: seq<Window>, t: Table, t': Table)
    decreases |windows|
  {
    if windows == [] then t' == t
    else exists mid ::
      && Filled(t, mid, WindowRows(d, tenant, schedules, triggers, only, windows[0].0, windows[0].1), iso)
      && Materialized(d, tenant, schedules, triggers, only, iso, windows[1..], mid, t')
  }

  lemma {:induction false} MaterializedFills(d: Directory, tenant: TenantId, schedules: seq<Schedule>, triggers: seq<Trigger>,
                                             only: Option<ScheduleId>, iso: Instant -> string, windows: seq<Window>, t: Table, t': Table)
    requires Materialized(d, tenant, schedules, triggers, only, iso, windows, t, t')
    ensures Filled(t, t', AllRows(d, tenant, schedules, triggers, only, windows), iso)
    decreases |windows|
  {
    hide WindowRows, Filled;
    if windows == [] {
      FilledNothing(t, iso);
    } else {
      var first := WindowRows(d, tenant, schedules, triggers, only, windows[0].0, windows[0].1);
      var mid :| Filled(t, mid, first, iso) && Materialized(d, tenant, schedules, triggers, only, iso, windows[1..], mid, t');
      MaterializedFills(d, tenant, schedules, triggers, only, iso, windows[1..], mid, t');
      FilledThen(t, mid, t', first, AllRows(d, tenant, schedules, triggers, only, windows[1..]), iso);
    }
  }

  lemma {:induction false} AllRowsAreRuleRows(d: Directory, tenant: TenantId, schedules: seq<Schedule>, triggers: seq<Trigger>,
                                              only: Option<ScheduleId>, windows: seq<Window>)
    ensures forall row | row in AllRows(d, tenant, schedules, triggers, only, windows) :: RuleRow(d, tenant, schedules, triggers, only, row)
  {
    if windows != [] {
      AllRowsAreRuleRows(d, tenant, schedules, triggers, only, windows[1..]);
      hide RuleRow, WindowRows;
      forall row | row in WindowRows(d, tenant, schedules, triggers, only, windows[0].0, windows[0].1)
        ensures RuleRow(d, tenant, schedules, triggers, only, row)
      {
        InWindow(d, tenant, schedules, triggers, only, windows[0].0, windows[0].1, row);
      }
    }
  }

  /** Order, repetition and overlap of windows do not matter: what they cover together decides the table. */
  lemma OnlyCoverageMatters(d: Directory, tenant: TenantId, schedules: seq<Schedule>, triggers: seq<Trigger>, only: Option<ScheduleId>,
                            iso: Instant -> string, ws: seq<Window>, ws': seq<Window>, t: Table, a: Table, b: Table)
    requires Identified(d, schedules, triggers) && Renders(iso)
    requires AllRows(d, tenant, schedules, triggers, only, ws) == AllRows(d, tenant, schedules, triggers, only, ws')
    requires Materialized(d, tenant, schedules, triggers, only, iso, ws, t, a)
    requires Materialized(d, tenant, schedules, triggers, only, iso, ws', t, b)
    ensures a == b
  {
    hide RuleRow, Identified, Renders, AllRows, Filled, Materialized;
    MaterializedFills(d, tenant, schedules, triggers, only, iso, ws, t, a);
    MaterializedFills(d, tenant, schedules, triggers, only, iso, ws', t, b);
    AllRowsAreRuleRows(d, tenant, schedules, triggers, only, ws);
    var all := AllRows(d, tenant, schedules, triggers, only, ws);
    forall x, y | x in all && y in all && Key(x.slot, iso) == Key(y.slot, iso)
      ensures x == y
    {
      RuleRowsConsistent(d, tenant, schedules, triggers, only, iso, x, y);
    }
    FilledUnique(t, a, b, all, iso);
  }

  // -------------------------------------------------------------------- events

  /** What JavaScript takes for a condition. */
  predicate Truthy(v: Value) {
    match v
    case Undefined => false
    case Null => false
    case Bool(b) => b
    case Num(n) => n != 0.0
    case Str(s) => s != ""
    case _ => true
  }

  predicate Hears(t: Trigger, s: Schedule, event: Event) {
    && t.schedule == s.id && s.active && t.active && (t.kind.DomainEvent? || t.kind.ConditionEvent?)
    && Lookup(t.config, "eventKey") == Str(event.key)
    && var condition := Lookup(t.config, "condition");
       Truthy(condition) ==> IsObject(condition) && Conditions.EvaluateScheduling(condition, Obj(event.payload))
  }

  predicate Names(event: Event) {
    event.equipment.Some? && event.equipment.value != ""
  }

  predicate Concerns(d: Directory, tenant: TenantId, s: Schedule, event: Event, e: EquipmentId) {
    && Covers(d, tenant, s.targets, e)
    && (if Names(event) then e == event.equipment.value else Expands(d, tenant, s.targets, e))
  }

  ghost predicate OnHearing(d: Directory, tenant: TenantId, s: Schedule, t: Trigger, event: Event, row: Occurrence) {
    exists e :: Concerns(d, tenant, s, event, e) && row == NewRow(s, t.id, e, OnEvent(event.externalId), event.occurredAt)
  }

  ghost predicate OnEventTriggers(d: Directory, tenant: TenantId, schedules: seq<Schedule>, triggers: seq<Trigger>, event: Event,
                                  row: Occurrence) {
    exists t, s :: t in triggers && s in schedules && Hears(t, s, event) && OnHearing(d, tenant, s, t, event, row)
  }

  /** Everything an event asks for. */
  ghost function EventRows(d: Directory, tenant: TenantId, schedules: seq<Schedule>, triggers: seq<Trigger>, event: Event)
    : iset<Occurrence>
  {
    iset row: Occurrence | OnEventTriggers(d, tenant, schedules, triggers, event, row)
  }

  // ----------------------------------------------------------------- an example

  function Uuid(c: char): string {
    seq(36, _ => c)
  }

  /** One machine, and one schedule for it. */
  function SmallDirectory(): Directory {
    Directory(map[Uuid('e') := "t"], map[], [])
  }

  function SmallSchedule(): Schedule {
    Schedule(Uuid('s'), true, None, [ForEquipment(Uuid('e'))])
  }

  function SmallRule(): Trigger {
    Trigger(Uuid('x'), Uuid('s'), TimeRule, map[], [0], true)
  }

  lemma SmallCovers()
    ensures Covers(SmallDirectory(), "t", SmallSchedule().targets, Uuid('e'))
    ensures Expands(SmallDirectory(), "t", SmallSchedule().targets, Uuid('e'))
  {
    assert SmallSchedule().targets[0] == ForEquipment(Uuid('e')) && SmallDirectory().equipment[Uuid('e')] == "t";
  }

  /** What the planner relies on can be met, with rows to fill in. */
  lemma SmallPlan(from: Instant, to: Instant)
    requires from <= 0 <= to
    ensures Identified(SmallDirectory(), [SmallSchedule()], [SmallRule()]) && Renders(Signed)
    ensures NewRow(SmallSchedule(), SmallRule().id, Uuid('e'), At(0), 0)
            in WindowRows(SmallDirectory(), "t", [SmallSchedule()], [SmallRule()], None, from, to)
  {
    SignedRenders();
    SmallCovers();
    var d, s, t := SmallDirectory(), SmallSchedule(), SmallRule();
    assert Identified(d, [s], [t]);
    var row := NewRow(s, t.id, Uuid('e'), At(0), 0);
    hide SmallDirectory, Expands, NewRow;
    assert OnDate(d, "t", s, t, 0, row);
    assert OnDates(d, "t", s, t, Between(t.dates, from, to), row);
    assert t in [t] && s in [s];
    assert OnTriggers(d, "t", s, [t], from, to, row);
  }

  // ------------------------------------------------------------------ the tables

  /** The scheduling service of one tenant, over its occurrence table. */
  class Planner {
    const tenant: TenantId
    const directory: Directory
    const schedules: seq<Schedule>
    const triggers: seq<Trigger>
    const iso: Instant -> string
    var occurrences: Table

    ghost predicate Valid() {
      Identified(directory, schedules, triggers) && Renders(iso)
    }

    constructor (tenant: TenantId, directory: Directory, schedules: seq<Schedule>, triggers: seq<Trigger>, iso: Instant -> string,
                 occurrences: Table)
      requires Identified(directory, schedules, triggers) && Renders(iso)
      ensures Valid() && this.tenant == tenant && this.directory == directory && this.schedules == schedules
      ensures this.triggers == triggers && this.iso == iso && this.occurrences == occurrences
    {
      this.tenant, this.directory, this.schedules, this.triggers := tenant, directory, schedules, triggers;
      this.iso, this.occurrences := iso, occurrences;
    }

    method ExpandTargets(targets: seq<Target>) returns (ids: seq<EquipmentId>)
      ensures forall e :: e in ids <==> Expands(directory, tenant, targets, e)
      ensures forall i, j | 0 <= i < j < |ids| :: ids[i] != ids[j]
    {
      ids := [];
      for i := 0 to |targets|
        invariant forall e :: e in ids <==> exists k | 0 <= k < i :: Reaches(directory, tenant, targets[k], e)
        invariant forall j, k | 0 <= j < k < |ids| :: ids[j] != ids[k]
      {
        match targets[i]
        case ForEquipment(id) =>
          if Belongs(directory.equipment, id, tenant) && id !in ids {
            ids := ids + [id];
          }
        case ForGroup(g) =>
          if Belongs(directory.groups, g, tenant) {
            ids := AddMembers(g, ids);
          }
      }
    }

    method AddMembers(g: GroupId, before: seq<EquipmentId>) returns (ids: seq<EquipmentId>)
      requires forall i, j | 0 <= i < j < |before| :: before[i] != before[j]
      ensures forall e :: e in ids <==> e in before || (g, e) in directory.members
      ensures forall i, j | 0 <= i < j < |ids| :: ids[i] != ids[j]
    {
      ids := before;
      for i := 0 to |directory.members|
        invariant forall e :: e in ids <==> e in before || (g, e) in directory.members[..i]
        invariant forall j, k | 0 <= j < k < |ids| :: ids[j] != ids[k]
      {
        var member := directory.members[i];
        assert directory.members[..i + 1] == directory.members[..i] + [member];
        if member.0 == g && member.1 !in ids {
          ids := ids + [member.1];
        }
      }
      assert directory.members[..|directory.members|] == directory.members;
    }

    method MaterializeDate(s: Schedule, t: Trigger, date: Instant, ids: seq<EquipmentId>) returns (created: nat)
      requires Valid() && s in schedules && t in triggers && Dated(date)
      requires forall e :: e in ids <==> Expands(directory, tenant, s.targets, e)
      modifies this
      ensures Filled(old(occurrences), occurrences, (iset row: Occurrence | OnDate(directory, tenant, s, t, date, row)), iso)
      ensures |occurrences| == |old(occurrences)| + created
    {
      hide Filled, Expands, Key, Renders, Identified, DueAt;
      created := 0;
      ghost var done: iset<Occurrence> := iset{};
      FilledNothing(occurrences, iso);
      for i := 0 to |ids|
        invariant Filled(old(occurrences), occurrences, done, iso) && |occurrences| == |old(occurrences)| + created
        invariant forall row :: row in done <==> exists k | 0 <= k < i :: row == NewRow(s, t.id, ids[k], At(date), date)
      {
        var row := NewRow(s, t.id, ids[i], At(date), date);
        RuleKeyFits(directory, tenant, schedules, triggers, s, t, ids[i], date, iso);
        var more, after := Insert(occurrences, row, iso);
        FilledThen(old(occurrences), occurrences, after, done, iset{row}, iso);
        occurrences, done := after, done + iset{row};
        created := created + more.value;
      }
      assert done == iset row: Occurrence | OnDate(directory, tenant, s, t, date, row);
    }

    method MaterializeTrigger(s: Schedule, t: Trigger, ids: seq<EquipmentId>, from: Instant, to: Instant) returns (created: nat)
      requires Valid() && s in schedules && t in triggers
      requires forall e :: e in ids <==> Expands(directory, tenant, s.targets, e)
      modifies this
      ensures Filled(old(occurrences), occurrences,
                     (iset row: Occurrence | OnDates(directory, tenant, s, t, Between(t.dates, from, to), row)), iso)
      ensures |occurrences| == |old(occurrences)| + created
    {
      hide Filled, Expands, Identified, Renders, OnDate;
      created := 0;
      var dates := Between(t.dates, from, to);
      assert DatesOnly(t.dates) by {
        DatesOf(directory, schedules, triggers, t);
      }
      ghost var done: iset<Occurrence> := iset{};
      FilledNothing(occurrences, iso);
      for i := 0 to |dates|
        invariant Filled(old(occurrences), occurrences, done, iso) && |occurrences| == |old(occurrences)| + created
        invariant forall row :: row in done <==> exists k | 0 <= k < i :: OnDate(directory, tenant, s, t, dates[k], row)
      {
        ghost var before, wanted := occurrences, iset row: Occurrence | OnDate(directory, tenant, s, t, dates[i], row);
        assert dates[i] in t.dates;
        var more := MaterializeDate(s, t, dates[i], ids);
        FilledThen(old(occurrences), before, occurrences, done, wanted, iso);
        done := done + wanted;
        created := created + more;
      }
      assert done == iset row: Occurrence | OnDates(directory, tenant, s, t, dates, row);
    }

    method MaterializeSchedule(s: Schedule, from: Instant, to: Instant) returns (created: nat)
      requires Valid() && s in schedules
      modifies this
      ensures Filled(old(occurrences), occurrences,
                     (iset row: Occurrence | OnTriggers(directory, tenant, s, triggers, from, to, row)), iso)
      ensures |occurrences| == |old(occurrences)| + created
    {
      hide Filled, Expands, Identified, Renders, OnDates, Ticks;
      created := 0;
      var ids := ExpandTargets(s.targets);
      ghost var done: iset<Occurrence> := iset{};
      FilledNothing(occurrences, iso);
      for i := 0 to |triggers|
        invariant Filled(old(occurrences), occurrences, done, iso) && |occurrences| == |old(occurrences)| + created
        invariant forall row :: row in done <==>
                    exists k | 0 <= k < i :: Ticks(triggers[k], s)
                                             && OnDates(directory, tenant, s, triggers[k], Between(triggers[k].dates, from, to), row)
      {
        var t := triggers[i];
        if Ticks(t, s) {
          ghost var before := occurrences;
          ghost var wanted := iset row: Occurrence | OnDates(directory, tenant, s, t, Between(t.dates, from, to), row);
          var more := MaterializeTrigger(s, t, ids, from, to);
          FilledThen(old(occurrences), before, occurrences, done, wanted, iso);
          done := done + wanted;
          created := created + more;
        }
      }
      assert done == iset row: Occurrence | OnTriggers(directory, tenant, s, triggers, from, to, row);
    }

    /** One window: exactly the rows it asks for and that are not there yet are added, and counted. */
    method MaterializeTenant(from: Instant, to: Instant, only: Option<ScheduleId>) returns (created: nat)
      requires Valid()
      modifies this
      ensures Filled(old(occurrences), occurrences, WindowRows(directory, tenant, schedules, triggers, only, from, to), iso)
      ensures |occurrences| == |old(occurrences)| + created
    {
      hide Filled, Identified, Renders, OnTriggers, Selected;
      created := 0;
      ghost var done: iset<Occurrence> := iset{};
      FilledNothing(occurrences, iso);
      for i := 0 to |schedules|
        invariant Filled(old(occurrences), occurrences, done, iso) && |occurrences| == |old(occurrences)| + created
        invariant forall row :: row in done <==>
                    exists k | 0 <= k < i :: Selected(schedules[k], only)
                                             && OnTriggers(directory, tenant, schedules[k], triggers, from, to, row)
      {
        var s := schedules[i];
        if Selected(s, only) {
          ghost var before, wanted := occurrences, iset row: Occurrence | OnTriggers(directory, tenant, s, triggers, from, to, row);
          var more := MaterializeSchedule(s, from, to);
          FilledThen(old(occurrences), before, occurrences, done, wanted, iso);
          done := done + wanted;
          created := created + more;
        }
      }
      assert done == WindowRows(directory, tenant, schedules, triggers, only, from, to);
    }

    /** The occurrences of one trigger that an event concerns. */
    method Fire(s: Schedule, t: Trigger, event: Event) returns (created: Option<nat>)
      requires Valid() && s in schedules && t in triggers
      modifies this
      ensures created.Some? ==>
                && Filled(old(occurrences), occurrences, (iset row: Occurrence | OnHearing(directory, tenant, s, t, event, row)), iso)
                && |occurrences| == |old(occurrences)| + created.value
      ensures created.None? ==> occurrences == old(occurrences)
      ensures created.None? <==> |event.externalId| > 63 && exists row :: OnHearing(directory, tenant, s, t, event, row)
    {
      hide Filled, Expands, Covers, Key, Renders, Identified, DueAt;
      var sum: nat := 0;
      var ids;
      if Names(event) {
        ids := [event.equipment.value];
      } else {
        ids := ExpandTargets(s.targets);
      }
      assert forall e :: Concerns(directory, tenant, s, event, e) <==> e in ids && Covers(directory, tenant, s.targets, e);
      hide Concerns;
      ghost var done: iset<Occurrence> := iset{};
      FilledNothing(occurrences, iso);
      for i := 0 to |ids|
        invariant Filled(old(occurrences), occurrences, done, iso) && |occurrences| == |old(occurrences)| + sum
        invariant forall row :: row in done <==>
                    exists k | 0 <= k < i :: Covers(directory, tenant, s.targets, ids[k])
                                             && row == NewRow(s, t.id, ids[k], OnEvent(event.externalId), event.occurredAt)
        invariant |event.externalId| > 63 ==> occurrences == old(occurrences) && done == iset{}
      {
        if Covers(directory, tenant, s.targets, ids[i]) {
          var row := NewRow(s, t.id, ids[i], OnEvent(event.externalId), event.occurredAt);
          EventKeyFitsIff(directory, tenant, schedules, triggers, s, t, ids[i], event, iso);
          var more, after := Insert(occurrences, row, iso);
          if more.None? {
            assert Concerns(directory, tenant, s, event, ids[i]);
            assert OnHearing(directory, tenant, s, t, event, row);
            return None;
          }
          FilledThen(old(occurrences), occurrences, after, done, iset{row}, iso);
          sum, occurrences, done := sum + more.value, after, done + iset{row};
        }
      }
      ghost var wanted := iset row: Occurrence | OnHearing(directory, tenant, s, t, event, row);
      assert done == wanted;
      assert forall row :: OnHearing(directory, tenant, s, t, event, row) ==> row in wanted;
      created := Some(sum);
    }

    method FindSchedule(id: ScheduleId) returns (s: Option<Schedule>)
      ensures s.Some? ==> s.value in schedules && s.value.id == id
      ensures s.None? ==> forall x | x in schedules :: x.id != id
    {
      s := None;
      for i := 0 to |schedules|
        invariant s.Some? ==> s.value in schedules && s.value.id == id
        invariant s.None? ==> forall k | 0 <= k < i :: schedules[k].id != id
      {
        if schedules[i].id == id {
          s := Some(schedules[i]);
        }
      }
    }

    /** An event: every trigger that hears it yields its rows, once however often the event is sent. An external
        identifier too long for the key makes the event fail at its first row, with nothing inserted. */
    method IngestEvent(event: Event) returns (created: Option<nat>)
      requires Valid()
      modifies this
      ensures created.Some? ==>
                && Filled(old(occurrences), occurrences, EventRows(directory, tenant, schedules, triggers, event), iso)
                && |occurrences| == |old(occurrences)| + created.value
      ensures created.None? ==> occurrences == old(occurrences)
      ensures created.None? <==>
              |event.externalId| > 63 && exists row :: row in EventRows(directory, tenant, schedules, triggers, event)
    {
      hide Filled, Renders, Hears, OnHearing;
      var sum: nat := 0;
      ghost var done: iset<Occurrence> := iset{};
      FilledNothing(occurrences, iso);
      for i := 0 to |triggers|
        invariant Filled(old(occurrences), occurrences, done, iso) && |occurrences| == |old(occurrences)| + sum
        invariant forall row :: row in done <==>
                    exists k, s | 0 <= k < i && s in schedules ::
                      Hears(triggers[k], s, event) && OnHearing(directory, tenant, s, triggers[k], event, row)
        invariant |event.externalId| > 63 ==> occurrences == old(occurrences) && done == iset{}
      {
        var t := triggers[i];
        var found := FindSchedule(t.schedule);
        OnlyItsSchedule(directory, schedules, triggers, t, event);
        if found.Some? && Hears(t, found.value, event) {
          var s := found.value;
          ghost var before, wanted := occurrences, iset row: Occurrence | OnHearing(directory, tenant, s, t, event, row);
          var more := Fire(s, t, event);
          if more.None? {
            ghost var row :| OnHearing(directory, tenant, s, t, event, row);
            assert OnEventTriggers(directory, tenant, schedules, triggers, event, row);
            assert row in EventRows(directory, tenant, schedules, triggers, event);
            return None;
          }
          FilledThen(old(occurrences), before, occurrences, done, wanted, iso);
          done := done + wanted;
          sum := sum + more.value;
        }
      }
      assert done == EventRows(directory, tenant, schedules, triggers, event);
      created := Some(sum);
    }
  }

  lemma OnlyItsSchedule(d: Directory, schedules: seq<Schedule>, triggers: seq<Trigger>, t: Trigger, event: Event)
    requires Identified(d, schedules, triggers)
    ensures forall a, b | a in schedules && b in schedules && a.id == t.schedule && Hears(t, b, event) :: a == b
    ensures forall s | s in schedules && Hears(t, s, event) :: s.id == t.schedule
  {
  }
}
