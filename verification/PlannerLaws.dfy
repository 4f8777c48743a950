/** Which schedules, triggers, dates and machines get a row, in terms of the tables. */
module PlannerLaws {
  import opened Outcomes
  import opened Json
  import opened Occurrences
  import opened MaintenancePlanner
  import opened Tenants
  import Conditions

  /** The machine is the tenant's and a target, or in a targeted group of the tenant. */
  ghost predicate Targeted(d: Directory, tenant: TenantId, targets: seq<Target>, e: EquipmentId) {
    || (ForEquipment(e) in targets && e in d.equipment && d.equipment[e] == tenant)
    || exists g :: ForGroup(g) in targets && g in d.groups && d.groups[g] == tenant && (g, e) in d.members
  }

  lemma TargetedIs(d: Directory, tenant: TenantId, targets: seq<Target>, e: EquipmentId)
    ensures Expands(d, tenant, targets, e) <==> Targeted(d, tenant, targets, e)
  {
    TargetedIfExpanded(d, tenant, targets, e);
    if ForEquipment(e) in targets && e in d.equipment && d.equipment[e] == tenant {
      ExpandedIfReached(d, tenant, targets, ForEquipment(e), e);
    }
    if g :| ForGroup(g) in targets && g in d.groups && d.groups[g] == tenant && (g, e) in d.members {
      ExpandedIfReached(d, tenant, targets, ForGroup(g), e);
    }
  }

  lemma TargetedIfExpanded(d: Directory, tenant: TenantId, targets: seq<Target>, e: EquipmentId)
    ensures Expands(d, tenant, targets, e) ==> Targeted(d, tenant, targets, e)
  {
  }

  lemma ExpandedIfReached(d: Directory, tenant: TenantId, targets: seq<Target>, target: Target, e: EquipmentId)
    requires target in targets && Reaches(d, tenant, target, e)
    ensures Expands(d, tenant, targets, e)
  {
  }

  /** The row planned for a machine under a schedule: due after the plan's estimate, or not at all without one. */
  function PlannedRow(s: Schedule, t: Trigger, e: EquipmentId, cause: Cause, start: Instant): Occurrence {
    Occurrence(Slot(s.id, t.id, e, cause), start,
               if s.minutes.Some? && s.minutes.value >= 1 then Some(start + s.minutes.value * 60000) else None, Planned, None)
  }

  // -------------------------------------------------------------------- windows

  /** An active schedule, the one asked for if one is, has an active rule with a date in the window, and targets the machine. */
  ghost predicate Calls(d: Directory, tenant: TenantId, schedules: seq<Schedule>, triggers: seq<Trigger>, only: Option<ScheduleId>,
                        from: Instant, to: Instant, s: Schedule, t: Trigger, date: Instant, e: EquipmentId) {
    && s in schedules && s.active && (only.Some? ==> only == Some(s.id))
    && t in triggers && t.schedule == s.id && t.active && t.kind == TimeRule
    && date in t.dates && from <= date <= to && Targeted(d, tenant, s.targets, e)
  }

  lemma WindowLaw(d: Directory, tenant: TenantId, schedules: seq<Schedule>, triggers: seq<Trigger>, only: Option<ScheduleId>,
                  from: Instant, to: Instant, row: Occurrence)
    ensures row in WindowRows(d, tenant, schedules, triggers, only, from, to) <==>
            exists s, t, date, e ::
              && Calls(d, tenant, schedules, triggers, only, from, to, s, t, date, e)
              && row == PlannedRow(s, t, e, At(date), date)
  {
    hide Calls, PlannedRow, OnSchedules;
    if OnSchedules(d, tenant, schedules, triggers, only, from, to, row) {
      var s, t, date, e := RowIsCalledFor(d, tenant, schedules, triggers, only, from, to, row);
    }
    if s, t, date, e :| Calls(d, tenant, schedules, triggers, only, from, to, s, t, date, e) && row == PlannedRow(s, t, e, At(date), date) {
      CalledIsWanted(d, tenant, schedules, triggers, only, from, to, s, t, date, e);
    }
  }

  lemma RowIsCalledFor(d: Directory, tenant: TenantId, schedules: seq<Schedule>, triggers: seq<Trigger>, only: Option<ScheduleId>,
                       from: Instant, to: Instant, row: Occurrence) returns (s: Schedule, t: Trigger, date: Instant, e: EquipmentId)
    requires OnSchedules(d, tenant, schedules, triggers, only, from, to, row)
    ensures Calls(d, tenant, schedules, triggers, only, from, to, s, t, date, e) && row == PlannedRow(s, t, e, At(date), date)
  {
    hide Expands, Targeted;
    s :| s in schedules && Selected(s, only) && OnTriggers(d, tenant, s, triggers, from, to, row);
    t :| t in triggers && Ticks(t, s) && OnDates(d, tenant, s, t, Between(t.dates, from, to), row);
    date :| date in Between(t.dates, from, to) && OnDate(d, tenant, s, t, date, row);
    e :| Expands(d, tenant, s.targets, e) && row == NewRow(s, t.id, e, At(date), date);
    TargetedIs(d, tenant, s.targets, e);
  }

  lemma CalledIsWanted(d: Directory, tenant: TenantId, schedules: seq<Schedule>, triggers: seq<Trigger>, only: Option<ScheduleId>,
                       from: Instant, to: Instant, s: Schedule, t: Trigger, date: Instant, e: EquipmentId)
    requires Calls(d, tenant, schedules, triggers, only, from, to, s, t, date, e)
    ensures OnSchedules(d, tenant, schedules, triggers, only, from, to, PlannedRow(s, t, e, At(date), date))
  {
    TargetedIs(d, tenant, s.targets, e);
    hide Expands, Targeted;
    var row := PlannedRow(s, t, e, At(date), date);
    assert row == NewRow(s, t.id, e, At(date), date);
    assert OnDate(d, tenant, s, t, date, row);
    hide OnDate;
    assert OnDates(d, tenant, s, t, Between(t.dates, from, to), row);
    hide OnDates;
    assert OnTriggers(d, tenant, s, triggers, from, to, row);
  }

  /** The table after a window: each row that is new was called for, and whatever was called for is there. */
  lemma WindowFills(d: Directory, tenant: TenantId, schedules: seq<Schedule>, triggers: seq<Trigger>, only: Option<ScheduleId>,
                    from: Instant, to: Instant, iso: Instant -> string, t: Table, t': Table)
    requires Filled(t, t', WindowRows(d, tenant, schedules, triggers, only, from, to), iso)
    ensures forall key | key in t' && key !in t ::
              exists s, trigger, date, e ::
                && Calls(d, tenant, schedules, triggers, only, from, to, s, trigger, date, e)
                && t'[key] == PlannedRow(s, trigger, e, At(date), date)
    ensures forall s, trigger, date, e | Calls(d, tenant, schedules, triggers, only, from, to, s, trigger, date, e) ::
              s.id + ":" + trigger.id + ":" + e + ":" + iso(date) in t'
    ensures forall key | key in t :: key in t' && t'[key] == t[key]
  {
    var wanted := WindowRows(d, tenant, schedules, triggers, only, from, to);
    hide Calls, WindowRows;
    forall key | key in t' && key !in t
      ensures exists s, trigger, date, e ::
                && Calls(d, tenant, schedules, triggers, only, from, to, s, trigger, date, e)
                && t'[key] == PlannedRow(s, trigger, e, At(date), date)
    {
      WindowLaw(d, tenant, schedules, triggers, only, from, to, t'[key]);
    }
    forall s, trigger, date, e | Calls(d, tenant, schedules, triggers, only, from, to, s, trigger, date, e)
      ensures s.id + ":" + trigger.id + ":" + e + ":" + iso(date) in t'
    {
      var row := PlannedRow(s, trigger, e, At(date), date);
      WindowLaw(d, tenant, schedules, triggers, only, from, to, row);
      assert Key(row.slot, iso) == s.id + ":" + trigger.id + ":" + e + ":" + iso(date);
      assert Keyed(wanted, iso, Key(row.slot, iso));
    }
  }

  /** A window asked for a schedule that is paused or archived fills in nothing. */
  lemma InactiveFillsNothing(d: Directory, tenant: TenantId, schedules: seq<Schedule>, triggers: seq<Trigger>, id: ScheduleId,
                             from: Instant, to: Instant, iso: Instant -> string, t: Table, t': Table)
    requires Filled(t, t', WindowRows(d, tenant, schedules, triggers, Some(id), from, to), iso)
    requires forall s | s in schedules && s.id == id :: !s.active
    ensures t' == t
  {
    WindowFills(d, tenant, schedules, triggers, Some(id), from, to, iso, t, t');
    hide Filled, WindowRows;
    assert t'.Keys == t.Keys;
  }

  // --------------------------------------------------------------------- events

  /** What counts as no condition. */
  predicate NoCondition(v: Value) {
    v == Undefined || v == Null || v == Bool(false) || v == Num(0.0) || v == Str("")
  }

  /** An active event trigger of an active schedule listens to the event, its condition holds of the payload, and the machine
      is the tenant's, under the schedule, and the one the event names if it names one. */
  ghost predicate Answers(d: Directory, tenant: TenantId, schedules: seq<Schedule>, triggers: seq<Trigger>, event: Event,
                          s: Schedule, t: Trigger, e: EquipmentId) {
    && s in schedules && s.active && t in triggers && t.schedule == s.id && t.active && t.kind in {DomainEvent, ConditionEvent}
    && "eventKey" in t.config && t.config["eventKey"] == Str(event.key)
    && (var condition := if "condition" in t.config then t.config["condition"] else Undefined;
        NoCondition(condition)
        || ((condition.Obj? || condition.Arr?) && Conditions.EvaluateScheduling(condition, Obj(event.payload))))
    && e in d.equipment && d.equipment[e] == tenant
    && (ForEquipment(e) in s.targets || exists g :: ForGroup(g) in s.targets && (g, e) in d.members)
    && (if event.equipment.Some? && event.equipment.value != "" then e == event.equipment.value
        else Targeted(d, tenant, s.targets, e))
  }

  lemma CoversIs(d: Directory, tenant: TenantId, targets: seq<Target>, e: EquipmentId)
    ensures Covers(d, tenant, targets, e) <==>
            && e in d.equipment && d.equipment[e] == tenant
            && (ForEquipment(e) in targets || exists g :: ForGroup(g) in targets && (g, e) in d.members)
  {
    if m :| m in d.members && m.1 == e && ForGroup(m.0) in targets {
      assert (m.0, e) in d.members;
    }
    if g :| ForGroup(g) in targets && (g, e) in d.members {
      assert (g, e).1 == e;
    }
  }

  lemma EventLaw(d: Directory, tenant: TenantId, schedules: seq<Schedule>, triggers: seq<Trigger>, event: Event, row: Occurrence)
    ensures row in EventRows(d, tenant, schedules, triggers, event) <==>
            exists s, t, e ::
              && Answers(d, tenant, schedules, triggers, event, s, t, e)
              && row == PlannedRow(s, t, e, OnEvent(event.externalId), event.occurredAt)
  {
    hide Conditions.EvaluateScheduling, Expands, Covers, Targeted;
    if row in EventRows(d, tenant, schedules, triggers, event) {
      var t, s :| t in triggers && s in schedules && Hears(t, s, event) && OnHearing(d, tenant, s, t, event, row);
      var e :| Concerns(d, tenant, s, event, e) && row == NewRow(s, t.id, e, OnEvent(event.externalId), event.occurredAt);
      TargetedIs(d, tenant, s.targets, e);
      CoversIs(d, tenant, s.targets, e);
      assert Answers(d, tenant, schedules, triggers, event, s, t, e);
    }
    if s, t, e :| Answers(d, tenant, schedules, triggers, event, s, t, e)
                  && row == PlannedRow(s, t, e, OnEvent(event.externalId), event.occurredAt) {
      TargetedIs(d, tenant, s.targets, e);
      CoversIs(d, tenant, s.targets, e);
      assert Concerns(d, tenant, s, event, e) && row == NewRow(s, t.id, e, OnEvent(event.externalId), event.occurredAt);
      assert Hears(t, s, event) && OnHearing(d, tenant, s, t, event, row);
    }
  }
}
