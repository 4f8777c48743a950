/** The occurrence table: one row per schedule, trigger, equipment and cause, told apart by a key made of text. */
module Occurrences {
  import opened Outcomes
  import Text

  type ScheduleId = string

  type TriggerId = string

  type EquipmentId = string

  type OccurrenceId = string

  /** Milliseconds since the epoch. */
  type Instant = int

  /** Why an occurrence exists: a date of a rule, an event, or a meter reading. */
  datatype Cause = At(date: Instant) | OnEvent(externalId: string) | OnReading(externalId: string)

  datatype Slot = Slot(schedule: ScheduleId, trigger: TriggerId, equipment: EquipmentId, cause: Cause)

  datatype Status = Planned | Generated | Completed | Skipped | Cancelled

  datatype Occurrence = Occurrence(
    slot: Slot, plannedStart: Instant, due: Option<Instant>, status: Status, workOrder: Option<string>)

  /** The rows of one tenant; the dedupe key is unique among them. */
  type Table = map<string, Occurrence>

  // ------------------------------------------------------------------ the key

  /** The instants that a `Date` can hold. */
  predicate Dated(a: Instant) {
    -8_640_000_000_000_000 <= a <= 8_640_000_000_000_000
  }

  /** What is assumed of `toISOString`: of the instants that a `Date` can hold it tells one from another, in at most 27
      characters, of which the first is a digit or a sign. */
  ghost predicate Renders(iso: Instant -> string) {
    && (forall a, b | Dated(a) && Dated(b) && iso(a) == iso(b) :: a == b)
    && forall a | Dated(a) :: 0 < |iso(a)| <= 27 && (Text.IsDigit(iso(a)[0]) || iso(a)[0] == '+' || iso(a)[0] == '-')
  }

  /** A rendering of that kind: a sign and the milliseconds. */
  function Signed(a: Instant): string {
    if a < 0 then "-" + Text.Decimal(-a) else "+" + Text.Decimal(a)
  }

  lemma {:induction false} DecimalFits(n: nat, digits: nat, bound: nat)
    requires digits >= 1 && n < bound && bound == Power(digits)
    ensures |Text.Decimal(n)| <= digits
    decreases digits
  {
    if n >= 10 {
      DecimalFits(n / 10, digits - 1, Power(digits - 1));
    }
  }

  function Power(digits: nat): nat {
    if digits == 0 then 1 else 10 * Power(digits - 1)
  }

  /** The assumption can be met. */
  lemma SignedRenders()
    ensures Renders(Signed)
  {
    forall a, b | Dated(a) && Dated(b) && Signed(a) == Signed(b)
      ensures a == b
    {
      assert Signed(a)[0] == Signed(b)[0] && Signed(a)[1..] == Signed(b)[1..];
      Text.DecimalInjective(if a < 0 then -a else a, if b < 0 then -b else b);
    }
    forall a | Dated(a)
      ensures 0 < |Signed(a)| <= 27
    {
      assert Power(16) == 10_000_000_000_000_000 by {
        assert Power(4) == 10_000 && Power(8) == 10_000 * Power(4) && Power(12) == 10_000 * Power(8);
      }
      DecimalFits(if a < 0 then -a else a, 16, Power(16));
    }
  }

  function CauseText(cause: Cause, iso: Instant -> string): string {
    match cause
    case At(date) => iso(date)
    case OnEvent(externalId) => "event:" + externalId
    case OnReading(externalId) => "meter:" + externalId
  }

  function Key(slot: Slot, iso: Instant -> string): string {
    slot.schedule + ":" + slot.trigger + ":" + slot.equipment + ":" + CauseText(slot.cause, iso)
  }

  /** A generated identifier: 36 characters, and no colon among them. */
  predicate IsUuid(s: string) {
    |s| == 36 && ':' !in s
  }

  predicate Renderable(cause: Cause) {
    cause.At? ==> Dated(cause.date)
  }

  predicate Plain(slot: Slot) {
    IsUuid(slot.schedule) && IsUuid(slot.trigger) && IsUuid(slot.equipment) && Renderable(slot.cause)
  }

  /** The width of the key's column. */
  const MAX_KEY := 180

  /** Which causes fit the column: an external identifier of more than 63 characters does not. */
  lemma KeyFitsIff(slot: Slot, iso: Instant -> string)
    requires Plain(slot)
    ensures |Key(slot, iso)| <= MAX_KEY <==>
            if slot.cause.At? then |iso(slot.cause.date)| <= 69 else |slot.cause.externalId| <= 63
  {
  }

  lemma CauseTextInjective(a: Cause, b: Cause, iso: Instant -> string)
    requires Renders(iso) && Renderable(a) && Renderable(b) && CauseText(a, iso) == CauseText(b, iso)
    ensures a == b
  {
    var s, t := CauseText(a, iso), CauseText(b, iso);
    assert s[0] == t[0];
    assert a.At? <==> b.At?;
    if !a.At? {
      assert s[6..] == a.externalId && t[6..] == b.externalId;
    }
  }

  /** Two occurrences share a key only if they are for the same schedule, trigger, equipment and cause, whatever the
      external identifiers contain. */
  lemma KeyInjective(a: Slot, b: Slot, iso: Instant -> string)
    requires Renders(iso) && Plain(a) && Plain(b) && Key(a, iso) == Key(b, iso)
    ensures a == b
  {
    var s, t := CauseText(a.cause, iso), CauseText(b.cause, iso);
    var s1, t1 := a.equipment + ":" + s, b.equipment + ":" + t;
    var s2, t2 := a.trigger + ":" + s1, b.trigger + ":" + t1;
    assert Key(a, iso) == a.schedule + [':'] + s2 && Key(b, iso) == b.schedule + [':'] + t2;
    Text.HeadUnambiguous(a.schedule, s2, b.schedule, t2, ':');
    Text.HeadUnambiguous(a.trigger, s1, b.trigger, t1, ':');
    Text.HeadUnambiguous(a.equipment, s, b.equipment, t, ':');
    CauseTextInjective(a.cause, b.cause, iso);
  }

  // ---------------------------------------------------------------- insertion

  /** `INSERT … ON CONFLICT DO NOTHING` */
  function InsertOrIgnore(t: Table, row: Occurrence, iso: Instant -> string): Table {
    if Key(row.slot, iso) in t then t else t[Key(row.slot, iso) := row]
  }

  ghost predicate Keyed(wanted: iset<Occurrence>, iso: Instant -> string, key: string) {
    exists row :: row in wanted && Key(row.slot, iso) == key
  }

  /** `t'` is `t` with the wanted rows whose keys were free: nothing else is added, nothing is changed or lost. */
  ghost predicate Filled(t: Table, t': Table, wanted: iset<Occurrence>, iso: Instant -> string) {
    && (forall key :: key in t' <==> key in t || Keyed(wanted, iso, key))
    && (forall key | key in t :: t'[key] == t[key])
    && (forall key | key in t' && key !in t :: t'[key] in wanted && Key(t'[key].slot, iso) == key)
  }

  /** Rows that agree on the key agree altogether. */
  ghost predicate Consistent(wanted: iset<Occurrence>, iso: Instant -> string) {
    forall a, b | a in wanted && b in wanted && Key(a.slot, iso) == Key(b.slot, iso) :: a == b
  }

  lemma FilledNothing(t: Table, iso: Instant -> string)
    ensures Filled(t, t, iset{}, iso)
  {
  }

  lemma FilledOne(t: Table, row: Occurrence, iso: Instant -> string)
    ensures Filled(t, InsertOrIgnore(t, row, iso), iset{row}, iso)
    ensures |InsertOrIgnore(t, row, iso)| == |t| + if Key(row.slot, iso) in t then 0 else 1
  {
  }

  /** The insertion, which the store refuses for a key that is too long. */
  method Insert(t: Table, row: Occurrence, iso: Instant -> string) returns (created: Option<nat>, t': Table)
    ensures created.Some? <==> |Key(row.slot, iso)| <= MAX_KEY
    ensures created.Some? ==> Filled(t, t', iset{row}, iso) && |t'| == |t| + created.value
    ensures created.None? ==> t' == t
  {
    var key := Key(row.slot, iso);
    if |key| > MAX_KEY {
      return None, t;
    }
    FilledOne(t, row, iso);
    created := Some(if key in t then 0 else 1);
    t' := InsertOrIgnore(t, row, iso);
  }

  /** Filling in steps is filling at once. */
  lemma FilledThen(t: Table, t': Table, t'': Table, first: iset<Occurrence>, second: iset<Occurrence>, iso: Instant -> string)
    requires Filled(t, t', first, iso) && Filled(t', t'', second, iso)
    ensures Filled(t, t'', first + second, iso)
  {
  }

  /** What is filled in is determined by the wanted rows alone. */
  lemma FilledUnique(t: Table, a: Table, b: Table, wanted: iset<Occurrence>, iso: Instant -> string)
    requires Consistent(wanted, iso) && Filled(t, a, wanted, iso) && Filled(t, b, wanted, iso)
    ensures a == b
  {
    forall key | key in a
      ensures a[key] == b[key]
    {
      assert key in b;
    }
  }

  /** Filling in again what has been filled in changes nothing, whatever happened to the rows in between. */
  lemma FilledAgain(t: Table, t': Table, later: Table, later': Table, wanted: iset<Occurrence>, iso: Instant -> string)
    requires Filled(t, t', wanted, iso) && t'.Keys <= later.Keys && Filled(later, later', wanted, iso)
    ensures later' == later
  {
  }

  // ------------------------------------------------------------------- status

  /** Skipping an occurrence that has no work order yet. */
  function Skip(t: Table, key: string): Option<Table> {
    if key !in t || !t[key].status.Planned? || t[key].workOrder.Some? then None
    else Some(t[key := t[key].(status := Skipped)])
  }

  /** Archiving a schedule cancels what is still planned. */
  function CancelPlanned(t: Table, schedule: ScheduleId): Table {
    map key | key in t :: if t[key].slot.schedule == schedule && t[key].status.Planned? then t[key].(status := Cancelled) else t[key]
  }

  /** What happens to the table: windows, events and readings fill rows in, users skip them, archived schedules cancel them,
      and work orders give them a status that is not `planned`. */
  datatype Change =
    | Filling(wanted: iset<Occurrence>)
    | Skipping(key: string)
    | Cancelling(schedule: ScheduleId)
    | Settling(key: string, status: Status, workOrder: Option<string>)

  ghost predicate Changed(t: Table, change: Change, t': Table, iso: Instant -> string) {
    match change
    case Filling(wanted) => Filled(t, t', wanted, iso)
    case Skipping(key) => t' == if Skip(t, key).Some? then Skip(t, key).value else t
    case Cancelling(schedule) => t' == CancelPlanned(t, schedule)
    case Settling(key, status, workOrder) =>
      && !status.Planned?
      && t' == if key in t then t[key := t[key].(status := status, workOrder := workOrder)] else t
  }

  ghost predicate Ran(t: Table, changes: seq<Change>, t': Table, iso: Instant -> string)
    decreases |changes|
  {
    if changes == [] then t' == t
    else exists mid :: Changed(t, changes[0], mid, iso) && Ran(mid, changes[1..], t', iso)
  }

  ghost predicate Asked(changes: seq<Change>, iso: Instant -> string, key: string) {
    exists i | 0 <= i < |changes| :: changes[i].Filling? && Keyed(changes[i].wanted, iso, key)
  }

  /** What happened to a row: it is for the same slot and time, and once it has left `planned` it does not return. */
  ghost predicate Onward(row: Occurrence, later: Occurrence) {
    && later == row.(status := later.status, workOrder := later.workOrder)
    && (!row.status.Planned? ==> !later.status.Planned?)
  }

  lemma StepNeverRevives(t: Table, change: Change, t': Table, iso: Instant -> string)
    requires Changed(t, change, t', iso)
    ensures forall key :: key in t' <==> key in t || Asked([change], iso, key)
    ensures forall key | key in t :: Onward(t[key], t'[key])
  {
    forall key
      ensures Asked([change], iso, key) <==> change.Filling? && Keyed(change.wanted, iso, key)
    {
      assert [change][0] == change;
    }
  }

  lemma AskedFirst(changes: seq<Change>, iso: Instant -> string, key: string)
    requires changes != []
    ensures Asked(changes, iso, key) <==> Asked([changes[0]], iso, key) || Asked(changes[1..], iso, key)
  {
    hide Keyed;
    if i :| 0 <= i < |changes| && changes[i].Filling? && Keyed(changes[i].wanted, iso, key) {
      assert if i == 0 then [changes[0]][0] == changes[i] else changes[1..][i - 1] == changes[i];
    }
  }

  /** Over any interleaving of fillings, skips, cancellations and work orders: rows come from fillings only and stay, whatever
      their status, and a row that has left `planned` is never planned again. */
  lemma {:induction false} NeverRevived(t: Table, changes: seq<Change>, t': Table, iso: Instant -> string)
    requires Ran(t, changes, t', iso)
    ensures forall key :: key in t' <==> key in t || Asked(changes, iso, key)
    ensures forall key | key in t :: Onward(t[key], t'[key])
    decreases |changes|
  {
    if changes != [] {
      hide Changed, Asked;
      var mid :| Changed(t, changes[0], mid, iso) && Ran(mid, changes[1..], t', iso);
      StepNeverRevives(t, changes[0], mid, iso);
      NeverRevived(mid, changes[1..], t', iso);
      forall key
        ensures Asked(changes, iso, key) <==> Asked([changes[0]], iso, key) || Asked(changes[1..], iso, key)
      {
        AskedFirst(changes, iso, key);
      }
    } else {
      assert forall key :: !Asked(changes, iso, key);
    }
  }

  /** So what is skipped, and every row that archiving its schedule finds, is out of the plan for good. */
  lemma OutOfPlan(t: Table, change: Change, changes: seq<Change>, t': Table, iso: Instant -> string, key: string)
    requires change.Skipping? || change.Cancelling?
    requires Ran(t, [change] + changes, t', iso) && key in t
    requires if change.Skipping? then change.key == key && Skip(t, key).Some? else t[key].slot.schedule == change.schedule
    ensures key in t' && !t'[key].status.Planned?
  {
    assert ([change] + changes)[0] == change && ([change] + changes)[1..] == changes;
    var mid :| Changed(t, change, mid, iso) && Ran(mid, changes, t', iso);
    NeverRevived(mid, changes, t', iso);
    assert Onward(mid[key], t'[key]);
  }
}
