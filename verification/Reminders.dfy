/** Reminders before a maintenance occurrence starts: a job that runs every five minutes and inserts what is not there. */
module Reminders {
  import opened Outcomes
  import opened Tenants
  import Occurrences
  import Text

  type Instant = Occurrences.Instant

  type OccurrenceId = Occurrences.OccurrenceId

  const MINUTE := 60000

  const DAY := 24 * 60 * MINUTE

  /** An occurrence with what the job reads along with it. `candidates` are the assignee and reporter of its work order
      and the two defaults and the author of its schedule; `leads` is in minutes. */
  datatype Upcoming = Upcoming(
    id: OccurrenceId, tenant: TenantId, plannedStart: Instant, due: Option<Instant>, open: bool, scheduleActive: bool,
    candidates: seq<Option<UserId>>, leads: seq<nat>)

  datatype Notice = Notice(tenant: TenantId, user: UserId, key: string)

  /** One execution of the job: when, and what the tables held. */
  datatype Tick = Tick(now: Instant, world: seq<Upcoming>)

  // -------------------------------------------------------------- what is due

  predicate Eligible(o: Upcoming, now: Instant) {
    o.scheduleActive && o.open && now - 30 * DAY <= o.plannedStart <= now + 366 * DAY
  }

  function EligibleOf(world: seq<Upcoming>, now: Instant): (r: seq<Upcoming>)
    ensures forall o :: o in r <==> o in world && Eligible(o, now)
  {
    if world == [] then []
    else (if Eligible(world[0], now) then [world[0]] else []) + EligibleOf(world[1..], now)
  }

  const FETCH_LIMIT := 5000

  /** The rows the job sees: the first 5000 that are eligible, in the order of the store. */
  function Fetched(tick: Tick): seq<Upcoming> {
    var all := EligibleOf(tick.world, tick.now);
    if |all| <= FETCH_LIMIT then all else all[..FETCH_LIMIT]
  }

  predicate IsRecipient(o: Upcoming, u: UserId) {
    u != "" && Some(u) in o.candidates
  }

  /** `reminderAt <= now < plannedStartAt` */
  predicate InWindow(o: Upcoming, lead: nat, now: Instant) {
    o.plannedStart - lead * MINUTE <= now < o.plannedStart
  }

  function ReminderKey(id: OccurrenceId, lead: nat): string {
    "maintenance:" + id + ":reminder:" + Text.Decimal(lead)
  }

  function OverdueKey(id: OccurrenceId): string {
    "maintenance:" + id + ":overdue"
  }

  lemma KeysApart(a: OccurrenceId, m: nat, b: OccurrenceId, n: nat)
    requires ':' !in a && ':' !in b
    ensures ReminderKey(a, m) == ReminderKey(b, n) ==> a == b && m == n
    ensures ReminderKey(a, m) != OverdueKey(b)
  {
    var p := "maintenance:";
    var s, t, late := "reminder:" + Text.Decimal(m), "reminder:" + Text.Decimal(n), "overdue";
    assert ReminderKey(a, m)[|p|..] == a + [':'] + s && ReminderKey(b, n)[|p|..] == b + [':'] + t;
    assert OverdueKey(b)[|p|..] == b + [':'] + late;
    assert s[0] == 'r' && late[0] == 'o';
    if ReminderKey(a, m) == OverdueKey(b) {
      Text.HeadUnambiguous(a, s, b, late, ':');
    }
    if ReminderKey(a, m) == ReminderKey(b, n) {
      Text.HeadUnambiguous(a, s, b, t, ':');
      assert s[9..] == Text.Decimal(m) && t[9..] == Text.Decimal(n);
      Text.DecimalInjective(m, n);
    }
  }

  ghost predicate Reminds(o: Upcoming, now: Instant, note: Notice) {
    && note.tenant == o.tenant && IsRecipient(o, note.user)
    && exists lead :: lead in o.leads && InWindow(o, lead, now) && note.key == ReminderKey(o.id, lead)
  }

  ghost predicate ReportsOverdue(o: Upcoming, now: Instant, note: Notice) {
    note.tenant == o.tenant && IsRecipient(o, note.user) && o.due.Some? && o.due.value < now && note.key == OverdueKey(o.id)
  }

  ghost predicate Asks(o: Upcoming, now: Instant, note: Notice) {
    Reminds(o, now, note) || ReportsOverdue(o, now, note)
  }

  ghost predicate AskedBySome(tick: Tick, note: Notice) {
    exists o :: o in Fetched(tick) && Asks(o, tick.now, note)
  }

  /** Everything one execution asks for. */
  ghost function Wanted(tick: Tick): iset<Notice> {
    iset note: Notice | AskedBySome(tick, note)
  }

  // ----------------------------------------------------------------- delivery

  ghost predicate Unique(notes: seq<Notice>) {
    forall i, j | 0 <= i < j < |notes| :: notes[i] != notes[j]
  }

  /** The table grows by exactly the wanted notices that were not there, each once. */
  ghost predicate Delivered(notes: seq<Notice>, notes': seq<Notice>, wanted: iset<Notice>) {
    && notes <= notes' && Unique(notes')
    && forall note :: note in notes' <==> note in notes || note in wanted
  }

  lemma DeliveredNothing(notes: seq<Notice>)
    requires Unique(notes)
    ensures Delivered(notes, notes, iset{})
  {
  }

  lemma DeliveredThen(a: seq<Notice>, b: seq<Notice>, c: seq<Notice>, first: iset<Notice>, second: iset<Notice>)
    requires Delivered(a, b, first) && Delivered(b, c, second)
    ensures Delivered(a, c, first + second)
  {
  }

  lemma DeliveredOne(notes: seq<Notice>, note: Notice)
    requires Unique(notes)
    ensures Delivered(notes, if note in notes then notes else notes + [note], iset{note})
  {
  }

  /** One notice for each recipient. */
  ghost function NoticesFor(tenant: TenantId, recipients: seq<UserId>, key: string): iset<Notice> {
    iset note: Notice | note.tenant == tenant && note.user in recipients && note.key == key
  }

  lemma NoticesNext(tenant: TenantId, recipients: seq<UserId>, key: string, i: nat)
    requires i < |recipients|
    ensures NoticesFor(tenant, recipients[..i + 1], key) == NoticesFor(tenant, recipients[..i], key) + iset{Notice(tenant, recipients[i], key)}
  {
    assert recipients[..i + 1] == recipients[..i] + [recipients[i]];
  }

  /** `INSERT … ON CONFLICT DO NOTHING`, for all recipients of one notice. */
  method InsertNotifications(notes: seq<Notice>, tenant: TenantId, recipients: seq<UserId>, key: string)
    returns (notes': seq<Notice>, created: nat)
    requires Unique(notes)
    ensures Delivered(notes, notes', NoticesFor(tenant, recipients, key))
    ensures |notes'| == |notes| + created
  {
    notes', created := notes, 0;
    DeliveredNothing(notes);
    assert NoticesFor(tenant, recipients[..0], key) == iset{};
    hide Delivered, Unique, NoticesFor;
    for i := 0 to |recipients|
      invariant Delivered(notes, notes', NoticesFor(tenant, recipients[..i], key)) && Unique(notes') && |notes'| == |notes| + created
    {
      var note := Notice(tenant, recipients[i], key);
      DeliveredOne(notes', note);
      NoticesNext(tenant, recipients, key, i);
      var after := if note in notes' then notes' else notes' + [note];
      DeliveredThen(notes, notes', after, NoticesFor(tenant, recipients[..i], key), iset{note});
      created := created + if note in notes' then 0 else 1;
      notes' := after;
      DeliveredUnique(notes, notes', NoticesFor(tenant, recipients[..i + 1], key));
    }
    assert recipients[..|recipients|] == recipients;
  }

  lemma DeliveredUnique(notes: seq<Notice>, notes': seq<Notice>, wanted: iset<Notice>)
    requires Delivered(notes, notes', wanted)
    ensures Unique(notes')
  {
  }

  /** The distinct users among the candidates. */
  method RecipientsOf(o: Upcoming) returns (recipients: seq<UserId>)
    ensures forall u :: u in recipients <==> IsRecipient(o, u)
  {
    recipients := [];
    for i := 0 to |o.candidates|
      invariant forall u :: u in recipients <==> u != "" && Some(u) in o.candidates[..i]
    {
      assert o.candidates[..i + 1] == o.candidates[..i] + [o.candidates[i]];
      if o.candidates[i].Some? && o.candidates[i].value != "" && o.candidates[i].value !in recipients {
        recipients := recipients + [o.candidates[i].value];
      }
    }
    assert o.candidates[..|o.candidates|] == o.candidates;
  }

  method ProcessOccurrence(notes: seq<Notice>, o: Upcoming, now: Instant) returns (notes': seq<Notice>, created: nat)
    requires Unique(notes)
    ensures Delivered(notes, notes', iset note: Notice | Asks(o, now, note))
    ensures |notes'| == |notes| + created
  {
    hide Delivered, Unique, IsRecipient, ReminderKey, InWindow;
    notes', created := notes, 0;
    ghost var all := iset note: Notice | Asks(o, now, note);
    var recipients := RecipientsOf(o);
    DeliveredNothing(notes);
    if recipients == [] {
      assert all == iset{};
      return;
    }
    ghost var done: iset<Notice> := iset{};
    for i := 0 to |o.leads|
      invariant Delivered(notes, notes', done) && Unique(notes') && |notes'| == |notes| + created
      invariant forall note :: note in done <==>
                  exists k | 0 <= k < i :: InWindow(o, o.leads[k], now) && note.tenant == o.tenant && note.user in recipients
                                           && note.key == ReminderKey(o.id, o.leads[k])
    {
      if InWindow(o, o.leads[i], now) {
        var key := ReminderKey(o.id, o.leads[i]);
        ghost var wanted := NoticesFor(o.tenant, recipients, key);
        var after, more := InsertNotifications(notes', o.tenant, recipients, key);
        DeliveredThen(notes, notes', after, done, wanted);
        notes', created, done := after, created + more, done + wanted;
        DeliveredUnique(notes, notes', done);
      }
    }
    assert forall note :: note in done <==> Reminds(o, now, note);
    if o.due.Some? && o.due.value < now {
      var key := OverdueKey(o.id);
      ghost var wanted := NoticesFor(o.tenant, recipients, key);
      var after, more := InsertNotifications(notes', o.tenant, recipients, key);
      DeliveredThen(notes, notes', after, done, wanted);
      notes', created, done := after, created + more, done + wanted;
    }
    assert done == all;
  }

  /** One execution of the job. */
  method ProcessReminders(notes: seq<Notice>, tick: Tick) returns (notes': seq<Notice>, created: nat)
    requires Unique(notes)
    ensures Delivered(notes, notes', Wanted(tick))
    ensures |notes'| == |notes| + created
  {
    hide Delivered, Unique, Asks;
    notes', created := notes, 0;
    var occurrences := Fetched(tick);
    ghost var done: iset<Notice> := iset{};
    DeliveredNothing(notes);
    for i := 0 to |occurrences|
      invariant Delivered(notes, notes', done) && Unique(notes') && |notes'| == |notes| + created
      invariant forall note :: note in done <==> exists k | 0 <= k < i :: Asks(occurrences[k], tick.now, note)
    {
      ghost var wanted := iset note: Notice | Asks(occurrences[i], tick.now, note);
      var after, more := ProcessOccurrence(notes', occurrences[i], tick.now);
      DeliveredThen(notes, notes', after, done, wanted);
      notes', created, done := after, created + more, done + wanted;
      DeliveredUnique(notes, notes', done);
    }
    assert done == Wanted(tick);
  }

  // --------------------------------------------------------------------- runs

  /** The table after a run of the job. */
  ghost predicate Ran(notes: seq<Notice>, ticks: seq<Tick>, notes': seq<Notice>)
    decreases |ticks|
  {
    if ticks == [] then notes' == notes && Unique(notes)
    else exists mid :: Delivered(notes, mid, Wanted(ticks[0])) && Ran(mid, ticks[1..], notes')
  }

  lemma {:induction false} RunDelivers(notes: seq<Notice>, ticks: seq<Tick>, notes': seq<Notice>, note: Notice)
    requires Ran(notes, ticks, notes')
    ensures note in notes' <==> note in notes || exists i | 0 <= i < |ticks| :: note in Wanted(ticks[i])
    ensures notes <= notes' && Unique(notes')
    decreases |ticks|
  {
    hide Wanted;
    if ticks != [] {
      var mid :| Delivered(notes, mid, Wanted(ticks[0])) && Ran(mid, ticks[1..], notes');
      RunDelivers(mid, ticks[1..], notes', note);
      assert forall i | 0 < i < |ticks| :: ticks[i] == ticks[1..][i - 1];
      if i :| 0 <= i < |ticks[1..]| && note in Wanted(ticks[1..][i]) {
        assert note in Wanted(ticks[i + 1]);
      }
    }
  }

  /** Throughout the run the occurrence is as given, where it matters: it is there whenever its reminder is due, nobody
      else has its identifier, and the job is not overloaded. */
  ghost predicate Steady(ticks: seq<Tick>, o: Upcoming) {
    && o.scheduleActive && o.open && ':' !in o.id
    && forall i | 0 <= i < |ticks| ::
         && |EligibleOf(ticks[i].world, ticks[i].now)| <= FETCH_LIMIT
         && (forall x | x in ticks[i].world :: ':' !in x.id && (x.id == o.id ==> x == o))
         && o in ticks[i].world
  }

  /** The longest lead that the look-ahead of 366 days covers. */
  const LONGEST_LEAD := 366 * 24 * 60

  lemma LookAheadCoversIff(lead: nat)
    ensures (forall o: Upcoming, now :: o.scheduleActive && o.open && InWindow(o, lead, now) ==> Eligible(o, now)) <==> lead <= LONGEST_LEAD
  {
    if lead > LONGEST_LEAD {
      var o := Upcoming("o", "t", lead * MINUTE, None, true, true, [], [lead]);
      assert InWindow(o, lead, 0) && !Eligible(o, 0);
    }
  }

  lemma WantedIffInWindow(tick: Tick, o: Upcoming, lead: nat, u: UserId)
    requires Steady([tick], o) && IsRecipient(o, u) && lead in o.leads && lead <= LONGEST_LEAD
    ensures Notice(o.tenant, u, ReminderKey(o.id, lead)) in Wanted(tick) <==> InWindow(o, lead, tick.now)
  {
    var note := Notice(o.tenant, u, ReminderKey(o.id, lead));
    assert [tick][0] == tick;
    hide ReminderKey, OverdueKey, EligibleOf;
    if InWindow(o, lead, tick.now) {
      assert Eligible(o, tick.now);
      assert o in Fetched(tick) && Reminds(o, tick.now, note) && Asks(o, tick.now, note);
    }
    if note in Wanted(tick) {
      var x :| x in Fetched(tick) && Asks(x, tick.now, note);
      KeysApart(o.id, lead, x.id, 0);
      var m :| m in x.leads && InWindow(x, m, tick.now) && note.key == ReminderKey(x.id, m);
      KeysApart(o.id, lead, x.id, m);
    }
  }

  /** A reminder is delivered exactly when some execution falls between its time and the start, and then exactly once. */
  lemma DeliveredIffCaught(notes: seq<Notice>, ticks: seq<Tick>, notes': seq<Notice>, o: Upcoming, lead: nat, u: UserId)
    requires Ran(notes, ticks, notes') && Steady(ticks, o) && IsRecipient(o, u) && lead in o.leads && lead <= LONGEST_LEAD
    requires Notice(o.tenant, u, ReminderKey(o.id, lead)) !in notes
    ensures var note := Notice(o.tenant, u, ReminderKey(o.id, lead));
            && (note in notes' <==> exists i | 0 <= i < |ticks| :: InWindow(o, lead, ticks[i].now))
            && forall i, j | 0 <= i < |notes'| && 0 <= j < |notes'| && notes'[i] == note && notes'[j] == note :: i == j
  {
    hide Ran, ReminderKey, InWindow, Wanted, EligibleOf;
    var note := Notice(o.tenant, u, ReminderKey(o.id, lead));
    RunDelivers(notes, ticks, notes', note);
    forall i | 0 <= i < |ticks|
      ensures note in Wanted(ticks[i]) <==> InWindow(o, lead, ticks[i].now)
    {
      assert Steady([ticks[i]], o);
      WantedIffInWindow(ticks[i], o, lead, u);
    }
  }

  // --------------------------------------------------------------------- pace

  /** Executions in order, at most five minutes apart. */
  predicate Paced(ticks: seq<Tick>) {
    forall i | 0 <= i < |ticks| - 1 :: ticks[i].now <= ticks[i + 1].now <= ticks[i].now + 5 * MINUTE
  }

  /** The run begins before the occurrence starts and goes on until the reminder is due. */
  predicate Spans(ticks: seq<Tick>, o: Upcoming, lead: nat) {
    ticks != [] && ticks[0].now < o.plannedStart && o.plannedStart - lead * MINUTE <= ticks[|ticks| - 1].now
  }

  lemma {:induction false} PacedCatches(ticks: seq<Tick>, o: Upcoming, lead: nat)
    requires Paced(ticks) && Spans(ticks, o, lead) && lead >= 5
    ensures exists i | 0 <= i < |ticks| :: InWindow(o, lead, ticks[i].now)
    decreases |ticks|
  {
    if InWindow(o, lead, ticks[0].now) {
    } else {
      var rest := ticks[1..];
      assert forall i | 0 <= i < |rest| :: rest[i] == ticks[i + 1];
      assert ticks[0].now <= ticks[0 + 1].now <= ticks[0].now + 5 * MINUTE;
      PacedCatches(rest, o, lead);
      var i :| 0 <= i < |rest| && InWindow(o, lead, rest[i].now);
      assert InWindow(o, lead, ticks[i + 1].now);
    }
  }

  /** Every paced run that spans the reminder catches it. */
  ghost predicate AlwaysCaught(lead: nat) {
    forall ticks: seq<Tick>, o: Upcoming | Paced(ticks) && Spans(ticks, o, lead) :: exists i | 0 <= i < |ticks| :: InWindow(o, lead, ticks[i].now)
  }

  /** A reminder is certain to be delivered exactly when its lead is at least the five minutes between executions. */
  lemma CaughtIffLongEnough(lead: nat)
    ensures AlwaysCaught(lead) <==> lead >= 5
  {
    if lead >= 5 {
      forall ticks: seq<Tick>, o: Upcoming | Paced(ticks) && Spans(ticks, o, lead)
        ensures exists i | 0 <= i < |ticks| :: InWindow(o, lead, ticks[i].now)
      {
        PacedCatches(ticks, o, lead);
      }
    } else {
      var o := Upcoming("o", "t", 5 * MINUTE, None, true, true, [], [lead]);
      var ticks := [Tick(0, [o]), Tick(5 * MINUTE, [o])];
      assert Paced(ticks) && Spans(ticks, o, lead);
      assert !InWindow(o, lead, ticks[0].now) && !InWindow(o, lead, ticks[1].now);
    }
  }

  /** Exactly once: a lead of at least five minutes and of no more than the 525600 that are permitted reaches each recipient once
      over any paced run. */
  lemma ExactlyOnce(notes: seq<Notice>, ticks: seq<Tick>, notes': seq<Notice>, o: Upcoming, lead: nat, u: UserId)
    requires Ran(notes, ticks, notes') && Steady(ticks, o) && IsRecipient(o, u) && lead in o.leads && 5 <= lead <= 525_600
    requires Notice(o.tenant, u, ReminderKey(o.id, lead)) !in notes && Paced(ticks) && Spans(ticks, o, lead)
    ensures var note := Notice(o.tenant, u, ReminderKey(o.id, lead));
            exists i | 0 <= i < |notes'| :: notes'[i] == note && forall j | 0 <= j < |notes'| && notes'[j] == note :: j == i
  {
    hide Ran, Steady, ReminderKey;
    DeliveredIffCaught(notes, ticks, notes', o, lead, u);
    PacedCatches(ticks, o, lead);
    var note := Notice(o.tenant, u, ReminderKey(o.id, lead));
    var i :| 0 <= i < |notes'| && notes'[i] == note;
  }
}
