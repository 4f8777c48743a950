/** Which rows the reminder job sees and which notices it asks for, in terms of the tables. */
module ReminderLaws {
  import opened Outcomes
  import opened Reminders
  import opened Tenants
  import Text

  // ---------------------------------------------------------------- what is seen

  /** An open occurrence of an active schedule, planned for the last thirty days or the next 366. */
  predicate Watched(o: Upcoming, now: Instant) {
    && o.scheduleActive && o.open
    && now - 30 * 86_400_000 <= o.plannedStart && o.plannedStart <= now + 366 * 86_400_000
  }

  function WatchedBefore(tick: Tick, n: nat): set<nat> {
    set j: nat | j < n && j < |tick.world| && Watched(tick.world[j], tick.now)
  }

  lemma {:induction false} EligibleAppend(a: seq<Upcoming>, b: seq<Upcoming>, now: Instant)
    ensures EligibleOf(a + b, now) == EligibleOf(a, now) + EligibleOf(b, now)
  {
    if a == [] {
      assert a + b == b;
    } else {
      assert (a + b)[1..] == a[1..] + b;
      EligibleAppend(a[1..], b, now);
    }
  }

  lemma EligibleNext(tick: Tick, n: nat)
    requires n < |tick.world|
    ensures EligibleOf(tick.world[..n + 1], tick.now)
            == EligibleOf(tick.world[..n], tick.now) + if Watched(tick.world[n], tick.now) then [tick.world[n]] else []
    ensures WatchedBefore(tick, n + 1) == WatchedBefore(tick, n) + if Watched(tick.world[n], tick.now) then {n} else {}
  {
    EligibleAppend(tick.world[..n], [tick.world[n]], tick.now);
    assert tick.world[..n + 1] == tick.world[..n] + [tick.world[n]];
  }

  lemma {:induction false} EligibleCounts(tick: Tick, n: nat)
    requires n <= |tick.world|
    ensures |EligibleOf(tick.world[..n], tick.now)| == |WatchedBefore(tick, n)|
  {
    if n > 0 {
      EligibleCounts(tick, n - 1);
      EligibleNext(tick, n - 1);
      hide EligibleOf, Watched;
      assert n - 1 !in WatchedBefore(tick, n - 1);
    }
  }

  lemma EligiblePlace(tick: Tick, i: nat)
    requires i < |tick.world| && Watched(tick.world[i], tick.now)
    ensures var all, k := EligibleOf(tick.world, tick.now), |WatchedBefore(tick, i)|;
            k < |all| && all[k] == tick.world[i]
  {
    var front := tick.world[..i + 1];
    EligibleCounts(tick, i);
    EligibleNext(tick, i);
    EligibleAppend(front, tick.world[i + 1..], tick.now);
    assert tick.world == front + tick.world[i + 1..];
    hide EligibleOf, WatchedBefore;
  }

  lemma {:induction false} PlaceOf(tick: Tick, n: nat, k: nat) returns (i: nat)
    requires n <= |tick.world| && k < |EligibleOf(tick.world[..n], tick.now)|
    ensures i < n && Watched(tick.world[i], tick.now) && |WatchedBefore(tick, i)| == k
    ensures tick.world[i] == EligibleOf(tick.world[..n], tick.now)[k]
    decreases n
  {
    assert n > 0;
    EligibleNext(tick, n - 1);
    EligibleCounts(tick, n - 1);
    hide EligibleOf, WatchedBefore;
    if k < |EligibleOf(tick.world[..n - 1], tick.now)| {
      i := PlaceOf(tick, n - 1, k);
    } else {
      i := n - 1;
    }
  }

  ghost predicate Seen(tick: Tick, i: nat) {
    i < |tick.world| && Watched(tick.world[i], tick.now) && |WatchedBefore(tick, i)| < 5000
  }

  /** The job sees a watched row exactly if fewer than five thousand come before it. */
  lemma FetchLaw(tick: Tick, o: Upcoming)
    ensures o in Fetched(tick) <==> exists i: nat :: Seen(tick, i) && tick.world[i] == o
  {
    var all := EligibleOf(tick.world, tick.now);
    hide EligibleOf, WatchedBefore, Watched;
    assert tick.world[..|tick.world|] == tick.world;
    if o in Fetched(tick) {
      var k :| 0 <= k < |Fetched(tick)| && Fetched(tick)[k] == o;
      var i := PlaceOf(tick, |tick.world|, k);
      assert Seen(tick, i);
    }
    if i: nat :| Seen(tick, i) && tick.world[i] == o {
      EligiblePlace(tick, i);
      assert Fetched(tick)[|WatchedBefore(tick, i)|] == o;
    }
  }

  // ------------------------------------------------------------ what is asked for

  predicate Hears(o: Upcoming, note: Notice) {
    note.tenant == o.tenant && note.user != "" && exists k | 0 <= k < |o.candidates| :: o.candidates[k] == Some(note.user)
  }

  /** Some lead is reached and the start is not. */
  ghost predicate Announces(o: Upcoming, now: Instant, key: string) {
    exists k | 0 <= k < |o.leads| ::
      && o.plannedStart - 60_000 * o.leads[k] <= now && now < o.plannedStart
      && key == "maintenance:" + o.id + ":reminder:" + Text.Decimal(o.leads[k])
  }

  /** There is a due date and it has passed. */
  predicate Complains(o: Upcoming, now: Instant, key: string) {
    o.due.Some? && now > o.due.value && key == "maintenance:" + o.id + ":overdue"
  }

  lemma AsksLaw(o: Upcoming, now: Instant, note: Notice)
    ensures Asks(o, now, note) <==> Hears(o, note) && (Announces(o, now, note.key) || Complains(o, now, note.key))
  {
    if lead :| lead in o.leads && InWindow(o, lead, now) && note.key == ReminderKey(o.id, lead) {
      var k :| 0 <= k < |o.leads| && o.leads[k] == lead;
    }
    if k :| 0 <= k < |o.leads| && o.plannedStart - 60_000 * o.leads[k] <= now && now < o.plannedStart
            && note.key == "maintenance:" + o.id + ":reminder:" + Text.Decimal(o.leads[k]) {
      assert o.leads[k] in o.leads && InWindow(o, o.leads[k], now) && note.key == ReminderKey(o.id, o.leads[k]);
    }
  }

  /** An execution asks for the notices of the rows it sees: reminders in their time, complaints past the due date, each to
      every recipient. */
  lemma WantedLaw(tick: Tick, note: Notice)
    ensures note in Wanted(tick) <==>
            exists i: nat ::
              && Seen(tick, i) && Hears(tick.world[i], note)
              && (Announces(tick.world[i], tick.now, note.key) || Complains(tick.world[i], tick.now, note.key))
  {
    assert forall i: nat | Seen(tick, i) :: i < |tick.world|;
    hide Fetched, Asks, Seen, Hears, Announces, Complains;
    forall o
      ensures o in Fetched(tick) <==> exists i: nat :: Seen(tick, i) && tick.world[i] == o
      ensures Asks(o, tick.now, note) <==> Hears(o, note) && (Announces(o, tick.now, note.key) || Complains(o, tick.now, note.key))
    {
      FetchLaw(tick, o);
      AsksLaw(o, tick.now, note);
    }
    if i: nat :| Seen(tick, i) && Hears(tick.world[i], note)
                 && (Announces(tick.world[i], tick.now, note.key) || Complains(tick.world[i], tick.now, note.key)) {
      assert tick.world[i] in Fetched(tick);
    }
  }
}
