/** The Redis lease lock: an expiring key, refreshed by a timer while the work runs. */
module LeaseLock {
  import opened Outcomes

  type Key = string

  type Token = string

  /** Milliseconds. */
  type Time = nat

  datatype Entry = Entry(token: Token, expires: Time)

  type Entries = map<Key, Entry>

  /** An entry is gone from the instant its time to live runs out. */
  predicate Live(entries: Entries, key: Key, now: Time) {
    key in entries && now < entries[key].expires
  }

  predicate Owns(entries: Entries, key: Key, token: Token, now: Time) {
    Live(entries, key, now) && entries[key].token == token
  }

  /** `SET key token PX ttl NX` */
  function SetIfAbsent(entries: Entries, key: Key, token: Token, ttl: nat, now: Time): Entries {
    if Live(entries, key, now) then entries else entries[key := Entry(token, now + ttl)]
  }

  /** The script behind `extend`. */
  function Extend(entries: Entries, key: Key, token: Token, ttl: nat, now: Time): Entries {
    if Owns(entries, key, token, now) then entries[key := Entry(token, now + ttl)] else entries
  }

  /** The script behind `release`. */
  function Release(entries: Entries, key: Key, token: Token, now: Time): Entries {
    if Owns(entries, key, token, now) then entries - {key} else entries
  }

  /** The store, as the three commands change it. */
  class Redis {
    var entries: Entries

    method Set(key: Key, token: Token, ttl: nat, now: Time) returns (acquired: bool)
      modifies this
      ensures acquired <==> !old(Live(entries, key, now))
      ensures entries == SetIfAbsent(old(entries), key, token, ttl, now)
    {
      if key in entries && now < entries[key].expires {
        return false;
      }
      entries := entries[key := Entry(token, now + ttl)];
      acquired := true;
    }

    method EvalExtend(key: Key, token: Token, ttl: nat, now: Time) returns (extended: bool)
      modifies this
      ensures extended <==> old(Owns(entries, key, token, now))
      ensures entries == Extend(old(entries), key, token, ttl, now)
    {
      if key in entries && now < entries[key].expires && entries[key].token == token {
        entries := entries[key := Entry(token, now + ttl)];
        return true;
      }
      extended := false;
    }

    method EvalRelease(key: Key, token: Token, now: Time) returns (deleted: bool)
      modifies this
      ensures deleted <==> old(Owns(entries, key, token, now))
      ensures entries == Release(old(entries), key, token, now)
    {
      if key in entries && now < entries[key].expires && entries[key].token == token {
        entries := entries - {key};
        return true;
      }
      deleted := false;
    }
  }

  // ------------------------------------------------------------------ protocol

  /** `Math.max(1_000, Math.floor(ttlMs / 3))` */
  function RefreshEvery(ttl: nat): (r: nat)
    ensures r >= 1000
  {
    if ttl / 3 > 1000 then ttl / 3 else 1000
  }

  /** A call of `runExclusive` that is inside `work()`: when its next refresh is due, and whether its last one was lost. The
      timer counts from when it last fired. */
  datatype Worker = Worker(key: Key, ttl: nat, due: Time, lost: bool)

  datatype World = World(now: Time, entries: Entries, inside: map<Token, Worker>, used: set<Token>)

  datatype Event =
    | Pass(ms: nat)
    | Enter(token: Token, key: Key, ttl: nat)
    | Refresh(token: Token, delivered: bool)
    | Leave(token: Token, delivered: bool)
    | Crash(token: Token)

  const START := World(0, map[], map[], {})

  function Step(w: World, e: Event): World {
    match e
    case Pass(ms) => w.(now := w.now + ms)
    case Enter(token, key, ttl) =>
      var worker := Worker(key, ttl, w.now + RefreshEvery(ttl), false);
      w.(entries := SetIfAbsent(w.entries, key, token, ttl, w.now), used := w.used + {token},
         inside := if Live(w.entries, key, w.now) then w.inside else w.inside[token := worker])
    case Refresh(token, delivered) =>
      if token !in w.inside then w
      else
        var worker := w.inside[token];
        w.(entries := if delivered then Extend(w.entries, worker.key, token, worker.ttl, w.now) else w.entries,
           inside := w.inside[token := worker.(due := w.now + RefreshEvery(worker.ttl), lost := !delivered)])
    case Leave(token, delivered) =>
      if token !in w.inside then w
      else
        w.(entries := if delivered then Release(w.entries, w.inside[token].key, token, w.now) else w.entries,
           inside := w.inside - {token})
    case Crash(token) => w.(inside := w.inside - {token})
  }

  /** What the environment grants: tokens are fresh, timers fire at most `late` after they are due, and of two refreshes
      in a row at least one reaches the store. */
  predicate Granted(w: World, e: Event, late: nat) {
    match e
    case Pass(ms) => forall token | token in w.inside :: w.now + ms <= w.inside[token].due + late
    case Enter(token, _, _) => token !in w.used
    case Refresh(token, delivered) =>
      token in w.inside && w.inside[token].due <= w.now && (!delivered ==> !w.inside[token].lost)
    case _ => true
  }

  /** What is always granted: to ask for a lock under a fresh token, to refresh when it is time, to leave, and to crash. */
  lemma MayHappen(w: World, token: Token, key: Key, ttl: nat, delivered: bool, late: nat)
    ensures token !in w.used ==> Granted(w, Enter(token, key, ttl), late)
    ensures token in w.inside && w.inside[token].due <= w.now ==>
              Granted(w, Refresh(token, true), late) && (Granted(w, Refresh(token, false), late) <==> !w.inside[token].lost)
    ensures token in w.inside && w.now < w.inside[token].due ==> !Granted(w, Refresh(token, delivered), late)
    ensures Granted(w, Leave(token, delivered), late) && Granted(w, Crash(token), late)
  {
  }

  predicate GrantedRun(w: World, events: seq<Event>, late: nat)
    decreases |events|
  {
    events == [] || (Granted(w, events[0], late) && GrantedRun(Step(w, events[0]), events[1..], late))
  }

  function RunFrom(w: World, events: seq<Event>): World
    decreases |events|
  {
    if events == [] then w else RunFrom(Step(w, events[0]), events[1..])
  }

  /** The leases asked for are of these lengths. */
  predicate Leases(events: seq<Event>, ttls: set<nat>) {
    forall e | e in events && e.Enter? :: e.ttl in ttls
  }

  predicate Exclusive(w: World) {
    forall a, b | a in w.inside && b in w.inside && w.inside[a].key == w.inside[b].key :: a == b
  }

  // ------------------------------------------------------- nobody else's lock

  function Actor(e: Event): Option<Token> {
    match e
    case Pass(_) => None
    case Enter(token, _, _) => Some(token)
    case Refresh(token, _) => Some(token)
    case Leave(token, _) => Some(token)
    case Crash(token) => Some(token)
  }

  /** Whatever the timing, no process extends, shortens or deletes a live lock of another. */
  lemma OthersUntouched(w: World, e: Event, key: Key)
    requires Live(w.entries, key, w.now) && Some(w.entries[key].token) != Actor(e)
    ensures key in Step(w, e).entries && Step(w, e).entries[key] == w.entries[key]
  {
  }

  /** A lock changes hands only once it has run out or its owner has released it. */
  lemma OwnerGivesUp(w: World, e: Event, key: Key)
    requires Live(w.entries, key, w.now) && !(key in Step(w, e).entries && Step(w, e).entries[key].token == w.entries[key].token)
    ensures e == Leave(w.entries[key].token, true)
  {
  }

  // ---------------------------------------------------------- mutual exclusion

  /** The time to live outlasts two refresh periods, each with a late timer. */
  predicate Outlasts(ttl: nat, late: nat) {
    2 * (RefreshEvery(ttl) + late) < ttl
  }

  /** A worker holds its key, with a lease that reaches past the time its next refresh may take place. */
  predicate Covered(w: World, token: Token, late: nat)
    requires token in w.inside
  {
    var worker := w.inside[token];
    var since := if worker.lost then 2 * RefreshEvery(worker.ttl) + late else RefreshEvery(worker.ttl);
    && worker.key in w.entries && w.entries[worker.key].token == token
    && worker.due + worker.ttl <= w.entries[worker.key].expires + since
    && w.now <= worker.due + late
  }

  predicate Safe(w: World, late: nat) {
    && (forall token | token in w.inside :: token in w.used && Outlasts(w.inside[token].ttl, late) && Covered(w, token, late))
  }

  lemma CoveredOwns(w: World, token: Token, late: nat)
    requires token in w.inside && Covered(w, token, late) && Outlasts(w.inside[token].ttl, late)
    ensures Owns(w.entries, w.inside[token].key, token, w.now)
  {
  }

  lemma StepSafe(w: World, e: Event, late: nat)
    requires Safe(w, late) && Granted(w, e, late) && (e.Enter? ==> Outlasts(e.ttl, late))
    ensures Safe(Step(w, e), late)
  {
    var w' := Step(w, e);
    forall token | token in w'.inside
      ensures token in w'.used && Outlasts(w'.inside[token].ttl, late) && Covered(w', token, late)
    {
      if token in w.inside {
        CoveredOwns(w, token, late);
        OneStepCovered(w, e, late, token);
      }
    }
  }

  lemma OneStepCovered(w: World, e: Event, late: nat, token: Token)
    requires Safe(w, late) && Granted(w, e, late) && token in w.inside && token in Step(w, e).inside
    requires Owns(w.entries, w.inside[token].key, token, w.now)
    ensures Step(w, e).inside[token].ttl == w.inside[token].ttl && Covered(Step(w, e), token, late)
  {
  }

  lemma {:induction false} RunSafe(w: World, events: seq<Event>, late: nat)
    requires Safe(w, late) && GrantedRun(w, events, late) && forall e | e in events && e.Enter? :: Outlasts(e.ttl, late)
    ensures Safe(RunFrom(w, events), late)
    decreases |events|
  {
    if events != [] {
      assert events[0] in events;
      StepSafe(w, events[0], late);
      RunSafe(Step(w, events[0]), events[1..], late);
    }
  }

  lemma SafeExclusive(w: World, late: nat)
    requires Safe(w, late)
    ensures Exclusive(w)
  {
  }

  /** At every point of every run with leases of these lengths, no two processes are inside the work of one key. */
  ghost predicate AlwaysExclusive(ttls: set<nat>, late: nat) {
    forall events | GrantedRun(START, events, late) && Leases(events, ttls) :: Exclusive(RunFrom(START, events))
  }

  /** The run that lets two in: the first refresh comes as late as it may and is lost, and so late comes the second. */
  function Overtaking(ttl: nat, late: nat): seq<Event> {
    var r := RefreshEvery(ttl);
    if ttl <= r + late then [Enter("a", "key", ttl), Pass(ttl), Enter("b", "key", ttl)]
    else [Enter("a", "key", ttl), Pass(r + late), Refresh("a", false), Pass(ttl - r - late), Enter("b", "key", ttl)]
  }

  lemma Then(w: World, e: Event, rest: seq<Event>, late: nat)
    ensures GrantedRun(w, [e] + rest, late) <==> Granted(w, e, late) && GrantedRun(Step(w, e), rest, late)
    ensures RunFrom(w, [e] + rest) == RunFrom(Step(w, e), rest)
  {
  }

  lemma SecondEnters(w: World, late: nat, ttl: nat)
    requires "a" in w.inside && w.inside["a"].key == "key" && "b" !in w.used && !Live(w.entries, "key", w.now)
    ensures GrantedRun(w, [Enter("b", "key", ttl)], late) && !Exclusive(RunFrom(w, [Enter("b", "key", ttl)]))
  {
    var w' := Step(w, Enter("b", "key", ttl));
    Then(w, Enter("b", "key", ttl), [], late);
    assert "a" in w'.inside && "b" in w'.inside && w'.inside["a"].key == w'.inside["b"].key;
  }

  lemma OvertakingRuns(ttl: nat, late: nat)
    requires ttl > 0 && !Outlasts(ttl, late)
    ensures var events := Overtaking(ttl, late);
            GrantedRun(START, events, late) && Leases(events, {ttl}) && !Exclusive(RunFrom(START, events))
  {
    hide GrantedRun, RunFrom, Exclusive;
    var r, enter := RefreshEvery(ttl), Enter("b", "key", ttl);
    var w1 := Step(START, Enter("a", "key", ttl));
    assert w1 == World(0, map["key" := Entry("a", ttl)], map["a" := Worker("key", ttl, r, false)], {"a"});
    if ttl <= r + late {
      SecondEnters(Step(w1, Pass(ttl)), late, ttl);
      Then(w1, Pass(ttl), [enter], late);
      Then(START, Enter("a", "key", ttl), [Pass(ttl), enter], late);
      assert [Pass(ttl)] + [enter] == [Pass(ttl), enter];
      assert Overtaking(ttl, late) == [Enter("a", "key", ttl)] + [Pass(ttl), enter];
    } else {
      var first, second := Pass(r + late), Pass(ttl - r - late);
      var w2 := Step(w1, first);
      var w3 := Step(w2, Refresh("a", false));
      assert w3 == World(r + late, w1.entries, map["a" := Worker("key", ttl, 2 * r + late, true)], {"a"});
      SecondEnters(Step(w3, second), late, ttl);
      Then(w3, second, [enter], late);
      Then(w2, Refresh("a", false), [second, enter], late);
      Then(w1, first, [Refresh("a", false), second, enter], late);
      Then(START, Enter("a", "key", ttl), [first, Refresh("a", false), second, enter], late);
      assert [second] + [enter] == [second, enter];
      assert [Refresh("a", false)] + [second, enter] == [Refresh("a", false), second, enter];
      assert [first] + [Refresh("a", false), second, enter] == [first, Refresh("a", false), second, enter];
      assert Overtaking(ttl, late) == [Enter("a", "key", ttl)] + [first, Refresh("a", false), second, enter];
    }
  }

  /** The lock excludes exactly when every lease in use, however they are mixed, outlasts two of its refresh periods and twice
      the lateness of the timers. */
  lemma ExclusiveIffOutlasts(ttls: set<nat>, late: nat)
    requires 0 !in ttls
    ensures AlwaysExclusive(ttls, late) <==> forall ttl | ttl in ttls :: Outlasts(ttl, late)
  {
    if forall ttl | ttl in ttls :: Outlasts(ttl, late) {
      forall events | GrantedRun(START, events, late) && Leases(events, ttls)
        ensures Exclusive(RunFrom(START, events))
      {
        RunSafe(START, events, late);
        SafeExclusive(RunFrom(START, events), late);
      }
    } else {
      var ttl :| ttl in ttls && !Outlasts(ttl, late);
      OvertakingRuns(ttl, late);
      assert Leases(Overtaking(ttl, late), ttls);
    }
  }

  /** With punctual timers those are the leases above two seconds, whereas a shorter one lets two in; from three seconds on a
      timer may even be late by just under a sixth of the shortest lease. */
  lemma ExclusiveLeases(ttls: set<nat>, late: nat)
    requires 0 !in ttls
    ensures AlwaysExclusive(ttls, 0) <==> forall ttl | ttl in ttls :: ttl > 2000
    ensures (forall ttl | ttl in ttls :: ttl >= 3000) ==>
              (AlwaysExclusive(ttls, late) <==> forall ttl | ttl in ttls :: 2 * late < ttl - 2 * (ttl / 3))
    ensures (forall ttl | ttl in ttls :: ttl >= 3000 && 6 * late < ttl) ==> AlwaysExclusive(ttls, late)
  {
    hide AlwaysExclusive;
    ExclusiveIffOutlasts(ttls, 0);
    ExclusiveIffOutlasts(ttls, late);
  }
}
