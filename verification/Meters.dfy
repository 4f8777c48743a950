/** Meter readings, and the threshold triggers they fire. */
module Meters {
  import opened Outcomes
  import opened Json
  import opened Occurrences
  import opened MaintenancePlanner
  import opened Tenants
  import Text

  type MeterId = string

  type ReadingId = string

  datatype Meter = Meter(equipment: EquipmentId, active: bool)

  datatype Reading = Reading(id: ReadingId, meter: MeterId, value: real, occurredAt: Instant, externalId: Option<string>)

  datatype ReadingInput = ReadingInput(value: real, occurredAt: Instant, externalId: Option<string>)

  // ------------------------------------------------------------------- firing

  /** Whether a reading fires a trigger with this configuration. */
  predicate Fires(config: Record, meter: MeterId, value: real) {
    var threshold, interval := Lookup(config, "threshold"), Lookup(config, "interval");
    var last := Lookup(config, "lastTriggeredValue");
    && Lookup(config, "meterId") == Str(meter)
    && threshold.Num? && threshold.n <= value
    && !(last.Num? && interval.Num? && value < last.n + interval.n)
  }

  function Fired(config: Record, value: real): Record {
    config["lastTriggeredValue" := Num(value)]
  }

  /** The readings that fire one trigger, in order. */
  function FiredBy(config: Record, meter: MeterId, values: seq<real>): seq<real>
    decreases |values|
  {
    if values == [] then []
    else if Fires(config, meter, values[0]) then [values[0]] + FiredBy(Fired(config, values[0]), meter, values[1..])
    else FiredBy(config, meter, values[1..])
  }

  lemma FiredKeeps(config: Record, value: real, key: string)
    requires key != "lastTriggeredValue"
    ensures Lookup(Fired(config, value), key) == Lookup(config, key)
    ensures Lookup(Fired(config, value), "lastTriggeredValue") == Num(value)
  {
  }

  predicate Configured(config: Record, threshold: real, interval: real) {
    Lookup(config, "threshold") == Num(threshold) && Lookup(config, "interval") == Num(interval)
  }

  /** Once a trigger has fired, each further firing is an interval above the one before. */
  lemma {:induction false} LaterFirings(config: Record, meter: MeterId, threshold: real, interval: real, last: real, values: seq<real>, k: nat)
    requires Configured(config, threshold, interval) && Lookup(config, "lastTriggeredValue") == Num(last)
    requires interval > 0.0 && k < |FiredBy(config, meter, values)|
    ensures FiredBy(config, meter, values)[k] >= last + (k + 1) as real * interval
    decreases |values|
  {
    if Fires(config, meter, values[0]) {
      if k > 0 {
        FiredKeeps(config, values[0], "threshold");
        FiredKeeps(config, values[0], "interval");
        LaterFirings(Fired(config, values[0]), meter, threshold, interval, values[0], values[1..], k - 1);
        assert (k + 1) as real * interval == k as real * interval + interval;
      }
    } else {
      LaterFirings(config, meter, threshold, interval, last, values[1..], k);
    }
  }

  /** The k-th firing, counted from nought, is at least k intervals above the threshold. */
  lemma {:induction false} KthFiring(config: Record, meter: MeterId, threshold: real, interval: real, values: seq<real>, k: nat)
    requires Configured(config, threshold, interval) && !Lookup(config, "lastTriggeredValue").Num?
    requires interval > 0.0 && k < |FiredBy(config, meter, values)|
    ensures FiredBy(config, meter, values)[k] >= threshold + k as real * interval
    decreases |values|
  {
    if Fires(config, meter, values[0]) {
      if k > 0 {
        FiredKeeps(config, values[0], "threshold");
        FiredKeeps(config, values[0], "interval");
        LaterFirings(Fired(config, values[0]), meter, threshold, interval, values[0], values[1..], k - 1);
      }
    } else {
      KthFiring(config, meter, threshold, interval, values[1..], k);
    }
  }

  lemma {:induction false} FiredAreReadings(config: Record, meter: MeterId, values: seq<real>)
    ensures forall v | v in FiredBy(config, meter, values) :: v in values
    decreases |values|
  {
    if values != [] {
      FiredAreReadings(Fired(config, values[0]), meter, values[1..]);
      FiredAreReadings(config, meter, values[1..]);
    }
  }

  /** Readings up to a value fire at most once per interval between the threshold and that value, and once more. */
  lemma FiringBound(config: Record, meter: MeterId, threshold: real, interval: real, values: seq<real>, highest: real)
    requires Configured(config, threshold, interval) && !Lookup(config, "lastTriggeredValue").Num? && interval > 0.0
    requires forall v | v in values :: v <= highest
    ensures |FiredBy(config, meter, values)| <= if highest < threshold then 0 else ((highest - threshold) / interval).Floor + 1
  {
    var fired := FiredBy(config, meter, values);
    FiredAreReadings(config, meter, values);
    if fired != [] {
      var k := |fired| - 1;
      KthFiring(config, meter, threshold, interval, values, k);
      assert fired[k] in values;
      KthFiring(config, meter, threshold, interval, values, 0);
      assert fired[0] in values;
      Quotient(k, highest - threshold, interval);
    }
  }

  lemma ScaledLess(a: real, b: real, scale: real)
    requires scale > 0.0
    ensures a < b <==> a * scale < b * scale
  {
  }

  lemma Quotient(k: nat, distance: real, interval: real)
    requires interval > 0.0 && k as real * interval <= distance
    ensures k <= (distance / interval).Floor
  {
    assert distance / interval * interval == distance;
    ScaledLess(distance / interval, k as real, interval);
  }

  function Ladder(from: real, interval: real, n: nat): seq<real>
    decreases n
  {
    if n == 0 then [] else [from] + Ladder(from + interval, interval, n - 1)
  }

  lemma {:induction false} LadderFires(config: Record, meter: MeterId, threshold: real, interval: real, from: real, n: nat)
    requires Configured(config, threshold, interval) && Lookup(config, "meterId") == Str(meter) && interval > 0.0
    requires threshold <= from
    requires Lookup(config, "lastTriggeredValue").Num? ==> Lookup(config, "lastTriggeredValue").n + interval <= from
    ensures FiredBy(config, meter, Ladder(from, interval, n)) == Ladder(from, interval, n)
    decreases n
  {
    if n > 0 {
      FiredKeeps(config, from, "threshold");
      FiredKeeps(config, from, "interval");
      FiredKeeps(config, from, "meterId");
      LadderFires(Fired(config, from), meter, threshold, interval, from + interval, n - 1);
    }
  }

  /** The bound is reached: readings one interval apart, from the threshold on, all fire. */
  lemma FiringBoundReached(config: Record, meter: MeterId, threshold: real, interval: real, n: nat)
    requires Configured(config, threshold, interval) && Lookup(config, "meterId") == Str(meter) && interval > 0.0
    requires !Lookup(config, "lastTriggeredValue").Num?
    ensures |FiredBy(config, meter, Ladder(threshold, interval, n))| == |Ladder(threshold, interval, n)| == n
  {
    LadderFires(config, meter, threshold, interval, threshold, n);
    LadderLength(threshold, interval, n);
  }

  lemma {:induction false} LadderLength(from: real, interval: real, n: nat)
    ensures |Ladder(from, interval, n)| == n
    decreases n
  {
    if n > 0 {
      LadderLength(from + interval, interval, n - 1);
    }
  }

  // ----------------------------------------------------------- which triggers

  /** The trigger is fired by the reading: its schedule runs, covers the equipment, and the value is due. */
  predicate Hit(d: Directory, tenant: TenantId, s: Schedule, t: Trigger, equipment: EquipmentId, meter: MeterId, value: real) {
    && t.schedule == s.id && s.active && t.active && t.kind.MeterThreshold?
    && Fires(t.config, meter, value) && Covers(d, tenant, s.targets, equipment)
  }

  predicate HitBySome(d: Directory, tenant: TenantId, schedules: seq<Schedule>, t: Trigger, equipment: EquipmentId, meter: MeterId,
                      value: real) {
    exists i | 0 <= i < |schedules| :: Hit(d, tenant, schedules[i], t, equipment, meter, value)
  }

  function AfterReading(d: Directory, tenant: TenantId, schedules: seq<Schedule>, t: Trigger, equipment: EquipmentId, meter: MeterId,
                        value: real): Trigger {
    if HitBySome(d, tenant, schedules, t, equipment, meter, value) then t.(config := Fired(t.config, value)) else t
  }

  /** A running trigger on covered equipment takes exactly the firing steps. */
  lemma CoveredTriggerFires(d: Directory, tenant: TenantId, schedules: seq<Schedule>, s: Schedule, t: Trigger,
                            equipment: EquipmentId, meter: MeterId, value: real)
    requires s in schedules && t.schedule == s.id && s.active && t.active && t.kind.MeterThreshold?
    requires Covers(d, tenant, s.targets, equipment)
    ensures AfterReading(d, tenant, schedules, t, equipment, meter, value).config
            == if Fires(t.config, meter, value) then Fired(t.config, value) else t.config
  {
  }

  ghost predicate OnHitOf(d: Directory, tenant: TenantId, schedules: seq<Schedule>, t: Trigger, equipment: EquipmentId,
                          meter: MeterId, value: real, at: Instant, externalId: string, row: Occurrence) {
    exists s ::
      && s in schedules && Hit(d, tenant, s, t, equipment, meter, value)
      && row == NewRow(s, t.id, equipment, OnReading(externalId), at)
  }

  ghost predicate OnHit(d: Directory, tenant: TenantId, schedules: seq<Schedule>, triggers: seq<Trigger>, equipment: EquipmentId,
                        meter: MeterId, value: real, at: Instant, externalId: string, row: Occurrence) {
    exists t :: t in triggers && OnHitOf(d, tenant, schedules, t, equipment, meter, value, at, externalId, row)
  }

  // ------------------------------------------------------------------ readings

  function StoredId(input: ReadingInput): Option<string> {
    if input.externalId.Some? && Text.Trim(input.externalId.value) != "" then Some(Text.Trim(input.externalId.value)) else None
  }

  function NewReading(id: ReadingId, meter: MeterId, input: ReadingInput): Reading {
    Reading(id, meter, input.value, input.occurredAt, StoredId(input))
  }

  /** The look-up before saving: by the identifier as it was sent. */
  predicate Known(readings: seq<Reading>, input: ReadingInput) {
    input.externalId.Some? && input.externalId.value != "" && exists r | r in readings :: r.externalId == input.externalId
  }

  /** What the unique constraint refuses: the identifier as it would be stored. */
  predicate Clashes(readings: seq<Reading>, input: ReadingInput) {
    StoredId(input).Some? && exists r | r in readings :: r.externalId == StoredId(input)
  }

  ghost predicate Clean(readings: seq<Reading>) {
    forall r | r in readings && r.externalId.Some? :: r.externalId.value != "" && Text.Trim(r.externalId.value) == r.externalId.value
  }

  lemma NewReadingClean(readings: seq<Reading>, id: ReadingId, meter: MeterId, input: ReadingInput)
    requires Clean(readings)
    ensures Clean(readings + [NewReading(id, meter, input)])
  {
  }

  /** Sending a saved reading again is harmless exactly when its external identifier is not blank; and it is answered with
      the saved reading exactly when the identifier has no white space around it. */
  lemma ResendIff(readings: seq<Reading>, id: ReadingId, meter: MeterId, input: ReadingInput)
    requires Clean(readings)
    ensures var saved := readings + [NewReading(id, meter, input)];
            && (Known(saved, input) || Clashes(saved, input) <==> StoredId(input).Some?)
            && (Known(saved, input) <==> StoredId(input).Some? && StoredId(input) == input.externalId)
  {
  }

  // ------------------------------------------------------------ runs of calls

  /** The rows that readings look up and never change. */
  datatype Site = Site(tenant: TenantId, directory: Directory, schedules: seq<Schedule>, meters: map<MeterId, Meter>)

  datatype World = World(triggers: seq<Trigger>, readings: seq<Reading>)

  /** One call of the service, with the identifier that the reading gets if it is saved. */
  datatype Call = Call(meter: MeterId, input: ReadingInput, id: ReadingId)

  predicate Running(site: Site, meter: MeterId) {
    meter in site.meters && site.meters[meter].active
  }

  /** The reading is saved. */
  predicate Admitted(site: Site, w: World, call: Call) {
    Running(site, call.meter) && !Known(w.readings, call.input) && !Clashes(w.readings, call.input)
  }

  /** What the occurrence rows carry as the reading's identifier. */
  function ExternalId(r: Reading): string {
    if r.externalId.Some? then r.externalId.value else r.id
  }

  predicate HitByCall(site: Site, t: Trigger, call: Call)
    requires call.meter in site.meters
  {
    HitBySome(site.directory, site.tenant, site.schedules, t, site.meters[call.meter].equipment, call.meter, call.input.value)
  }

  /** The reading hits a trigger, and its identifier is too long for the key of the row. */
  predicate Stalls(site: Site, triggers: seq<Trigger>, call: Call)
    requires call.meter in site.meters
  {
    |ExternalId(NewReading(call.id, call.meter, call.input))| > 63 && exists t | t in triggers :: HitByCall(site, t, call)
  }

  function AfterCall(site: Site, triggers: seq<Trigger>, call: Call): seq<Trigger>
    requires call.meter in site.meters
  {
    seq(|triggers|, i requires 0 <= i < |triggers| =>
      AfterReading(site.directory, site.tenant, site.schedules, triggers[i], site.meters[call.meter].equipment, call.meter,
                   call.input.value))
  }

  /** One call. A reading that stalls stays saved, and its triggers stay as they were. */
  function Next(site: Site, w: World, call: Call): World {
    if !Admitted(site, w, call) then w
    else World(if Stalls(site, w.triggers, call) then w.triggers else AfterCall(site, w.triggers, call),
               w.readings + [NewReading(call.id, call.meter, call.input)])
  }

  function Run(site: Site, w: World, calls: seq<Call>): World
    decreases |calls|
  {
    if calls == [] then w else Run(site, Next(site, w, calls[0]), calls[1..])
  }

  predicate Fills(site: Site, w: World, call: Call) {
    Admitted(site, w, call) && !Stalls(site, w.triggers, call)
  }

  /** The values at which trigger `i` fires in a run of calls. */
  function Firings(site: Site, w: World, calls: seq<Call>, i: nat): seq<real>
    requires i < |w.triggers|
    decreases |calls|
  {
    if calls == [] then []
    else
      var rest := Firings(site, Next(site, w, calls[0]), calls[1..], i);
      if Fills(site, w, calls[0]) && HitByCall(site, w.triggers[i], calls[0]) then [calls[0].input.value] + rest else rest
  }

  /** The values of one meter that are saved and get through to the triggers. */
  function Heard(site: Site, w: World, calls: seq<Call>, meter: MeterId): seq<real>
    decreases |calls|
  {
    if calls == [] then []
    else
      var rest := Heard(site, Next(site, w, calls[0]), calls[1..], meter);
      if Fills(site, w, calls[0]) && calls[0].meter == meter then [calls[0].input.value] + rest else rest
  }

  /** The trigger runs and its schedule covers the equipment. */
  predicate Watches(site: Site, t: Trigger, equipment: EquipmentId) {
    && t.active && t.kind.MeterThreshold?
    && exists s | s in site.schedules :: t.schedule == s.id && s.active && Covers(site.directory, site.tenant, s.targets, equipment)
  }

  lemma HitIffWatchesAndFires(site: Site, t: Trigger, call: Call)
    requires call.meter in site.meters
    ensures HitByCall(site, t, call) <==>
            Watches(site, t, site.meters[call.meter].equipment) && Fires(t.config, call.meter, call.input.value)
  {
    hide Fires, Covers;
    var equipment := site.meters[call.meter].equipment;
    if Watches(site, t, equipment) && Fires(t.config, call.meter, call.input.value) {
      var s :| s in site.schedules && t.schedule == s.id && s.active && Covers(site.directory, site.tenant, s.targets, equipment);
      assert Hit(site.directory, site.tenant, s, t, equipment, call.meter, call.input.value);
    }
  }

  /** Whatever is called, in any order and however often: a trigger that watches the meter's equipment fires exactly at the
      values that the firing rule picks from those heard of its meter, and a trigger that does not watch it never fires. */
  lemma {:induction false} RunFires(site: Site, w: World, calls: seq<Call>, i: nat, meter: MeterId)
    requires i < |w.triggers| && meter in site.meters && Lookup(w.triggers[i].config, "meterId") == Str(meter)
    ensures Firings(site, w, calls, i) ==
            if Watches(site, w.triggers[i], site.meters[meter].equipment)
            then FiredBy(w.triggers[i].config, meter, Heard(site, w, calls, meter)) else []
    decreases |calls|
  {
    if calls != [] {
      var call, next := calls[0], Next(site, w, calls[0]);
      hide Watches, HitByCall, Stalls;
      if Fills(site, w, call) {
        HitIffWatchesAndFires(site, w.triggers[i], call);
        FiredKeeps(w.triggers[i].config, call.input.value, "meterId");
        SameWatch(site, w.triggers[i], next.triggers[i], site.meters[meter].equipment);
      }
      RunFires(site, next, calls[1..], i, meter);
    }
  }

  lemma SameWatch(site: Site, t: Trigger, t': Trigger, equipment: EquipmentId)
    requires t' == t.(config := t'.config)
    ensures Watches(site, t', equipment) <==> Watches(site, t, equipment)
  {
  }

  lemma {:induction false} HeardAreSent(site: Site, w: World, calls: seq<Call>, meter: MeterId)
    ensures forall v | v in Heard(site, w, calls, meter) :: exists call | call in calls :: call.meter == meter && call.input.value == v
    decreases |calls|
  {
    if calls != [] {
      var rest := Heard(site, Next(site, w, calls[0]), calls[1..], meter);
      HeardAreSent(site, Next(site, w, calls[0]), calls[1..], meter);
      hide Next, Fills;
      forall v | v in Heard(site, w, calls, meter)
        ensures exists call | call in calls :: call.meter == meter && call.input.value == v
      {
        if v !in rest {
          assert calls[0] in calls;
        }
      }
    }
  }

  /** In any run of calls a trigger that has not fired before fires at most once per interval between its threshold and the
      highest value sent, and once more; its k-th firing is k intervals above the threshold at least. */
  lemma RunFiringBound(site: Site, w: World, calls: seq<Call>, i: nat, meter: MeterId, threshold: real, interval: real, highest: real)
    requires i < |w.triggers| && meter in site.meters && Lookup(w.triggers[i].config, "meterId") == Str(meter)
    requires Configured(w.triggers[i].config, threshold, interval) && !Lookup(w.triggers[i].config, "lastTriggeredValue").Num?
    requires interval > 0.0 && forall call | call in calls && call.meter == meter :: call.input.value <= highest
    ensures |Firings(site, w, calls, i)| <= if highest < threshold then 0 else ((highest - threshold) / interval).Floor + 1
    ensures forall k | 0 <= k < |Firings(site, w, calls, i)| :: Firings(site, w, calls, i)[k] >= threshold + k as real * interval
  {
    hide Firings, Heard, Watches, Configured, FiredBy;
    RunFires(site, w, calls, i, meter);
    if Watches(site, w.triggers[i], site.meters[meter].equipment) {
      var heard := Heard(site, w, calls, meter);
      HeardAreSent(site, w, calls, meter);
      FiringBound(w.triggers[i].config, meter, threshold, interval, heard, highest);
      forall k | 0 <= k < |FiredBy(w.triggers[i].config, meter, heard)|
        ensures FiredBy(w.triggers[i].config, meter, heard)[k] >= threshold + k as real * interval
      {
        KthFiring(w.triggers[i].config, meter, threshold, interval, heard, k);
      }
    } else if highest >= threshold {
      Quotient(0, highest - threshold, interval);
    }
  }

  lemma {:induction false} ReadingsStay(site: Site, w: World, calls: seq<Call>)
    ensures w.readings <= Run(site, w, calls).readings
    decreases |calls|
  {
    if calls != [] {
      ReadingsStay(site, Next(site, w, calls[0]), calls[1..]);
    }
  }

  /** A firing lost to a too long identifier is lost for good: whatever is called in between, sending a reading under that
      identifier again, of any meter and any value, changes nothing any more. */
  lemma LostForGood(site: Site, w: World, call: Call, calls: seq<Call>, again: Call)
    requires Admitted(site, w, call) && Stalls(site, w.triggers, call) && IsUuid(call.id)
    requires StoredId(again.input) == StoredId(call.input)
    ensures var later := Run(site, Next(site, w, call), calls);
            Next(site, later, again) == later
  {
    var reading := NewReading(call.id, call.meter, call.input);
    LongIsExternal(site, w.triggers, call);
    hide Stalls, Admitted;
    ReadingsStay(site, Next(site, w, call), calls);
    var later := Run(site, Next(site, w, call), calls);
    assert reading in Next(site, w, call).readings;
    assert reading in later.readings;
    assert Clashes(later.readings, again.input);
    assert !Admitted(site, later, again) by {
      NotTwice(site, later, again);
    }
  }

  function SmallSite(): Site {
    Site("t", SmallDirectory(), [SmallSchedule()], map["m" := Meter(Uuid('e'), true)])
  }

  function SmallTrigger(): Trigger {
    Trigger(Uuid('x'), Uuid('s'), MeterThreshold, map["meterId" := Str("m"), "threshold" := Num(1.0)], [], true)
  }

  function SmallCall(length: nat): Call {
    Call("m", ReadingInput(1.0, 0, Some(seq(length, _ => 'k'))), Uuid('r'))
  }

  lemma SmallHit(length: nat)
    ensures HitByCall(SmallSite(), SmallTrigger(), SmallCall(length))
  {
    SmallCovers();
    hide SmallDirectory, Covers;
    var site := SmallSite();
    assert Hit(site.directory, site.tenant, site.schedules[0], SmallTrigger(), site.meters["m"].equipment, "m", 1.0);
  }

  lemma SmallAdmitted(length: nat)
    requires length > 0
    ensures Admitted(SmallSite(), World([SmallTrigger()], []), SmallCall(length)) && IsUuid(SmallCall(length).id)
    ensures |ExternalId(NewReading(Uuid('r'), "m", SmallCall(length).input))| == length
  {
    hide SmallDirectory, SmallSchedule, SmallTrigger;
  }

  lemma SmallIdentified()
    ensures Identified(SmallSite().directory, SmallSite().schedules, [SmallTrigger()])
    ensures forall m | m in SmallSite().meters :: IsUuid(SmallSite().meters[m].equipment)
  {
  }

  /** It does happen: the same reading fires under an identifier of 63 characters, and is lost under one of 64. */
  lemma LossHappens()
    ensures var w := World([SmallTrigger()], []);
            && Identified(SmallSite().directory, SmallSite().schedules, w.triggers) && Clean(w.readings)
            && (forall m | m in SmallSite().meters :: IsUuid(SmallSite().meters[m].equipment))
            && Fills(SmallSite(), w, SmallCall(63)) && HitByCall(SmallSite(), w.triggers[0], SmallCall(63))
            && Admitted(SmallSite(), w, SmallCall(64)) && Stalls(SmallSite(), w.triggers, SmallCall(64))
            && IsUuid(SmallCall(64).id)
  {
    SmallIdentified();
    SmallHit(63);
    SmallHit(64);
    SmallAdmitted(63);
    SmallAdmitted(64);
    hide HitByCall, Identified, SmallDirectory, SmallSchedule, Admitted, ExternalId, NewReading;
    assert SmallTrigger() in [SmallTrigger()];
  }

  lemma LongIsExternal(site: Site, triggers: seq<Trigger>, call: Call)
    requires call.meter in site.meters && Stalls(site, triggers, call) && IsUuid(call.id)
    ensures StoredId(call.input).Some?
  {
  }

  lemma NotTwice(site: Site, w: World, call: Call)
    requires Clashes(w.readings, call.input)
    ensures !Admitted(site, w, call)
  {
  }

  // --------------------------------------------------------------- the service

  datatype Failure = MeterNotFound | IdentifierTaken | KeyTooLong

  class MeterService {
    const tenant: TenantId
    const directory: Directory
    const schedules: seq<Schedule>
    const meters: map<MeterId, Meter>
    const iso: Instant -> string
    var triggers: seq<Trigger>
    var occurrences: Table
    var readings: seq<Reading>

    ghost predicate Valid()
      reads this
    {
      && Identified(directory, schedules, triggers) && Renders(iso) && Clean(readings)
      && forall m | m in meters :: IsUuid(meters[m].equipment)
    }

    constructor (site: Site, iso: Instant -> string, triggers: seq<Trigger>, readings: seq<Reading>, occurrences: Table)
      requires Identified(site.directory, site.schedules, triggers) && Renders(iso) && Clean(readings)
      requires forall m | m in site.meters :: IsUuid(site.meters[m].equipment)
      ensures Valid() && Setting() == site && this.iso == iso && State() == World(triggers, readings)
      ensures this.occurrences == occurrences
    {
      tenant, directory, schedules, meters := site.tenant, site.directory, site.schedules, site.meters;
      this.iso, this.triggers, this.readings, this.occurrences := iso, triggers, readings, occurrences;
    }

    /** One reading against all triggers: exactly the ones it hits fire and remember the value, even where the row was
        there before. An identifier too long for the key stops it at the first hit, before anything changes. */
    method CreateMeterOccurrence(equipment: EquipmentId, meter: MeterId, value: real, at: Instant, externalId: string)
      returns (created: Option<nat>)
      requires Valid() && IsUuid(equipment)
      modifies this`triggers, this`occurrences
      ensures Valid()
      ensures created.Some? ==>
                && |triggers| == |old(triggers)|
                && (forall i | 0 <= i < |triggers| ::
                      triggers[i] == AfterReading(directory, tenant, schedules, old(triggers)[i], equipment, meter, value))
                && Filled(old(occurrences), occurrences,
                     (iset row: Occurrence | OnHit(directory, tenant, schedules, old(triggers), equipment, meter, value, at, externalId, row)),
                     iso)
                && |occurrences| == |old(occurrences)| + created.value
      ensures created.None? ==> triggers == old(triggers) && occurrences == old(occurrences)
      ensures created.None? <==>
              |externalId| > 63
              && exists t :: t in old(triggers) && HitBySome(directory, tenant, schedules, t, equipment, meter, value)
    {
      hide Filled, Renders, Identified, Clean, HitBySome, AfterReading, OnHitOf;
      var sum: nat := 0;
      ghost var done: iset<Occurrence> := iset{};
      ghost var before := triggers;
      FilledNothing(occurrences, iso);
      for i := 0 to |triggers|
        invariant |triggers| == |before| && Identified(directory, schedules, triggers) && Clean(readings)
        invariant forall k | 0 <= k < i :: triggers[k] == AfterReading(directory, tenant, schedules, before[k], equipment, meter, value)
        invariant forall k | i <= k < |before| :: triggers[k] == before[k]
        invariant Filled(old(occurrences), occurrences, done, iso) && |occurrences| == |old(occurrences)| + sum
        invariant forall row :: row in done <==>
                    exists k | 0 <= k < i :: OnHitOf(directory, tenant, schedules, before[k], equipment, meter, value, at, externalId, row)
        invariant |externalId| > 63 ==>
                    triggers == before && occurrences == old(occurrences)
                    && forall k | 0 <= k < i :: !HitBySome(directory, tenant, schedules, before[k], equipment, meter, value)
      {
        ghost var wanted := iset row: Occurrence |
          OnHitOf(directory, tenant, schedules, before[i], equipment, meter, value, at, externalId, row);
        ghost var between := occurrences;
        var more, t := FireTrigger(triggers[i], equipment, meter, value, at, externalId);
        if more.None? {
          assert before[i] in before;
          return None;
        }
        FilledThen(old(occurrences), between, occurrences, done, wanted, iso);
        IdentifiedKept(directory, schedules, triggers, i, t);
        done := done + wanted;
        sum := sum + more.value;
        triggers := triggers[i := t];
      }
      ghost var all := iset row: Occurrence | OnHit(directory, tenant, schedules, before, equipment, meter, value, at, externalId, row);
      assert done == all;
      created := Some(sum);
    }

    /** One trigger: if the reading hits it, its row is inserted and it remembers the value. */
    method FireTrigger(t: Trigger, equipment: EquipmentId, meter: MeterId, value: real, at: Instant, externalId: string)
      returns (created: Option<nat>, t': Trigger)
      requires Identified(directory, schedules, triggers) && t in triggers && IsUuid(equipment)
      modifies this`occurrences
      ensures t'.id == t.id && t'.dates == t.dates
      ensures created.Some? ==>
                && t' == AfterReading(directory, tenant, schedules, t, equipment, meter, value)
                && Filled(old(occurrences), occurrences,
                     (iset row: Occurrence | OnHitOf(directory, tenant, schedules, t, equipment, meter, value, at, externalId, row)), iso)
                && |occurrences| == |old(occurrences)| + created.value
      ensures !HitBySome(directory, tenant, schedules, t, equipment, meter, value) ==> t' == t && occurrences == old(occurrences)
      ensures created.None? ==> occurrences == old(occurrences)
      ensures created.None? <==> |externalId| > 63 && HitBySome(directory, tenant, schedules, t, equipment, meter, value)
    {
      hide Filled, Hit, Key, Renders, Identified, DueAt, Fired, HitBySome;
      t' := t;
      ghost var wanted := iset row: Occurrence |
        OnHitOf(directory, tenant, schedules, t, equipment, meter, value, at, externalId, row);
      var found := FindHit(t, equipment, meter, value);
      if found.None? {
        FilledNothing(occurrences, iso);
        assert wanted == iset{};
        return Some(0), t;
      }
      var row := NewRow(found.value, t.id, equipment, OnReading(externalId), at);
      ReadingKeyFitsIff(directory, schedules, triggers, found.value, t, equipment, externalId, at, iso);
      assert wanted == iset{row};
      var more, after := Insert(occurrences, row, iso);
      if more.None? {
        return None, t;
      }
      occurrences := after;
      t' := t.(config := Fired(t.config, value));
      created := more;
    }

    method FindHit(t: Trigger, equipment: EquipmentId, meter: MeterId, value: real) returns (s: Option<Schedule>)
      requires Identified(directory, schedules, triggers)
      ensures s.Some? <==> HitBySome(directory, tenant, schedules, t, equipment, meter, value)
      ensures forall x :: x in schedules && Hit(directory, tenant, x, t, equipment, meter, value) <==> s == Some(x)
    {
      hide Fires, Covers;
      s := None;
      for i := 0 to |schedules|
        invariant s.None? ==> forall k | 0 <= k < i :: !Hit(directory, tenant, schedules[k], t, equipment, meter, value)
        invariant s.Some? ==> s.value in schedules && Hit(directory, tenant, s.value, t, equipment, meter, value)
      {
        if Hit(directory, tenant, schedules[i], t, equipment, meter, value) {
          s := Some(schedules[i]);
        }
      }
    }

    /** A reading is saved at most once per external identifier, and only a saved reading fires triggers. The answer is the
        saved reading, or the one already known by the identifier as sent. */
    method AddReading(meter: MeterId, input: ReadingInput, id: ReadingId) returns (r: Result<Reading, Failure>)
      requires Valid() && IsUuid(id)
      modifies `triggers, `occurrences, `readings
      ensures Valid()
      ensures State() == Next(Setting(), old(State()), Call(meter, input, id))
      ensures !Running(Setting(), meter) ==> r == Err(MeterNotFound)
      ensures Running(Setting(), meter) && Known(old(readings), input) ==>
                r.Ok? && r.value in old(readings) && r.value.externalId == input.externalId
      ensures Running(Setting(), meter) && !Known(old(readings), input) && Clashes(old(readings), input) ==> r == Err(IdentifierTaken)
      ensures Admitted(Setting(), old(State()), Call(meter, input, id)) ==>
                r == if Stalls(Setting(), old(triggers), Call(meter, input, id)) then Err(KeyTooLong) else Ok(NewReading(id, meter, input))
      ensures if Fills(Setting(), old(State()), Call(meter, input, id))
              then Filled(old(occurrences), occurrences, Wanted(Setting(), old(triggers), Call(meter, input, id)), iso)
              else occurrences == old(occurrences)
    {
      if meter !in meters || !meters[meter].active {
        return Err(MeterNotFound);
      }
      if Known(readings, input) {
        var existing :| existing in readings && existing.externalId == input.externalId;
        return Ok(existing);
      }
      if Clashes(readings, input) {
        return Err(IdentifierTaken);
      }
      var reading := NewReading(id, meter, input);
      NewReadingClean(readings, id, meter, input);
      readings := readings + [reading];
      hide Clean, Fires, Covers, Filled, Renders, Identified, Known, Clashes, HitBySome, OnHit, NewReading;
      ghost var call := Call(meter, input, id);
      var created := CreateMeterOccurrence(meters[meter].equipment, meter, input.value, input.occurredAt, ExternalId(reading));
      if created.None? {
        return Err(KeyTooLong);
      }
      assert triggers == AfterCall(Setting(), old(triggers), call);
      r := Ok(reading);
    }

    ghost function Setting(): Site {
      Site(tenant, directory, schedules, meters)
    }

    ghost function State(): World
      reads this
    {
      World(triggers, readings)
    }
  }

  /** The rows that a reading calls for. */
  ghost function Wanted(site: Site, triggers: seq<Trigger>, call: Call): iset<Occurrence>
    requires call.meter in site.meters
  {
    iset row: Occurrence |
      OnHit(site.directory, site.tenant, site.schedules, triggers, site.meters[call.meter].equipment, call.meter, call.input.value,
            call.input.occurredAt, ExternalId(NewReading(call.id, call.meter, call.input)), row)
  }

  lemma ReadingKeyFitsIff(d: Directory, schedules: seq<Schedule>, triggers: seq<Trigger>, s: Schedule, t: Trigger,
                          equipment: EquipmentId, externalId: string, at: Instant, iso: Instant -> string)
    requires Identified(d, schedules, triggers) && s in schedules && t in triggers && IsUuid(equipment)
    ensures |Key(NewRow(s, t.id, equipment, OnReading(externalId), at).slot, iso)| <= MAX_KEY <==> |externalId| <= 63
  {
  }

  lemma IdentifiedKept(d: Directory, schedules: seq<Schedule>, triggers: seq<Trigger>, i: nat, t: Trigger)
    requires Identified(d, schedules, triggers) && i < |triggers| && t.id == triggers[i].id && t.dates == triggers[i].dates
    ensures Identified(d, schedules, triggers[i := t])
  {
  }
}
