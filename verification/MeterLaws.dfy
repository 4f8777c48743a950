/** Which readings are kept and which triggers they fire, in terms of the tables. */
module MeterLaws {
  import opened Outcomes
  import opened Json
  import opened Occurrences
  import opened MaintenancePlanner
  import opened Meters
  import opened PlannerLaws
  import opened Tenants
  import Text
  import TextLaws

  /** An active threshold trigger of schedule `s` watches the meter on this machine, the value reaches the threshold, and it
      reaches the last one by the interval, where both are known. */
  ghost predicate Strikes(site: Site, s: Schedule, t: Trigger, meter: MeterId, value: real, e: EquipmentId) {
    && s in site.schedules && s.active && t.schedule == s.id && t.active && t.kind == MeterThreshold
    && "meterId" in t.config && t.config["meterId"] == Str(meter)
    && "threshold" in t.config && t.config["threshold"].Num? && value >= t.config["threshold"].n
    && (("lastTriggeredValue" in t.config && t.config["lastTriggeredValue"].Num? && "interval" in t.config && t.config["interval"].Num?) ==>
          value >= t.config["lastTriggeredValue"].n + t.config["interval"].n)
    && e in site.directory.equipment && site.directory.equipment[e] == site.tenant
    && (ForEquipment(e) in s.targets || exists g :: ForGroup(g) in s.targets && (g, e) in site.directory.members)
  }

  lemma StrikesIsHit(site: Site, s: Schedule, t: Trigger, meter: MeterId, value: real, e: EquipmentId)
    requires s in site.schedules
    ensures Hit(site.directory, site.tenant, s, t, e, meter, value) <==> Strikes(site, s, t, meter, value, e)
  {
    CoversIs(site.directory, site.tenant, s.targets, e);
    hide Covers;
  }

  ghost predicate Struck(site: Site, t: Trigger, call: Call) {
    call.meter in site.meters && exists s :: Strikes(site, s, t, call.meter, call.input.value, site.meters[call.meter].equipment)
  }

  lemma StruckIsHit(site: Site, t: Trigger, call: Call)
    requires call.meter in site.meters
    ensures HitByCall(site, t, call) <==> Struck(site, t, call)
  {
    hide Hit, Strikes;
    var e := site.meters[call.meter].equipment;
    forall s | s in site.schedules
      ensures Hit(site.directory, site.tenant, s, t, e, call.meter, call.input.value)
              <==> Strikes(site, s, t, call.meter, call.input.value, e)
    {
      StrikesIsHit(site, s, t, call.meter, call.input.value, e);
    }
    forall s | Strikes(site, s, t, call.meter, call.input.value, e)
      ensures s in site.schedules
    {
      StrikesOfSite(site, s, t, call.meter, call.input.value, e);
    }
  }

  lemma StrikesOfSite(site: Site, s: Schedule, t: Trigger, meter: MeterId, value: real, e: EquipmentId)
    requires Strikes(site, s, t, meter, value, e)
    ensures s in site.schedules
  {
  }

  /** The identifier that is kept: without white space around it, and none if nothing else is left. */
  function Kept(input: ReadingInput): Option<string> {
    match input.externalId
    case None => None
    case Some(id) => if TextLaws.AllWhite(id) then None else Some(Text.Trim(id))
  }

  lemma KeptIsStored(input: ReadingInput)
    ensures StoredId(input) == Kept(input)
  {
    if input.externalId.Some? {
      TextLaws.TrimsToNothing(input.externalId.value);
    }
  }

  predicate Taken(readings: seq<Reading>, id: string) {
    exists r | r in readings :: r.externalId == Some(id)
  }

  /** A call is refused for a meter that is not there or not active, and changes nothing where the identifier is taken, as it
      was sent or as it would be kept. */
  lemma CallRefused(site: Site, w: World, call: Call)
    ensures !(call.meter in site.meters && site.meters[call.meter].active) ==> Next(site, w, call) == w
    ensures call.input.externalId.Some? && call.input.externalId.value != "" && Taken(w.readings, call.input.externalId.value) ==>
              Next(site, w, call) == w
    ensures Kept(call.input).Some? && Taken(w.readings, Kept(call.input).value) ==> Next(site, w, call) == w
  {
    KeptIsStored(call.input);
    hide Kept;
  }

  /** Any other call keeps the reading. The triggers it strikes remember the value, and no other trigger changes; unless it
      strikes one under an identifier of more than 63 characters, when none changes. */
  lemma CallKept(site: Site, w: World, call: Call)
    requires call.meter in site.meters && site.meters[call.meter].active
    requires !(call.input.externalId.Some? && call.input.externalId.value != "" && Taken(w.readings, call.input.externalId.value))
    requires !(Kept(call.input).Some? && Taken(w.readings, Kept(call.input).value))
    ensures var after := Next(site, w, call);
            var id := if Kept(call.input).Some? then Kept(call.input).value else call.id;
            && after.readings == w.readings + [Reading(call.id, call.meter, call.input.value, call.input.occurredAt, Kept(call.input))]
            && |after.triggers| == |w.triggers|
            && forall i | 0 <= i < |w.triggers| ::
                 after.triggers[i] ==
                   if Struck(site, w.triggers[i], call) && |id| <= 63
                   then w.triggers[i].(config := w.triggers[i].config["lastTriggeredValue" := Num(call.input.value)])
                   else w.triggers[i]
  {
    KeptIsStored(call.input);
    hide Kept, StoredId, Struck, HitByCall;
    forall t: Trigger
      ensures HitByCall(site, t, call) <==> Struck(site, t, call)
    {
      StruckIsHit(site, t, call);
    }
    forall i | 0 <= i < |w.triggers|
      ensures HitByCall(site, w.triggers[i], call) ==> exists t | t in w.triggers :: HitByCall(site, t, call)
    {
      assert w.triggers[i] in w.triggers;
    }
    forall i | 0 <= i < |w.triggers|
      ensures AfterCall(site, w.triggers, call)[i]
              == if Struck(site, w.triggers[i], call)
                 then w.triggers[i].(config := w.triggers[i].config["lastTriggeredValue" := Num(call.input.value)]) else w.triggers[i]
    {
      AfterOne(site, w.triggers[i], call);
    }
  }

  /** A call fails on the key exactly if it strikes a trigger under an identifier of more than 63 characters. */
  lemma CallStalls(site: Site, w: World, call: Call)
    requires call.meter in site.meters
    ensures var id := if Kept(call.input).Some? then Kept(call.input).value else call.id;
            Stalls(site, w.triggers, call) <==> |id| >= 64 && exists i :: 0 <= i < |w.triggers| && Struck(site, w.triggers[i], call)
  {
    KeptIsStored(call.input);
    hide Kept, StoredId, Struck, HitByCall;
    forall t: Trigger
      ensures HitByCall(site, t, call) <==> Struck(site, t, call)
    {
      StruckIsHit(site, t, call);
    }
    assert forall i | 0 <= i < |w.triggers| :: w.triggers[i] in w.triggers;
  }

  lemma AfterOne(site: Site, t: Trigger, call: Call)
    requires call.meter in site.meters
    ensures AfterReading(site.directory, site.tenant, site.schedules, t, site.meters[call.meter].equipment, call.meter, call.input.value)
            == if Struck(site, t, call) then t.(config := t.config["lastTriggeredValue" := Num(call.input.value)]) else t
  {
    StruckIsHit(site, t, call);
    hide Struck, HitBySome;
  }

  /** The rows of a reading: one for each trigger it strikes, planned when it was read, under the reading's identifier. */
  lemma RowsLaw(site: Site, triggers: seq<Trigger>, call: Call, row: Occurrence)
    requires call.meter in site.meters
    ensures var id := if Kept(call.input).Some? then Kept(call.input).value else call.id;
            var e := site.meters[call.meter].equipment;
            row in Wanted(site, triggers, call) <==>
            exists s, t ::
              && t in triggers && Strikes(site, s, t, call.meter, call.input.value, e)
              && row == PlannedRow(s, t, e, OnReading(id), call.input.occurredAt)
  {
    KeptIsStored(call.input);
    hide Kept, StoredId, Hit, Strikes, PlannedRow, NewRow;
    var e := site.meters[call.meter].equipment;
    forall s: Schedule, t: Trigger, cause: Cause, start: Instant
      ensures NewRow(s, t.id, e, cause, start) == PlannedRow(s, t, e, cause, start)
    {
      SameRow(s, t, e, cause, start);
    }
    forall s: Schedule, t: Trigger
      ensures s in site.schedules && Hit(site.directory, site.tenant, s, t, e, call.meter, call.input.value)
              <==> Strikes(site, s, t, call.meter, call.input.value, e)
    {
      if s in site.schedules {
        StrikesIsHit(site, s, t, call.meter, call.input.value, e);
      } else if Strikes(site, s, t, call.meter, call.input.value, e) {
        StrikesOfSite(site, s, t, call.meter, call.input.value, e);
      }
    }
  }

  lemma SameRow(s: Schedule, t: Trigger, e: EquipmentId, cause: Cause, start: Instant)
    ensures NewRow(s, t.id, e, cause, start) == PlannedRow(s, t, e, cause, start)
  {
  }
}
