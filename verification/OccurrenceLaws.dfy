/** What can be skipped, what archiving cancels, and what a key is made of. */
module OccurrenceLaws {
  import opened Outcomes
  import opened Occurrences

  predicate OnlyStatus(before: Table, after: Table, key: string, status: Status) {
    && after.Keys == before.Keys && key in before && after[key] == before[key].(status := status)
    && forall other | other in before && other != key :: after[other] == before[other]
  }

  /** A row can be skipped exactly while it is planned and has no work order; nothing but its status changes. */
  lemma SkipLaw(t: Table, key: string)
    ensures Skip(t, key).Some? <==> key in t && t[key].status == Planned && t[key].workOrder == None
    ensures Skip(t, key).Some? ==> OnlyStatus(t, Skip(t, key).value, key, Skipped)
  {
  }

  /** Archiving cancels what is planned of the schedule, and leaves everything else. */
  lemma CancelLaw(t: Table, schedule: ScheduleId)
    ensures var after := CancelPlanned(t, schedule);
            && after.Keys == t.Keys
            && forall key | key in t ::
                 if t[key].slot.schedule == schedule && t[key].status == Planned
                 then after[key] == t[key].(status := Cancelled) else after[key] == t[key]
  {
  }

  /** A key names the schedule, the trigger, the machine and the cause, in this order and with colons between them. */
  lemma KeyLaw(s: ScheduleId, t: TriggerId, e: EquipmentId, date: Instant, id: string, iso: Instant -> string)
    ensures Key(Slot(s, t, e, At(date)), iso) == s + ":" + t + ":" + e + ":" + iso(date)
    ensures Key(Slot(s, t, e, OnEvent(id)), iso) == s + ":" + t + ":" + e + ":" + "event:" + id
    ensures Key(Slot(s, t, e, OnReading(id)), iso) == s + ":" + t + ":" + e + ":" + "meter:" + id
  {
    assert s + ":" + t + ":" + e + ":" + ("event:" + id) == s + ":" + t + ":" + e + ":" + "event:" + id;
    assert s + ":" + t + ":" + e + ":" + ("meter:" + id) == s + ":" + t + ":" + e + ":" + "meter:" + id;
  }

  /** A row is inserted only where its key is free. */
  lemma InsertLaw(t: Table, row: Occurrence, iso: Instant -> string, key: string)
    requires key == Key(row.slot, iso)
    ensures key in InsertOrIgnore(t, row, iso) && InsertOrIgnore(t, row, iso).Keys == t.Keys + {key}
    ensures InsertOrIgnore(t, row, iso)[key] == if key in t then t[key] else row
    ensures forall other | other in t && other != key :: InsertOrIgnore(t, row, iso)[other] == t[other]
  {
  }
}
