/** What each operation on a work order leaves behind, field by field and occurrence by occurrence. */
module WorkOrderLaws {
  import opened Outcomes
  import opened WorkflowGraph
  import opened TokenEngine
  import opened Tenants
  import opened InstanceActions
  import opened InstanceSafety
  import opened WorkOrders
  import Occurrences

  /** The tenant's occurrences afterwards: `id` has this status if it is there, and nothing else changes. */
  predicate OnlySettles(before: Statuses, after: Statuses, id: OccurrenceId, status: Occurrences.Status) {
    && after.Keys == before.Keys
    && forall x | x in before :: after[x] == if x == id then status else before[x]
  }

  // ------------------------------------------------------------------- creation

  /** An order is created exactly for no occurrence, or for one of the tenant that no other order has. */
  lemma CreationRefused(g: Graph, env: Env, start: NodeId, actor: Option<UserId>, dto: CreateInput, occurrences: Statuses,
                        free: set<OccurrenceId>)
    ensures Created(g, env, start, actor, dto, occurrences, free).Ok?
            <==> (dto.occurrence.Some? ==> dto.occurrence.value in occurrences && dto.occurrence.value in free)
    ensures dto.occurrence.Some? && dto.occurrence.value !in occurrences ==>
              Created(g, env, start, actor, dto, occurrences, free) == Err(OccurrenceInvalid)
    ensures dto.occurrence.Some? && dto.occurrence.value in occurrences && dto.occurrence.value !in free ==>
              Created(g, env, start, actor, dto, occurrences, free) == Err(LinkRefused)
  {
    hide StartInstance;
  }

  /** It is assigned if somebody is to do it, whatever status was asked for; it carries the instance that was started, if one
      was; and its occurrence counts as generated. */
  lemma CreationLaw(g: Graph, env: Env, start: NodeId, actor: Option<UserId>, dto: CreateInput, occurrences: Statuses,
                    free: set<OccurrenceId>)
    requires Created(g, env, start, actor, dto, occurrences, free).Ok?
    ensures var o := Created(g, env, start, actor, dto, occurrences, free).value;
            var started := StartInstance(g, env, start, actor);
            && (dto.hasAssignee ==> o.row.status == ASSIGNED)
            && (!dto.hasAssignee && dto.status.None? ==> o.row.status == DRAFT)
            && (!dto.hasAssignee && dto.status.Some? ==> o.row.status == dto.status.value)
            && o.row.startTime == None && o.row.endTime == None && o.row.downtimeMinutes == 0 && o.row.progressPercent == 0
            && o.row.occurrence == dto.occurrence
            && (o.instance.Some? <==> started.Ok?) && (started.Ok? ==> o.instance == Some(started.value))
            && (dto.occurrence.None? ==> o.occurrences == occurrences)
            && (dto.occurrence.Some? ==> OnlySettles(occurrences, o.occurrences, dto.occurrence.value, Occurrences.Generated))
  {
    hide StartInstance;
  }

  // -------------------------------------------------------------------- updates

  predicate ChangesStatus(o: Order, dto: UpdateInput) {
    dto.status.Some? && dto.status.value != o.row.status
  }

  /** An order that follows an instance keeps its status, and an order can only turn to an occurrence that is free. */
  lemma UpdateRefused(o: Order, dto: UpdateInput, free: set<OccurrenceId>, now: int)
    ensures ChangesStatus(o, dto) && o.instance.Some? ==> UpdateOrder(o, dto, free, now) == Err(StatusIsManaged)
    ensures UpdateOrder(o, dto, free, now).Ok? <==>
            && !(ChangesStatus(o, dto) && o.instance.Some?)
            && (dto.occurrence.Some? && dto.occurrence != o.row.occurrence ==> dto.occurrence.value in free)
    ensures UpdateOrder(o, dto, free, now).Err? && !(ChangesStatus(o, dto) && o.instance.Some?) ==>
              UpdateOrder(o, dto, free, now) == Err(LinkRefused)
  {
  }

  /** The fields that are sent are set. The first time an order goes into progress it starts, and the first time it is completed
      or closed it ends, with the whole minutes in between as its downtime unless a downtime is sent. */
  lemma UpdateLaw(o: Order, dto: UpdateInput, free: set<OccurrenceId>, now: int)
    requires UpdateOrder(o, dto, free, now).Ok?
    ensures var r := UpdateOrder(o, dto, free, now).value;
            var starts := ChangesStatus(o, dto) && dto.status == Some(IN_PROGRESS) && o.row.startTime == None;
            var ends := ChangesStatus(o, dto) && (dto.status == Some(COMPLETED) || dto.status == Some(CLOSED)) && o.row.endTime == None;
            && r.instance == o.instance
            && r.row.status == (if dto.status.Some? then dto.status.value else o.row.status)
            && r.row.startTime == (if starts then Some(now) else o.row.startTime)
            && r.row.endTime == (if ends then Some(now) else o.row.endTime)
            && (dto.downtimeMinutes.Some? ==> r.row.downtimeMinutes == dto.downtimeMinutes.value)
            && (dto.downtimeMinutes.None? && ends && o.row.startTime.Some? ==>
                  60000 * r.row.downtimeMinutes <= now - o.row.startTime.value < 60000 * (r.row.downtimeMinutes + 1))
            && (dto.downtimeMinutes.None? && !(ends && o.row.startTime.Some?) ==> r.row.downtimeMinutes == o.row.downtimeMinutes)
            && r.row.progressPercent == o.row.progressPercent
            && r.row.occurrence == (if dto.occurrence.Some? then dto.occurrence else o.row.occurrence)
  {
    if o.row.startTime.Some? {
      Minutes(now - o.row.startTime.value);
    }
  }

  lemma Minutes(ms: int)
    ensures 60000 * (ms / 60000) <= ms < 60000 * (ms / 60000 + 1)
  {
  }

  /** After an update by hand the order's occurrence, if it is the tenant's, is cancelled with a cancelled order and completed
      with a completed or closed one, also if the status is not what was sent; no other occurrence changes. */
  lemma UpdateSettles(o: Order, dto: UpdateInput, free: set<OccurrenceId>, now: int)
    requires UpdateOrder(o, dto, free, now).Ok?
    ensures var r := UpdateOrder(o, dto, free, now).value;
            && (r.row.occurrence.Some? && r.row.status == CANCELLED ==>
                  OnlySettles(o.occurrences, r.occurrences, r.row.occurrence.value, Occurrences.Cancelled))
            && (r.row.occurrence.Some? && (r.row.status == COMPLETED || r.row.status == CLOSED) ==>
                  OnlySettles(o.occurrences, r.occurrences, r.row.occurrence.value, Occurrences.Completed))
            && (r.row.occurrence.None? || r.row.status == DRAFT || r.row.status == ASSIGNED || r.row.status == IN_PROGRESS ==>
                  r.occurrences == o.occurrences)
  {
  }

  // -------------------------------------------------------------------- actions

  /** An order without an instance has no actions; otherwise an action fails or succeeds as it does on the instance. */
  lemma ActionRefused(g: Graph, o: Order, c: Command)
    ensures o.instance.None? ==> ActOn(g, o, c) == Err(NotManaged)
    ensures o.instance.Some? && Perform(g, c.env, o.instance.value, c.user, c.request).Err? ==>
              ActOn(g, o, c) == Err(Workflow(Perform(g, c.env, o.instance.value, c.user, c.request).error))
    ensures o.instance.Some? && Perform(g, c.env, o.instance.value, c.user, c.request).Ok? ==> ActOn(g, o, c).Ok?
  {
    hide Perform;
  }

  /** The order is completed with its instance, at a hundred percent and with its occurrence; `assign` makes it assigned, and any
      other action puts it into progress. Times that are known stay. */
  lemma ActionLaw(g: Graph, o: Order, c: Command)
    requires o.instance.Some? && Perform(g, c.env, o.instance.value, c.user, c.request).Ok?
    ensures ActOn(g, o, c).Ok?
    ensures var r := ActOn(g, o, c).value;
            var instance := Perform(g, c.env, o.instance.value, c.user, c.request).value;
            var done := instance.row.status == InstanceCompleted;
            var assigns := !done && c.request.actionKey == "assign";
            && r.instance == Some(instance)
            && r.row.status == (if done then COMPLETED else if assigns then ASSIGNED else IN_PROGRESS)
            && r.row.progressPercent == (if done then 100 else o.row.progressPercent)
            && r.row.endTime == (if done && o.row.endTime == None then Some(c.env.now) else o.row.endTime)
            && r.row.startTime == (if !done && !assigns && o.row.startTime == None then Some(c.env.now) else o.row.startTime)
            && r.row.downtimeMinutes == o.row.downtimeMinutes && r.row.occurrence == o.row.occurrence
            && (done && o.row.occurrence.Some? ==>
                  OnlySettles(o.occurrences, r.occurrences, o.row.occurrence.value, Occurrences.Completed))
            && (!done || o.row.occurrence == None ==> r.occurrences == o.occurrences)
  {
    hide Perform;
  }

  // -------------------------------------------------------------------- reports

  /** A report sets the progress. The first progress on an assigned order puts it into progress. */
  lemma ReportLaw(o: Order, reported: Option<int>, now: int)
    ensures var r := ReportOn(o, reported, now);
            var starts := reported.Some? && reported.value >= 1 && o.row.status == ASSIGNED;
            && r.instance == o.instance && r.occurrences == o.occurrences
            && r.row.progressPercent == (if reported.Some? then reported.value else o.row.progressPercent)
            && r.row.status == (if starts then IN_PROGRESS else o.row.status)
            && r.row.startTime == (if starts && o.row.startTime == None then Some(now) else o.row.startTime)
            && r.row.endTime == o.row.endTime && r.row.downtimeMinutes == o.row.downtimeMinutes
            && r.row.occurrence == o.row.occurrence
  {
  }
}
