/** Work orders whose status follows a workflow instance. */
module WorkOrders {
  import opened Outcomes
  import opened Json
  import opened WorkflowGraph
  import opened TokenEngine
  import opened Tenants
  import opened InstanceActions
  import opened InstanceSafety
  import opened EngineMarking
  import opened WorkflowInstances
  import Occurrences

  datatype OrderStatus = DRAFT | ASSIGNED | IN_PROGRESS | COMPLETED | CLOSED | CANCELLED

  type OccurrenceId = Occurrences.OccurrenceId

  /** Times in milliseconds. `occurrence` refers to the maintenance occurrence the order is for, if any. */
  datatype Row = Row(
    status: OrderStatus, startTime: Option<int>, endTime: Option<int>, downtimeMinutes: int, progressPercent: int,
    occurrence: Option<OccurrenceId>)

  /** What became of the tenant's occurrences. */
  type Statuses = map<OccurrenceId, Occurrences.Status>

  /** A work order with the workflow instance that manages it, if one was started, among the tenant's occurrences. */
  datatype Order = Order(row: Row, instance: Option<State>, occurrences: Statuses)

  datatype CreateInput = CreateInput(hasAssignee: bool, status: Option<OrderStatus>, occurrence: Option<OccurrenceId>)

  datatype UpdateInput = UpdateInput(status: Option<OrderStatus>, downtimeMinutes: Option<int>, occurrence: Option<OccurrenceId>)

  datatype OrderError = OccurrenceInvalid | LinkRefused | StatusIsManaged | NotManaged | Workflow(error: Error)

  /** `free` are the occurrences, of any tenant, that exist and that no other order refers to: the store links no other. */
  datatype OrderCommand =
    | Update(update: UpdateInput, free: set<OccurrenceId>, now: int)
    | Act(action: Command)
    | Report(progressPercent: Option<int>, now: int)
    | ActElsewhere(direct: Command)

  // --------------------------------------------------------------- operations

  function NewRow(dto: CreateInput): Row {
    Row(if dto.hasAssignee then ASSIGNED else if dto.status.Some? then dto.status.value else DRAFT,
        None, None, 0, 0, dto.occurrence)
  }

  predicate Linkable(row: Row, occurrence: Option<OccurrenceId>, free: set<OccurrenceId>) {
    occurrence.Some? && occurrence != row.occurrence ==> occurrence.value in free
  }

  /** The occurrence must be the tenant's, and counts as generated whatever it was before. If no instance can be started the
      order stays, without one. */
  function Created(g: Graph, env: Env, start: NodeId, actor: Option<UserId>, dto: CreateInput, occurrences: Statuses,
                   free: set<OccurrenceId>): Result<Order, OrderError> {
    if dto.occurrence.Some? && dto.occurrence.value !in occurrences then Err(OccurrenceInvalid)
    else if dto.occurrence.Some? && dto.occurrence.value !in free then Err(LinkRefused)
    else
      var started := StartInstance(g, env, start, actor);
      Ok(Order(NewRow(dto), if started.Ok? then Some(started.value) else None,
               if dto.occurrence.Some? then occurrences[dto.occurrence.value := Occurrences.Generated] else occurrences))
  }

  function Or<T>(value: Option<T>, default: T): Option<T> {
    if value.Some? then value else Some(default)
  }

  /** The times that a change of status by hand leaves behind. */
  function Stamped(row: Row, status: OrderStatus, now: int): Row {
    if status.IN_PROGRESS? && row.startTime.None? then row.(startTime := Some(now))
    else if (status.COMPLETED? || status.CLOSED?) && row.endTime.None? then
      row.(endTime := Some(now),
           downtimeMinutes := if row.startTime.Some? then (now - row.startTime.value) / 60000 else row.downtimeMinutes)
    else row
  }

  /** `update({ tenantId, id }, { status })`: a row of another tenant is not found. */
  function Settle(occurrences: Statuses, occurrence: Option<OccurrenceId>, status: Occurrences.Status): Statuses {
    if occurrence.Some? && occurrence.value in occurrences then occurrences[occurrence.value := status] else occurrences
  }

  function SettleByHand(row: Row, occurrences: Statuses): Statuses {
    if row.status.CANCELLED? then Settle(occurrences, row.occurrence, Occurrences.Cancelled)
    else if row.status.COMPLETED? || row.status.CLOSED? then Settle(occurrences, row.occurrence, Occurrences.Completed)
    else occurrences
  }

  function UpdateOrder(o: Order, dto: UpdateInput, free: set<OccurrenceId>, now: int): Result<Order, OrderError> {
    if dto.status.Some? && dto.status.value != o.row.status && o.instance.Some? then Err(StatusIsManaged)
    else if !Linkable(o.row, dto.occurrence, free) then Err(LinkRefused)
    else
      var changed := dto.status.Some? && dto.status.value != o.row.status;
      var stamped := if changed then Stamped(o.row, dto.status.value, now) else o.row;
      var row := stamped.(
        status := if dto.status.Some? then dto.status.value else o.row.status,
        downtimeMinutes := if dto.downtimeMinutes.Some? then dto.downtimeMinutes.value else stamped.downtimeMinutes,
        occurrence := if dto.occurrence.Some? then dto.occurrence else o.row.occurrence);
      Ok(o.(row := row, occurrences := SettleByHand(row, o.occurrences)))
  }

  /** What the order takes over from its instance after an action. */
  function Followed(row: Row, instance: State, actionKey: string, now: int): Row {
    if instance.row.status.InstanceCompleted? then
      row.(status := COMPLETED, progressPercent := 100, endTime := Or(row.endTime, now))
    else if actionKey == "assign" then row.(status := ASSIGNED)
    else row.(status := IN_PROGRESS, startTime := Or(row.startTime, now))
  }

  function ActOn(g: Graph, o: Order, c: Command): Result<Order, OrderError> {
    if o.instance.None? then Err(NotManaged)
    else
      var r := Perform(g, c.env, o.instance.value, c.user, c.request);
      if r.Err? then Err(Workflow(r.error))
      else
        Ok(Order(Followed(o.row, r.value, c.request.actionKey, c.env.now), Some(r.value),
                 if r.value.row.status.InstanceCompleted? then Settle(o.occurrences, o.row.occurrence, Occurrences.Completed)
                 else o.occurrences))
  }

  function ReportOn(o: Order, progressPercent: Option<int>, now: int): Order {
    if progressPercent.None? then o
    else
      var row := o.row.(progressPercent := progressPercent.value);
      o.(row := if progressPercent.value > 0 && row.status.ASSIGNED?
                then row.(status := IN_PROGRESS, startTime := Or(row.startTime, now))
                else row)
  }

  function AttemptOn(g: Graph, o: Order, c: OrderCommand): Order {
    match c
    case Update(dto, free, now) => var r := UpdateOrder(o, dto, free, now); if r.Ok? then r.value else o
    case Act(action) => var r := ActOn(g, o, action); if r.Ok? then r.value else o
    case Report(progressPercent, now) => ReportOn(o, progressPercent, now)
    case ActElsewhere(direct) =>
      if o.instance.Some? then o.(instance := Some(Attempt(g, o.instance.value, direct))) else o
  }

  function RunOn(g: Graph, o: Order, commands: seq<OrderCommand>): Order
    decreases |commands|
  {
    if commands == [] then o else RunOn(g, AttemptOn(g, o, commands[0]), commands[1..])
  }

  // ------------------------------------------------------------------ coupling

  predicate InstanceDone(o: Order) {
    o.instance.Some? && o.instance.value.row.status.InstanceCompleted?
  }

  /** A completed order: its instance is completed, it has an end, and its occurrence, if it is the tenant's, is completed. */
  predicate Coupled(o: Order) {
    && o.instance.Some?
    && (o.row.status.COMPLETED? ==>
          && InstanceDone(o) && o.row.endTime.Some?
          && (o.row.occurrence.Some? && o.row.occurrence.value in o.occurrences ==> o.occurrences[o.row.occurrence.value].Completed?))
  }

  lemma DoneStays(g: Graph, o: Order, c: OrderCommand)
    requires InstanceDone(o)
    ensures AttemptOn(g, o, c).instance == o.instance
    ensures o.row.status.COMPLETED? ==> AttemptOn(g, o, c).row.status.COMPLETED?
  {
  }

  lemma AttemptIsPerform(g: Graph, s: State, c: Command)
    ensures var r := Perform(g, c.env, s, c.user, c.request); Attempt(g, s, c) == if r.Ok? then r.value else s
  {
  }

  lemma CoupledKept(g: Graph, o: Order, c: OrderCommand)
    requires Coupled(o)
    ensures Coupled(AttemptOn(g, o, c))
  {
  }

  /** Whatever is done to a managed order or to its instance: an order that was not created completed is completed only
      if its instance is, has then ended, and stays completed. */
  lemma {:induction false} RunCoupled(g: Graph, o: Order, commands: seq<OrderCommand>)
    requires Coupled(o)
    ensures Coupled(RunOn(g, o, commands))
    ensures o.row.status.COMPLETED? ==> RunOn(g, o, commands).row.status.COMPLETED?
    decreases |commands|
  {
    hide AttemptOn;
    if commands != [] {
      CoupledKept(g, o, commands[0]);
      if o.row.status.COMPLETED? {
        DoneStays(g, o, commands[0]);
      }
      RunCoupled(g, AttemptOn(g, o, commands[0]), commands[1..]);
    }
  }

  ghost predicate AlwaysCoupled(g: Graph, o: Order) {
    forall commands: seq<OrderCommand> :: Coupled(RunOn(g, o, commands))
  }

  /** Whatever was wrong before, the first action that succeeds through the order puts it right for good. */
  lemma CoupledFromFirstAction(g: Graph, o: Order, c: Command, commands: seq<OrderCommand>)
    requires ActOn(g, o, c).Ok?
    ensures Coupled(RunOn(g, AttemptOn(g, o, Act(c)), commands))
  {
    hide Perform, RunOn;
    RunCoupled(g, AttemptOn(g, o, Act(c)), commands);
  }

  /** An order that is completed while its instance runs: an action that does not complete the instance undoes that. */
  lemma ActionUndoesCompletion(g: Graph, o: Order, c: Command)
    requires ActOn(g, o, c).Ok?
    ensures var after := ActOn(g, o, c).value;
            && (after.row.status.COMPLETED? <==> InstanceDone(after))
            && (!InstanceDone(after) ==> after.row.status == if c.request.actionKey == "assign" then ASSIGNED else IN_PROGRESS)
  {
    hide Perform;
  }

  /** The condition is exact: an order created completed is completed while its instance still runs. */
  lemma CoupledIffNotCreatedCompleted(g: Graph, env: Env, start: NodeId, actor: Option<UserId>, dto: CreateInput,
                                      occurrences: Statuses, free: set<OccurrenceId>)
    requires StartInstance(g, env, start, actor).Ok? && !StartInstance(g, env, start, actor).value.row.status.InstanceCompleted?
    requires Created(g, env, start, actor, dto, occurrences, free).Ok?
    ensures AlwaysCoupled(g, Created(g, env, start, actor, dto, occurrences, free).value)
            <==> dto.hasAssignee || dto.status != Some(COMPLETED)
  {
    hide StartInstance, AttemptOn;
    var o := Created(g, env, start, actor, dto, occurrences, free).value;
    assert RunOn(g, o, []) == o;
    if dto.hasAssignee || dto.status != Some(COMPLETED) {
      forall commands: seq<OrderCommand>
        ensures Coupled(RunOn(g, o, commands))
      {
        RunCoupled(g, o, commands);
      }
    } else {
      assert !Coupled(RunOn(g, o, []));
    }
  }

  // ------------------------------------------------------------ the other way

  predicate OwnActionsOnly(commands: seq<OrderCommand>) {
    forall c | c in commands :: !c.ActElsewhere?
  }

  /** Order and instance complete together. */
  predicate InStep(o: Order) {
    o.instance.Some? && (o.row.status.COMPLETED? <==> InstanceDone(o))
  }

  lemma InStepKept(g: Graph, o: Order, c: OrderCommand)
    requires InStep(o) && !c.ActElsewhere?
    ensures InStep(AttemptOn(g, o, c))
  {
  }

  lemma {:induction false} RunInStep(g: Graph, o: Order, commands: seq<OrderCommand>)
    requires InStep(o) && OwnActionsOnly(commands)
    ensures InStep(RunOn(g, o, commands))
    decreases |commands|
  {
    hide AttemptOn, InStep;
    if commands != [] {
      assert commands[0] in commands;
      InStepKept(g, o, commands[0]);
      RunInStep(g, AttemptOn(g, o, commands[0]), commands[1..]);
    }
  }

  lemma InStepIffDone(g: Graph, env: Env, start: NodeId, actor: Option<UserId>, dto: CreateInput, occurrences: Statuses,
                  free: set<OccurrenceId>)
    requires StartInstance(g, env, start, actor).Ok? && Created(g, env, start, actor, dto, occurrences, free).Ok?
    ensures var done := StartInstance(g, env, start, actor).value.row.status.InstanceCompleted?;
            var completed := !dto.hasAssignee && dto.status == Some(COMPLETED);
            var o := Created(g, env, start, actor, dto, occurrences, free).value;
            (forall commands | OwnActionsOnly(commands) :: InStep(RunOn(g, o, commands))) <==> (done <==> completed)
  {
    hide StartInstance, AttemptOn;
    var o := Created(g, env, start, actor, dto, occurrences, free).value;
    assert RunOn(g, o, []) == o && OwnActionsOnly([]);
    if InStep(o) {
      forall commands | OwnActionsOnly(commands)
        ensures InStep(RunOn(g, o, commands))
      {
        RunInStep(g, o, commands);
      }
    }
  }

  /** As long as the instance is only acted on through the order, the two complete together exactly if the play of the start
      completes the instance just when the order is created completed. */
  lemma InStepIff(g: Graph, env: Env, start: NodeId, actor: Option<UserId>, dto: CreateInput, occurrences: Statuses,
                  free: set<OccurrenceId>)
    requires g.Closed() && start in g.nodes && g.nodes[start].kind.Start?
    requires StartPlay(g, env.context, start).Some? && Created(g, env, start, actor, dto, occurrences, free).Ok?
    ensures var completed := !dto.hasAssignee && dto.status == Some(COMPLETED);
            var o := Created(g, env, start, actor, dto, occurrences, free).value;
            (forall commands | OwnActionsOnly(commands) :: InStep(RunOn(g, o, commands)))
            <==> (Completes(StartPlay(g, env.context, start)) <==> completed)
  {
    hide StartInstance, AttemptOn, Play, InStep, RunOn;
    StartPlays(g, env, start, actor);
    hide Created;
    InStepIffDone(g, env, start, actor, dto, occurrences, free);
  }

  // ------------------------------------------------------------------ the order

  /** The tenant's occurrence table, as far as work orders write to it. */
  class OccurrenceStore {
    var statuses: Statuses

    method Update(occurrence: OccurrenceId, status: Occurrences.Status)
      modifies this
      ensures statuses == Settle(old(statuses), Some(occurrence), status)
    {
      if occurrence in statuses {
        statuses := statuses[occurrence := status];
      }
    }
  }

  class WorkOrder {
    const store: OccurrenceStore
    var status: OrderStatus
    var startTime: Option<int>
    var endTime: Option<int>
    var downtimeMinutes: int
    var progressPercent: int
    var occurrence: Option<OccurrenceId>
    var workflow: WorkflowInstance?

    ghost function Contents(): Row
      reads this
    {
      Row(status, startTime, endTime, downtimeMinutes, progressPercent, occurrence)
    }

    ghost function Snapshot(): Order
      reads this, workflow, store
    {
      Order(Contents(), if workflow == null then None else Some(workflow.Snapshot()), store.statuses)
    }

    constructor (store: OccurrenceStore, dto: CreateInput)
      ensures this.store == store && Contents() == NewRow(dto) && workflow == null
    {
      this.store := store;
      status := if dto.hasAssignee then ASSIGNED else if dto.status.Some? then dto.status.value else DRAFT;
      startTime, endTime, downtimeMinutes, progressPercent := None, None, 0, 0;
      occurrence := dto.occurrence;
      workflow := null;
    }

    static method Create(store: OccurrenceStore, free: set<OccurrenceId>, g: Graph, env: Env, start: NodeId,
                         actor: Option<UserId>, dto: CreateInput) returns (order: WorkOrder?, failure: Option<OrderError>)
      modifies store
      ensures var r := Created(g, env, start, actor, dto, old(store.statuses), free);
              if r.Ok? then failure == None && order != null && fresh(order) && order.store == store && order.Snapshot() == r.value
              else failure == Some(r.error) && order == null && store.statuses == old(store.statuses)
      ensures order != null && order.workflow != null ==> order.workflow.graph == g && order.workflow.context == env.context
    {
      hide StartInstance;
      if dto.occurrence.Some? && dto.occurrence.value !in store.statuses {
        return null, Some(OccurrenceInvalid);
      }
      if dto.occurrence.Some? && dto.occurrence.value !in free {
        return null, Some(LinkRefused);
      }
      order := new WorkOrder(store, dto);
      if dto.occurrence.Some? {
        store.Update(dto.occurrence.value, Occurrences.Generated);
      }
      var instance, error := WorkflowInstance.Start(g, env, start, actor);
      order.workflow := instance;
      failure := None;
    }

    method Stamp(next: OrderStatus, now: int)
      modifies `startTime, `endTime, `downtimeMinutes
      ensures Contents() == Stamped(old(Contents()), next, now)
    {
      if next.IN_PROGRESS? && startTime.None? {
        startTime := Some(now);
      } else if (next.COMPLETED? || next.CLOSED?) && endTime.None? {
        endTime := Some(now);
        if startTime.Some? {
          downtimeMinutes := (now - startTime.value) / 60000;
        }
      }
    }

    method UpdateFields(dto: UpdateInput, free: set<OccurrenceId>, now: int) returns (failure: Option<OrderError>)
      modifies this, store
      ensures workflow == old(workflow)
      ensures var r := UpdateOrder(old(Snapshot()), dto, free, now);
              if r.Ok? then failure == None && Snapshot() == r.value else failure == Some(r.error) && Snapshot() == old(Snapshot())
    {
      hide WorkflowInstance.Snapshot, Stamped;
      var changed := dto.status.Some? && dto.status.value != status;
      if changed && workflow != null {
        return Some(StatusIsManaged);
      }
      if dto.occurrence.Some? && dto.occurrence != occurrence && dto.occurrence.value !in free {
        return Some(LinkRefused);
      }
      if changed {
        Stamp(dto.status.value, now);
      }
      if dto.status.Some? {
        status := dto.status.value;
      }
      if dto.downtimeMinutes.Some? {
        downtimeMinutes := dto.downtimeMinutes.value;
      }
      if dto.occurrence.Some? {
        occurrence := dto.occurrence;
      }
      if occurrence.Some? && (status.COMPLETED? || status.CLOSED? || status.CANCELLED?) {
        store.Update(occurrence.value, if status.CANCELLED? then Occurrences.Cancelled else Occurrences.Completed);
      }
      failure := None;
    }

    method PerformWorkflowAction(c: Command) returns (failure: Option<OrderError>)
      requires workflow != null ==> c.env.context == workflow.context
      modifies this, workflow, store
      ensures workflow == old(workflow)
      ensures workflow != null ==>
                var r := ActOn(workflow.graph, old(Snapshot()), c);
                if r.Ok? then failure == None && Snapshot() == r.value else failure == Some(r.error) && Snapshot() == old(Snapshot())
      ensures workflow == null ==> failure == Some(NotManaged) && Snapshot() == old(Snapshot())
    {
      hide Perform;
      if workflow == null {
        return Some(NotManaged);
      }
      AttemptIsPerform(workflow.graph, workflow.Snapshot(), c);
      hide Attempt;
      var error := workflow.PerformAction(c.env, c.user, c.request);
      if error.Some? {
        return Some(Workflow(error.value));
      }
      if workflow.row.status.InstanceCompleted? {
        status, progressPercent := COMPLETED, 100;
        if endTime.None? {
          endTime := Some(c.env.now);
        }
        if occurrence.Some? {
          store.Update(occurrence.value, Occurrences.Completed);
        }
      } else if c.request.actionKey == "assign" {
        status := ASSIGNED;
      } else {
        status := IN_PROGRESS;
        if startTime.None? {
          startTime := Some(c.env.now);
        }
      }
      failure := None;
    }

    method AddUpdate(reported: Option<int>, now: int)
      modifies this
      ensures workflow == old(workflow) && Snapshot() == ReportOn(old(Snapshot()), reported, now)
    {
      if reported.Some? {
        progressPercent := reported.value;
        if reported.value > 0 && status.ASSIGNED? {
          status := IN_PROGRESS;
          if startTime.None? {
            startTime := Some(now);
          }
        }
      }
    }
  }
}
