/** When an action is refused, and what it writes, in terms of the step's configuration, the user and the request. */
module ActionLaws {
  import opened Outcomes
  import opened Json
  import opened WorkflowGraph
  import opened TokenEngine
  import opened Tenants
  import opened InstanceActions
  import opened EngineSafety
  import Conditions
  import EngineHistory
  import EngineMarking
  import InstanceSafety
  import Text
  import TextLaws

  // -------------------------------------------------------------- permissions

  predicate PatternTail(c: char) {
    'a' <= c <= 'z' || '0' <= c <= '9' || c == '_' || c == '.' || c == '-'
  }

  /** The pattern `^[a-z0-9][a-z0-9_.-]{1,119}$`. */
  predicate Pattern(p: string) {
    && 2 <= |p| <= 120
    && ('a' <= p[0] <= 'z' || '0' <= p[0] <= '9')
    && forall i | 1 <= i < |p| :: PatternTail(p[i])
  }

  /** The step's configuration asks for permission `p`. */
  predicate Demands(config: Record, p: string) {
    && Pattern(p)
    && if "requiredPermissions" in config && config["requiredPermissions"].Arr?
       then Str(p) in config["requiredPermissions"].items
       else "requiredPermission" in config && config["requiredPermission"] == Str(p)
  }

  predicate Administrator(user: User) {
    user.isPlatformAdmin || "admin" in user.roleCodes
  }

  ghost predicate Forbidden(config: Record, user: User) {
    && !Administrator(user)
    && (exists p :: Demands(config, p))
    && forall p | Demands(config, p) :: p !in user.permissions
  }

  lemma PatternIs(p: string)
    ensures IsPermissionName(p) <==> Pattern(p)
  {
    if 2 <= |p| <= 120 {
      assert forall i | 1 <= i < |p| :: p[1..][i - 1] == p[i];
      assert forall i | 0 <= i < |p[1..]| :: p[1..][i] == p[i + 1];
      TailIs(p[1..]);
    }
  }

  lemma TailChar(c: char)
    ensures Text.IsLower(c) || Text.IsDigit(c) || c in "_.-" <==> PatternTail(c)
  {
    assert "_.-"[0] == '_' && "_.-"[1] == '.' && "_.-"[2] == '-';
  }

  lemma TailIs(s: string)
    ensures Text.AllTail(s, "_.-", false) <==> forall i | 0 <= i < |s| :: PatternTail(s[i])
  {
    hide PatternTail;
    forall i | 0 <= i < |s|
      ensures s[i] in s && (Text.IsLower(s[i]) || Text.IsDigit(s[i]) || s[i] in "_.-" <==> PatternTail(s[i]))
    {
      TailChar(s[i]);
    }
  }

  lemma DemandedIsRequired(config: Record, p: string)
    ensures p in RequiredPermissions(config) <==> Demands(config, p)
  {
    hide IsPermissionName, Pattern;
    PatternIs(p);
    var values := ConfiguredPermissions(config);
    if Demands(config, p) {
      assert Str(p) in values;
      var i :| 0 <= i < |values| && values[i] == Str(p);
      assert values[i].s == p;
    }
  }

  lemma ForbiddenIsBarred(config: Record, user: User)
    ensures Barred(config, user) <==> Forbidden(config, user)
    ensures Permitted(config, user) <==> !Forbidden(config, user)
  {
    hide Demands;
    forall p
      ensures p in RequiredPermissions(config) <==> Demands(config, p)
    {
      DemandedIsRequired(config, p);
    }
    hide RequiredPermissions;
    assert RequiredPermissions(config) == {} <==> forall p :: !Demands(config, p) by {
      if RequiredPermissions(config) != {} {
        var p :| p in RequiredPermissions(config);
        assert Demands(config, p);
      }
    }
  }

  // ------------------------------------------------------------------ refusals

  predicate Repeated(env: Env, s: State, req: Request) {
    && req.idempotencyKey.Some? && req.idempotencyKey.value != ""
    && (req.idempotencyKey.value in env.otherKeys || exists i | 0 <= i < |s.log| :: s.log[i].idempotencyKey == req.idempotencyKey)
  }

  /** An open task that the request may mean. */
  predicate Meant(s: State, req: Request, k: nat) {
    k < |s.tasks| && !s.tasks[k].status.Completed? && !s.tasks[k].status.Cancelled? && (req.taskId.Some? ==> req.taskId.value == k)
  }

  /** The user executes the task, or may act on any. */
  predicate MayAct(task: Task, user: User) {
    Administrator(user) || (user.id in task.assignments && task.assignments[user.id] != Watcher)
  }

  /** The task acted on: the first that is meant and the user may act on. */
  predicate ActsOn(s: State, user: User, req: Request, k: nat) {
    Meant(s, req, k) && MayAct(s.tasks[k], user) && forall j: nat | j < k :: !(Meant(s, req, j) && MayAct(s.tasks[j], user))
  }

  predicate Leads(g: Graph, n: NodeId, actionKey: string, e: Edge) {
    e in g.edges && e.source == n && e.actionKey == actionKey
  }

  lemma {:induction false} FirstIs(tasks: seq<Task>, user: User, req: Request, from: nat, k: nat)
    requires from <= k < |tasks| && CandidateTask(tasks, req, k) && Assigned(tasks[k], user)
    requires forall j | from <= j < k :: !(CandidateTask(tasks, req, j) && Assigned(tasks[j], user))
    ensures FirstAssigned(tasks, user, req, from) == Some(k)
    decreases k - from
  {
    if from < k {
      FirstIs(tasks, user, req, from + 1, k);
    }
  }

  lemma MeantIs(s: State, user: User, req: Request, k: nat)
    ensures Meant(s, req, k) <==> k < |s.tasks| && CandidateTask(s.tasks, req, k)
    ensures k < |s.tasks| ==> (MayAct(s.tasks[k], user) <==> Assigned(s.tasks[k], user))
  {
  }

  /** Before a task is found: the repetition, the finished instance, no task, no task of the user. */
  lemma RefusedForTask(g: Graph, env: Env, s: State, user: User, req: Request)
    ensures Repeated(env, s, req) ==> Perform(g, env, s, user, req) == Ok(s)
    ensures !Repeated(env, s, req) && s.row.status.InstanceCompleted? ==> Perform(g, env, s, user, req) == Err(InstanceFinished)
    ensures !Repeated(env, s, req) && !s.row.status.InstanceCompleted? && (forall k: nat :: !Meant(s, req, k)) ==>
              Perform(g, env, s, user, req) == Err(NoOpenTask)
    ensures !Repeated(env, s, req) && !s.row.status.InstanceCompleted? && (exists k: nat :: Meant(s, req, k))
            && (forall k: nat :: Meant(s, req, k) ==> !MayAct(s.tasks[k], user)) ==>
              Perform(g, env, s, user, req) == Err(NotAssigned)
  {
    hide Entry, Activate, FindEdge, Barred, AcceptsPayload, Open, Meant, MayAct, CandidateTask, Assigned;
    forall k: nat
      ensures Meant(s, req, k) <==> k < |s.tasks| && CandidateTask(s.tasks, req, k)
      ensures k < |s.tasks| ==> (MayAct(s.tasks[k], user) <==> Assigned(s.tasks[k], user))
    {
      MeantIs(s, user, req, k);
    }
    assert Repeated(env, s, req) <==> Replayed(env, s.log, req);
  }

  /** With the task found, an action key without a transition from its step. */
  lemma RefusedForKey(g: Graph, env: Env, s: State, user: User, req: Request, k: nat)
    requires !Repeated(env, s, req) && !s.row.status.InstanceCompleted? && ActsOn(s, user, req, k)
    requires forall e :: !Leads(g, s.tasks[k].node, req.actionKey, e)
    ensures Perform(g, env, s, user, req) == Err(UnknownAction)
  {
    TaskIsFound(s, user, req, k);
    RepeatedIs(env, s, req);
    hide Entry, Activate, Barred, AcceptsPayload, Meant, MayAct, CandidateTask, Assigned, Repeated, FirstAssigned, Replayed, ActsOn;
    var found := FindEdge(g.edges, s.tasks[k].node, req.actionKey);
    assert found.Some? ==> Leads(g, s.tasks[k].node, req.actionKey, found.value);
  }

  lemma TaskIsFound(s: State, user: User, req: Request, k: nat)
    requires ActsOn(s, user, req, k)
    ensures CandidateTask(s.tasks, req, k) && FirstAssigned(s.tasks, user, req, 0) == Some(k)
  {
    hide Meant, MayAct, CandidateTask, Assigned;
    forall j: nat
      ensures Meant(s, req, j) <==> j < |s.tasks| && CandidateTask(s.tasks, req, j)
      ensures j < |s.tasks| ==> (MayAct(s.tasks[j], user) <==> Assigned(s.tasks[j], user))
    {
      MeantIs(s, user, req, j);
    }
    FirstIs(s.tasks, user, req, 0, k);
  }

  /** With task and transition found: what refuses the action, in this order, is a missing permission, the form, and the
      transition's condition in the context with the payload laid over it. */
  lemma RefusedForStep(g: Graph, env: Env, s: State, user: User, req: Request, k: nat, e: Edge)
    requires !Repeated(env, s, req) && !s.row.status.InstanceCompleted? && ActsOn(s, user, req, k)
    requires g.Deterministic() && Leads(g, s.tasks[k].node, req.actionKey, e)
    ensures var n := s.tasks[k].node;
            var config := if n in g.nodes then g.nodes[n].config else map[];
            var form := if "formFields" in config then config["formFields"] else Undefined;
            var r := Perform(g, env, s, user, req);
            if Forbidden(config, user) then r == Err(PermissionMissing)
            else if !AcceptsPayload(form, req.payload, req.actionKey) then r == Err(InvalidPayload)
            else if e.condition.Some? && !Conditions.Evaluate(e.condition.value, Obj(env.context.fields + req.payload))
            then r == Err(ConditionNotMet)
            else
              && Admit(g, env.context, s, user, req) == Ok(Admission(k, e))
              && (r.Err? ==> r.error in {TokenNotActive, DuplicateKey, AutomaticLoop, NodeMissing})
  {
    TaskIsFound(s, user, req, k);
    RepeatedIs(env, s, req);
    ForbiddenIsBarred(Config(g, s.tasks[k].node), user);
    var a := Admission(k, e);
    EntryFails(env, s, user, req, a);
    hide Barred, AcceptsPayload, Meant, MayAct, CandidateTask, Assigned, Repeated, FirstAssigned, Replayed, ActsOn;
    hide Forbidden, Conditions.Evaluate, Entry, Activate;
    InstanceSafety.UniqueEdge(g, e, FindEdge(g.edges, s.tasks[k].node, req.actionKey).value);
    hide FindEdge;
    var entered := Entry(env, s, user, req, a);
    if entered.Ok? && Activate(g, env, entered.value.0, entered.value.1, 1).Err? {
      ActivateFails(g, env, entered.value.0, entered.value.1, 1);
    }
  }

  lemma EntryFails(env: Env, s: State, user: User, req: Request, a: Admission)
    requires a.task < |s.tasks|
    ensures var r := Entry(env, s, user, req, a);
            if r.Ok? then r.value.1 < |r.value.0.tokens| else r.error in {TokenNotActive, DuplicateKey}
  {
  }

  lemma RepeatedIs(env: Env, s: State, req: Request)
    ensures Repeated(env, s, req) <==> Replayed(env, s.log, req)
  {
  }

  lemma {:induction false} ActivateFails(g: Graph, env: Env, s: State, t: nat, depth: nat)
    requires t < |s.tokens| && Activate(g, env, s, t, depth).Err?
    ensures Activate(g, env, s, t, depth).error in {AutomaticLoop, NodeMissing}
    decreases Fuel(depth), 0
  {
    hide Visit;
    if depth <= MAX_DEPTH && Visit(g, env, s, t).Ok? {
      var hop := Visit(g, env, s, t).value;
      if hop.Go? {
        ActivateFails(g, env, hop.state, hop.next, depth + hop.cost);
      } else if hop.Fork? {
        FanOutFails(g, env, hop.state, hop.edges, depth + 1);
      }
    }
  }

  lemma {:induction false} FanOutFails(g: Graph, env: Env, s: State, edges: seq<Edge>, depth: nat)
    requires FanOut(g, env, s, edges, depth).Err?
    ensures FanOut(g, env, s, edges, depth).error in {AutomaticLoop, NodeMissing}
    decreases Fuel(depth), |edges| + 1
  {
    var first := Activate(g, env, Spawn(s, edges[0]), |s.tokens|, depth);
    if first.Err? {
      ActivateFails(g, env, Spawn(s, edges[0]), |s.tokens|, depth);
    } else {
      FanOutFails(g, env, first.value, edges[1..], depth);
    }
  }

  /** A user whom a step's permissions keep out is offered none of its actions. */
  lemma ForbiddenSeesNothing(g: Graph, context: Context, s: State, user: User, k: nat)
    requires k < |s.tasks| && s.tasks[k].node in g.nodes && Forbidden(g.nodes[s.tasks[k].node].config, user)
    ensures forall o | o in AvailableActions(g, context, s, user) :: o.taskId != Some(k)
  {
    ForbiddenIsBarred(g.nodes[s.tasks[k].node].config, user);
    hide Forbidden, Permitted, Barred;
    assert !Eligible(g, s, user, k);
  }

  /** An action is offered exactly to whom may act on an open task whose step does not keep them out, while the transition's
      condition holds in the instance's own context. */
  lemma OffersLaw(g: Graph, context: Context, s: State, user: User, k: nat, e: Edge)
    requires g.Deterministic() && Settled(g, context, s) && k < |s.tasks| && Leads(g, s.tasks[k].node, e.actionKey, e)
    requires s.tasks[k].node in g.nodes
    ensures (exists o | o in AvailableActions(g, context, s, user) :: o.taskId == Some(k) && o.actionKey == e.actionKey) <==>
            && !s.tasks[k].status.Completed? && !s.tasks[k].status.Cancelled? && MayAct(s.tasks[k], user)
            && !Forbidden(g.nodes[s.tasks[k].node].config, user)
            && (e.condition.None? || Conditions.Evaluate(e.condition.value, context))
    ensures forall o | o in AvailableActions(g, context, s, user) && o.taskId == Some(k) && o.actionKey == e.actionKey :: o.target == e.target
  {
    ForbiddenIsBarred(g.nodes[s.tasks[k].node].config, user);
    TestsAgree(g, s.tasks[k], user);
    InstanceSafety.OfferedIffEligible(g, context, s, user, k, e.actionKey);
    var found := FindEdge(g.edges, s.tasks[k].node, e.actionKey);
    InstanceSafety.UniqueEdge(g, e, found.value);
    hide Forbidden, Permitted, Barred, Conditions.Evaluate, AvailableActions, Settled;
    MeantIs(s, user, Request(None, "", map[], None), k);
    forall o | o in AvailableActions(g, context, s, user) && o.taskId == Some(k) && o.actionKey == e.actionKey
      ensures o.target == e.target
    {
      OfferedAlong(g, context, s, user, k, o, e);
    }
  }

  lemma OfferedAlong(g: Graph, context: Context, s: State, user: User, k: nat, o: Offer, e: Edge)
    requires g.Deterministic() && e in g.edges && k < |s.tasks| && e.source == s.tasks[k].node && o.actionKey == e.actionKey
    requires o in AvailableActions(g, context, s, user) && o.taskId == Some(k)
    ensures o.target == e.target
  {
    var e' :| e' in g.edges && Open(e', context) && FirstEligible(g, s, user, e'.source, 0).Some?
              && o == Offer(FirstEligible(g, s, user, e'.source, 0), e'.actionKey, e'.target);
    InstanceSafety.UniqueEdge(g, e, e');
  }

  // --------------------------------------------------------------- the form

  predicate Unfilled(v: Value) {
    v == Undefined || v == Null || (v.Str? && TextLaws.AllWhite(v.s))
  }

  /** The field asks for something in this action. */
  predicate Asks(field: Record, actionKey: string) {
    && "key" in field && field["key"].Str? && field["key"].s != ""
    && ("actions" in field && field["actions"].Arr? && field["actions"].items != [] ==> Str(actionKey) in field["actions"].items)
  }

  /** Types that take text, also where a list of one element stands for its element. */
  predicate NamesText(t: Value) {
    || t == Str("text") || t == Str("textarea") || t == Str("date") || t == Str("select")
    || (t.Arr? && |t.items| == 1 && NamesText(t.items[0]))
  }

  lemma {:induction false} NamesTextIs(t: Value)
    ensures TypeName(t) in ["text", "textarea", "date", "select"] <==> NamesText(t)
  {
    var names := ["text", "textarea", "date", "select"];
    assert names[0] == "text" && names[1] == "textarea" && names[2] == "date" && names[3] == "select";
    if t.Arr? && |t.items| == 1 {
      NamesTextIs(t.items[0]);
    }
  }

  predicate Suits(field: Record, v: Value) {
    "type" in field ==>
      match field["type"]
      case Str("number") => v.Num?
      case Str("boolean") => v.Bool?
      case Str("select") => v.Str? && ("options" in field && field["options"].Arr? ==> v in field["options"].items)
      case t => NamesText(t) ==> v.Str?
  }

  predicate FieldTakes(field: Record, payload: Record, actionKey: string) {
    Asks(field, actionKey) ==>
      var v := if field["key"].s in payload then payload[field["key"].s] else Undefined;
      if Unfilled(v) then !("required" in field && field["required"] == Bool(true)) else Suits(field, v)
  }

  lemma MemberIs(items: seq<Value>, s: string)
    ensures Includes(items, Str(s)) <==> Str(s) in items
  {
  }

  /** One field of a form, by its type. */
  lemma FieldLaw(field: Record, payload: Record, actionKey: string)
    ensures FieldAccepts(Obj(field), payload, actionKey) <==> FieldTakes(field, payload, actionKey)
  {
    NamesTextIs(Field(Obj(field), "type"));
    hide Text.Trim, Includes, TypeName;
    forall items: seq<Value>, s: string
      ensures Includes(items, Str(s)) <==> Str(s) in items
    {
      MemberIs(items, s);
    }
    if Asks(field, actionKey) {
      var v := if field["key"].s in payload then payload[field["key"].s] else Undefined;
      if v.Str? {
        TextLaws.TrimsToNothing(v.s);
      }
    }
  }

  /** A form takes a payload if all its fields do; what is no list is no form, and what is no object no field. */
  lemma FormLaw(form: Value, payload: Record, actionKey: string)
    ensures !form.Arr? ==> AcceptsPayload(form, payload, actionKey)
    ensures form.Arr? ==>
              (AcceptsPayload(form, payload, actionKey) <==>
               forall i | 0 <= i < |form.items| :: form.items[i].Obj? ==> FieldAccepts(form.items[i], payload, actionKey))
  {
  }

  // ---------------------------------------------------------------- what it writes

  /** A token that the action consumes: the one its task stands for. */
  predicate StandsFor(s: State, k: nat, t: nat)
    requires k < |s.tasks|
  {
    && t < |s.tokens| && s.tokens[t].status.Active?
    && (if s.tasks[k].tokenId.Some? then s.tasks[k].tokenId.value == t
        else s.tokens[t].node == s.tasks[k].node
             && forall u | 0 <= u < t :: !(s.tokens[u].status.Active? && s.tokens[u].node == s.tasks[k].node))
  }

  lemma {:induction false} FirstWaits(tokens: seq<Token>, n: NodeId, from: nat, t: nat)
    requires from <= t < |tokens| && tokens[t].status.Active? && tokens[t].node == n
    requires forall u | from <= u < t :: !(tokens[u].status.Active? && tokens[u].node == n)
    ensures FirstWaiting(tokens, n, from) == Some(t)
    decreases t - from
  {
    if from < t {
      FirstWaits(tokens, n, from + 1, t);
    }
  }

  /** Before its token moves an action has completed the task in the user's name, consumed the task's token, put one with the
      same branch on the target, and logged who did what from where to where. */
  lemma EntryWrites(env: Env, s: State, user: User, req: Request, k: nat, e: Edge, t: nat)
    requires k < |s.tasks| && StandsFor(s, k, t)
    requires req.idempotencyKey.Some? ==>
               req.idempotencyKey.value !in env.otherKeys && forall i | 0 <= i < |s.log| :: s.log[i].idempotencyKey != req.idempotencyKey
    ensures var r := Entry(env, s, user, req, Admission(k, e));
            && r.Ok? && r.value.1 == |s.tokens|
            && var after := r.value.0;
            && after.tokens == s.tokens[t := s.tokens[t].(status := Consumed, consumedAt := Some(env.now))]
                               + [Token(e.target, Active, s.tokens[t].branchKey, None)]
            && after.log == s.log + [LogEntry(Some(k), Some(user.id), req.actionKey, Some(s.tasks[k].node), Some(e.target),
                                              req.payload, req.idempotencyKey)]
            && after.tasks == s.tasks[k := s.tasks[k].(
                 status := Completed, claimedBy := Some(user.id), completedAt := Some(env.now),
                 assignments := if user.id in s.tasks[k].assignments then s.tasks[k].assignments[user.id := Assignee]
                                else s.tasks[k].assignments)]
  {
    if s.tasks[k].tokenId.None? {
      FirstWaits(s.tokens, s.tasks[k].node, 0, t);
    }
  }

  /** A task without an active token of its own, and an identifier that is taken, are refused. */
  lemma EntryRefuses(env: Env, s: State, user: User, req: Request, k: nat, e: Edge)
    requires k < |s.tasks|
    ensures var r := Entry(env, s, user, req, Admission(k, e));
            && ((forall t: nat :: !StandsFor(s, k, t)) ==> r == Err(TokenNotActive))
            && ((exists t: nat :: StandsFor(s, k, t)) && req.idempotencyKey.Some?
                && (req.idempotencyKey.value in env.otherKeys || exists i | 0 <= i < |s.log| :: s.log[i].idempotencyKey == req.idempotencyKey)
                ==> r == Err(DuplicateKey))
  {
    if t: nat :| StandsFor(s, k, t) {
      if s.tasks[k].tokenId.None? {
        FirstWaits(s.tokens, s.tasks[k].node, 0, t);
      }
    } else if s.tasks[k].tokenId.None? {
      NoneWaits(s.tokens, s.tasks[k].node, 0, s, k);
    } else if s.tasks[k].tokenId.value < |s.tokens| {
      assert !StandsFor(s, k, s.tasks[k].tokenId.value);
    }
  }

  lemma {:induction false} NoneWaits(tokens: seq<Token>, n: NodeId, from: nat, s: State, k: nat)
    requires from <= |tokens| && tokens == s.tokens && k < |s.tasks| && s.tasks[k].tokenId.None? && s.tasks[k].node == n
    requires forall t: nat :: !StandsFor(s, k, t)
    requires forall u | 0 <= u < from :: !(tokens[u].status.Active? && tokens[u].node == n)
    ensures FirstWaiting(tokens, n, from).None?
    decreases |tokens| - from
  {
    if from < |tokens| {
      assert !StandsFor(s, k, from);
      NoneWaits(tokens, n, from + 1, s, k);
    }
  }

  /** And all of it is still there when the token and its branches have stopped: other tasks that were there are as they
      were, and the log only grows. */
  lemma PerformWrites(g: Graph, env: Env, s: State, user: User, req: Request, k: nat, e: Edge, t: nat)
    requires g.Closed() && e in g.edges && Admit(g, env.context, s, user, req) == Ok(Admission(k, e)) && StandsFor(s, k, t)
    requires !Repeated(env, s, req) && req.idempotencyKey != Some("") && Perform(g, env, s, user, req).Ok?
    ensures var after := Perform(g, env, s, user, req).value;
            && |s.tasks| <= |after.tasks| && (forall j | 0 <= j < |s.tasks| && j != k :: after.tasks[j] == s.tasks[j])
            && after.tasks[k].status == Completed && after.tasks[k].claimedBy == Some(user.id)
            && after.tasks[k].completedAt == Some(env.now)
            && |s.log| < |after.log| && after.log[..|s.log|] == s.log
            && after.log[|s.log|] == LogEntry(Some(k), Some(user.id), req.actionKey, Some(s.tasks[k].node), Some(e.target), req.payload,
                                              req.idempotencyKey)
            && |s.tokens| < |after.tokens| && after.tokens[t].status == Consumed && after.tokens[t].consumedAt == Some(env.now)
            && after.tokens[|s.tokens|].node == e.target && after.tokens[|s.tokens|].branchKey == s.tokens[t].branchKey
  {
    RepeatedIs(env, s, req);
    EntryWrites(env, s, user, req, k, e, t);
    hide Entry, Admit, Activate, Replayed, Repeated, StandsFor, Graph.Closed;
    var (entered, moving) := Entry(env, s, user, req, Admission(k, e)).value;
    assert moving in ActiveTokens(entered.tokens);
    EngineHistory.ActivateLater(g, env, entered, moving, 1);
    var moved := Activate(g, env, entered, moving, 1).value;
    assert Perform(g, env, s, user, req) == Ok(Refresh(moved, env.now));
    hide Perform;
    assert entered.tasks <= moved.tasks && entered.log <= moved.log && EngineHistory.TokensOnlyConsumed(entered.tokens, moved.tokens);
    hide EngineHistory.Later;
    assert Refresh(moved, env.now).tasks == moved.tasks && Refresh(moved, env.now).log == moved.log
           && Refresh(moved, env.now).tokens == moved.tokens;
  }

  /** Then the stored instance says: completed and cleared without tokens left, else blocked while a task is blocked, else
      running; and where the one token is, if there is one. */
  lemma RefreshLaw(s: State, now: int)
    ensures var row := Refresh(s, now).row;
            && (if forall u: nat | u < |s.tokens| :: s.tokens[u].status.Consumed? then row == Instance(InstanceCompleted, None, Some(now))
                else
                  && row.status == (if exists k: nat :: k < |s.tasks| && s.tasks[k].status.Blocked? then InstanceBlocked else Running)
                  && row.completedAt == s.row.completedAt
                  && (forall u: nat | u < |s.tokens| && ActiveTokens(s.tokens) == {u} :: row.currentNode == Some(s.tokens[u].node))
                  && (|ActiveTokens(s.tokens)| > 1 ==> row.currentNode == s.row.currentNode))
  {
    if forall u: nat | u < |s.tokens| :: s.tokens[u].status.Consumed? {
      assert ActiveTokens(s.tokens) == {};
    } else {
      var u: nat :| u < |s.tokens| && !s.tokens[u].status.Consumed?;
      assert u in ActiveTokens(s.tokens);
      assert FirstActive(s.tokens, 0) in ActiveTokens(s.tokens);
    }
  }

  /** Only a node of the type can be started on; there nothing but the recursion can fail. */
  lemma StartRefused(g: Graph, env: Env, start: NodeId, actor: Option<UserId>)
    ensures !(start in g.nodes && g.nodes[start].kind == NodeType.Start) ==> StartInstance(g, env, start, actor) == Err(NoStart)
    ensures start in g.nodes && g.nodes[start].kind == NodeType.Start && StartInstance(g, env, start, actor).Err? ==>
              StartInstance(g, env, start, actor).error in {AutomaticLoop, NodeMissing}
  {
    if start in g.nodes && g.nodes[start].kind.Start? && StartInstance(g, env, start, actor).Err? {
      ActivateFails(g, env, Fresh(start, actor), 0, 0);
    }
  }

  /** A start puts one token on the start node, logs who started, and has no task yet. */
  lemma StartWrites(start: NodeId, actor: Option<UserId>)
    ensures var s := Fresh(start, actor);
            && s.tokens == [Token(start, Active, None, None)] && s.tasks == []
            && s.log == [LogEntry(None, actor, "started", None, Some(start), map[], None)]
            && s.row == Instance(Running, Some(start), None) == s.entity
  {
  }
}
