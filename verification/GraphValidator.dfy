/** The graph validator: what it accepts, said without loops, and the loops that decide it. */
module GraphValidator {
  import opened Outcomes
  import opened Json
  import opened WorkflowGraph
  import opened GraphInput
  import opened InstanceActions
  import ActionKeys
  import Conditions
  import Text

  datatype GraphError =
    | DuplicateNodeKey(key: string) | NoAssignees(name: string) | BadVariableKey(name: string)
    | MissingSubject(name: string) | MissingFieldKey(name: string) | BadPermissions(name: string)
    | BadForm(name: string) | BadField(name: string) | BadFieldKey(name: string) | DuplicateFieldKey(name: string)
    | BadFieldType(name: string) | BadOptions(name: string)
    | WrongStartCount | NoEnd
    | UnknownSource(key: string) | UnknownTarget(key: string) | DuplicateAction(source: string) | BadCondition(source: string)
    | Unreachable(name: string)
    | StartHasIncoming | EndHasOutgoing(name: string) | NoWayOn(name: string)
    | TooFewBranches(name: string) | TooFewInputs(name: string) | UnconditionalBranch(name: string)

  // ------------------------------------------------------------- one node

  predicate IsVariableKey(s: string) {
    |s| <= 80 && Text.StartsAlnum(s, true) && Text.AllTail(s, "_.-", true)
  }

  predicate VariableKeyFits(r: RuleInput) {
    r.variableKey.Some? ==> IsVariableKey(r.variableKey.value)
  }

  predicate SubjectFits(r: RuleInput) {
    r.kind in {ByUser, ByRole, ByPosition, ByOrganizationUnit} ==> Given(r.subjectId) || Given(r.variableKey)
  }

  predicate FieldKeyFits(r: RuleInput) {
    r.kind.ByRequestField? ==> Given(r.fieldKey) || Given(r.variableKey)
  }

  predicate RuleFits(r: RuleInput) {
    VariableKeyFits(r) && SubjectFits(r) && FieldKeyFits(r)
  }

  function ConfigField(n: NodeInput, key: string): Value {
    if n.config.Some? then Lookup(n.config.value, key) else Undefined
  }

  predicate IsPermission(v: Value) {
    v.Str? && IsPermissionName(v.s)
  }

  /** The configured permissions, or else the one of the older setting. */
  function PermissionList(n: NodeInput): Value {
    var configured := ConfigField(n, "requiredPermissions");
    var legacy := ConfigField(n, "requiredPermission");
    if !configured.Undefined? then configured else if legacy.Undefined? then Arr([]) else Arr([legacy])
  }

  predicate PermissionsFit(n: NodeInput) {
    var checked := PermissionList(n);
    checked.Arr? && |checked.items| <= 20 && forall i | 0 <= i < |checked.items| :: IsPermission(checked.items[i])
  }

  const FIELD_TYPES := ["text", "textarea", "number", "boolean", "date", "select"]

  predicate HasFieldKey(field: Value) {
    Field(field, "key").Str? && IsVariableKey(Field(field, "key").s)
  }

  predicate OptionsFit(field: Value) {
    Field(field, "type") == Str("select") ==>
      var options := Field(field, "options");
      options.Arr? && forall i | 0 <= i < |options.items| :: options.items[i].Str?
  }

  predicate FieldFits(field: Value) {
    IsObject(field) && HasFieldKey(field) && TypeName(Field(field, "type")) in FIELD_TYPES && OptionsFit(field)
  }

  predicate FieldKeysDistinct(fields: seq<Value>) {
    forall i, j | 0 <= i < j < |fields| :: Field(fields[i], "key") != Field(fields[j], "key")
  }

  predicate FormFits(form: Value) {
    form.Undefined? ||
    (form.Arr? && (forall i | 0 <= i < |form.items| :: FieldFits(form.items[i])) && FieldKeysDistinct(form.items))
  }

  predicate NodeFits(n: NodeInput) {
    && (n.kind.HumanTask? ==> n.assignees != [])
    && (forall r | r in n.assignees :: RuleFits(r))
    && PermissionsFit(n)
    && FormFits(ConfigField(n, "formFields"))
  }

  // --------------------------------------------------------- the whole graph

  ghost predicate UniqueKeys(nodes: seq<NodeInput>) {
    forall i, j | 0 <= i < j < |nodes| :: nodes[i].key != nodes[j].key
  }

  ghost predicate Known(nodes: seq<NodeInput>, key: string) {
    exists n :: n in nodes && n.key == key
  }

  /** Position `s` holds the one start node. */
  ghost predicate StartsAt(nodes: seq<NodeInput>, s: nat) {
    s < |nodes| && forall i | 0 <= i < |nodes| :: nodes[i].kind.Start? <==> i == s
  }

  predicate TransitionFits(t: TransitionInput) {
    t.condition.Some? ==> Conditions.ShapeValid(t.condition.value)
  }

  ghost predicate Linked(ts: seq<TransitionInput>, a: string, b: string) {
    exists t :: t in ts && t.sourceKey == a && t.targetKey == b
  }

  ghost predicate Chain(ts: seq<TransitionInput>, p: seq<string>) {
    p != [] && (|p| > 1 ==> Linked(ts, p[|p| - 2], p[|p| - 1]) && Chain(ts, p[..|p| - 1]))
  }

  /** There is a path of transitions from `a` to `b`. */
  ghost predicate Reaches(ts: seq<TransitionInput>, a: string, b: string) {
    exists p :: Chain(ts, p) && p[0] == a && p[|p| - 1] == b
  }

  datatype Side = Source | Target

  function EndKey(t: TransitionInput, side: Side): string {
    if side.Source? then t.sourceKey else t.targetKey
  }

  /** Some transition has the node at this end. */
  ghost predicate SomeAt(ts: seq<TransitionInput>, side: Side, key: string) {
    exists i | 0 <= i < |ts| :: EndKey(ts[i], side) == key
  }

  /** At least two transitions have the node at this end. */
  ghost predicate TwoAt(ts: seq<TransitionInput>, side: Side, key: string) {
    exists i, j | 0 <= i < j < |ts| :: EndKey(ts[i], side) == key && EndKey(ts[j], side) == key
  }

  ghost predicate DegreesFit(n: NodeInput, ts: seq<TransitionInput>) {
    && (n.kind.Start? ==> !SomeAt(ts, Target, n.key))
    && (n.kind.End? ==> !SomeAt(ts, Source, n.key))
    && (!n.kind.End? && !n.kind.ParallelJoin? ==> SomeAt(ts, Source, n.key))
    && (n.kind.ParallelSplit? ==> TwoAt(ts, Source, n.key))
    && (n.kind.ParallelJoin? ==> TwoAt(ts, Target, n.key))
    && (n.kind.Condition? ==> forall t | t in ts && t.sourceKey == n.key :: t.condition.Some?)
  }

  /** The rules of a workflow graph. */
  ghost predicate WellFormed(nodes: seq<NodeInput>, ts: seq<TransitionInput>) {
    && UniqueKeys(nodes)
    && (forall n | n in nodes :: NodeFits(n) && DegreesFit(n, ts))
    && (exists s: nat :: StartsAt(nodes, s) && forall n | n in nodes :: Reaches(ts, nodes[s].key, n.key))
    && (exists n :: n in nodes && n.kind.End?)
    && (forall t | t in ts :: Known(nodes, t.sourceKey) && Known(nodes, t.targetKey) && TransitionFits(t))
    && ActionKeys.DistinctKeys(ts)
  }

  // -------------------------------------------------------------- the checks

  method CheckRule(n: NodeInput, r: RuleInput) returns (errors: seq<GraphError>)
    ensures errors == [] <==> RuleFits(r)
  {
    errors := [];
    if !VariableKeyFits(r) {
      errors := errors + [BadVariableKey(n.name)];
    }
    if !SubjectFits(r) {
      errors := errors + [MissingSubject(n.name)];
    }
    if !FieldKeyFits(r) {
      errors := errors + [MissingFieldKey(n.name)];
    }
  }

  method CheckForm(n: NodeInput) returns (errors: seq<GraphError>)
    ensures errors == [] <==> FormFits(ConfigField(n, "formFields"))
  {
    errors := [];
    var form := ConfigField(n, "formFields");
    if form.Undefined? {
      return;
    }
    if !form.Arr? {
      return [BadForm(n.name)];
    }
    var fieldKeys: set<string> := {};
    for i := 0 to |form.items|
      invariant errors == [] <==> (forall j | 0 <= j < i :: FieldFits(form.items[j])) && FieldKeysDistinct(form.items[..i])
      invariant forall k :: k in fieldKeys <==>
                  exists j | 0 <= j < i :: IsObject(form.items[j]) && HasFieldKey(form.items[j]) && Field(form.items[j], "key").s == k
    {
      var field := form.items[i];
      assert form.items[..i + 1] == form.items[..i] + [field];
      if !IsObject(field) {
        errors := errors + [BadField(n.name)];
        continue;
      }
      if !HasFieldKey(field) {
        errors := errors + [BadFieldKey(n.name)];
      } else if Field(field, "key").s in fieldKeys {
        errors := errors + [DuplicateFieldKey(n.name)];
      } else {
        fieldKeys := fieldKeys + {Field(field, "key").s};
      }
      if TypeName(Field(field, "type")) !in FIELD_TYPES {
        errors := errors + [BadFieldType(n.name)];
      }
      if !OptionsFit(field) {
        errors := errors + [BadOptions(n.name)];
      }
    }
    assert form.items[..|form.items|] == form.items;
  }

  method CheckNode(n: NodeInput) returns (errors: seq<GraphError>)
    ensures errors == [] <==> NodeFits(n)
  {
    errors := [];
    if n.kind.HumanTask? && n.assignees == [] {
      errors := errors + [NoAssignees(n.name)];
    }
    ghost var human := errors == [];
    for i := 0 to |n.assignees|
      invariant errors == [] <==> human && forall j | 0 <= j < i :: RuleFits(n.assignees[j])
    {
      var found := CheckRule(n, n.assignees[i]);
      errors := errors + found;
    }
    if !PermissionsFit(n) {
      errors := errors + [BadPermissions(n.name)];
    }
    var form := CheckForm(n);
    errors := errors + form;
  }

  method CheckNodes(nodes: seq<NodeInput>) returns (errors: seq<GraphError>, keys: set<string>)
    ensures errors == [] <==> UniqueKeys(nodes) && forall n | n in nodes :: NodeFits(n)
    ensures forall k :: k in keys <==> Known(nodes, k)
  {
    errors, keys := [], {};
    for i := 0 to |nodes|
      invariant errors == [] <==> UniqueKeys(nodes[..i]) && forall j | 0 <= j < i :: NodeFits(nodes[j])
      invariant forall k :: k in keys <==> exists j | 0 <= j < i :: nodes[j].key == k
    {
      var n := nodes[i];
      assert nodes[..i + 1] == nodes[..i] + [n];
      if n.key in keys {
        errors := errors + [DuplicateNodeKey(n.key)];
      }
      keys := keys + {n.key};
      var found := CheckNode(n);
      errors := errors + found;
    }
    assert nodes[..|nodes|] == nodes;
  }

  function EdgeKey(t: TransitionInput): string
    requires t.actionKey.Some?
  {
    t.sourceKey + ":" + t.actionKey.value
  }

  method CheckTransitions(ts: seq<TransitionInput>, keys: set<string>) returns (errors: seq<GraphError>)
    requires forall t | t in ts :: t.actionKey.Some?
    requires forall k | k in keys :: ':' !in k
    ensures errors == [] <==>
            && (forall t | t in ts :: t.sourceKey in keys && t.targetKey in keys && TransitionFits(t))
            && ActionKeys.DistinctKeys(ts)
  {
    errors := [];
    var edgeKeys: set<string> := {};
    for i := 0 to |ts|
      invariant errors == [] <==>
                && (forall j | 0 <= j < i :: ts[j].sourceKey in keys && ts[j].targetKey in keys && TransitionFits(ts[j]))
                && forall j, k | 0 <= j < k < i :: EdgeKey(ts[j]) != EdgeKey(ts[k])
      invariant forall e :: e in edgeKeys <==> exists j | 0 <= j < i :: EdgeKey(ts[j]) == e
    {
      var t := ts[i];
      if t.sourceKey !in keys {
        errors := errors + [UnknownSource(t.sourceKey)];
      }
      if t.targetKey !in keys {
        errors := errors + [UnknownTarget(t.targetKey)];
      }
      var edgeKey := EdgeKey(t);
      if edgeKey in edgeKeys {
        errors := errors + [DuplicateAction(t.sourceKey)];
      }
      edgeKeys := edgeKeys + {edgeKey};
      if t.condition.Some? && !Conditions.ShapeValid(t.condition.value) {
        errors := errors + [BadCondition(t.sourceKey)];
      }
    }
    if forall t | t in ts :: t.sourceKey in keys {
      EdgeKeysDistinct(ts);
    }
  }

  /** Joined with a colon, source and action stay apart because node keys hold no colon. */
  lemma EdgeKeysDistinct(ts: seq<TransitionInput>)
    requires forall t | t in ts :: t.actionKey.Some? && ':' !in t.sourceKey
    ensures (forall j, k | 0 <= j < k < |ts| :: EdgeKey(ts[j]) != EdgeKey(ts[k])) <==> ActionKeys.DistinctKeys(ts)
  {
    forall j, k | 0 <= j < k < |ts|
      ensures EdgeKey(ts[j]) == EdgeKey(ts[k]) <==> ts[j].sourceKey == ts[k].sourceKey && ts[j].actionKey == ts[k].actionKey
    {
      if EdgeKey(ts[j]) == EdgeKey(ts[k]) {
        Text.HeadUnambiguous(ts[j].sourceKey, ts[j].actionKey.value, ts[k].sourceKey, ts[k].actionKey.value, ':');
      }
    }
  }

  // ------------------------------------------------------------ reachability

  lemma ReachesSelf(ts: seq<TransitionInput>, a: string)
    ensures Reaches(ts, a, a)
  {
    assert Chain(ts, [a]);
  }

  lemma ReachesNext(ts: seq<TransitionInput>, a: string, t: TransitionInput)
    requires t in ts && Reaches(ts, a, t.sourceKey)
    ensures Reaches(ts, a, t.targetKey)
  {
    var p :| Chain(ts, p) && p[0] == a && p[|p| - 1] == t.sourceKey;
    var longer := p + [t.targetKey];
    assert longer[..|longer| - 1] == p && Linked(ts, t.sourceKey, t.targetKey);
    assert Chain(ts, longer);
  }

  ghost predicate ClosedUnder(ts: seq<TransitionInput>, keys: set<string>) {
    forall t | t in ts :: t.sourceKey in keys ==> t.targetKey in keys
  }

  lemma {:induction false} ChainStaysInside(ts: seq<TransitionInput>, keys: set<string>, p: seq<string>)
    requires ClosedUnder(ts, keys) && Chain(ts, p) && p[0] in keys
    ensures p[|p| - 1] in keys
    decreases |p|
  {
    if |p| > 1 {
      ChainStaysInside(ts, keys, p[..|p| - 1]);
      var t :| t in ts && t.sourceKey == p[|p| - 2] && t.targetKey == p[|p| - 1];
    }
  }

  /** The `changed` loop computes exactly the nodes that some path from the start leads to. */
  method ReachableFrom(ts: seq<TransitionInput>, start: string) returns (reachable: set<string>)
    ensures forall k :: k in reachable <==> Reaches(ts, start, k)
  {
    reachable := {start};
    ReachesSelf(ts, start);
    ghost var universe := {start} + (set t | t in ts :: t.targetKey);
    var changed := true;
    while changed
      invariant start in reachable && reachable <= universe
      invariant forall k | k in reachable :: Reaches(ts, start, k)
      invariant !changed ==> ClosedUnder(ts, reachable)
      decreases universe - reachable, changed
    {
      changed := false;
      ghost var before := reachable;
      for i := 0 to |ts|
        invariant before <= reachable <= universe
        invariant if changed then before != reachable else before == reachable
        invariant !changed ==> forall j | 0 <= j < i :: ts[j].sourceKey in reachable ==> ts[j].targetKey in reachable
        invariant forall k | k in reachable :: Reaches(ts, start, k)
      {
        if ts[i].sourceKey in reachable && ts[i].targetKey !in reachable {
          ReachesNext(ts, start, ts[i]);
          reachable := reachable + {ts[i].targetKey};
          changed := true;
        }
      }
    }
    forall k | Reaches(ts, start, k)
      ensures k in reachable
    {
      var p :| Chain(ts, p) && p[0] == start && p[|p| - 1] == k;
      ChainStaysInside(ts, reachable, p);
    }
  }

  // ----------------------------------------------------------------- degrees

  function At(ts: seq<TransitionInput>, side: Side, key: string): (r: seq<TransitionInput>)
    ensures forall t :: t in r <==> t in ts && EndKey(t, side) == key
    ensures |r| >= 1 <==> SomeAt(ts, side, key)
    ensures |r| >= 2 <==> TwoAt(ts, side, key)
  {
    if ts == [] then []
    else
      var rest := At(ts[1..], side, key);
      assert ts == [ts[0]] + ts[1..];
      SomeAtCons(ts[0], ts[1..], side, key);
      TwoAtCons(ts[0], ts[1..], side, key);
      if EndKey(ts[0], side) == key then [ts[0]] + rest else rest
  }

  lemma SomeAtCons(t: TransitionInput, rest: seq<TransitionInput>, side: Side, key: string)
    ensures SomeAt([t] + rest, side, key) <==> EndKey(t, side) == key || SomeAt(rest, side, key)
  {
    var ts := [t] + rest;
    if i :| 0 <= i < |ts| && EndKey(ts[i], side) == key {
      assert i > 0 ==> ts[i] == rest[i - 1];
    }
    if i :| 0 <= i < |rest| && EndKey(rest[i], side) == key {
      assert ts[i + 1] == rest[i];
    }
    assert ts[0] == t;
  }

  lemma TwoAtCons(t: TransitionInput, rest: seq<TransitionInput>, side: Side, key: string)
    ensures TwoAt([t] + rest, side, key)
            <==> (EndKey(t, side) == key && SomeAt(rest, side, key)) || TwoAt(rest, side, key)
  {
    var ts := [t] + rest;
    if i, j :| 0 <= i < j < |ts| && EndKey(ts[i], side) == key && EndKey(ts[j], side) == key {
      assert ts[j] == rest[j - 1];
      assert i > 0 ==> ts[i] == rest[i - 1];
    }
    if i, j :| 0 <= i < j < |rest| && EndKey(rest[i], side) == key && EndKey(rest[j], side) == key {
      assert ts[i + 1] == rest[i] && ts[j + 1] == rest[j];
    }
    if EndKey(t, side) == key && SomeAt(rest, side, key) {
      var j :| 0 <= j < |rest| && EndKey(rest[j], side) == key;
      assert EndKey(ts[0], side) == key && EndKey(ts[j + 1], side) == key;
    }
  }

  method CheckDegrees(n: NodeInput, ts: seq<TransitionInput>) returns (errors: seq<GraphError>)
    ensures errors == [] <==> DegreesFit(n, ts)
  {
    errors := [];
    var outgoing := At(ts, Source, n.key);
    var incoming := At(ts, Target, n.key);
    if n.kind.Start? && incoming != [] {
      errors := errors + [StartHasIncoming];
    }
    if n.kind.End? && outgoing != [] {
      errors := errors + [EndHasOutgoing(n.name)];
    }
    if !n.kind.End? && !n.kind.ParallelJoin? && outgoing == [] {
      errors := errors + [NoWayOn(n.name)];
    }
    if n.kind.ParallelSplit? && |outgoing| < 2 {
      errors := errors + [TooFewBranches(n.name)];
    }
    if n.kind.ParallelJoin? && |incoming| < 2 {
      errors := errors + [TooFewInputs(n.name)];
    }
    if n.kind.Condition? && exists t | t in outgoing :: t.condition.None? {
      errors := errors + [UnconditionalBranch(n.name)];
    }
  }

  // --------------------------------------------------------------- the verdict

  method CheckReachability(nodes: seq<NodeInput>, ts: seq<TransitionInput>, start: string)
    returns (errors: seq<GraphError>)
    ensures errors == [] <==> forall n | n in nodes :: Reaches(ts, start, n.key)
  {
    errors := [];
    var reachable := ReachableFrom(ts, start);
    for i := 0 to |nodes|
      invariant errors == [] <==> forall j | 0 <= j < i :: Reaches(ts, start, nodes[j].key)
    {
      if nodes[i].key !in reachable {
        errors := errors + [Unreachable(nodes[i].name)];
      }
    }
  }

  lemma TwoDiffer(positions: seq<nat>, s: nat)
    requires |positions| >= 2 && forall j, k | 0 <= j < k < |positions| :: positions[j] < positions[k]
    ensures exists j :: 0 <= j < |positions| && positions[j] != s
  {
    assert positions[0] < positions[1];
  }

  /** The start nodes, by position. */
  method FindStarts(nodes: seq<NodeInput>) returns (starts: seq<nat>)
    ensures |starts| == 1 ==> StartsAt(nodes, starts[0])
    ensures (exists s: nat :: StartsAt(nodes, s)) ==> |starts| == 1
  {
    starts := [];
    for i := 0 to |nodes|
      invariant forall j | 0 <= j < |starts| :: starts[j] < i && nodes[starts[j]].kind.Start?
      invariant forall j, k | 0 <= j < k < |starts| :: starts[j] < starts[k]
      invariant forall j | 0 <= j < i && nodes[j].kind.Start? :: j in starts
    {
      if nodes[i].kind.Start? {
        starts := starts + [i];
      }
    }
    if s: nat :| StartsAt(nodes, s) {
      assert s in starts;
      if |starts| >= 2 {
        TwoDiffer(starts, s);
      }
    }
  }

  /** The rules, once the start node is known. */
  lemma WellFormedFrom(nodes: seq<NodeInput>, ts: seq<TransitionInput>, s: nat)
    requires StartsAt(nodes, s)
    ensures WellFormed(nodes, ts) <==>
            && UniqueKeys(nodes)
            && (forall n | n in nodes :: NodeFits(n)) && (forall n | n in nodes :: DegreesFit(n, ts))
            && (forall n | n in nodes :: Reaches(ts, nodes[s].key, n.key))
            && (exists n :: n in nodes && n.kind.End?)
            && (forall t | t in ts :: Known(nodes, t.sourceKey) && Known(nodes, t.targetKey) && TransitionFits(t))
            && ActionKeys.DistinctKeys(ts)
  {
  }

  method ValidateGraphInput(nodes: seq<NodeInput>, ts: seq<TransitionInput>) returns (errors: seq<GraphError>)
    requires forall n | n in nodes :: ':' !in n.key
    requires forall t | t in ts :: t.actionKey.Some?
    ensures errors == [] <==> WellFormed(nodes, ts)
  {
    hide NodeFits, DegreesFit, Reaches, TransitionFits, ActionKeys.DistinctKeys, UniqueKeys, StartsAt;
    var nodeErrors, keys := CheckNodes(nodes);
    errors := nodeErrors;
    var starts := FindStarts(nodes);
    if |starts| != 1 {
      errors := errors + [WrongStartCount];
    }
    if !exists n :: n in nodes && n.kind.End? {
      errors := errors + [NoEnd];
    }
    forall k | k in keys
      ensures ':' !in k
    {
      var n :| n in nodes && n.key == k;
    }
    var transitionErrors := CheckTransitions(ts, keys);
    errors := errors + transitionErrors;
    if |starts| == 1 {
      var unreachable := CheckReachability(nodes, ts, nodes[starts[0]].key);
      errors := errors + unreachable;
    }
    if |starts| == 1 {
      WellFormedFrom(nodes, ts, starts[0]);
    }
    ghost var before := errors;
    for i := 0 to |nodes|
      invariant errors == [] <==> before == [] && forall j | 0 <= j < i :: DegreesFit(nodes[j], ts)
    {
      var found := CheckDegrees(nodes[i], ts);
      errors := errors + found;
    }
    assert (forall n | n in nodes :: DegreesFit(n, ts)) <==> forall j | 0 <= j < |nodes| :: DegreesFit(nodes[j], ts);
    if |starts| == 1 {
      assert before == [] <==>
             && UniqueKeys(nodes) && (forall n | n in nodes :: NodeFits(n))
             && (exists n :: n in nodes && n.kind.End?)
             && (forall t | t in ts :: t.sourceKey in keys && t.targetKey in keys && TransitionFits(t))
             && ActionKeys.DistinctKeys(ts) && forall n | n in nodes :: Reaches(ts, nodes[starts[0]].key, n.key);
    } else {
      assert before != [];
    }
  }
}
