/** What the validator accepts, in terms of the submitted values and of counts. */
module ValidatorLaws {
  import opened Outcomes
  import opened Json
  import opened WorkflowGraph
  import opened GraphInput
  import opened GraphValidator
  import ActionKeys
  import ActionLaws
  import Conditions
  import Text

  // ---------------------------------------------------------------------- rules

  predicate Letter(c: char) {
    'a' <= c <= 'z' || 'A' <= c <= 'Z' || '0' <= c <= '9'
  }

  /** The pattern `^[a-zA-Z0-9][a-zA-Z0-9_.-]{0,79}$`. */
  predicate KeyPattern(s: string) {
    && 1 <= |s| <= 80 && Letter(s[0])
    && forall i | 0 <= i < |s| :: Letter(s[i]) || s[i] == '_' || s[i] == '.' || s[i] == '-'
  }

  lemma KeyPatternIs(s: string)
    ensures IsVariableKey(s) <==> KeyPattern(s)
  {
    forall c: char
      ensures c in "_.-" <==> c == '_' || c == '.' || c == '-'
    {
      assert "_.-"[0] == '_' && "_.-"[1] == '.' && "_.-"[2] == '-';
    }
    assert forall i | 0 <= i < |s| :: s[i] in s;
  }

  /** A rule names its variable well if it names one. Users, roles, positions and units need a subject, request fields a field,
      unless a variable is named. */
  predicate RuleTaken(r: RuleInput) {
    && (r.variableKey.Some? ==> KeyPattern(r.variableKey.value))
    && (r.variableKey.None? && (r.kind == ByUser || r.kind == ByRole || r.kind == ByPosition || r.kind == ByOrganizationUnit) ==>
          r.subjectId.Some? && r.subjectId.value != "")
    && (r.variableKey.None? && r.kind == ByRequestField ==> r.fieldKey.Some? && r.fieldKey.value != "")
  }

  lemma RuleLaw(r: RuleInput)
    ensures RuleFits(r) <==> RuleTaken(r)
  {
    if r.variableKey.Some? {
      KeyPatternIs(r.variableKey.value);
    }
    hide IsVariableKey;
  }

  // ---------------------------------------------------------------- permissions

  predicate PermissionsTaken(config: Record) {
    if "requiredPermissions" in config && config["requiredPermissions"] != Undefined then
      var listed := config["requiredPermissions"];
      && listed.Arr? && |listed.items| <= 20
      && forall v | v in listed.items :: v.Str? && ActionLaws.Pattern(v.s)
    else if "requiredPermission" in config && config["requiredPermission"] != Undefined then
      config["requiredPermission"].Str? && ActionLaws.Pattern(config["requiredPermission"].s)
    else true
  }

  lemma PermissionsLaw(n: NodeInput)
    ensures PermissionsFit(n) <==> (n.config.Some? ==> PermissionsTaken(n.config.value))
  {
    hide ActionLaws.Pattern, InstanceActions.IsPermissionName;
    forall v: Value | v.Str?
      ensures IsPermission(v) <==> ActionLaws.Pattern(v.s)
    {
      ActionLaws.PatternIs(v.s);
    }
    hide IsPermission;
    var listed := PermissionList(n);
    if listed.Arr? {
      assert forall i | 0 <= i < |listed.items| :: listed.items[i] in listed.items;
      assert (forall v | v in listed.items :: IsPermission(v)) <==> forall i | 0 <= i < |listed.items| :: IsPermission(listed.items[i]);
    }
    if n.config.Some? && !("requiredPermissions" in n.config.value && n.config.value["requiredPermissions"] != Undefined)
       && "requiredPermission" in n.config.value && n.config.value["requiredPermission"] != Undefined {
      assert listed.items[0] == n.config.value["requiredPermission"];
    }
  }

  // ---------------------------------------------------------------------- forms

  /** The six kinds of form fields, also where a list of one element stands for its element. */
  predicate NamesType(v: Value) {
    || v == Str("text") || v == Str("textarea") || v == Str("number") || v == Str("boolean") || v == Str("date") || v == Str("select")
    || (v.Arr? && |v.items| == 1 && NamesType(v.items[0]))
  }

  lemma {:induction false} NamesTypeIs(v: Value)
    ensures InstanceActions.TypeName(v) in FIELD_TYPES <==> NamesType(v)
  {
    assert FIELD_TYPES[0] == "text" && FIELD_TYPES[1] == "textarea" && FIELD_TYPES[2] == "number" && FIELD_TYPES[3] == "boolean"
           && FIELD_TYPES[4] == "date" && FIELD_TYPES[5] == "select";
    if v.Arr? && |v.items| == 1 {
      NamesTypeIs(v.items[0]);
    }
  }

  /** A field is an object with a key and a known type; a choice lists its options. */
  predicate FieldTaken(v: Value) {
    && v.Obj?
    && "key" in v.fields && v.fields["key"].Str? && KeyPattern(v.fields["key"].s)
    && "type" in v.fields && NamesType(v.fields["type"])
    && (v.fields["type"] == Str("select") ==>
          && "options" in v.fields && v.fields["options"].Arr?
          && forall o | o in v.fields["options"].items :: o.Str?)
  }

  function KeyText(field: Value): string {
    if field.Obj? && "key" in field.fields && field.fields["key"].Str? then field.fields["key"].s else ""
  }

  lemma FieldLaw(v: Value)
    ensures FieldFits(v) <==> FieldTaken(v)
    ensures FieldTaken(v) ==> Field(v, "key") == Str(KeyText(v))
  {
    NamesTypeIs(Field(v, "type"));
    if Field(v, "key").Str? {
      KeyPatternIs(Field(v, "key").s);
    }
    hide IsVariableKey, KeyPattern;
    var options := Field(v, "options");
    if options.Arr? {
      assert forall i | 0 <= i < |options.items| :: options.items[i] in options.items;
    }
  }

  predicate FormTaken(config: Record) {
    "formFields" in config && config["formFields"] != Undefined ==>
      var form := config["formFields"];
      && form.Arr? && (forall v | v in form.items :: FieldTaken(v))
      && forall i, j | 0 <= i < j < |form.items| :: KeyText(form.items[i]) != KeyText(form.items[j])
  }

  lemma FormLaw(n: NodeInput)
    ensures FormFits(ConfigField(n, "formFields")) <==> (n.config.Some? ==> FormTaken(n.config.value))
  {
    hide FieldTaken, FieldFits;
    var form := ConfigField(n, "formFields");
    if form.Arr? {
      forall i | 0 <= i < |form.items|
        ensures form.items[i] in form.items && (FieldFits(form.items[i]) <==> FieldTaken(form.items[i]))
        ensures FieldTaken(form.items[i]) ==> Field(form.items[i], "key") == Str(KeyText(form.items[i]))
      {
        FieldLaw(form.items[i]);
      }
    }
  }

  /** One node on its own. */
  predicate NodeTaken(n: NodeInput) {
    && (n.kind == HumanTask ==> |n.assignees| >= 1)
    && (forall r | r in n.assignees :: RuleTaken(r))
    && (n.config.Some? ==> PermissionsTaken(n.config.value) && FormTaken(n.config.value))
  }

  lemma NodeLaw(n: NodeInput)
    ensures NodeFits(n) <==> NodeTaken(n)
  {
    hide RuleFits, RuleTaken, PermissionsFit, FormFits, PermissionsTaken, FormTaken;
    forall r | r in n.assignees
      ensures RuleFits(r) <==> RuleTaken(r)
    {
      RuleLaw(r);
    }
    PermissionsLaw(n);
    FormLaw(n);
  }

  // ----------------------------------------------------------------- the graph

  /** The transitions that leave a node, and those that enter it, by position. */
  function Leaving(ts: seq<TransitionInput>, key: string): set<nat> {
    set i: nat | i < |ts| && ts[i].sourceKey == key
  }

  function Entering(ts: seq<TransitionInput>, key: string): set<nat> {
    set i: nat | i < |ts| && ts[i].targetKey == key
  }

  predicate DegreesTaken(n: NodeInput, ts: seq<TransitionInput>) {
    match n.kind
    case Start => |Entering(ts, n.key)| == 0 && |Leaving(ts, n.key)| >= 1
    case HumanTask => |Leaving(ts, n.key)| >= 1
    case ServiceTask => |Leaving(ts, n.key)| >= 1
    case Condition => |Leaving(ts, n.key)| >= 1 && forall i | i in Leaving(ts, n.key) :: ts[i].condition.Some?
    case ParallelSplit => |Leaving(ts, n.key)| >= 2
    case ParallelJoin => |Entering(ts, n.key)| >= 2
    case End => |Leaving(ts, n.key)| == 0
  }

  lemma SomeOf(s: set<nat>)
    ensures |s| >= 1 <==> exists i :: i in s
    ensures |s| >= 2 <==> exists i, j :: i in s && j in s && i < j
  {
    if |s| >= 1 {
      var i :| i in s;
      var rest := s - {i};
      assert s == rest + {i};
      if |s| >= 2 {
        var j :| j in rest;
        assert if i < j then i in s && j in s else j in s && i in s;
      }
    }
    if i, j :| i in s && j in s && i < j {
      assert {i, j} <= s;
      assert s == {i, j} + (s - {i, j});
    }
  }

  lemma DegreesLaw(n: NodeInput, ts: seq<TransitionInput>)
    ensures DegreesFit(n, ts) <==> DegreesTaken(n, ts)
  {
    SidesCount(ts, n.key);
    hide SomeAt, TwoAt;
    if n.kind.Condition? {
      assert forall i | i in Leaving(ts, n.key) :: ts[i] in ts;
      forall t | t in ts && t.sourceKey == n.key
        ensures exists i :: i in Leaving(ts, n.key) && ts[i] == t
      {
        var i: nat :| i < |ts| && ts[i] == t;
        assert i in Leaving(ts, n.key);
      }
    }
  }

  lemma SidesCount(ts: seq<TransitionInput>, key: string)
    ensures SomeAt(ts, Source, key) <==> |Leaving(ts, key)| >= 1
    ensures SomeAt(ts, Target, key) <==> |Entering(ts, key)| >= 1
    ensures TwoAt(ts, Source, key) <==> |Leaving(ts, key)| >= 2
    ensures TwoAt(ts, Target, key) <==> |Entering(ts, key)| >= 2
  {
    var out, into := Leaving(ts, key), Entering(ts, key);
    SomeOf(out);
    SomeOf(into);
    assert forall i: nat | i < |ts| :: (i in out <==> EndKey(ts[i], Source) == key) && (i in into <==> EndKey(ts[i], Target) == key);
  }

  /** A walk along transitions, by node keys. */
  predicate Walk(ts: seq<TransitionInput>, p: seq<string>) {
    && p != []
    && forall i | 0 <= i < |p| - 1 :: exists t | t in ts :: t.sourceKey == p[i] && t.targetKey == p[i + 1]
  }

  lemma {:induction false} WalkIsChain(ts: seq<TransitionInput>, p: seq<string>)
    ensures Walk(ts, p) <==> Chain(ts, p)
    decreases |p|
  {
    if |p| > 1 {
      var front := p[..|p| - 1];
      WalkIsChain(ts, front);
      assert Walk(ts, p) <==> Walk(ts, front) && Linked(ts, p[|p| - 2], p[|p| - 1]) by {
        hide Chain;
        assert forall i | 0 <= i < |front| :: front[i] == p[i];
        if Walk(ts, p) {
          assert Linked(ts, p[|p| - 2], p[|p| - 2 + 1]);
        }
      }
    }
  }

  function Starts(nodes: seq<NodeInput>): set<nat> {
    set i: nat | i < |nodes| && nodes[i].kind == Start
  }

  ghost predicate WalkTo(ts: seq<TransitionInput>, a: string, b: string) {
    exists p :: Walk(ts, p) && p[0] == a && p[|p| - 1] == b
  }

  ghost predicate JoinsNodes(nodes: seq<NodeInput>, t: TransitionInput) {
    exists a, b :: a in nodes && b in nodes && a.key == t.sourceKey && b.key == t.targetKey
  }

  /** A graph that is accepted: no key twice, every node in order, one start from which walks lead everywhere, an end,
      transitions between its nodes with conditions of a known shape, and no action twice at one node. */
  ghost predicate GraphTaken(nodes: seq<NodeInput>, ts: seq<TransitionInput>) {
    && (forall i, j | 0 <= i < j < |nodes| :: nodes[i].key != nodes[j].key)
    && (forall n | n in nodes :: NodeTaken(n) && DegreesTaken(n, ts))
    && |Starts(nodes)| == 1
    && (forall s, n | s in Starts(nodes) && n in nodes :: WalkTo(ts, nodes[s].key, n.key))
    && (exists n :: n in nodes && n.kind == End)
    && (forall t | t in ts :: JoinsNodes(nodes, t) && (t.condition.Some? ==> Conditions.ShapeValid(t.condition.value)))
    && forall i, j | 0 <= i < j < |ts| :: ts[i].sourceKey != ts[j].sourceKey || ts[i].actionKey != ts[j].actionKey
  }

  lemma WalkLaw(ts: seq<TransitionInput>, a: string, b: string)
    ensures Reaches(ts, a, b) <==> WalkTo(ts, a, b)
  {
    assert forall p | Walk(ts, p) :: p != [];
    hide Walk, Chain;
    forall p
      ensures Walk(ts, p) <==> Chain(ts, p)
    {
      WalkIsChain(ts, p);
    }
  }

  lemma StartLaw(nodes: seq<NodeInput>)
    ensures (exists s: nat :: StartsAt(nodes, s)) <==> |Starts(nodes)| == 1
    ensures forall s: nat | StartsAt(nodes, s) :: s < |nodes| && Starts(nodes) == {s}
  {
    if |Starts(nodes)| == 1 {
      var s :| s in Starts(nodes);
      assert Starts(nodes) == {s} + (Starts(nodes) - {s}) && Starts(nodes) - {s} == {};
      assert forall i: nat | i < |nodes| && nodes[i].kind.Start? :: i in Starts(nodes);
      assert StartsAt(nodes, s);
    }
    forall s: nat | StartsAt(nodes, s)
      ensures s < |nodes| && Starts(nodes) == {s}
    {
      assert nodes[s].kind.Start?;
    }
  }

  /** The validator's verdict, by that description. */
  lemma GraphLaw(nodes: seq<NodeInput>, ts: seq<TransitionInput>)
    ensures WellFormed(nodes, ts) <==> GraphTaken(nodes, ts)
  {
    hide NodeFits, NodeTaken, DegreesFit, DegreesTaken, Reaches, WalkTo, StartsAt, Starts;
    forall n
      ensures (NodeFits(n) <==> NodeTaken(n)) && (DegreesFit(n, ts) <==> DegreesTaken(n, ts))
    {
      NodeLaw(n);
      DegreesLaw(n, ts);
    }
    forall a, b
      ensures Reaches(ts, a, b) <==> WalkTo(ts, a, b)
    {
      WalkLaw(ts, a, b);
    }
    StartLaw(nodes);
    if |Starts(nodes)| == 1 {
      var s: nat :| StartsAt(nodes, s);
      assert forall s': nat | StartsAt(nodes, s') :: s' in {s};
      assert forall n | n in nodes :: Reaches(ts, nodes[s].key, n.key) <==> WalkTo(ts, nodes[s].key, n.key);
    }
    TransitionsLaw(nodes, ts);
    hide JoinsNodes, Known;
  }

  lemma TransitionsLaw(nodes: seq<NodeInput>, ts: seq<TransitionInput>)
    ensures forall t: TransitionInput :: Known(nodes, t.sourceKey) && Known(nodes, t.targetKey) <==> JoinsNodes(nodes, t)
    ensures ActionKeys.DistinctKeys(ts)
            <==> forall i, j | 0 <= i < j < |ts| :: ts[i].sourceKey != ts[j].sourceKey || ts[i].actionKey != ts[j].actionKey
  {
  }
}
