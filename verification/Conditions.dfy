/** The condition language of workflow transitions and maintenance triggers. */
module Conditions {
  import opened Json
  import Text

  // ---------------------------------------------------------------- facts

  function Element(items: seq<Value>, segment: string, i: nat): Value
    requires i <= |items|
    decreases |items| - i
  {
    if i == |items| then Undefined
    else if Text.Decimal(i) == segment then items[i]
    else Element(items, segment, i + 1)
  }

  /** One property access along a path: own keys of objects, indices and length of arrays. */
  function Member(v: Value, segment: string): Value {
    match v
    case Obj(fields) => if segment in fields then fields[segment] else Undefined
    case Arr(items) => if segment == "length" then Num(|items| as real) else Element(items, segment, 0)
    case _ => Undefined
  }

  function Follow(v: Value, path: seq<string>): Value
    decreases |path|
  {
    if path == [] then v else Follow(Member(v, path[0]), path[1..])
  }

  function GetFact(context: Value, path: string): Value {
    Follow(context, Text.Split(path, '.'))
  }

  // ------------------------------------------------- the workflow evaluator

  const OPERATORS := ["eq", "neq", "in", "notIn", "gt", "gte", "lt", "lte", "exists", "contains"]

  predicate Compare(op: string, fact: Value, expected: Value) {
    match op
    case "eq" => Same(fact, expected)
    case "neq" => !Same(fact, expected)
    case "in" => expected.Arr? && Includes(expected.items, fact)
    case "notIn" => expected.Arr? && !Includes(expected.items, fact)
    case "gt" => fact.Num? && expected.Num? && fact.n > expected.n
    case "gte" => fact.Num? && expected.Num? && fact.n >= expected.n
    case "lt" => fact.Num? && expected.Num? && fact.n < expected.n
    case "lte" => fact.Num? && expected.Num? && fact.n <= expected.n
    case "exists" => if expected == Bool(false) then fact.Undefined? else !fact.Undefined?
    case "contains" =>
      if fact.Arr? then Includes(fact.items, expected)
      else fact.Str? && expected.Str? && Contains(fact.s, expected.s)
    case _ => false
  }

  predicate Test(c: Value, context: Value) {
    var fact := if Field(c, "fact").Str? then GetFact(context, Field(c, "fact").s) else Undefined;
    Field(c, "op").Str? && Compare(Field(c, "op").s, fact, Field(c, "value"))
  }

  predicate Evaluate(c: Value, context: Value) {
    if Has(c, "all") then
      var clauses := Field(c, "all");
      && clauses.Arr?
      && forall i | 0 <= i < |clauses.items| :: IsObject(clauses.items[i]) && Evaluate(clauses.items[i], context)
    else if Has(c, "any") then
      var clauses := Field(c, "any");
      && clauses.Arr?
      && exists i | 0 <= i < |clauses.items| :: IsObject(clauses.items[i]) && Evaluate(clauses.items[i], context)
    else if Has(c, "not") then
      IsObject(Field(c, "not")) && !Evaluate(Field(c, "not"), context)
    else
      Test(c, context)
  }

  function Clauses(c: Value): Value {
    if Nullish(Field(c, "all")) then Field(c, "any") else Field(c, "all")
  }

  predicate ShapeValid(c: Value) {
    if Has(c, "all") || Has(c, "any") then
      var clauses := Clauses(c);
      && clauses.Arr?
      && |clauses.items| > 0
      && forall i | 0 <= i < |clauses.items| :: IsObject(clauses.items[i]) && ShapeValid(clauses.items[i])
    else if Has(c, "not") then
      IsObject(Field(c, "not")) && ShapeValid(Field(c, "not"))
    else
      Field(c, "fact").Str? && Field(c, "op").Str? && Field(c, "op").s in OPERATORS
  }

  // ----------------------------------------------------- a Boolean algebra

  /** At most one connective in every object of the condition. */
  predicate Plain(c: Value) {
    if Has(c, "all") then
      && !Has(c, "any") && !Has(c, "not") && Field(c, "all").Arr?
      && forall i | 0 <= i < |Field(c, "all").items| :: Plain(Field(c, "all").items[i])
    else if Has(c, "any") then
      && !Has(c, "not") && Field(c, "any").Arr?
      && forall i | 0 <= i < |Field(c, "any").items| :: Plain(Field(c, "any").items[i])
    else Has(c, "not") ==> Plain(Field(c, "not"))
  }

  function Not(c: Value): Value { Obj(map["not" := c]) }

  function All(cs: seq<Value>): Value { Obj(map["all" := Arr(cs)]) }

  function Any(cs: seq<Value>): Value { Obj(map["any" := Arr(cs)]) }

  /** The De Morgan dual: negation pushed down to the tests. */
  function Dual(c: Value): Value
    requires ShapeValid(c) && Plain(c)
  {
    if Has(c, "all") then
      var cs := Clauses(c).items;
      Any(seq(|cs|, i requires 0 <= i < |cs| => Dual(cs[i])))
    else if Has(c, "any") then
      var cs := Clauses(c).items;
      All(seq(|cs|, i requires 0 <= i < |cs| => Dual(cs[i])))
    else if Has(c, "not") then Field(c, "not")
    else Not(c)
  }

  /** On shape-valid plain conditions, evaluation is two-valued logic: the De Morgan dual is the exact complement. */
  lemma {:induction false} DualIsComplement(c: Value, context: Value)
    requires ShapeValid(c) && Plain(c)
    ensures Evaluate(Dual(c), context) == !Evaluate(c, context)
    ensures ShapeValid(Dual(c)) && Plain(Dual(c)) && IsObject(Dual(c))
    decreases c
  {
    if Has(c, "all") || Has(c, "any") {
      var cs := Clauses(c).items;
      var ds := if Has(c, "all") then Field(Dual(c), "any").items else Field(Dual(c), "all").items;
      forall i | 0 <= i < |cs|
        ensures ds[i] == Dual(cs[i]) && IsObject(cs[i]) && IsObject(ds[i])
        ensures Evaluate(ds[i], context) == !Evaluate(cs[i], context)
        ensures ShapeValid(ds[i]) && Plain(ds[i])
      {
        DualIsComplement(cs[i], context);
      }
    }
  }

  /** Negation is exact on every object, whatever its shape, and wrong on everything else. */
  lemma NegationExactIff(c: Value, context: Value)
    ensures (Evaluate(Not(c), context) == !Evaluate(c, context)) <==> IsObject(c)
  {
  }

  /** Why one connective per object is demanded: `all` hides `any`, and `any` hides `not`. */
  lemma EarlierConnectiveWins(c: Value, hidden: Value, context: Value)
    requires c.Obj?
    ensures Has(c, "all") ==>
              && Evaluate(Obj(c.fields["any" := hidden]), context) == Evaluate(c, context)
              && Evaluate(Obj(c.fields["not" := hidden]), context) == Evaluate(c, context)
    ensures Has(c, "any") && !Has(c, "all") ==>
              Evaluate(Obj(c.fields["not" := hidden]), context) == Evaluate(c, context)
  {
    var withAny, withNot := Obj(c.fields["any" := hidden]), Obj(c.fields["not" := hidden]);
    assert Field(withAny, "all") == Field(c, "all") && Field(withNot, "all") == Field(c, "all");
    assert Has(c, "any") ==> Field(withNot, "any") == Field(c, "any");
  }

  /** What the clauses that the shape check reads amount to: all of them, or some of them where `all` is empty-handed. */
  predicate MeantByShape(c: Value, context: Value)
    requires Clauses(c).Arr?
  {
    var clauses := Clauses(c).items;
    if Nullish(Field(c, "all")) then exists i | 0 <= i < |clauses| :: IsObject(clauses[i]) && Evaluate(clauses[i], context)
    else forall i | 0 <= i < |clauses| :: IsObject(clauses[i]) && Evaluate(clauses[i], context)
  }

  /** The shape check and the evaluator read the same clauses, except that a present but null `all` makes the evaluator
      say no where the check went on to `any`: they part exactly where those clauses hold. */
  lemma ShapeCheckReadsAlikeIff(c: Value, context: Value)
    requires ShapeValid(c) && (Has(c, "all") || Has(c, "any"))
    ensures Evaluate(c, context) == MeantByShape(c, context)
            <==> !(Has(c, "all") && Nullish(Field(c, "all")) && MeantByShape(c, context))
  {
  }

  /** A `not` that passes the shape check negates an object, so there negation is exact. */
  lemma ShapeValidNegation(c: Value, context: Value)
    ensures !IsObject(c) ==> !ShapeValid(Not(c))
    ensures ShapeValid(c) && !Has(c, "all") && !Has(c, "any") && Has(c, "not") ==>
              Evaluate(c, context) == !Evaluate(Field(c, "not"), context)
  {
  }

  /** A condition the shape check accepts, that names two connectives, and that can never hold nor be read as its `any`. */
  lemma ShapeCheckAcceptsDeadCondition(clause: Value, context: Value)
    requires IsObject(clause) && ShapeValid(clause) && Evaluate(clause, context)
    ensures var c := Obj(map["all" := Null, "any" := Arr([clause])]);
            && ShapeValid(c) && !Plain(c) && !Evaluate(c, context) && Evaluate(Any([clause]), context)
  {
    var c := Obj(map["all" := Null, "any" := Arr([clause])]);
    assert Has(c, "all") && Field(c, "all") == Null && Field(c, "any") == Arr([clause]);
    var a := Any([clause]);
    assert Field(a, "any") == Arr([clause]) && !Has(a, "all");
    assert Field(a, "any").items[0] == clause;
  }

  // ------------------------------------------------ the scheduling evaluator

  predicate CompareScheduling(op: string, fact: Value, expected: Value) {
    match op
    case "eq" => Same(fact, expected)
    case "neq" => !Same(fact, expected)
    case "gt" => fact.Num? && expected.Num? && fact.n > expected.n
    case "gte" => fact.Num? && expected.Num? && fact.n >= expected.n
    case "contains" => fact.Arr? && Includes(fact.items, expected)
    case _ => false
  }

  predicate TestScheduling(c: Value, payload: Value) {
    var fact := if Field(c, "fact").Str? then Field(payload, Field(c, "fact").s) else Undefined;
    Field(c, "op").Str? && CompareScheduling(Field(c, "op").s, fact, Field(c, "value"))
  }

  predicate EvaluateScheduling(c: Value, payload: Value) {
    if Has(c, "all") then
      var clauses := Field(c, "all");
      && clauses.Arr?
      && forall i | 0 <= i < |clauses.items| ::
           IsObject(clauses.items[i]) && EvaluateScheduling(clauses.items[i], payload)
    else if Has(c, "any") then
      var clauses := Field(c, "any");
      && clauses.Arr?
      && exists i | 0 <= i < |clauses.items| ::
           IsObject(clauses.items[i]) && EvaluateScheduling(clauses.items[i], payload)
    else
      TestScheduling(c, payload)
  }

  // ------------------------------------------------------------ agreement

  predicate Undotted(c: Value) {
    Field(c, "fact").Str? ==> '.' !in Field(c, "fact").s
  }

  /** The tests the scheduling evaluator lacks: five operators, and `contains` on a string fact. */
  predicate WorkflowOnly(c: Value, payload: Value) {
    Field(c, "op").Str? &&
    match Field(c, "op").s
    case "in" => true
    case "notIn" => true
    case "lt" => true
    case "lte" => true
    case "exists" => true
    case "contains" => Field(c, "fact").Str? && Field(payload, Field(c, "fact").s).Str?
    case _ => false
  }

  /** On a single test with an undotted fact, the two evaluators differ exactly when a
      workflow-only test succeeds. */
  lemma TestsAgreeIff(c: Value, payload: Value)
    requires payload.Obj? && Undotted(c)
    ensures (Test(c, payload) == TestScheduling(c, payload)) <==> !(WorkflowOnly(c, payload) && Test(c, payload))
  {
    if Field(c, "fact").Str? {
      UndottedFact(c, payload);
    }
  }

  lemma UndottedFact(c: Value, payload: Value)
    requires payload.Obj? && Undotted(c) && Field(c, "fact").Str?
    ensures GetFact(payload, Field(c, "fact").s) == Field(payload, Field(c, "fact").s)
  {
    var f := Field(c, "fact").s;
    assert Text.Split(f, '.') == [f];
    assert Follow(payload, [f]) == Follow(Member(payload, f), []);
  }

  /** The fragment both services understand. */
  predicate Shared(c: Value, payload: Value) {
    if Has(c, "all") then
      Field(c, "all").Arr? ==>
        forall i | 0 <= i < |Field(c, "all").items| :: Shared(Field(c, "all").items[i], payload)
    else if Has(c, "any") then
      Field(c, "any").Arr? ==>
        forall i | 0 <= i < |Field(c, "any").items| :: Shared(Field(c, "any").items[i], payload)
    else
      !Has(c, "not") && Undotted(c) && !WorkflowOnly(c, payload)
  }

  lemma {:induction false} EvaluatorsAgree(c: Value, payload: Value)
    requires payload.Obj? && Shared(c, payload)
    ensures Evaluate(c, payload) == EvaluateScheduling(c, payload)
    decreases c
  {
    if Has(c, "all") || Has(c, "any") {
      var clauses := if Has(c, "all") then Field(c, "all") else Field(c, "any");
      if clauses.Arr? {
        forall i | 0 <= i < |clauses.items|
          ensures Evaluate(clauses.items[i], payload) == EvaluateScheduling(clauses.items[i], payload)
        {
          EvaluatorsAgree(clauses.items[i], payload);
        }
      }
    } else {
      TestsAgreeIff(c, payload);
    }
  }
}
