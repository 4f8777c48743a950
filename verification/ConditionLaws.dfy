/** What a condition says, in terms of numbers, texts and membership. */
module ConditionLaws {
  import opened Json
  import opened Conditions
  import Text

  /** One test, as it is stored. */
  function Clause(fact: string, op: string, value: Value): Value {
    Obj(map["fact" := Str(fact), "op" := Str(op), "value" := value])
  }

  predicate Plainly(v: Value) {
    !v.Arr? && !v.Obj?
  }

  lemma ClauseFields(fact: string, op: string, value: Value)
    ensures var c := Clause(fact, op, value);
            && Field(c, "fact") == Str(fact) && Field(c, "op") == Str(op) && Field(c, "value") == value
            && !Has(c, "all") && !Has(c, "any") && !Has(c, "not")
  {
  }

  lemma FactRead(context: Value, fact: string, op: string, value: Value)
    requires context.Obj? && '.' !in fact
    ensures GetFact(context, fact) == if fact in context.fields then context.fields[fact] else Undefined
  {
    ClauseFields(fact, op, value);
    UndottedFact(Clause(fact, op, value), context);
  }

  /** The four comparisons are the order of numbers, and hold of nothing else. */
  lemma ComparesNumbers(context: Value, fact: string, value: Value)
    requires context.Obj? && '.' !in fact
    ensures fact in context.fields && context.fields[fact].Num? && value.Num? ==>
              var a, b := context.fields[fact].n, value.n;
              && (Evaluate(Clause(fact, "lt", value), context) <==> a < b)
              && (Evaluate(Clause(fact, "lte", value), context) <==> a <= b)
              && (Evaluate(Clause(fact, "gt", value), context) <==> a > b)
              && (Evaluate(Clause(fact, "gte", value), context) <==> a >= b)
    ensures !(fact in context.fields && context.fields[fact].Num? && value.Num?) ==>
              && !Evaluate(Clause(fact, "lt", value), context) && !Evaluate(Clause(fact, "lte", value), context)
              && !Evaluate(Clause(fact, "gt", value), context) && !Evaluate(Clause(fact, "gte", value), context)
  {
    hide GetFact, Contains, Includes;
    FactRead(context, fact, "lt", value);
    ClauseFields(fact, "lt", value);
    ClauseFields(fact, "lte", value);
    ClauseFields(fact, "gt", value);
    ClauseFields(fact, "gte", value);
  }

  /** `eq` and `neq` are opposites: equal are the same number, text, truth value or nothing, and never objects or arrays. */
  lemma ComparesValues(context: Value, fact: string, value: Value)
    requires context.Obj? && '.' !in fact
    ensures var read := if fact in context.fields then context.fields[fact] else Undefined;
            && (Evaluate(Clause(fact, "eq", value), context) <==> Plainly(read) && read == value)
            && (Evaluate(Clause(fact, "neq", value), context) <==> !(Plainly(read) && read == value))
  {
    hide GetFact, Contains, Includes;
    FactRead(context, fact, "eq", value);
    ClauseFields(fact, "eq", value);
    ClauseFields(fact, "neq", value);
  }

  /** On two numbers exactly one of `lt`, `eq` and `gt` holds, `lte` is the opposite of `gt`, and `gte` of `lt`. */
  lemma OneOfThree(context: Value, fact: string, a: real, b: real)
    requires context.Obj? && '.' !in fact && fact in context.fields && context.fields[fact] == Num(a)
    ensures var lt, eq, gt := Evaluate(Clause(fact, "lt", Num(b)), context), Evaluate(Clause(fact, "eq", Num(b)), context),
                              Evaluate(Clause(fact, "gt", Num(b)), context);
            && (lt || eq || gt) && !(lt && eq) && !(eq && gt) && !(lt && gt)
            && Evaluate(Clause(fact, "lte", Num(b)), context) == !gt && Evaluate(Clause(fact, "gte", Num(b)), context) == !lt
  {
    ComparesNumbers(context, fact, Num(b));
    ComparesValues(context, fact, Num(b));
    hide Evaluate;
  }

  /** `in` is membership of a list, `notIn` its opposite on lists, and neither holds of anything but a list. */
  lemma ComparesLists(context: Value, fact: string, value: Value)
    requires context.Obj? && '.' !in fact
    ensures var read := if fact in context.fields then context.fields[fact] else Undefined;
            && (Evaluate(Clause(fact, "in", value), context) <==> value.Arr? && Plainly(read) && read in value.items)
            && (Evaluate(Clause(fact, "notIn", value), context) <==> value.Arr? && !(Plainly(read) && read in value.items))
  {
    hide GetFact, Contains;
    FactRead(context, fact, "in", value);
    ClauseFields(fact, "in", value);
    ClauseFields(fact, "notIn", value);
  }

  /** `exists` asks whether the fact is there at all, and with `false` whether it is not. */
  lemma AsksPresence(context: Value, fact: string, value: Value)
    requires context.Obj? && '.' !in fact
    ensures var there := fact in context.fields && context.fields[fact] != Undefined;
            Evaluate(Clause(fact, "exists", value), context) <==> (there <==> value != Bool(false))
  {
    hide GetFact, Contains, Includes;
    FactRead(context, fact, "exists", value);
    ClauseFields(fact, "exists", value);
  }

  ghost predicate PartOf(part: string, s: string) {
    exists before, after :: s == before + part + after
  }

  lemma {:induction false} ContainsIsPart(s: string, part: string)
    ensures Contains(s, part) <==> PartOf(part, s)
  {
    if part <= s {
      assert s == "" + part + s[|part|..];
    } else if s != "" {
      ContainsIsPart(s[1..], part);
      if before, after :| s[1..] == before + part + after {
        assert s == ([s[0]] + before) + part + after;
      }
      if before, after :| s == before + part + after {
        assert before != "" by {
          assert before == "" ==> part <= s;
        }
        assert s[1..] == before[1..] + part + after;
      }
    }
  }

  /** `contains` is membership in a list, or being part of a text. */
  lemma AsksContents(context: Value, fact: string, value: Value)
    requires context.Obj? && '.' !in fact
    ensures var read := if fact in context.fields then context.fields[fact] else Undefined;
            Evaluate(Clause(fact, "contains", value), context) <==>
              || (read.Arr? && Plainly(value) && value in read.items)
              || (read.Str? && value.Str? && PartOf(value.s, read.s))
  {
    hide GetFact, Contains, PartOf;
    FactRead(context, fact, "contains", value);
    ClauseFields(fact, "contains", value);
    if fact in context.fields && context.fields[fact].Str? && value.Str? {
      ContainsIsPart(context.fields[fact].s, value.s);
    }
  }

  /** Any other operator holds of nothing. */
  lemma KnowsNoOther(context: Value, fact: string, op: string, value: Value)
    requires op !in {"eq", "neq", "in", "notIn", "gt", "gte", "lt", "lte", "exists", "contains"}
    ensures !Evaluate(Clause(fact, op, value), context) && !ShapeValid(Clause(fact, op, value))
  {
    hide GetFact, Contains, Includes;
    ClauseFields(fact, op, value);
  }

  /** The shape check lets exactly the ten operators through. */
  lemma KnowsTheTen(fact: string, op: string, value: Value)
    ensures ShapeValid(Clause(fact, op, value)) <==>
            op in {"eq", "neq", "in", "notIn", "gt", "gte", "lt", "lte", "exists", "contains"}
  {
    ClauseFields(fact, op, value);
  }

  /** Without a connective, the check asks for a fact and an operator that are texts, the operator one of the ten. */
  lemma AsksForFact(fields: map<string, Value>)
    requires "all" !in fields && "any" !in fields && "not" !in fields
    ensures ShapeValid(Obj(fields)) <==>
            && "fact" in fields && fields["fact"].Str? && "op" in fields && fields["op"].Str?
            && fields["op"].s in {"eq", "neq", "in", "notIn", "gt", "gte", "lt", "lte", "exists", "contains"}
  {
  }

  /** `all`, `any` and `not` are what they say. */
  lemma ConnectivesMean(cs: seq<Value>, c: Value, context: Value)
    ensures Evaluate(All(cs), context) <==> forall i | 0 <= i < |cs| :: IsObject(cs[i]) && Evaluate(cs[i], context)
    ensures Evaluate(Any(cs), context) <==> exists i | 0 <= i < |cs| :: IsObject(cs[i]) && Evaluate(cs[i], context)
    ensures Evaluate(Not(c), context) <==> IsObject(c) && !Evaluate(c, context)
  {
    assert Field(All(cs), "all") == Arr(cs) && Field(Any(cs), "any") == Arr(cs) && Field(Not(c), "not") == c;
    assert Has(All(cs), "all") && Has(Any(cs), "any") && !Has(Any(cs), "all") && Has(Not(c), "not");
    hide Test;
  }

  /** They pass the shape check over clauses that pass it, of which there must be some. */
  lemma ConnectivesFit(cs: seq<Value>, c: Value)
    ensures ShapeValid(All(cs)) == ShapeValid(Any(cs))
            == (cs != [] && forall i | 0 <= i < |cs| :: IsObject(cs[i]) && ShapeValid(cs[i]))
    ensures ShapeValid(Not(c)) <==> IsObject(c) && ShapeValid(c)
  {
    assert Field(All(cs), "all") == Arr(cs) && Field(Any(cs), "any") == Arr(cs) && Field(Not(c), "not") == c;
    assert Has(All(cs), "all") && Has(Any(cs), "any") && !Has(Any(cs), "all") && Has(Not(c), "not");
  }

  // ------------------------------------------------------------ dotted facts

  lemma {:induction false} SplitsAtDot(p: string, q: string)
    requires '.' !in p
    ensures Text.Split(p + "." + q, '.') == [p] + Text.Split(q, '.')
  {
    var s := p + "." + q;
    if p == "" {
      assert s[0] == '.' && s[1..] == q;
    } else {
      SplitsAtDot(p[1..], q);
      assert s[0] == p[0] && s[1..] == p[1..] + "." + q;
      assert [p[0]] + p[1..] == p;
    }
  }

  lemma FollowsDot(context: Value, p: string, q: string)
    requires context.Obj? && '.' !in p
    ensures GetFact(context, p + "." + q) == GetFact(if p in context.fields then context.fields[p] else Undefined, q)
  {
    SplitsAtDot(p, q);
    var path := [p] + Text.Split(q, '.');
    assert path[1..] == Text.Split(q, '.');
    assert Follow(context, path) == Follow(Member(context, p), path[1..]);
  }

  lemma SameTest(c: Value, c': Value, context: Value, context': Value)
    requires !Has(c, "all") && !Has(c, "any") && !Has(c, "not") && !Has(c', "all") && !Has(c', "any") && !Has(c', "not")
    requires Field(c, "fact").Str? && Field(c', "fact").Str? && Field(c, "op") == Field(c', "op") && Field(c, "value") == Field(c', "value")
    requires GetFact(context, Field(c, "fact").s) == GetFact(context', Field(c', "fact").s)
    ensures Evaluate(c, context) == Evaluate(c', context')
  {
    IsTest(c, context);
    IsTest(c', context');
    hide Evaluate, GetFact, Compare;
  }

  lemma IsTest(c: Value, context: Value)
    requires !Has(c, "all") && !Has(c, "any") && !Has(c, "not")
    ensures Evaluate(c, context) == Test(c, context)
  {
  }

  /** A dot steps into an object: what follows it is read there. */
  lemma DotStepsIn(context: Value, p: string, q: string, op: string, value: Value, inner: map<string, Value>)
    requires context.Obj? && '.' !in p && p in context.fields && context.fields[p] == Obj(inner)
    ensures Evaluate(Clause(p + "." + q, op, value), context) == Evaluate(Clause(q, op, value), Obj(inner))
  {
    FollowsDot(context, p, q);
    ClauseFields(p + "." + q, op, value);
    ClauseFields(q, op, value);
    SameTest(Clause(p + "." + q, op, value), Clause(q, op, value), context, Obj(inner));
  }

  /** Stepping into nothing, or into a number, a text or a truth value, finds nothing. */
  lemma DotFindsNothing(context: Value, p: string, q: string, op: string, value: Value)
    requires context.Obj? && '.' !in p && '.' !in q
    requires p in context.fields ==> Plainly(context.fields[p])
    ensures Evaluate(Clause(p + "." + q, op, value), context) == Evaluate(Clause(q, op, value), Obj(map[]))
  {
    FollowsDot(context, p, q);
    FactRead(Obj(map[]), q, op, value);
    NothingBelow(if p in context.fields then context.fields[p] else Undefined, q);
    ClauseFields(p + "." + q, op, value);
    ClauseFields(q, op, value);
    SameTest(Clause(p + "." + q, op, value), Clause(q, op, value), context, Obj(map[]));
  }

  lemma NothingBelow(v: Value, q: string)
    requires Plainly(v) && '.' !in q
    ensures GetFact(v, q) == Undefined
  {
    assert Follow(v, [q]) == Follow(Member(v, q), []);
  }

  lemma {:induction false} ElementAt(items: seq<Value>, i: nat, from: nat)
    requires from <= i < |items|
    ensures Element(items, Text.Decimal(i), from) == items[i]
    decreases i - from
  {
    if from < i {
      if Text.Decimal(from) == Text.Decimal(i) {
        Text.DecimalInjective(from, i);
      }
      ElementAt(items, i, from + 1);
    }
  }

  lemma {:induction false} DigitsOnly(i: nat)
    ensures '.' !in Text.Decimal(i) && Text.Decimal(i) != "length"
  {
    assert Text.IsDigit(Text.Decimal(i)[0]);
  }

  /** What is read one step into a list. */
  lemma BelowList(context: Value, p: string, items: seq<Value>, q: string)
    requires context.Obj? && '.' !in p && p in context.fields && context.fields[p] == Arr(items) && '.' !in q
    ensures GetFact(context, p + "." + q) == if q == "length" then Num(|items| as real) else Element(items, q, 0)
  {
    FollowsDot(context, p, q);
    assert Follow(Arr(items), [q]) == Follow(Member(Arr(items), q), []);
  }

  /** A test whose fact reads `v` is a test of `v`. */
  lemma TestsWhatIsRead(context: Value, fact: string, op: string, value: Value, v: Value)
    requires GetFact(context, fact) == v
    ensures Evaluate(Clause(fact, op, value), context) == Evaluate(Clause("x", op, value), Obj(map["x" := v]))
  {
    hide GetFact;
    FactRead(Obj(map["x" := v]), "x", op, value);
    ClauseFields(fact, op, value);
    ClauseFields("x", op, value);
    SameTest(Clause(fact, op, value), Clause("x", op, value), context, Obj(map["x" := v]));
  }

  /** An index steps into a list, and `length` is how long it is. */
  lemma DotIndexes(context: Value, p: string, items: seq<Value>, i: nat, op: string, value: Value)
    requires context.Obj? && '.' !in p && p in context.fields && context.fields[p] == Arr(items) && i < |items|
    ensures Evaluate(Clause(p + "." + Text.Decimal(i), op, value), context) == Evaluate(Clause("x", op, value), Obj(map["x" := items[i]]))
    ensures Evaluate(Clause(p + "." + "length", op, value), context)
            == Evaluate(Clause("x", op, value), Obj(map["x" := Num(|items| as real)]))
  {
    hide Evaluate, GetFact;
    DigitsOnly(i);
    ElementAt(items, i, 0);
    BelowList(context, p, items, Text.Decimal(i));
    BelowList(context, p, items, "length");
    TestsWhatIsRead(context, p + "." + Text.Decimal(i), op, value, items[i]);
    TestsWhatIsRead(context, p + "." + "length", op, value, Num(|items| as real));
  }

  lemma {:induction false} NoElement(items: seq<Value>, q: string, from: nat)
    requires from <= |items| && forall i | from <= i < |items| :: Text.Decimal(i) != q
    ensures Element(items, q, from) == Undefined
    decreases |items| - from
  {
    if from < |items| {
      NoElement(items, q, from + 1);
    }
  }

  /** Any other name finds nothing in a list. */
  lemma DotMissesList(context: Value, p: string, items: seq<Value>, q: string, op: string, value: Value)
    requires context.Obj? && '.' !in p && p in context.fields && context.fields[p] == Arr(items)
    requires '.' !in q && q != "length" && forall i | 0 <= i < |items| :: Text.Decimal(i) != q
    ensures Evaluate(Clause(p + "." + q, op, value), context) == Evaluate(Clause("x", op, value), Obj(map["x" := Undefined]))
  {
    hide Evaluate, GetFact;
    NoElement(items, q, 0);
    BelowList(context, p, items, q);
    TestsWhatIsRead(context, p + "." + q, op, value, Undefined);
  }

  // ------------------------------------------------ the scheduling evaluator

  /** The scheduling evaluator reads a dotted name as it stands, knows no `not`, and of the operators only these. */
  lemma SchedulingReads(payload: Value, fact: string, op: string, value: Value)
    requires payload.Obj?
    ensures var read := if fact in payload.fields then payload.fields[fact] else Undefined;
            EvaluateScheduling(Clause(fact, op, value), payload) <==>
              || (op == "eq" && Plainly(read) && read == value)
              || (op == "neq" && !(Plainly(read) && read == value))
              || (op == "gt" && read.Num? && value.Num? && read.n > value.n)
              || (op == "gte" && read.Num? && value.Num? && read.n >= value.n)
              || (op == "contains" && read.Arr? && Plainly(value) && value in read.items)
    ensures !EvaluateScheduling(Not(value), payload)
  {
    ClauseFields(fact, op, value);
    assert Field(Not(value), "op") == Undefined;
  }

  lemma SchedulingConnectives(cs: seq<Value>, payload: Value)
    ensures EvaluateScheduling(All(cs), payload) <==> forall i | 0 <= i < |cs| :: IsObject(cs[i]) && EvaluateScheduling(cs[i], payload)
    ensures EvaluateScheduling(Any(cs), payload) <==> exists i | 0 <= i < |cs| :: IsObject(cs[i]) && EvaluateScheduling(cs[i], payload)
  {
    assert Field(All(cs), "all") == Arr(cs) && Field(Any(cs), "any") == Arr(cs);
    assert Has(All(cs), "all") && Has(Any(cs), "any") && !Has(Any(cs), "all");
    hide TestScheduling;
  }
}
