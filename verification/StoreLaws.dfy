/** What a saved graph or checklist reads back as, field by field. */
module StoreLaws {
  import opened Outcomes
  import opened WorkflowGraph
  import opened GraphInput
  import opened GraphStore
  import opened StepTables
  import Text
  import TextLaws

  /** A text is kept without the white space around it, and not at all if that is all there is. */
  lemma TextStored(s: Option<string>)
    ensures TrimmedOrNone(s).None? <==> s.None? || TextLaws.AllWhite(s.value)
    ensures TrimmedOrNone(s).Some? ==> s.Some? && TrimmedOrNone(s).value == Text.Trim(s.value)
  {
    if s.Some? {
      TextLaws.TrimsToNothing(s.value);
    }
    hide Text.Trim, TextLaws.AllWhite;
  }

  /** Without a role a rule names executors, without a strategy any of them will do. */
  lemma RuleStored(r: RuleInput)
    ensures var n := NormalRule(r);
            && n.kind == r.kind && n.subjectId == r.subjectId && n.fieldKey == r.fieldKey && n.quorum == r.quorum
            && (r.variableKey.None? || TextLaws.AllWhite(r.variableKey.value) ==> n.variableKey == None)
            && (r.variableKey.Some? && !TextLaws.AllWhite(r.variableKey.value) ==> n.variableKey == Some(Text.Trim(r.variableKey.value)))
            && n.assignmentRole == (if r.assignmentRole == None then Some(Executor) else r.assignmentRole)
            && n.strategy == (if r.strategy == None then Some(AnyOf) else r.strategy)
            && n.config == (if r.config == None then Some(map[]) else r.config)
  {
    TextStored(r.variableKey);
    hide TrimmedOrNone, TextLaws.AllWhite;
  }

  lemma NodeStored(n: NodeInput)
    ensures var m := NormalNode(n);
            && m.key == n.key && m.kind == n.kind && m.name == Text.Trim(n.name)
            && (n.description.None? || TextLaws.AllWhite(n.description.value) ==> m.description == None)
            && (n.description.Some? && !TextLaws.AllWhite(n.description.value) ==> m.description == Some(Text.Trim(n.description.value)))
            && m.config == (if n.config == None then Some(map[]) else n.config)
            && m.uiPosition == (if n.uiPosition == None then Some(map[]) else n.uiPosition)
            && |m.assignees| == |n.assignees|
            && forall i | 0 <= i < |n.assignees| :: m.assignees[i] == NormalRule(n.assignees[i])
  {
    TextStored(n.description);
    hide TrimmedOrNone, TextLaws.AllWhite, NormalRule;
  }

  lemma TransitionStored(t: TransitionInput)
    ensures var u := NormalTransition(t);
            && u.sourceKey == t.sourceKey && u.targetKey == t.targetKey && u.actionKey == t.actionKey
            && u.caption == Text.Trim(t.caption) && u.condition == t.condition
            && u.sortOrder == (if t.sortOrder == None then Some(0) else t.sortOrder)
  {
  }

  /** A step that does not say so is required. */
  lemma StepStored(s: StepInput)
    ensures var n := NormalStep(s);
            && n.key == s.key && n.kind == s.kind && n.title == Text.Trim(s.title)
            && (s.description.None? || TextLaws.AllWhite(s.description.value) ==> n.description == None)
            && (s.description.Some? && !TextLaws.AllWhite(s.description.value) ==> n.description == Some(Text.Trim(s.description.value)))
            && n.isRequired == (if s.isRequired == None then Some(true) else s.isRequired)
            && n.config == (if s.config == None then Some(map[]) else s.config)
  {
    TextStored(s.description);
    hide TrimmedOrNone, TextLaws.AllWhite;
  }

  function Keys(steps: seq<StepInput>): set<string> {
    set s | s in steps :: s.key
  }

  /** No step repeats a key exactly if there are as many keys as steps. */
  lemma {:induction false} KeysCount(steps: seq<StepInput>)
    ensures |Keys(steps)| <= |steps|
    ensures UniqueKeys(steps) <==> |Keys(steps)| == |steps|
  {
    if steps != [] {
      var front, last := steps[..|steps| - 1], steps[|steps| - 1];
      KeysCount(front);
      assert steps == front + [last];
      assert Keys(steps) == Keys(front) + {last.key};
      assert UniqueKeys(steps) <==> UniqueKeys(front) && last.key !in Keys(front) by {
        if last.key in Keys(front) {
          var i :| 0 <= i < |front| && front[i].key == last.key;
          assert steps[i].key == steps[|steps| - 1].key;
        }
      }
    }
  }

  /** A job plan takes any steps, at least one, with as many keys. */
  lemma StepsTaken(steps: seq<StepInput>)
    ensures JobPlanRules().accepts(steps) <==> |steps| >= 1 && |Keys(steps)| == |steps|
    ensures JobPlanRules().publishable(steps) <==> |steps| >= 1
    ensures JobPlanRules().empty == []
  {
    KeysCount(steps);
  }
}
