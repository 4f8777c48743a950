/** How a version is drafted, numbered, published and archived, in terms of the rows of the version table. */
module VersionLaws {
  import opened Outcomes
  import opened VersionHistory

  ghost predicate NewestDraft<C>(vs: seq<Version<C>>, i: nat) {
    && i < |vs| && vs[i].status == Draft
    && forall j | 0 <= j < |vs| && vs[j].status == Draft :: vs[j].number <= vs[i].number
  }

  /** The draft is the one with the highest number, if there is any. */
  lemma {:induction false} DraftLaw<C>(vs: seq<Version<C>>)
    ensures LatestDraft(vs).Some? <==> exists i :: 0 <= i < |vs| && vs[i].status == Draft
    ensures LatestDraft(vs).Some? ==> NewestDraft(vs, LatestDraft(vs).value)
  {
    if vs != [] {
      var front := vs[..|vs| - 1];
      DraftLaw(front);
      assert forall j | 0 <= j < |front| :: vs[j] == front[j];
    }
  }

  lemma {:induction false} HighestLaw<C>(vs: seq<Version<C>>)
    ensures forall v | v in vs :: v.number <= MaxNumber(vs)
    ensures if vs == [] then MaxNumber(vs) == 0 else exists v :: v in vs && v.number == MaxNumber(vs)
  {
    if |vs| > 1 {
      var front, last := vs[..|vs| - 1], vs[|vs| - 1];
      HighestLaw(front);
      assert forall v | v in vs :: v in front || v == last;
      if MaxNumber(front) > last.number {
        var v :| v in front && v.number == MaxNumber(front);
        assert v in vs;
      } else {
        assert last in vs;
      }
    } else if |vs| == 1 {
      assert vs[0] in vs && vs[..0] == [];
    }
  }

  ghost predicate IsCurrent<C>(h: History<C>, i: nat) {
    && i < |h.versions| && h.current == Some(h.versions[i].id)
    && forall j | 0 <= j < |h.versions| && j != i :: h.versions[j].id != h.versions[i].id
  }

  lemma {:induction false} FoundLaw<C>(vs: seq<Version<C>>, id: VersionId)
    ensures IndexOf(vs, id).None? <==> forall v | v in vs :: v.id != id
  {
    if vs != [] {
      FoundLaw(vs[..|vs| - 1], id);
      assert forall v | v in vs :: v in vs[..|vs| - 1] || v == vs[|vs| - 1];
      assert vs[|vs| - 1] in vs;
    }
  }

  lemma CurrentLaw<C>(h: History<C>, i: nat)
    requires IsCurrent(h, i)
    ensures CurrentAt(h) == Some(i)
  {
    FoundAt(h.versions, i);
  }

  /** While a draft is there nothing is drafted. Else a draft is appended: with what the current version reads back as and, for
      workflows, the number after its; job plans count on from the highest number. */
  lemma DraftingLaw<C>(h: History<C>, rules: Rules<C>, i: nat)
    requires IsCurrent(h, i)
    ensures var h' := EnsureDraft(h, rules);
            if exists v :: v in h.versions && v.status == Draft then h' == h
            else
              && |h'.versions| == |h.versions| + 1 && h'.versions[..|h.versions|] == h.versions
              && h'.stage == h.stage && h'.current == h.current && h'.nextId == h.nextId + 1
              && var v := h'.versions[|h.versions|];
                 && v.id == h.nextId && v.status == Draft && v.content == rules.stored(h.versions[i].content)
                 && (rules.numbering == AfterCurrent ==> v.number == h.versions[i].number + 1)
                 && (rules.numbering == AfterMaximum ==> v.number == MaxNumber(h.versions) + 1)
  {
    DraftLaw(h.versions);
    CurrentLaw(h, i);
    hide LatestDraft, CurrentAt, MaxNumber;
    assert (exists v :: v in h.versions && v.status == Draft) <==> exists j :: 0 <= j < |h.versions| && h.versions[j].status == Draft;
  }

  /** Without a current version the draft is empty and gets the first number that is free. */
  lemma FirstDraftLaw<C>(h: History<C>, rules: Rules<C>)
    requires h.current == None && forall v | v in h.versions :: v.status != Draft
    ensures EnsureDraft(h, rules)
            == h.(versions := h.versions + [Version(h.nextId, MaxNumber(h.versions) + 1, Draft, rules.empty)], nextId := h.nextId + 1)
  {
    DraftLaw(h.versions);
    hide LatestDraft;
  }

  /** A definition starts as a draft with one version, number 1, itself a draft. */
  lemma CreationLaw<C>(id: VersionId, content: C)
    ensures var h := Created(id, content);
            && h.stage == Drafted && h.current == None && |h.versions| == 1 && h.nextId == id + 1
            && h.versions[0].id == id && h.versions[0].number == 1 && h.versions[0].status == Draft && h.versions[0].content == content
  {
  }

  /** A save replaces the content of the draft, and nothing else, if the content is accepted. */
  lemma SavingLaw<C>(h: History<C>, rules: Rules<C>, content: C, d: nat)
    requires d < |h.versions| && h.versions[d].status == Draft
    requires forall j | 0 <= j < |h.versions| && j != d :: h.versions[j].status != Draft
    ensures !rules.accepts(content) ==> Apply(h, rules, Save(content)) == Err(Refused)
    ensures rules.accepts(content) ==>
              var r := Apply(h, rules, Save(content));
              && r.Ok? && r.value.stage == h.stage && r.value.current == h.current && r.value.nextId == h.nextId
              && |r.value.versions| == |h.versions|
              && forall j | 0 <= j < |h.versions| ::
                   r.value.versions[j] == if j == d then h.versions[d].(content := rules.stored(content)) else h.versions[j]
  {
    DraftLaw(h.versions);
    hide LatestDraft;
  }

  /** A save first makes sure of a draft. */
  lemma SavingDrafts<C>(h: History<C>, rules: Rules<C>, content: C)
    ensures Apply(h, rules, Save(content)) == Apply(EnsureDraft(h, rules), rules, Save(content))
  {
    if LatestDraft(h.versions).None? {
      AppendedIsLatest(h.versions, NewDraft(h, rules));
    }
    hide LatestDraft, NewDraft;
  }

  /** A publication without a draft fails, for a workflow without a current version on account of that. */
  lemma NothingPublished<C>(h: History<C>, rules: Rules<C>)
    requires forall v | v in h.versions :: v.status != Draft
    ensures Apply(h, rules, Publish).Err?
    ensures rules.numbering == AfterMaximum ==> Apply(h, rules, Publish) == Err(NoDraft)
    ensures h.current == None && rules.numbering == AfterCurrent ==> Apply(h, rules, Publish) == Err(NothingToPublish)
    ensures forall i: nat | IsCurrent(h, i) && rules.numbering == AfterCurrent ::
              Apply(h, rules, Publish) == Err(if rules.publishable(h.versions[i].content) then NoDraft else Refused)
  {
    DraftLaw(h.versions);
    hide LatestDraft;
    forall i: nat | IsCurrent(h, i)
      ensures CurrentAt(h) == Some(i)
    {
      CurrentLaw(h, i);
    }
  }

  /** A publication makes the draft current and published and puts the definition in force; the version that was current is retired
      if it was published, and no other changes. A draft that cannot be published is refused. */
  lemma PublishingLaw<C>(h: History<C>, rules: Rules<C>, d: nat)
    requires d < |h.versions| && h.versions[d].status == Draft
    requires forall j | 0 <= j < |h.versions| && j != d :: h.versions[j].status != Draft
    requires h.current == None || exists i: nat :: IsCurrent(h, i)
    ensures !rules.publishable(h.versions[d].content) ==> Apply(h, rules, Publish) == Err(Refused)
    ensures rules.publishable(h.versions[d].content) ==>
              var r := Apply(h, rules, Publish);
              && r.Ok? && r.value.stage == InForce && r.value.current == Some(h.versions[d].id) && r.value.nextId == h.nextId
              && |r.value.versions| == |h.versions|
              && forall j | 0 <= j < |h.versions| ::
                   r.value.versions[j] ==
                     if j == d then h.versions[j].(status := Published)
                     else if h.current == Some(h.versions[j].id) && h.versions[j].status == Published
                     then h.versions[j].(status := Retired) else h.versions[j]
  {
    DraftLaw(h.versions);
    hide LatestDraft;
    if i: nat :| IsCurrent(h, i) {
      CurrentLaw(h, i);
    }
  }

  /** Archiving is always possible; only what is archived can be restored, to in force if it has a current version and to a draft
      if it has none. Versions stay as they are. */
  lemma ArchivingLaw<C>(h: History<C>, rules: Rules<C>)
    ensures Apply(h, rules, Archive) == Ok(h.(stage := Archived))
    ensures h.stage != Archived ==> Apply(h, rules, Restore) == Err(NotArchived)
    ensures h.stage == Archived && h.current.Some? ==> Apply(h, rules, Restore) == Ok(h.(stage := InForce))
    ensures h.stage == Archived && h.current == None ==> Apply(h, rules, Restore) == Ok(h.(stage := Drafted))
  {
  }
}
