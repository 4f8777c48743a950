/** Maintenance job plans: versioned checklists, the second user of the version life cycle. */
module JobPlans {
  import opened Outcomes
  import opened VersionHistory
  import opened StepTables

  /** A row of the version table. */
  type PlanVersion = Version<()>

  /** A version with the steps that the table keeps for it. */
  function WithSteps(table: StepRows, row: PlanVersion): Version<seq<StepInput>> {
    Version(row.id, row.number, row.status, Content(table, row.id))
  }

  function AllWithSteps(table: StepRows, rows: seq<PlanVersion>): seq<Version<seq<StepInput>>> {
    seq(|rows|, i requires 0 <= i < |rows| => WithSteps(table, rows[i]))
  }

  lemma DraftKept(h: History<seq<StepInput>>)
    requires LatestDraft(h.versions).Some?
    ensures VersionHistory.EnsureDraft(h, JobPlanRules()) == h
  {
  }

  lemma DraftAppended(h: History<seq<StepInput>>, version: Version<seq<StepInput>>)
    requires LatestDraft(h.versions).None?
    requires version == Version(h.nextId, MaxNumber(h.versions) + 1, Draft,
                                if CurrentAt(h).Some? then Stored(h.versions[CurrentAt(h).value].content) else [])
    ensures VersionHistory.EnsureDraft(h, JobPlanRules()) == h.(versions := h.versions + [version], nextId := h.nextId + 1)
    ensures LatestDraft(h.versions + [version]) == Some(|h.versions|)
  {
    hide Stored, Accepts, CurrentAt, MaxNumber;
    AppendedIsLatest(h.versions, version);
    hide LatestDraft;
  }

  /** Identifiers yet to be generated are in no use. */
  ghost predicate Unused(table: StepRows, nextId: VersionId) {
    forall w: VersionId | w >= nextId :: StepsOf(table, w) == []
  }

  /** Replacing the steps of one version shows in that version only. */
  lemma ReplacedShows(table: StepRows, rows: seq<PlanVersion>, v: VersionId, steps: seq<StepInput>)
    requires forall i | 0 <= i < |rows| :: rows[i].id != v
    ensures AllWithSteps(ReplacedSteps(table, v, steps), rows) == AllWithSteps(table, rows)
  {
    hide ReplacedSteps, StepsOf;
    forall i | 0 <= i < |rows|
      ensures Content(ReplacedSteps(table, v, steps), rows[i].id) == Content(table, rows[i].id)
    {
      ReplacedLeavesSteps(table, v, steps, rows[i].id);
    }
  }

  lemma UnusedAfter(table: StepRows, nextId: VersionId, v: VersionId, steps: seq<StepInput>)
    requires Unused(table, nextId) && v < nextId
    ensures Unused(ReplacedSteps(table, v, steps), nextId)
  {
    hide ReplacedSteps, StepsOf;
    forall w: VersionId | w >= nextId
      ensures StepsOf(ReplacedSteps(table, v, steps), w) == []
    {
      ReplacedLeavesSteps(table, v, steps, w);
    }
  }

  class JobPlan {
    const table: StepTable
    var stage: Stage
    var current: Option<VersionId>
    var rows: seq<PlanVersion>
    var nextId: VersionId

    ghost function State(): History<seq<StepInput>>
      reads this, table
    {
      History(stage, current, AllWithSteps(table.rows, rows), nextId)
    }

    /** The tables are in order, and identifiers are new. */
    ghost predicate Tidy()
      reads this, table
    {
      InOrder(table.rows) && Unused(table.rows, nextId) && forall i | 0 <= i < |rows| :: rows[i].id < nextId
    }

    ghost predicate Valid()
      reads this, table
    {
      Tidy() && Sound(State(), JobPlanRules())
    }

    lemma Queries()
      ensures LatestDraft(State().versions) == LatestDraft(rows) && MaxNumber(State().versions) == MaxNumber(rows)
      ensures forall id :: IndexOf(State().versions, id) == IndexOf(rows, id)
    {
      SameQueries(State().versions, rows);
    }

    constructor (table: StepTable, id: VersionId, steps: seq<StepInput>)
      requires Accepts(steps) && InOrder(table.rows) && Unused(table.rows, id)
      modifies table
      ensures this.table == table && State() == Created(id, Stored(steps)) && Valid()
      ensures table.rows == ReplacedSteps(old(table.rows), id, steps)
    {
      hide Sound, Accepts, Stored, InOrder, ReplacedSteps, StepsOf, Unused;
      UnusedLater(table.rows, id);
      UnusedAfter(table.rows, id + 1, id, steps);
      ReplacedReads(table.rows, id, steps);
      table.Replace(id, steps);
      this.table := table;
      stage, current, nextId := Drafted, None, id + 1;
      rows := [Version(id, 1, Draft, ())];
      new;
      assert AllWithSteps(table.rows, rows) == [Version(id, 1, Draft, Stored(steps))];
      JobPlanRulesLawful();
      CreatedSound(id, steps, JobPlanRules());
    }

    /** A plan is created with at least one step and no two steps of one key, or not at all. */
    static method Create(table: StepTable, id: VersionId, steps: seq<StepInput>) returns (plan: JobPlan?)
      requires InOrder(table.rows) && Unused(table.rows, id)
      modifies table
      ensures plan != null <==> Accepts(steps)
      ensures plan != null ==> fresh(plan) && plan.table == table && plan.Valid() && plan.State() == Created(id, Stored(steps))
      ensures table.rows == if plan != null then ReplacedSteps(old(table.rows), id, steps) else old(table.rows)
    {
      if steps == [] {
        return null;
      }
      var unique := AssertUniqueStepKeys(steps);
      if !unique {
        return null;
      }
      plan := new JobPlan(table, id, steps);
    }

    method EnsureDraft() returns (draft: nat)
      requires Tidy()
      modifies `rows, `nextId, table
      ensures Tidy() && State() == VersionHistory.EnsureDraft(old(State()), JobPlanRules())
      ensures LatestDraft(rows) == Some(draft) && table.rows == ReadyRows(old(table.rows), old(State()))
    {
      hide Stored, Accepts, LatestDraft, IndexOf, MaxNumber, VersionHistory.EnsureDraft, NewDraft, JobPlanRules;
      hide InOrder, ReplacedSteps, StepsOf, Unused, Content, SameButContents;
      ghost var h, before := State(), table.rows;
      Queries();
      var existing := FindDraft(rows);
      if existing.Some? {
        DraftKept(h);
        return existing.value;
      }
      var source := None;
      if current.Some? {
        source := FindVersion(rows, current.value);
      }
      var latest := FindMaximum(rows);
      var id := nextId;
      var version := Version(id, latest + 1, Draft, ());
      UnusedLater(table.rows, id);
      if source.Some? {
        var steps := Content(table.rows, rows[source.value].id);
        ReplacedShows(table.rows, rows, id, steps);
        UnusedAfter(table.rows, id + 1, id, steps);
        ReplacedReads(table.rows, id, steps);
        table.Replace(id, steps);
      }
      assert AllWithSteps(table.rows, rows) == h.versions;
      DraftAppended(h, WithSteps(table.rows, version));
      draft := |rows|;
      rows := rows + [version];
      nextId := nextId + 1;
      assert AllWithSteps(table.rows, rows) == h.versions + [WithSteps(table.rows, version)];
      Queries();
    }

    method SaveDraft(steps: seq<StepInput>) returns (failure: Option<Failure>)
      requires Valid()
      modifies `rows, `nextId, table
      ensures Valid() && State() == Attempt(old(State()), JobPlanRules(), Save(steps))
      ensures table.rows == NextRows(old(table.rows), old(State()), Save(steps))
      ensures failure == if Accepts(steps) then None else Some(Refused)
    {
      hide Sound, LatestDraft, Stored, InOrder, ReplacedSteps, StepsOf, Unused, Content, VersionHistory.EnsureDraft, ReadyRows, DraftId;
      ghost var h := State();
      JobPlanRulesLawful();
      StepSound(h, JobPlanRules(), Save(steps));
      if steps == [] {
        return Some(Refused);
      }
      var unique := AssertUniqueStepKeys(steps);
      if !unique {
        return Some(Refused);
      }
      var draft := EnsureDraft();
      ghost var ready, between := State(), table.rows;
      Queries();
      DraftIsApart(h, draft);
      assert forall i | 0 <= i < |rows| :: ready.versions[i].id == rows[i].id;
      ReplacedShows(table.rows, rows[..draft] + rows[draft + 1..], rows[draft].id, steps);
      UnusedAfter(table.rows, nextId, rows[draft].id, steps);
      ReplacedReads(table.rows, rows[draft].id, steps);
      table.Replace(rows[draft].id, steps);
      OneChanged(between, table.rows, rows, draft, Stored(steps));
      failure := None;
    }

    method Publish() returns (failure: Option<Failure>)
      requires Valid()
      modifies `stage, `current, `rows
      ensures Valid() && State() == Attempt(old(State()), JobPlanRules(), VersionHistory.Publish)
      ensures failure == if old(LatestDraft(rows)).Some? then None else Some(NoDraft)
    {
      hide LatestDraft, IndexOf, MaxNumber, Sound, InOrder, StepsOf, Unused, Attempt, RetireCurrent, Accepts, Stored;
      ghost var h := State();
      Queries();
      JobPlanRulesLawful();
      StepSound(h, JobPlanRules(), VersionHistory.Publish);
      PublishesWithDraft(h);
      var draft := FindDraft(rows);
      if draft.None? {
        return Some(NoDraft);
      }
      if StepsOf(table.rows, rows[draft.value].id) == [] {
        return Some(Refused);
      }
      if current.Some? {
        var at := FindVersion(rows, current.value);
        if at.Some? && rows[at.value].status.Published? {
          rows := WithStatus(rows, at.value, Retired);
        }
      }
      Retires(h, State().versions);
      current := Some(rows[draft.value].id);
      rows := WithStatus(rows, draft.value, Published);
      stage := InForce;
      assert State().versions == WithStatus(RetireCurrent(h), draft.value, Published);
      failure := None;
    }

    method Archive()
      requires Valid()
      modifies `stage
      ensures Valid() && State() == Attempt(old(State()), JobPlanRules(), VersionHistory.Archive)
    {
      hide Sound, InOrder, StepsOf, Unused;
      JobPlanRulesLawful();
      StepSound(State(), JobPlanRules(), VersionHistory.Archive);
      stage := Archived;
    }
  }

  lemma DraftIsApart(h: History<seq<StepInput>>, draft: nat)
    requires Sound(h, JobPlanRules())
    requires LatestDraft(VersionHistory.EnsureDraft(h, JobPlanRules()).versions) == Some(draft)
    ensures var ready := VersionHistory.EnsureDraft(h, JobPlanRules()).versions;
            && draft < |ready| && h.versions != [] && ready[draft].id == DraftId(h)
            && forall i | 0 <= i < |ready| && i != draft :: ready[i].id != ready[draft].id
  {
    SoundNotEmpty(h, JobPlanRules());
    DraftAmongOthers(h, JobPlanRules());
  }

  lemma OneChanged(before: StepRows, after: StepRows, rows: seq<PlanVersion>, draft: nat, content: seq<StepInput>)
    requires draft < |rows| && Content(after, rows[draft].id) == content
    requires AllWithSteps(after, rows[..draft] + rows[draft + 1..]) == AllWithSteps(before, rows[..draft] + rows[draft + 1..])
    ensures AllWithSteps(after, rows) == WithContent(AllWithSteps(before, rows), draft, content)
  {
    hide Content;
    var others := rows[..draft] + rows[draft + 1..];
    forall i | 0 <= i < |rows| && i != draft
      ensures WithSteps(after, rows[i]) == WithSteps(before, rows[i])
    {
      var k := if i < draft then i else i - 1;
      assert others[k] == rows[i];
      assert AllWithSteps(after, others)[k] == AllWithSteps(before, others)[k];
    }
  }

  lemma Retires(h: History<seq<StepInput>>, versions: seq<Version<seq<StepInput>>>)
    requires var at := CurrentAt(h);
             versions == if at.Some? && h.versions[at.value].status.Published? then WithStatus(h.versions, at.value, Retired) else h.versions
    ensures versions == RetireCurrent(h)
  {
  }

  lemma UnusedLater(table: StepRows, id: VersionId)
    requires Unused(table, id)
    ensures Unused(table, id + 1) && Content(table, id) == []
  {
  }

  lemma PublishesWithDraft(h: History<seq<StepInput>>)
    requires Sound(h, JobPlanRules())
    ensures Attempt(h, JobPlanRules(), VersionHistory.Publish) ==
            if LatestDraft(h.versions).None? then h
            else h.(stage := InForce, current := Some(h.versions[LatestDraft(h.versions).value].id),
                    versions := WithStatus(RetireCurrent(h), LatestDraft(h.versions).value, Published))
    ensures LatestDraft(h.versions).Some? ==> h.versions[LatestDraft(h.versions).value].content != []
  {
    hide LatestDraft, RetireCurrent;
    if LatestDraft(h.versions).Some? {
      SoundContent(h, JobPlanRules(), LatestDraft(h.versions).value);
    }
    hide Sound, Stored;
  }

  /** The version a plan executes always has steps, and no two of them share a key. */
  lemma CurrentHasSteps(id: VersionId, steps: seq<StepInput>, commands: seq<Command<seq<StepInput>>>)
    requires Accepts(steps)
    ensures var h := Run(Created(id, Stored(steps)), JobPlanRules(), commands);
            h.current.Some? ==> CurrentAt(h).Some? && h.versions[CurrentAt(h).value].status.Published?
                                && Accepts(h.versions[CurrentAt(h).value].content)
  {
    hide Accepts, Stored;
    JobPlanRulesLawful();
    CreatedSound(id, steps, JobPlanRules());
    RunSound(Created(id, Stored(steps)), JobPlanRules(), commands);
    var h := Run(Created(id, Stored(steps)), JobPlanRules(), commands);
    SoundQueries(h);
    if CurrentAt(h).Some? {
      assert h.versions[CurrentAt(h).value] in h.versions;
    }
  }
}
