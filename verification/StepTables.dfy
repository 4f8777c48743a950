/** The steps of maintenance job plans, and the table that keeps them for all versions. */
module StepTables {
  import opened Outcomes
  import opened Json
  import opened VersionHistory
  import opened GraphInput
  import GraphRoundTrip
  import GraphStore
  import Text

  datatype StepInput = StepInput(
    key: string, kind: string, title: string, description: Option<string>, isRequired: Option<bool>, config: Option<Record>)

  predicate UniqueKeys(steps: seq<StepInput>) {
    forall i, j | 0 <= i < j < |steps| :: steps[i].key != steps[j].key
  }

  predicate Accepts(steps: seq<StepInput>) {
    steps != [] && UniqueKeys(steps)
  }

  /** A step as it reads back; its sort order is its position. */
  function NormalStep(s: StepInput): StepInput {
    s.(title := Text.Trim(s.title), description := GraphStore.TrimmedOrNone(s.description),
       isRequired := Some(GraphStore.OrElse(s.isRequired, true)), config := Some(GraphStore.OrElse(s.config, map[])))
  }

  function Stored(steps: seq<StepInput>): seq<StepInput> {
    seq(|steps|, i requires 0 <= i < |steps| => NormalStep(steps[i]))
  }

  ghost function JobPlanRules(): Rules<seq<StepInput>> {
    Rules((c: seq<StepInput>) => Accepts(c), (c: seq<StepInput>) => c != [], (c: seq<StepInput>) => Stored(c), [], AfterMaximum)
  }

  lemma NormalStepIdempotent(s: StepInput)
    ensures NormalStep(NormalStep(s)) == NormalStep(s)
  {
  }

  lemma JobPlanRulesLawful()
    ensures Lawful(JobPlanRules())
  {
    forall c: seq<StepInput>
      ensures Accepts(c) ==> Accepts(Stored(c)) && c != []
      ensures Stored(Stored(c)) == Stored(c)
    {
      forall i | 0 <= i < |c|
        ensures NormalStep(NormalStep(c[i])) == NormalStep(c[i])
      {
        NormalStepIdempotent(c[i]);
      }
    }
  }

  method AssertUniqueStepKeys(steps: seq<StepInput>) returns (ok: bool)
    ensures ok <==> UniqueKeys(steps)
  {
    var keys: set<string> := {};
    for i := 0 to |steps|
      invariant UniqueKeys(steps[..i])
      invariant forall k :: k in keys <==> exists j | 0 <= j < i :: steps[j].key == k
    {
      if steps[i].key in keys {
        return false;
      }
      keys := keys + {steps[i].key};
    }
    ok := true;
  }

  // --------------------------------------------------------------------- rows

  datatype StepRow = StepRow(
    version: VersionId, sortOrder: nat, key: string, kind: string, title: string, description: Option<string>,
    isRequired: bool, config: Record)

  type StepRows = seq<StepRow>

  function SaveStep(v: VersionId, i: nat, s: StepInput): StepRow {
    StepRow(v, i, s.key, s.kind, Text.Trim(s.title), GraphStore.TrimmedOrNone(s.description), GraphStore.OrElse(s.isRequired, true),
            GraphStore.OrElse(s.config, map[]))
  }

  function SavedSteps(v: VersionId, steps: seq<StepInput>): StepRows {
    seq(|steps|, i requires 0 <= i < |steps| => SaveStep(v, i, steps[i]))
  }

  function LoadStep(r: StepRow): StepInput {
    StepInput(r.key, r.kind, r.title, r.description, Some(r.isRequired), Some(r.config))
  }

  function LoadSteps(view: StepRows): seq<StepInput> {
    seq(|view|, i requires 0 <= i < |view| => LoadStep(view[i]))
  }

  function IsStep(v: VersionId): StepRow -> bool { (r: StepRow) => r.version == v }

  function OtherStep(v: VersionId): StepRow -> bool { (r: StepRow) => r.version != v }

  function StepsOf(rows: StepRows, v: VersionId): StepRows {
    GraphStore.Filter(rows, IsStep(v))
  }

  function ReplacedSteps(rows: StepRows, v: VersionId, steps: seq<StepInput>): StepRows {
    GraphStore.Filter(rows, OtherStep(v)) + SavedSteps(v, steps)
  }

  /** What a version's rows say. */
  function Content(rows: StepRows, v: VersionId): seq<StepInput> {
    LoadSteps(StepsOf(rows, v))
  }

  /** Each version's rows are numbered by their places. */
  ghost predicate InOrder(rows: StepRows) {
    forall v :: Placed(StepsOf(rows, v))
  }

  ghost predicate Placed(rows: StepRows) {
    forall i | 0 <= i < |rows| :: rows[i].sortOrder == i
  }

  /** `find({ where: { versionId }, order: { sortOrder: 'ASC' } })` */
  ghost predicate Reads(rows: StepRows, v: VersionId, view: StepRows) {
    && (exists p, q :: Rearranges(view, StepsOf(rows, v), p, q))
    && forall i, j | 0 <= i < j < |view| :: view[i].sortOrder <= view[j].sortOrder
  }

  lemma {:induction false} ClimbsAtLeast(p: seq<nat>, i: nat)
    requires i < |p| && forall j, k | 0 <= j < k < |p| :: p[j] < p[k]
    ensures i <= p[i]
  {
    if i > 0 {
      ClimbsAtLeast(p, i - 1);
    }
  }

  /** There is one order in which a version's rows can be read. */
  lemma ReadInOneWay(rows: StepRows, v: VersionId, view: StepRows)
    requires InOrder(rows) && Reads(rows, v, view)
    ensures view == StepsOf(rows, v)
  {
    hide StepsOf;
    var p, q :| Rearranges(view, StepsOf(rows, v), p, q);
    assert Placed(StepsOf(rows, v));
    forall j, k | 0 <= j < k < |p|
      ensures p[j] < p[k]
    {
      assert view[j].sortOrder == p[j] && view[k].sortOrder == p[k];
      assert q[p[j]] == j && q[p[k]] == k;
    }
    forall j, k | 0 <= j < k < |q|
      ensures q[j] < q[k]
    {
      assert p[q[j]] == j && p[q[k]] == k;
    }
    forall i | 0 <= i < |view|
      ensures p[i] == i
    {
      ClimbsAtLeast(p, i);
      ClimbsAtLeast(q, p[i]);
    }
  }

  lemma ReplacedReads(rows: StepRows, v: VersionId, steps: seq<StepInput>)
    ensures StepsOf(ReplacedSteps(rows, v, steps), v) == SavedSteps(v, steps)
    ensures Content(ReplacedSteps(rows, v, steps), v) == Stored(steps)
  {
    var kept, saved := GraphStore.Filter(rows, OtherStep(v)), SavedSteps(v, steps);
    GraphRoundTrip.FilterAppend(kept, saved, IsStep(v));
    GraphRoundTrip.FilterMembers(rows, OtherStep(v));
    GraphRoundTrip.FilterNone(kept, IsStep(v));
    GraphRoundTrip.FilterAll(saved, IsStep(v));
  }

  lemma ReplacedLeavesSteps(rows: StepRows, v: VersionId, steps: seq<StepInput>, w: VersionId)
    requires w != v
    ensures StepsOf(ReplacedSteps(rows, v, steps), w) == StepsOf(rows, w)
  {
    var kept, saved := GraphStore.Filter(rows, OtherStep(v)), SavedSteps(v, steps);
    GraphRoundTrip.FilterAppend(kept, saved, IsStep(w));
    GraphRoundTrip.FilterNone(saved, IsStep(w));
    GraphRoundTrip.FilterTwice(rows, OtherStep(v), IsStep(w));
  }

  lemma ReplacedInOrder(rows: StepRows, v: VersionId, steps: seq<StepInput>)
    requires InOrder(rows)
    ensures InOrder(ReplacedSteps(rows, v, steps))
  {
    hide StepsOf, ReplacedSteps;
    forall w
      ensures Placed(StepsOf(ReplacedSteps(rows, v, steps), w))
    {
      ReplacedReads(rows, v, steps);
      if w != v {
        ReplacedLeavesSteps(rows, v, steps, w);
      }
    }
  }

  class StepTable {
    var rows: StepRows

    method Replace(v: VersionId, steps: seq<StepInput>)
      requires InOrder(rows)
      modifies this
      ensures InOrder(rows) && rows == ReplacedSteps(old(rows), v, steps)
    {
      rows := GraphStore.Filter(rows, OtherStep(v));
      hide InOrder;
      ghost var kept, saved := rows, SavedSteps(v, steps);
      for i := 0 to |steps|
        invariant rows == kept + saved[..i]
      {
        assert saved[..i + 1] == saved[..i] + [SaveStep(v, i, steps[i])];
        rows := rows + [SaveStep(v, i, steps[i])];
      }
      assert saved[..|steps|] == saved;
      ReplacedInOrder(old(rows), v, steps);
    }
  }

  // ------------------------------------------------------------- all versions

  ghost predicate CoupledSteps(rows: StepRows, h: History<seq<StepInput>>) {
    InOrder(rows) && forall i | 0 <= i < |h.versions| :: Content(rows, h.versions[i].id) == h.versions[i].content
  }

  /** The table once a draft is made sure of: a new one gets the current version's steps. */
  function ReadyRows(rows: StepRows, h: History<seq<StepInput>>): StepRows {
    if LatestDraft(h.versions).Some? || CurrentAt(h).None? then rows
    else ReplacedSteps(rows, h.nextId, Content(rows, h.versions[CurrentAt(h).value].id))
  }

  /** The table after a command. Only an accepted save writes to it. */
  function NextRows(rows: StepRows, h: History<seq<StepInput>>, command: Command<seq<StepInput>>): StepRows {
    if command.Save? && Accepts(command.content) && h.versions != []
    then ReplacedSteps(ReadyRows(rows, h), DraftId(h), command.content) else rows
  }

  ghost function RunRows(rows: StepRows, h: History<seq<StepInput>>, commands: seq<Command<seq<StepInput>>>): StepRows
    decreases |commands|
  {
    if commands == [] then rows
    else RunRows(NextRows(rows, h, commands[0]), Attempted(h, commands[0]), commands[1..])
  }

  ghost function Attempted(h: History<seq<StepInput>>, command: Command<seq<StepInput>>): History<seq<StepInput>> {
    Attempt(h, JobPlanRules(), command)
  }

  lemma DiffersThen<C>(h: History<C>, h': History<C>, h'': History<C>, w: VersionId, a: C, b: C)
    requires DiffersAt(h, h', w, a) && DiffersAt(h', h'', w, b)
    ensures DiffersAt(h, h'', w, b)
  {
  }

  lemma SavedDiffersFromHere(h: History<seq<StepInput>>, steps: seq<StepInput>)
    requires Sound(h, JobPlanRules()) && Accepts(steps) && h.versions != []
    ensures DiffersAt(h, Attempted(h, Save(steps)), DraftId(h), Stored(steps))
  {
    SavedDiffers(h, JobPlanRules(), steps);
    EnsureDraftShape(h, JobPlanRules());
    hide Sound, Attempt, VersionHistory.EnsureDraft, DiffersAt, Accepts, Stored, LatestDraft;
    var ready := VersionHistory.EnsureDraft(h, JobPlanRules());
    if !Newest(h).status.Draft? {
      DraftAdded(h, JobPlanRules());
      DiffersThen(h, ready, Attempted(h, Save(steps)), h.nextId, Newest(h).content, Stored(steps));
    }
  }

  /** A save writes to the draft's rows only. */
  lemma SaveKeepsSteps(rows: StepRows, h: History<seq<StepInput>>, steps: seq<StepInput>)
    requires Sound(h, JobPlanRules()) && InOrder(rows) && Accepts(steps) && h.versions != []
    ensures var rows' := NextRows(rows, h, Save(steps));
            && InOrder(rows') && Content(rows', DraftId(h)) == Stored(steps)
            && forall w | w != DraftId(h) :: StepsOf(rows', w) == StepsOf(rows, w)
  {
    SoundQueries(h);
    hide Sound, InOrder, ReplacedSteps, StepsOf, Content, Stored, Accepts, LatestDraft, CurrentAt;
    var ready, rows' := ReadyRows(rows, h), NextRows(rows, h, Save(steps));
    if !Newest(h).status.Draft? {
      ReplacedInOrder(rows, h.nextId, Content(rows, h.versions[CurrentAt(h).value].id));
    }
    ReplacedInOrder(ready, DraftId(h), steps);
    ReplacedReads(ready, DraftId(h), steps);
    forall w | w != DraftId(h)
      ensures StepsOf(rows', w) == StepsOf(rows, w)
    {
      ReplacedLeavesSteps(ready, DraftId(h), steps, w);
      if !Newest(h).status.Draft? {
        ReplacedLeavesSteps(rows, h.nextId, Content(rows, h.versions[CurrentAt(h).value].id), w);
      }
    }
  }

  lemma StepCoupledSteps(rows: StepRows, h: History<seq<StepInput>>, command: Command<seq<StepInput>>)
    requires Sound(h, JobPlanRules()) && CoupledSteps(rows, h)
    ensures CoupledSteps(NextRows(rows, h, command), Attempted(h, command))
    ensures forall i | 0 <= i < |h.versions| && !h.versions[i].status.Draft? ::
              StepsOf(NextRows(rows, h, command), h.versions[i].id) == StepsOf(rows, h.versions[i].id)
  {
    SoundNotEmpty(h, JobPlanRules());
    JobPlanRulesLawful();
    if command.Save? && Accepts(command.content) {
      SaveKeepsSteps(rows, h, command.content);
      SavedDiffersFromHere(h, command.content);
      DraftAmongOthers(h, JobPlanRules());
      hide Sound, InOrder, StepsOf, NextRows, Attempted, Stored, Accepts, VersionHistory.EnsureDraft, LatestDraft, DraftId;
    } else {
      SameContents(h, JobPlanRules(), command);
      hide Sound, InOrder, StepsOf, Attempt, Accepts, Content;
    }
  }

  /** Through any run of operations on a plan, the step rows of every published and retired version stay as they are, and all
      versions' rows keep saying what the history says. */
  lemma {:induction false} RunFreezesSteps(rows: StepRows, h: History<seq<StepInput>>, commands: seq<Command<seq<StepInput>>>)
    requires Sound(h, JobPlanRules()) && CoupledSteps(rows, h)
    ensures CoupledSteps(RunRows(rows, h, commands), Run(h, JobPlanRules(), commands))
    ensures forall i | 0 <= i < |h.versions| && !h.versions[i].status.Draft? ::
              StepsOf(RunRows(rows, h, commands), h.versions[i].id) == StepsOf(rows, h.versions[i].id)
    decreases |commands|
  {
    hide Sound, CoupledSteps, NextRows, Attempt, StepsOf, Extends;
    if commands != [] {
      var next := Attempted(h, commands[0]);
      StepCoupledSteps(rows, h, commands[0]);
      JobPlanRulesLawful();
      StepSound(h, JobPlanRules(), commands[0]);
      StepExtends(h, JobPlanRules(), commands[0]);
      RunFreezesSteps(NextRows(rows, h, commands[0]), next, commands[1..]);
      forall i | 0 <= i < |h.versions| && !h.versions[i].status.Draft?
        ensures StepsOf(RunRows(rows, h, commands), h.versions[i].id) == StepsOf(rows, h.versions[i].id)
      {
        StillFrozen(h, next, i);
      }
    }
  }
}
