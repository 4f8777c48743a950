/** A workflow definition: the operations that move its versions on, over the tables that keep their graphs. */
module WorkflowDefinitions {
  import opened Outcomes
  import opened GraphInput
  import opened GraphStore
  import opened GraphRoundTrip
  import opened VersionHistory
  import opened VersionTables
  import opened WorkflowDrawings
  import GraphValidator
  import ActionKeys

  /** A row of the version table. */
  type VersionRow = Version<()>

  class Definition {
    const store: Store
    var stage: Stage
    var current: Option<VersionHistory.VersionId>
    var rows: seq<VersionRow>
    var nextId: VersionHistory.VersionId

    /** What each version's graph in the tables amounts to. */
    ghost var drawings: seq<Drawing>

    ghost function Versions(): seq<Version<Drawing>>
      reads this
    {
      seq(|rows|, i requires 0 <= i < |rows| reads this =>
        Version(rows[i].id, rows[i].number, rows[i].status, if i < |drawings| then drawings[i] else Drawing([], [])))
    }

    ghost function State(): History<Drawing>
      reads this
    {
      History(stage, current, Versions(), nextId)
    }

    /** The history is sound, and the tables hold what it says. */
    ghost predicate Valid()
      reads this, store
    {
      |drawings| == |rows| && Sound(State(), WorkflowRules()) && Coupled(store.Contents(), State())
    }

    constructor (store: Store, id: VersionHistory.VersionId, fold: string -> string)
      requires Sane(store.Contents())
      modifies store
      ensures this.store == store && State() == Created(id, Stored(DEFAULT)) && Valid()
      ensures Joined(DEFAULT.nodes, DEFAULT.transitions)
      ensures store.Contents() == Replaced(old(store.Contents()), id, DEFAULT.nodes, DEFAULT.transitions)
    {
      hide Acceptable, Stored, Sound, Coupled, Sane, Replaced, Joined, ActionKeys.Prepared, ActionKeys.KeyedAll, ActionKeys.DistinctKeys;
      DefaultFits();
      JoinedEnds(DEFAULT.nodes, DEFAULT.transitions);
      var prepared := store.ReplaceGraph(id, DEFAULT.nodes, DEFAULT.transitions, fold);
      ActionKeys.PreparedIdentity(DEFAULT.transitions, fold, prepared);
      CreatedCoupled(old(store.Contents()), id);
      this.store := store;
      stage, current, nextId := Drafted, None, id + 1;
      rows := [Version(id, 1, Draft, ())];
      drawings := [Stored(DEFAULT)];
      new;
      assert Versions() == [Version(id, 1, Draft, Stored(DEFAULT))];
    }

    /** A definition without a draft has a current version: its graph is read and saved again, as the new draft's. */
    method EnsureDraft(fold: string -> string) returns (draft: nat)
      requires Valid()
      modifies `rows, `drawings, `nextId, store
      ensures Valid() && State() == VersionHistory.EnsureDraft(old(State()), WorkflowRules())
      ensures LatestDraft(State().versions) == Some(draft)
      ensures DraftMade(old(store.Contents()), old(State()), store.Contents())
    {
      hide Sound, Coupled, DraftMade, LatestDraft, VersionHistory.IndexOf, SameButContents, Stored, Loaded, Connected, Joined, HasKey;
      hide Replaced, NodesToInput, TransitionsToInput, ActionKeys.Prepared, ActionKeys.KeyedAll, ActionKeys.DistinctKeys, NewDraft;
      hide VersionHistory.EnsureDraft, WorkflowRules;
      ghost var h, db := State(), store.Contents();
      Queries();
      WorkflowRulesLawful();
      EnsureDraftSound(h, WorkflowRules());
      var existing := FindDraft(rows);
      if existing.Some? {
        NothingMade(db, h);
        return existing.value;
      }
      NoDraftButCurrent(h);
      var at := FindVersion(rows, current.value);
      var view := store.LoadGraph(rows[at.value].id);
      CopyReady(db, h, view);
      var id := nextId;
      draft := |rows|;
      rows := rows + [Version(id, rows[at.value].number + 1, Draft, ())];
      drawings := drawings + [Stored(drawings[at.value])];
      nextId := nextId + 1;
      DraftAppended(h, Versions());
      var prepared := store.ReplaceGraph(id, NodesToInput(view), TransitionsToInput(view), fold);
      ActionKeys.PreparedIdentity(TransitionsToInput(view), fold, prepared);
      Copied(db, h, view, store.Contents());
      DraftMadeCoupled(db, h, store.Contents());
    }

    /** A graph that is refused leaves no new draft behind: the transaction takes everything back. */
    method SaveDraft(nodes: seq<NodeInput>, transitions: seq<TransitionInput>, fold: string -> string)
      returns (failure: Option<Failure>, prepared: seq<TransitionInput>)
      requires Valid() && forall n | n in nodes :: ':' !in n.key
      modifies `rows, `drawings, `nextId, store
      ensures Valid() && ActionKeys.Prepared(transitions, fold, prepared)
      ensures State() == Attempt(old(State()), WorkflowRules(), Save(Drawing(nodes, prepared)))
      ensures Stepped(old(store.Contents()), old(State()), Save(Drawing(nodes, prepared)), store.Contents())
      ensures failure == (if GraphValidator.WellFormed(nodes, prepared) then None else Some(Refused))
    {
      hide Sound, Coupled, DraftMade, LatestDraft, VersionHistory.IndexOf, SameButContents, Stored, Joined, HasKey, Replaced, Stepped;
      hide ActionKeys.Prepared, ActionKeys.KeyedAll, ActionKeys.DistinctKeys, VersionHistory.EnsureDraft, WorkflowRules, Attempt;
      hide GraphValidator.WellFormed, Acceptable;
      ghost var h, db := State(), store.Contents();
      var beforeRows, beforeId, tables := rows, nextId, store.Contents();
      ghost var beforeDrawings := drawings;
      var draft := EnsureDraft(fold);
      ghost var ready, made := State(), store.Contents();
      prepared := ActionKeys.PrepareTransitions(transitions, fold);
      SubmissionFits(nodes, transitions, fold, prepared);
      var errors := GraphValidator.ValidateGraphInput(nodes, prepared);
      ghost var d := Drawing(nodes, prepared);
      if errors != [] {
        rows, drawings, nextId := beforeRows, beforeDrawings, beforeId;
        store.nodes, store.rules, store.transitions, store.nextId := tables.nodes, tables.rules, tables.transitions, tables.nextId;
        assert Versions() == h.versions;
        RefusedStep(db, h, d);
        return Some(Refused), prepared;
      }
      var again := store.ReplaceGraph(rows[draft].id, nodes, prepared, fold);
      ActionKeys.PreparedIdentity(prepared, fold, again);
      drawings := drawings[draft := Stored(d)];
      assert Versions() == WithContent(ready.versions, draft, Stored(d));
      AcceptedStep(db, h, d, made, draft, store.Contents());
      failure := None;
    }

    method PublishDefinition() returns (failure: Option<Failure>)
      requires Valid()
      modifies `stage, `current, `rows
      ensures Valid() && State() == Attempt(old(State()), WorkflowRules(), Publish)
      ensures failure == (if old(LatestDraft(rows)).Some? then None else Some(NoDraft))
    {
      hide Sound, Coupled, LatestDraft, VersionHistory.IndexOf, SameButContents, Stored, Loaded, Connected, NodesToInput, TransitionsToInput;
      hide WorkflowRules, Acceptable, GraphValidator.WellFormed, Attempt, RetireCurrent;
      ghost var h, db := State(), store.Contents();
      Queries();
      Kept(db, h, Publish);
      PublishesWithDraft(h);
      var judged := FindDraft(rows);
      var draft := judged;
      if judged.None? && current.Some? {
        judged := FindVersion(rows, current.value);
      }
      if judged.None? {
        return Some(NothingToPublish);
      }
      var view := store.LoadGraph(rows[judged.value].id);
      JudgedFits(db, h, view);
      var errors := GraphValidator.ValidateGraphInput(NodesToInput(view), TransitionsToInput(view));
      if errors != [] {
        return Some(Refused);
      }
      if draft.None? {
        return Some(NoDraft);
      }
      if current.Some? {
        var at := FindVersion(rows, current.value);
        if at.Some? && rows[at.value].status.Published? {
          rows := WithStatus(rows, at.value, Retired);
        }
      }
      Retires(h, Versions());
      current := Some(rows[draft.value].id);
      rows := WithStatus(rows, draft.value, Published);
      stage := InForce;
      assert Versions() == WithStatus(RetireCurrent(h), draft.value, Published);
      failure := None;
    }

    method Archive()
      requires Valid()
      modifies `stage
      ensures Valid() && State() == Attempt(old(State()), WorkflowRules(), VersionHistory.Archive)
    {
      hide Sound, Coupled;
      Kept(store.Contents(), State(), VersionHistory.Archive);
      if !stage.Archived? {
        stage := Archived;
      }
      assert Versions() == old(Versions());
    }

    method Restore() returns (failure: Option<Failure>)
      requires Valid()
      modifies `stage
      ensures Valid() && State() == Attempt(old(State()), WorkflowRules(), VersionHistory.Restore)
      ensures failure == (if old(stage).Archived? then None else Some(NotArchived))
    {
      hide Sound, Coupled;
      Kept(store.Contents(), State(), VersionHistory.Restore);
      if !stage.Archived? {
        return Some(NotArchived);
      }
      stage := if current.Some? then InForce else Drafted;
      assert Versions() == old(Versions());
      failure := None;
    }

    lemma Queries()
      requires |drawings| == |rows|
      ensures LatestDraft(State().versions) == LatestDraft(rows)
      ensures forall id :: VersionHistory.IndexOf(State().versions, id) == VersionHistory.IndexOf(rows, id)
    {
      SameQueries(Versions(), rows);
    }
  }

  lemma DefaultFits()
    ensures Acceptable(DEFAULT) && Joined(DEFAULT.nodes, DEFAULT.transitions)
    ensures ActionKeys.KeyedAll(DEFAULT.transitions) && ActionKeys.DistinctKeys(DEFAULT.transitions)
  {
    DefaultAcceptable();
    AcceptableJoined(DEFAULT);
    AcceptableKeys(DEFAULT);
  }

  lemma JoinedEnds(ns: seq<NodeInput>, ts: seq<TransitionInput>)
    requires Joined(ns, ts)
    ensures forall t | t in ts :: HasKey(ns, t.sourceKey) && HasKey(ns, t.targetKey)
  {
  }

  lemma AcceptableKeys(d: Drawing)
    requires Acceptable(d)
    ensures ActionKeys.KeyedAll(d.transitions) && ActionKeys.DistinctKeys(d.transitions)
  {
    hide Addressable, ActionKeys.KeyedAll, ActionKeys.DistinctKeys;
  }

  lemma CreatedCoupled(db: Tables, id: VersionHistory.VersionId)
    requires Sane(db)
    ensures Sound(Created(id, Stored(DEFAULT)), WorkflowRules()) && Joined(DEFAULT.nodes, DEFAULT.transitions)
    ensures Coupled(Replaced(db, id, DEFAULT.nodes, DEFAULT.transitions), Created(id, Stored(DEFAULT)))
  {
    hide Acceptable, Stored, Sound, Sane, Holds, Replaced, Joined;
    DefaultFits();
    WorkflowRulesLawful();
    CreatedSound(id, DEFAULT, WorkflowRules());
    SaveKeeps(db, id, DEFAULT, Replaced(db, id, DEFAULT.nodes, DEFAULT.transitions));
  }

  lemma NothingMade(db: Tables, h: History<Drawing>)
    requires LatestDraft(h.versions).Some?
    ensures DraftMade(db, h, db) && VersionHistory.EnsureDraft(h, WorkflowRules()) == h
  {
  }

  lemma NoDraftButCurrent(h: History<Drawing>)
    requires Sound(h, WorkflowRules()) && LatestDraft(h.versions).None?
    ensures h.current.Some? && CurrentAt(h).Some? && CurrentAt(h).value == |h.versions| - 1
    ensures LatestDraft(EnsureDraft(h, WorkflowRules()).versions) == Some(|h.versions|)
  {
    SoundQueries(h);
    EnsureDraftShape(h, WorkflowRules());
  }

  lemma DraftAppended(h: History<Drawing>, versions: seq<Version<Drawing>>)
    requires LatestDraft(h.versions).None? && CurrentAt(h).Some?
    requires var at := h.versions[CurrentAt(h).value];
             versions == h.versions + [Version(h.nextId, at.number + 1, Draft, Stored(at.content))]
    ensures VersionHistory.EnsureDraft(h, WorkflowRules()) == h.(versions := versions, nextId := h.nextId + 1)
  {
    hide LatestDraft, CurrentAt, Stored, Acceptable;
  }

  /** The current version's graph, as it happens to be read, can be saved again. */
  lemma CopyReady(db: Tables, h: History<Drawing>, view: View)
    requires Sound(h, WorkflowRules()) && Coupled(db, h) && CurrentAt(h).Some?
    requires Loaded(db, h.versions[CurrentAt(h).value].id, view)
    ensures Connected(view) && Joined(NodesToInput(view), TransitionsToInput(view))
    ensures forall t | t in TransitionsToInput(view) :: HasKey(NodesToInput(view), t.sourceKey) && HasKey(NodesToInput(view), t.targetKey)
    ensures ActionKeys.KeyedAll(TransitionsToInput(view)) && ActionKeys.DistinctKeys(TransitionsToInput(view))
  {
    var at := CurrentAt(h).value;
    SoundContent(h, WorkflowRules(), at);
    hide Sound, CurrentAt, Loaded, Connected, Acceptable, Joined, HasKey, NodesToInput, TransitionsToInput, Holds, Sane;
    ViewAcceptable(db, h.versions[at].id, h.versions[at].content, view);
    AcceptableJoined(Drawn(view));
    AcceptableKeys(Drawn(view));
    JoinedEnds(NodesToInput(view), TransitionsToInput(view));
  }

  lemma Copied(db: Tables, h: History<Drawing>, view: View, db': Tables)
    requires LatestDraft(h.versions).None? && CurrentAt(h).Some?
    requires Loaded(db, h.versions[CurrentAt(h).value].id, view) && Connected(view) && CopyOf(db, view, h.nextId, db')
    ensures DraftMade(db, h, db')
  {
  }

  lemma SubmissionFits(nodes: seq<NodeInput>, ts: seq<TransitionInput>, fold: string -> string, prepared: seq<TransitionInput>)
    requires ActionKeys.Prepared(ts, fold, prepared) && forall n | n in nodes :: ':' !in n.key
    ensures forall t | t in prepared :: t.actionKey.Some?
    ensures ActionKeys.KeyedAll(prepared) && ActionKeys.DistinctKeys(prepared)
    ensures GraphValidator.WellFormed(nodes, prepared) <==> Acceptable(Drawing(nodes, prepared))
    ensures GraphValidator.WellFormed(nodes, prepared) ==>
              Joined(nodes, prepared) && forall t | t in prepared :: HasKey(nodes, t.sourceKey) && HasKey(nodes, t.targetKey)
  {
    AllKeyed(ts, fold, prepared);
    ActionKeys.PreparedKeys(ts, fold, prepared);
    hide ActionKeys.Prepared, ActionKeys.KeyedAll, ActionKeys.DistinctKeys, GraphValidator.WellFormed, Joined, HasKey;
    if GraphValidator.WellFormed(nodes, prepared) {
      WellFormedJoined(nodes, prepared);
      JoinedEnds(nodes, prepared);
    }
  }

  lemma AllKeyed(ts: seq<TransitionInput>, fold: string -> string, out: seq<TransitionInput>)
    requires ActionKeys.Prepared(ts, fold, out)
    ensures forall t | t in out :: t.actionKey.Some?
  {
  }

  lemma RefusedStep(db: Tables, h: History<Drawing>, d: Drawing)
    requires !Acceptable(d)
    ensures Attempt(h, WorkflowRules(), Save(d)) == h && Stepped(db, h, Save(d), db)
  {
    RefusedSave(h, WorkflowRules(), d);
  }

  lemma AcceptedStep(db: Tables, h: History<Drawing>, d: Drawing, made: Tables, draft: nat, db': Tables)
    requires Sound(h, WorkflowRules()) && Coupled(db, h) && Acceptable(d) && DraftMade(db, h, made)
    requires LatestDraft(VersionHistory.EnsureDraft(h, WorkflowRules()).versions) == Some(draft) && Joined(d.nodes, d.transitions)
    requires db' == Replaced(made, VersionHistory.EnsureDraft(h, WorkflowRules()).versions[draft].id, d.nodes, d.transitions)
    ensures Stepped(db, h, Save(d), db')
    ensures var ready, h' := VersionHistory.EnsureDraft(h, WorkflowRules()), Attempt(h, WorkflowRules(), Save(d));
            && h' == ready.(versions := WithContent(ready.versions, draft, Stored(d)))
            && Sound(h', WorkflowRules()) && Coupled(db', h')
  {
    hide Sound, Coupled, Acceptable, DraftMade, LatestDraft, VersionHistory.EnsureDraft, Joined, Replaced, Stored;
    WorkflowRulesLawful();
    StepSound(h, WorkflowRules(), Save(d));
    StepCoupled(db, h, Save(d), db');
  }

  lemma Kept(db: Tables, h: History<Drawing>, command: Command<Drawing>)
    requires Sound(h, WorkflowRules()) && Coupled(db, h) && !command.Save?
    ensures Sound(Attempt(h, WorkflowRules(), command), WorkflowRules()) && Coupled(db, Attempt(h, WorkflowRules(), command))
  {
    hide Sound, Coupled, Attempt;
    WorkflowRulesLawful();
    StepSound(h, WorkflowRules(), command);
    StepCoupled(db, h, command, db);
  }

  lemma PublishesWithDraft(h: History<Drawing>)
    requires Sound(h, WorkflowRules())
    ensures Judged(h).Some?
    ensures Attempt(h, WorkflowRules(), Publish) ==
            if LatestDraft(h.versions).None? then h
            else h.(stage := InForce, current := Some(h.versions[LatestDraft(h.versions).value].id),
                    versions := WithStatus(RetireCurrent(h), LatestDraft(h.versions).value, Published))
  {
    WorkflowRulesLawful();
    hide Sound, LatestDraft, CurrentAt, WorkflowRules, RetireCurrent, WithStatus, Numbered, Identified, Staged;
    PublishesIffDraft(h, WorkflowRules());
    DraftIsNewest(h);
  }

  lemma DraftIsNewest(h: History<Drawing>)
    requires Sound(h, WorkflowRules())
    ensures h.versions != [] && Judged(h).Some? && (LatestDraft(h.versions).Some? <==> Newest(h).status.Draft?)
  {
    SoundQueries(h);
  }

  lemma Retires(h: History<Drawing>, versions: seq<Version<Drawing>>)
    requires var at := CurrentAt(h);
             versions == if at.Some? && h.versions[at.value].status.Published? then WithStatus(h.versions, at.value, Retired) else h.versions
    ensures versions == RetireCurrent(h)
  {
  }

  /** What a publication judges was accepted when it was saved, and reads back so. */
  lemma JudgedFits(db: Tables, h: History<Drawing>, view: View)
    requires Sound(h, WorkflowRules()) && Coupled(db, h) && Judged(h).Some?
    requires Loaded(db, h.versions[Judged(h).value].id, view)
    ensures Connected(view) && GraphValidator.WellFormed(NodesToInput(view), TransitionsToInput(view))
    ensures (forall n | n in NodesToInput(view) :: ':' !in n.key) && forall t | t in TransitionsToInput(view) :: t.actionKey.Some?
  {
    var at := Judged(h).value;
    SoundContent(h, WorkflowRules(), at);
    hide Sound, Judged, Loaded, Connected, GraphValidator.WellFormed, NodesToInput, TransitionsToInput, Holds, Sane;
    ViewAcceptable(db, h.versions[at].id, h.versions[at].content, view);
  }

  /** What an instance is started on can be run: the current version's graph is well formed for good. */
  lemma CurrentIsWellFormed(id: VersionHistory.VersionId, commands: seq<Command<Drawing>>)
    ensures var h := Run(Created(id, Stored(DEFAULT)), WorkflowRules(), commands);
            && (h.stage.InForce? ==> h.current.Some?)
            && (h.current.Some? ==> CurrentAt(h).Some? && h.versions[CurrentAt(h).value].status.Published?
                                    && Acceptable(h.versions[CurrentAt(h).value].content))
  {
    hide Acceptable, Stored;
    WorkflowRulesLawful();
    DefaultAcceptable();
    CreatedSound(id, DEFAULT, WorkflowRules());
    RunSound(Created(id, Stored(DEFAULT)), WorkflowRules(), commands);
    var h := Run(Created(id, Stored(DEFAULT)), WorkflowRules(), commands);
    SoundQueries(h);
    if CurrentAt(h).Some? {
      assert h.versions[CurrentAt(h).value] in h.versions;
    }
  }

  /** From its creation on, whatever is done to a definition and in whatever order its rows are read: the current version's
      rows are a graph the engine can run, with its one start. */
  lemma CurrentAlwaysRuns(db: Tables, id: VersionHistory.VersionId, commands: seq<Command<Drawing>>, db': Tables, view: View)
    requires Sane(db) && Joined(DEFAULT.nodes, DEFAULT.transitions)
    requires Ran(Replaced(db, id, DEFAULT.nodes, DEFAULT.transitions), Created(id, Stored(DEFAULT)), commands, db')
    requires var h := Run(Created(id, Stored(DEFAULT)), WorkflowRules(), commands);
             CurrentAt(h).Some? && Loaded(db', h.versions[CurrentAt(h).value].id, view)
    ensures Connected(view) && EngineGraph(view).Closed() && EngineGraph(view).Deterministic()
    ensures exists start :: OnlyStart(EngineGraph(view), start)
  {
    hide Stored, Sound, Coupled, Sane, Joined, Replaced, Ran, Run, CurrentAt, Loaded, Connected, EngineGraph, OnlyStart, Acceptable;
    var h := Created(id, Stored(DEFAULT));
    CreatedCoupled(db, id);
    WorkflowRulesLawful();
    RunSound(h, WorkflowRules(), commands);
    RunFreezesRows(Replaced(db, id, DEFAULT.nodes, DEFAULT.transitions), h, commands, db');
    CurrentGraphRuns(db', Run(h, WorkflowRules(), commands), view);
  }
}
