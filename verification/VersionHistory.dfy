/** The versions of a workflow or of a job plan: how they are drafted, published, retired and restored. */
module VersionHistory {
  import opened Outcomes

  type VersionId = int

  datatype VersionStatus = Draft | Published | Retired

  datatype Version<C> = Version(id: VersionId, number: nat, status: VersionStatus, content: C)

  /** The status column of the definition or plan: `draft`, `published`, `archived`. */
  datatype Stage = Drafted | InForce | Archived

  /** One definition with its versions, in the order in which they were inserted. */
  datatype History<C> = History(stage: Stage, current: Option<VersionId>, versions: seq<Version<C>>, nextId: VersionId)

  /** Where workflows and job plans differ: what a save accepts, what a publication asks for, what a saved content reads
      back as, what a draft holds before anything is saved in it, and how a new draft gets its number. */
  datatype Rules<!C> = Rules(accepts: C -> bool, publishable: C -> bool, stored: C -> C, empty: C, numbering: Numbering)

  datatype Numbering = AfterCurrent | AfterMaximum

  datatype Failure = NothingToPublish | Refused | NoDraft | NotArchived

  datatype Command<C> = Save(content: C) | Publish | Archive | Restore

  // ------------------------------------------------------------------ queries

  /** `findOne({ status: 'draft' }, order: versionNumber DESC)` */
  function LatestDraft<C>(vs: seq<Version<C>>): (r: Option<nat>)
    ensures r.Some? ==> r.value < |vs| && vs[r.value].status.Draft?
  {
    if vs == [] then None
    else
      var last := |vs| - 1;
      var rest := LatestDraft(vs[..last]);
      if vs[last].status.Draft? && (rest.None? || vs[rest.value].number <= vs[last].number) then Some(last) else rest
  }

  /** `MAX(versionNumber)`, or 0 */
  function MaxNumber<C>(vs: seq<Version<C>>): nat {
    if vs == [] then 0
    else
      var last := |vs| - 1;
      var rest := MaxNumber(vs[..last]);
      if rest <= vs[last].number then vs[last].number else rest
  }

  function IndexOf<C>(vs: seq<Version<C>>, id: VersionId): (r: Option<nat>)
    ensures r.Some? ==> r.value < |vs| && vs[r.value].id == id
  {
    if vs == [] then None
    else if vs[|vs| - 1].id == id then Some(|vs| - 1)
    else IndexOf(vs[..|vs| - 1], id)
  }

  /** Two lists of versions that differ in contents only. */
  ghost predicate SameButContents<A, B>(a: seq<Version<A>>, b: seq<Version<B>>) {
    && |a| == |b|
    && forall i | 0 <= i < |a| :: a[i].id == b[i].id && a[i].number == b[i].number && a[i].status == b[i].status
  }

  lemma {:induction false} SameQueries<A, B>(a: seq<Version<A>>, b: seq<Version<B>>)
    requires SameButContents(a, b)
    ensures LatestDraft(a) == LatestDraft(b) && MaxNumber(a) == MaxNumber(b)
    ensures forall id :: IndexOf(a, id) == IndexOf(b, id)
  {
    if a != [] {
      SameQueries(a[..|a| - 1], b[..|b| - 1]);
    }
  }

  lemma AppendedIsLatest<C>(vs: seq<Version<C>>, version: Version<C>)
    requires LatestDraft(vs).None? && version.status.Draft?
    ensures LatestDraft(vs + [version]) == Some(|vs|)
  {
    assert (vs + [version])[..|vs|] == vs;
  }

  method FindDraft<C>(vs: seq<Version<C>>) returns (found: Option<nat>)
    ensures found == LatestDraft(vs)
  {
    found := None;
    for i := 0 to |vs|
      invariant found == LatestDraft(vs[..i])
    {
      assert vs[..i + 1][..i] == vs[..i];
      if vs[i].status.Draft? && (found.None? || vs[found.value].number <= vs[i].number) {
        found := Some(i);
      }
    }
    assert vs[..|vs|] == vs;
  }

  method FindVersion<C>(vs: seq<Version<C>>, id: VersionId) returns (found: Option<nat>)
    ensures found == IndexOf(vs, id)
  {
    found := None;
    for i := 0 to |vs|
      invariant found == IndexOf(vs[..i], id)
    {
      assert vs[..i + 1][..i] == vs[..i];
      if vs[i].id == id {
        found := Some(i);
      }
    }
    assert vs[..|vs|] == vs;
  }

  method FindMaximum<C>(vs: seq<Version<C>>) returns (maximum: nat)
    ensures maximum == MaxNumber(vs)
  {
    maximum := 0;
    for i := 0 to |vs|
      invariant maximum == MaxNumber(vs[..i])
    {
      assert vs[..i + 1][..i] == vs[..i];
      if maximum <= vs[i].number {
        maximum := vs[i].number;
      }
    }
    assert vs[..|vs|] == vs;
  }

  function CurrentAt<C>(h: History<C>): (r: Option<nat>)
    ensures r.Some? ==> r.value < |h.versions|
  {
    if h.current.Some? then IndexOf(h.versions, h.current.value) else None
  }

  // --------------------------------------------------------------- operations

  function NextNumber<C>(h: History<C>, numbering: Numbering): nat {
    var at := CurrentAt(h);
    if numbering.AfterCurrent? && at.Some? then h.versions[at.value].number + 1 else MaxNumber(h.versions) + 1
  }

  /** A new draft starts as a copy of the current version. */
  function NewDraft<C>(h: History<C>, rules: Rules<C>): Version<C> {
    var at := CurrentAt(h);
    var content := if at.Some? then rules.stored(h.versions[at.value].content) else rules.empty;
    Version(h.nextId, NextNumber(h, rules.numbering), Draft, content)
  }

  function EnsureDraft<C>(h: History<C>, rules: Rules<C>): History<C> {
    if LatestDraft(h.versions).Some? then h
    else h.(versions := h.versions + [NewDraft(h, rules)], nextId := h.nextId + 1)
  }

  function WithContent<C>(vs: seq<Version<C>>, i: nat, content: C): seq<Version<C>>
    requires i < |vs|
  {
    vs[i := vs[i].(content := content)]
  }

  function WithStatus<C>(vs: seq<Version<C>>, i: nat, status: VersionStatus): seq<Version<C>>
    requires i < |vs|
  {
    vs[i := vs[i].(status := status)]
  }

  lemma EnsuresDraft<C>(h: History<C>, rules: Rules<C>)
    ensures LatestDraft(EnsureDraft(h, rules).versions).Some?
  {
  }

  function SaveDraft<C>(h: History<C>, rules: Rules<C>, content: C): Result<History<C>, Failure> {
    var ready := EnsureDraft(h, rules);
    if !rules.accepts(content) then Err(Refused)
    else
      EnsuresDraft(h, rules);
      Ok(ready.(versions := WithContent(ready.versions, LatestDraft(ready.versions).value, rules.stored(content))))
  }

  /** `update({ id: current, status: 'published' }, { status: 'retired' })` */
  function RetireCurrent<C>(h: History<C>): (vs: seq<Version<C>>)
    ensures |vs| == |h.versions|
  {
    var at := CurrentAt(h);
    if at.Some? && h.versions[at.value].status.Published? then WithStatus(h.versions, at.value, Retired) else h.versions
  }

  /** What the publication looks at: the draft, or the current version. */
  function Judged<C>(h: History<C>): (r: Option<nat>)
    ensures r.Some? ==> r.value < |h.versions|
  {
    if LatestDraft(h.versions).Some? then LatestDraft(h.versions) else CurrentAt(h)
  }

  function PublishDraft<C>(h: History<C>, rules: Rules<C>): Result<History<C>, Failure> {
    var judged, draft := Judged(h), LatestDraft(h.versions);
    if rules.numbering.AfterCurrent? && judged.None? then Err(NothingToPublish)
    else if rules.numbering.AfterCurrent? && !rules.publishable(h.versions[judged.value].content) then Err(Refused)
    else if draft.None? then Err(NoDraft)
    else if !rules.publishable(h.versions[draft.value].content) then Err(Refused)
    else Ok(h.(stage := InForce, current := Some(h.versions[draft.value].id),
               versions := WithStatus(RetireCurrent(h), draft.value, Published)))
  }

  function Apply<C>(h: History<C>, rules: Rules<C>, command: Command<C>): Result<History<C>, Failure> {
    match command
    case Save(content) => SaveDraft(h, rules, content)
    case Publish => PublishDraft(h, rules)
    case Archive => Ok(h.(stage := Archived))
    case Restore =>
      if !h.stage.Archived? then Err(NotArchived) else Ok(h.(stage := if h.current.Some? then InForce else Drafted))
  }

  /** A rejected command leaves everything as it was. */
  function Attempt<C>(h: History<C>, rules: Rules<C>, command: Command<C>): History<C> {
    var r := Apply(h, rules, command);
    if r.Ok? then r.value else h
  }

  function Run<C>(h: History<C>, rules: Rules<C>, commands: seq<Command<C>>): History<C>
    decreases |commands|
  {
    if commands == [] then h else Run(Attempt(h, rules, commands[0]), rules, commands[1..])
  }

  function Created<C>(id: VersionId, content: C): History<C> {
    History(Drafted, None, [Version(id, 1, Draft, content)], id + 1)
  }

  // --------------------------------------------------------------- invariants

  /** Reading back loses nothing that matters: it keeps acceptance, and doing it twice is doing it once. */
  ghost predicate Lawful<C(!new)>(rules: Rules<C>) {
    forall c :: (rules.accepts(c) ==> rules.accepts(rules.stored(c)) && rules.publishable(c))
                && rules.stored(rules.stored(c)) == rules.stored(c)
  }

  ghost predicate Numbered<C>(vs: seq<Version<C>>) {
    forall i | 0 <= i < |vs| :: vs[i].number == i + 1
  }

  ghost predicate Identified<C>(vs: seq<Version<C>>, nextId: VersionId) {
    && (forall i | 0 <= i < |vs| :: vs[i].id < nextId)
    && forall i, j | 0 <= i < j < |vs| :: vs[i].id != vs[j].id
  }

  /** All versions but the newest are retired, except that the newest may be a draft beside the published one. */
  ghost predicate Staged<C>(h: History<C>) {
    var n := |h.versions|;
    && n >= 1
    && (forall i | 0 <= i < n - 2 :: h.versions[i].status.Retired?)
    && !h.versions[n - 1].status.Retired?
    && (n >= 2 ==> h.versions[n - 2].status == if h.versions[n - 1].status.Draft? then Published else Retired)
    && h.current == (if h.versions[n - 1].status.Published? then Some(h.versions[n - 1].id)
                     else if n >= 2 then Some(h.versions[n - 2].id)
                     else None)
    && (h.stage.InForce? ==> h.current.Some?) && (h.stage.Drafted? ==> h.current.None?)
  }

  ghost predicate Accepted<C>(h: History<C>, rules: Rules<C>) {
    forall v | v in h.versions :: rules.accepts(v.content) && rules.stored(v.content) == v.content
  }

  ghost predicate Sound<C>(h: History<C>, rules: Rules<C>) {
    Numbered(h.versions) && Identified(h.versions, h.nextId) && Staged(h) && Accepted(h, rules)
  }

  lemma CreatedSound<C(!new)>(id: VersionId, content: C, rules: Rules<C>)
    requires Lawful(rules) && rules.accepts(content)
    ensures Sound(Created(id, rules.stored(content)), rules)
  {
  }

  lemma {:induction false} NoDraftAmong<C>(vs: seq<Version<C>>)
    requires forall i | 0 <= i < |vs| :: !vs[i].status.Draft?
    ensures LatestDraft(vs).None?
  {
  }

  lemma {:induction false} MaxIsCount<C>(vs: seq<Version<C>>)
    requires Numbered(vs)
    ensures MaxNumber(vs) == |vs|
  {
    if vs != [] {
      MaxIsCount(vs[..|vs| - 1]);
    }
  }

  lemma {:induction false} FoundAt<C>(vs: seq<Version<C>>, i: nat)
    requires i < |vs| && forall j | 0 <= j < |vs| && j != i :: vs[j].id != vs[i].id
    ensures IndexOf(vs, vs[i].id) == Some(i)
  {
    if i < |vs| - 1 {
      assert vs[|vs| - 1].id != vs[i].id;
      FoundAt(vs[..|vs| - 1], i);
    }
  }

  /** The queries, on a sound history. */
  lemma SoundQueries<C>(h: History<C>)
    requires Numbered(h.versions) && Identified(h.versions, h.nextId) && Staged(h)
    ensures var n := |h.versions|;
            && LatestDraft(h.versions) == (if h.versions[n - 1].status.Draft? then Some(n - 1) else None)
            && MaxNumber(h.versions) == n
            && CurrentAt(h) == (if h.versions[n - 1].status.Published? then Some(n - 1) else if n >= 2 then Some(n - 2) else None)
  {
    var vs, n := h.versions, |h.versions|;
    MaxIsCount(vs);
    NoDraftAmong(vs[..n - 1]);
    if h.current.Some? {
      FoundAt(vs, if vs[n - 1].status.Published? then n - 1 else n - 2);
    }
  }

  /** The two ways of numbering a new draft agree. */
  lemma NumberingAgrees<C>(h: History<C>)
    requires Numbered(h.versions) && Identified(h.versions, h.nextId) && Staged(h) && LatestDraft(h.versions).None?
    ensures NextNumber(h, AfterCurrent) == NextNumber(h, AfterMaximum) == |h.versions| + 1
  {
    SoundQueries(h);
  }

  /** The newest version. */
  function Newest<C>(h: History<C>): Version<C>
    requires h.versions != []
  {
    h.versions[|h.versions| - 1]
  }

  /** A save, in one step: the draft's content is replaced, or a draft is appended. */
  function Saved<C>(h: History<C>, content: C): History<C>
    requires h.versions != []
  {
    var n := |h.versions|;
    if Newest(h).status.Draft? then h.(versions := WithContent(h.versions, n - 1, content))
    else h.(versions := h.versions + [Version(h.nextId, n + 1, Draft, content)], nextId := h.nextId + 1)
  }

  lemma EnsureDraftShape<C>(h: History<C>, rules: Rules<C>)
    requires Sound(h, rules)
    ensures var n := |h.versions|;
            && EnsureDraft(h, rules) == (if Newest(h).status.Draft? then h else Saved(h, rules.stored(h.versions[n - 1].content)))
            && LatestDraft(EnsureDraft(h, rules).versions) == Some(if Newest(h).status.Draft? then n - 1 else n)
  {
    hide Accepted;
    SoundQueries(h);
    if !Newest(h).status.Draft? {
      NumberingAgrees(h);
      var vs := h.versions + [NewDraft(h, rules)];
      assert vs[..|vs| - 1] == h.versions;
    }
  }

  lemma SaveShape<C>(h: History<C>, rules: Rules<C>, content: C)
    requires Sound(h, rules) && rules.accepts(content)
    ensures SaveDraft(h, rules, content) == Ok(Saved(h, rules.stored(content)))
  {
    hide Sound, LatestDraft;
    EnsureDraftShape(h, rules);
    assert h.versions != [] by {
      SoundNotEmpty(h, rules);
    }
    var n := |h.versions|;
    if !Newest(h).status.Draft? {
      var copy := Saved(h, rules.stored(h.versions[n - 1].content)).versions;
      assert copy[n := copy[n].(content := rules.stored(content))]
             == h.versions + [Version(h.nextId, n + 1, Draft, rules.stored(content))];
    }
  }

  lemma SoundNotEmpty<C>(h: History<C>, rules: Rules<C>)
    requires Sound(h, rules)
    ensures h.versions != []
  {
  }

  lemma SavedSound<C(!new)>(h: History<C>, rules: Rules<C>, content: C)
    requires Sound(h, rules) && rules.accepts(content) && rules.stored(content) == content
    ensures Sound(Saved(h, content), rules)
  {
    var h' := Saved(h, content);
    assert Staged(h') by {
      hide Numbered, Accepted;
    }
    assert Identified(h'.versions, h'.nextId) by {
      hide Numbered, Accepted, Staged;
    }
    assert Numbered(h'.versions) by {
      hide Accepted, Staged, Identified;
    }
  }

  lemma EnsureDraftSound<C(!new)>(h: History<C>, rules: Rules<C>)
    requires Lawful(rules) && Sound(h, rules)
    ensures Sound(EnsureDraft(h, rules), rules)
  {
    EnsureDraftShape(h, rules);
    hide EnsureDraft, Saved, Numbered, Identified, Staged;
    if !Newest(h).status.Draft? {
      assert Newest(h) in h.versions;
      SavedSound(h, rules, rules.stored(Newest(h).content));
    }
  }

  /** A publication, in one step. */
  function Promoted<C>(h: History<C>): History<C>
    requires h.versions != []
  {
    var n, vs := |h.versions|, h.versions;
    var retired := if n >= 2 then WithStatus(vs, n - 2, Retired) else vs;
    h.(stage := InForce, current := Some(vs[n - 1].id), versions := WithStatus(retired, n - 1, Published))
  }

  lemma PublishShape<C(!new)>(h: History<C>, rules: Rules<C>)
    requires Lawful(rules) && Sound(h, rules)
    ensures PublishDraft(h, rules) == if Newest(h).status.Draft? then Ok(Promoted(h)) else Err(NoDraft)
  {
    SoundQueries(h);
    var n := |h.versions|;
    assert h.versions[n - 1] in h.versions;
    hide LatestDraft, MaxNumber, IndexOf, Numbered, Identified;
    if Newest(h).status.Draft? {
      assert RetireCurrent(h) == if n >= 2 then WithStatus(h.versions, n - 2, Retired) else h.versions;
    }
  }

  lemma PromotedSound<C>(h: History<C>, rules: Rules<C>)
    requires Sound(h, rules) && Newest(h).status.Draft?
    ensures Sound(Promoted(h), rules)
  {
  }

  lemma StepSound<C(!new)>(h: History<C>, rules: Rules<C>, command: Command<C>)
    requires Lawful(rules) && Sound(h, rules)
    ensures Sound(Attempt(h, rules, command), rules)
  {
    if command.Save? {
      hide Sound, EnsureDraft, Saved;
      if rules.accepts(command.content) {
        SaveShape(h, rules, command.content);
        SavedSound(h, rules, rules.stored(command.content));
      }
    } else if command.Publish? {
      hide Sound, PublishDraft, Promoted;
      PublishShape(h, rules);
      SoundNotEmpty(h, rules);
      if Newest(h).status.Draft? {
        PromotedSound(h, rules);
      }
    }
  }

  /** Whatever is done to a definition, its versions are numbered 1..n, only the newest can be a draft, exactly the
      current one is published, and every content was accepted. */
  lemma {:induction false} RunSound<C(!new)>(h: History<C>, rules: Rules<C>, commands: seq<Command<C>>)
    requires Lawful(rules) && Sound(h, rules)
    ensures Sound(Run(h, rules, commands), rules)
    decreases |commands|
  {
    if commands != [] {
      StepSound(h, rules, commands[0]);
      RunSound(Attempt(h, rules, commands[0]), rules, commands[1..]);
    }
  }

  // ------------------------------------------------------------------- frozen

  /** `later` extends `earlier`: versions keep place, identity and number; what is no longer a draft keeps its content
      and can at most be retired. */
  ghost predicate Extends<C>(later: seq<Version<C>>, earlier: seq<Version<C>>) {
    && |earlier| <= |later|
    && forall i | 0 <= i < |earlier| ::
         && later[i].id == earlier[i].id && later[i].number == earlier[i].number
         && (earlier[i].status.Published? ==> !later[i].status.Draft? && later[i].content == earlier[i].content)
         && (earlier[i].status.Retired? ==> later[i] == earlier[i])
  }

  lemma StepExtends<C(!new)>(h: History<C>, rules: Rules<C>, command: Command<C>)
    requires Lawful(rules) && Sound(h, rules)
    ensures Extends(Attempt(h, rules, command).versions, h.versions)
  {
    hide SaveDraft, PublishDraft, Numbered, Identified, Accepted, Lawful;
    if command.Save? && rules.accepts(command.content) {
      SaveShape(h, rules, command.content);
    } else if command.Publish? {
      PublishShape(h, rules);
    } else if command.Save? {
      RefusedSave(h, rules, command.content);
    }
  }

  lemma RefusedSave<C>(h: History<C>, rules: Rules<C>, content: C)
    requires !rules.accepts(content)
    ensures SaveDraft(h, rules, content) == Err(Refused)
  {
  }

  lemma ExtendsTransitive<C>(a: seq<Version<C>>, b: seq<Version<C>>, c: seq<Version<C>>)
    requires Extends(b, a) && Extends(c, b)
    ensures Extends(c, a)
  {
  }

  /** Published and retired versions never change again. */
  lemma {:induction false} RunExtends<C(!new)>(h: History<C>, rules: Rules<C>, commands: seq<Command<C>>)
    requires Lawful(rules) && Sound(h, rules)
    ensures Extends(Run(h, rules, commands).versions, h.versions)
    decreases |commands|
  {
    hide Sound, Attempt;
    if commands != [] {
      var next := Attempt(h, rules, commands[0]);
      StepExtends(h, rules, commands[0]);
      StepSound(h, rules, commands[0]);
      RunExtends(next, rules, commands[1..]);
      ExtendsTransitive(h.versions, next.versions, Run(next, rules, commands[1..]).versions);
    }
  }

  /** A running instance is pinned: the version it was started on still has the same content after any run. */
  lemma PinnedContent<C(!new)>(h: History<C>, rules: Rules<C>, commands: seq<Command<C>>, id: VersionId)
    requires Lawful(rules) && Sound(h, rules) && h.current == Some(id)
    ensures var at, at' := IndexOf(h.versions, id), IndexOf(Run(h, rules, commands).versions, id);
            at.Some? && at' == at && Run(h, rules, commands).versions[at.value].content == h.versions[at.value].content
  {
    hide Run, Lawful, Numbered, Accepted, Extends, IndexOf;
    SoundQueries(h);
    RunExtends(h, rules, commands);
    RunSound(h, rules, commands);
    hide Staged;
    KeptInPlace(Run(h, rules, commands).versions, h.versions, IndexOf(h.versions, id).value);
  }

  lemma KeptInPlace<C>(later: seq<Version<C>>, earlier: seq<Version<C>>, i: nat)
    requires Extends(later, earlier) && i < |earlier| && !earlier[i].status.Draft?
    requires forall j, k | 0 <= j < k < |later| :: later[j].id != later[k].id
    ensures IndexOf(later, earlier[i].id) == Some(i) && later[i].content == earlier[i].content
  {
    FoundAt(later, i);
  }

  // ------------------------------------------------------- what commands promise

  /** Validation at publication never fails: a publication succeeds exactly when there is a draft. */
  lemma PublishesIffDraft<C(!new)>(h: History<C>, rules: Rules<C>)
    requires Lawful(rules) && Sound(h, rules)
    ensures PublishDraft(h, rules).Ok? <==> Newest(h).status.Draft?
    ensures PublishDraft(h, rules).Err? ==> PublishDraft(h, rules).error == NoDraft
  {
  }

  lemma SaveThenPublish<C(!new)>(h: History<C>, rules: Rules<C>, content: C)
    requires Lawful(rules) && Sound(h, rules) && rules.accepts(content)
    ensures h.versions != [] && Saved(h, rules.stored(content)).versions != []
    ensures Run(h, rules, [Save(content), Publish]) == Promoted(Saved(h, rules.stored(content)))
    ensures Sound(Promoted(Saved(h, rules.stored(content))), rules)
  {
    hide Sound, SaveDraft, PublishDraft, Saved, Promoted;
    SoundNotEmpty(h, rules);
    var saved := Saved(h, rules.stored(content));
    SaveShape(h, rules, content);
    SavedSound(h, rules, rules.stored(content));
    PublishShape(saved, rules);
    SavedNewest(h, rules.stored(content), rules);
    PromotedSound(saved, rules);
    assert Run(saved, rules, [Publish]) == Run(Promoted(saved), rules, []);
    assert Run(h, rules, [Save(content), Publish]) == Run(saved, rules, [Save(content), Publish][1..]);
  }

  lemma PromotedTakesOver<C>(h: History<C>, rules: Rules<C>, content: C)
    requires Sound(h, rules)
    ensures var h' := Promoted(Saved(h, content));
            var n := |h'.versions|;
            && h'.stage.InForce? && n >= 1 && h'.current == Some(Newest(h').id)
            && Newest(h').content == content && Newest(h').status.Published?
            && (h.current.Some? ==> n >= 2 && h'.versions[n - 2].id == h.current.value && h'.versions[n - 2].status.Retired?)
  {
  }

  /** A save and a publication later, the content saved is the current one, the version it replaces is retired, and the
      next draft would start as an exact copy of it. */
  lemma SavedIsPublished<C(!new)>(h: History<C>, rules: Rules<C>, content: C)
    requires Lawful(rules) && Sound(h, rules) && rules.accepts(content)
    ensures var h' := Run(h, rules, [Save(content), Publish]);
            var n := |h'.versions|;
            && h'.stage.InForce? && n >= 1 && h'.current == Some(Newest(h').id)
            && Newest(h').content == rules.stored(content) && Newest(h').status.Published?
            && (h.current.Some? ==> n >= 2 && h'.versions[n - 2].id == h.current.value && h'.versions[n - 2].status.Retired?)
            && EnsureDraft(h', rules).versions == h'.versions + [Version(h'.nextId, n + 1, Draft, rules.stored(content))]
  {
    hide Sound, Run, Promoted, EnsureDraft;
    SaveThenPublish(h, rules, content);
    PromotedTakesOver(h, rules, rules.stored(content));
    EnsureDraftShape(Run(h, rules, [Save(content), Publish]), rules);
  }

  lemma SavedNewest<C>(h: History<C>, content: C, rules: Rules<C>)
    requires Sound(h, rules)
    ensures Saved(h, content).versions != [] && Newest(Saved(h, content)).status.Draft?
  {
  }

  /** Archiving is undone by restoring. */
  lemma RestoreUndoesArchive<C>(h: History<C>, rules: Rules<C>)
    requires Sound(h, rules) && !h.stage.Archived?
    ensures Run(h, rules, [Archive, Restore]) == h
  {
  }

  // ------------------------------------------------ contents kept elsewhere

  /** The identifier of the draft, once there is one. */
  function DraftId<C>(h: History<C>): VersionId
    requires h.versions != []
  {
    if Newest(h).status.Draft? then Newest(h).id else h.nextId
  }

  /** `h'` gives version `w` this content, and differs from `h` in no other content. */
  ghost predicate DiffersAt<C>(h: History<C>, h': History<C>, w: VersionId, content: C) {
    forall i | 0 <= i < |h'.versions| ::
      if h'.versions[i].id == w then h'.versions[i].content == content
      else i < |h.versions| && h'.versions[i].id == h.versions[i].id && h'.versions[i].content == h.versions[i].content
  }

  lemma SoundContent<C>(h: History<C>, rules: Rules<C>, i: nat)
    requires Sound(h, rules) && i < |h.versions|
    ensures rules.accepts(h.versions[i].content) && rules.stored(h.versions[i].content) == h.versions[i].content
  {
    assert h.versions[i] in h.versions;
  }

  lemma DraftAdded<C>(h: History<C>, rules: Rules<C>)
    requires Sound(h, rules) && h.versions != [] && !Newest(h).status.Draft?
    ensures DiffersAt(h, EnsureDraft(h, rules), h.nextId, Newest(h).content)
  {
    SoundContent(h, rules, |h.versions| - 1);
    hide EnsureDraft, LatestDraft, Staged, Accepted, Numbered, Identified, DiffersAt;
    EnsureDraftShape(h, rules);
    AppendedDiffers(h, EnsureDraft(h, rules), Newest(EnsureDraft(h, rules)));
  }

  lemma AppendedDiffers<C>(h: History<C>, h': History<C>, v: Version<C>)
    requires Identified(h.versions, h.nextId) && h'.versions == h.versions + [v] && v.id == h.nextId
    ensures DiffersAt(h, h', h.nextId, v.content)
  {
  }

  lemma SavedDiffers<C>(h: History<C>, rules: Rules<C>, content: C)
    requires Sound(h, rules) && rules.accepts(content) && h.versions != []
    ensures DiffersAt(EnsureDraft(h, rules), Attempt(h, rules, Save(content)), DraftId(h), rules.stored(content))
  {
    EnsureDraftShape(h, rules);
    SaveShape(h, rules, content);
    hide EnsureDraft, SaveDraft, Staged, Accepted, Numbered;
  }

  /** The draft has an identifier of its own, and is the last of the versions once made sure of. */
  lemma DraftAmongOthers<C>(h: History<C>, rules: Rules<C>)
    requires Sound(h, rules) && h.versions != []
    ensures var ready := EnsureDraft(h, rules);
            && LatestDraft(ready.versions) == Some(|ready.versions| - 1) && Newest(ready).id == DraftId(h)
            && |h.versions| <= |ready.versions|
            && (forall i | 0 <= i < |ready.versions| - 1 :: ready.versions[i].id != DraftId(h))
            && (forall i | 0 <= i < |h.versions| && !h.versions[i].status.Draft? :: h.versions[i].id != DraftId(h))
  {
    EnsureDraftShape(h, rules);
  }

  /** Every command but an accepted save leaves all identifiers and contents alone. */
  lemma SameContents<C(!new)>(h: History<C>, rules: Rules<C>, command: Command<C>)
    requires Lawful(rules) && Sound(h, rules) && !(command.Save? && rules.accepts(command.content))
    ensures var h' := Attempt(h, rules, command);
            && |h'.versions| == |h.versions|
            && forall i | 0 <= i < |h.versions| :: h'.versions[i].id == h.versions[i].id && h'.versions[i].content == h.versions[i].content
  {
    hide Lawful, Numbered, Identified, Accepted;
    if command.Publish? {
      PublishShape(h, rules);
      SoundNotEmpty(h, rules);
      hide Sound, PublishDraft;
    } else if command.Save? {
      hide SaveDraft;
      RefusedSave(h, rules, command.content);
    }
  }

  lemma DraftStays<C>(h: History<C>, rules: Rules<C>, content: C)
    requires Sound(h, rules) && rules.accepts(content) && h.versions != []
    ensures var h' := Attempt(h, rules, Save(content));
            h'.versions != [] && Newest(h').id == DraftId(h)
  {
    hide Sound, SaveDraft;
    SaveShape(h, rules, content);
  }

  lemma StillFrozen<C>(h: History<C>, later: History<C>, i: nat)
    requires Extends(later.versions, h.versions) && i < |h.versions| && !h.versions[i].status.Draft?
    ensures i < |later.versions| && !later.versions[i].status.Draft? && later.versions[i].id == h.versions[i].id
  {
  }
}
