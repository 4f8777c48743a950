/** The instances of all resources: which version a start picks, and when it starts nothing new. */
module InstanceRegistry {
  import opened Outcomes
  import opened Json
  import opened Tenants
  import opened WorkflowGraph
  import opened TokenEngine
  import opened InstanceActions
  import opened EngineSafety
  import InstanceSafety
  import VersionHistory

  type DefinitionId = string

  type VersionId = VersionHistory.VersionId

  /** What instances are started for: a work order, say. */
  datatype Resource = Resource(tenant: TenantId, kind: string, id: string)

  datatype Entry = Entry(resource: Resource, definition: DefinitionId, version: VersionId, context: Context, state: State) {
    predicate Unfinished() {
      !state.row.status.InstanceCompleted?
    }
  }

  datatype Definition = Definition(tenant: TenantId, inForce: bool, current: Option<VersionId>)

  type Definitions = map<DefinitionId, Definition>

  /** The graphs of all versions that were ever published. */
  type Graphs = map<VersionId, Graph>

  datatype StartInput = StartInput(resource: Resource, definition: DefinitionId, actor: Option<UserId>)

  datatype StartError = DefinitionNotFound | NotInForce | Engine(error: Error)

  /** The look-up of a running or blocked instance. */
  function FindUnfinished(entries: seq<Entry>, resource: Resource): (r: Option<nat>)
    ensures r.Some? ==> r.value < |entries| && entries[r.value].resource == resource && entries[r.value].Unfinished()
    ensures r.None? ==> forall i | 0 <= i < |entries| :: entries[i].resource == resource ==> !entries[i].Unfinished()
  {
    if entries == [] then None
    else
      var last := |entries| - 1;
      if entries[last].resource == resource && entries[last].Unfinished() then Some(last)
      else FindUnfinished(entries[..last], resource)
  }

  /** The look-up of the start node, which may be any if there are several. */
  predicate FindsStart(g: Graph, start: Option<NodeId>) {
    if start.Some? then start.value in g.nodes && g.nodes[start.value].kind.Start?
    else forall n | n in g.nodes :: !g.nodes[n].kind.Start?
  }

  /** The definition is there, and the tenant's. */
  predicate Owned(definitions: Definitions, input: StartInput) {
    input.definition in definitions && definitions[input.definition].tenant == input.resource.tenant
  }

  /** The version a start would run. */
  function InForce(definitions: Definitions, input: StartInput): Result<VersionId, StartError> {
    if !(input.definition in definitions && definitions[input.definition].tenant == input.resource.tenant) then Err(DefinitionNotFound)
    else
      var definition := definitions[input.definition];
      if !definition.inForce || definition.current.None? then Err(NotInForce) else Ok(definition.current.value)
  }

  /** One `startInstance` transaction: the entries after it, and where the instance is that it answers with. */
  function Started(definitions: Definitions, graphs: Graphs, entries: seq<Entry>, input: StartInput, env: Env, start: Option<NodeId>)
    : Result<(seq<Entry>, nat), StartError>
  {
    var version := InForce(definitions, input);
    if version.Err? then Err(version.error)
    else if version.value !in graphs || start.None? then Err(Engine(NoStart))
    else
      var existing := FindUnfinished(entries, input.resource);
      if existing.Some? then Ok((entries, existing.value))
      else
        var state := StartInstance(graphs[version.value], env, start.value, input.actor);
        if state.Err? then Err(Engine(state.error))
        else Ok((entries + [Entry(input.resource, input.definition, version.value, env.context, state.value)], |entries|))
  }

  datatype Event =
    | Start(definitions: Definitions, input: StartInput, env: Env, start: Option<NodeId>)
    | Act(at: nat, command: Command)

  /** An instance acts on the graph of its own version, in its own context. */
  function Acted(graphs: Graphs, e: Entry, c: Command): Entry {
    if e.version in graphs then e.(state := Attempt(graphs[e.version], e.state, c.(env := c.env.(context := e.context)))) else e
  }

  function Next(graphs: Graphs, entries: seq<Entry>, event: Event): seq<Entry> {
    match event
    case Start(definitions, input, env, start) =>
      var r := Started(definitions, graphs, entries, input, env, start);
      if r.Ok? then r.value.0 else entries
    case Act(at, command) => if at < |entries| then entries[at := Acted(graphs, entries[at], command)] else entries
  }

  function Run(graphs: Graphs, entries: seq<Entry>, events: seq<Event>): seq<Entry>
    decreases |events|
  {
    if events == [] then entries else Run(graphs, Next(graphs, entries, events[0]), events[1..])
  }

  /** The event is a start that asks for this entry, of a definition of the tenant that is in force, on its current version. */
  predicate Granted(event: Event, e: Entry) {
    && event.Start? && e.resource == event.input.resource && e.definition == event.input.definition && e.context == event.env.context
    && e.definition in event.definitions
    && event.definitions[e.definition] == Definition(e.resource.tenant, true, Some(e.version))
  }

  class InstanceTable {
    const graphs: Graphs
    var entries: seq<Entry>

    method StartFor(definitions: Definitions, input: StartInput, env: Env, start: Option<NodeId>) returns (r: Result<nat, StartError>)
      requires var version := InForce(definitions, input);
               version.Ok? ==> version.value in graphs && FindsStart(graphs[version.value], start)
      modifies this`entries
      ensures r.Err? ==> entries == old(entries)
      ensures !Owned(definitions, input) ==> r == Err(DefinitionNotFound)
      ensures Owned(definitions, input) && !(definitions[input.definition].inForce && definitions[input.definition].current.Some?) ==>
                r == Err(NotInForce)
      ensures Owned(definitions, input) && definitions[input.definition].inForce && definitions[input.definition].current.Some? ==>
                (start.None? ==> r == Err(Engine(NoStart)))
      ensures entries != old(entries) ==>
                && r == Ok(|old(entries)|) && |entries| == |old(entries)| + 1 && entries[..|old(entries)|] == old(entries)
                && Granted(Event.Start(definitions, input, env, start), entries[|old(entries)|])
      ensures r.Ok? && entries == old(entries) ==>
                r.value < |entries| && entries[r.value].resource == input.resource && !entries[r.value].state.row.status.InstanceCompleted?
      ensures var started := Started(definitions, graphs, old(entries), input, env, start);
              if started.Ok? then r == Ok(started.value.1) && entries == started.value.0
              else r == Err(started.error) && entries == old(entries)
    {
      hide StartInstance, FindsStart;
      if !(input.definition in definitions && definitions[input.definition].tenant == input.resource.tenant) {
        return Err(DefinitionNotFound);
      }
      var definition := definitions[input.definition];
      if !definition.inForce || definition.current.None? {
        return Err(NotInForce);
      }
      if start.None? {
        return Err(Engine(NoStart));
      }
      var existing := Search(input.resource);
      if existing.Some? {
        return Ok(existing.value);
      }
      var version := definition.current.value;
      var state := StartInstance(graphs[version], env, start.value, input.actor);
      if state.Err? {
        return Err(Engine(state.error));
      }
      entries := entries + [Entry(input.resource, input.definition, version, env.context, state.value)];
      r := Ok(|entries| - 1);
    }

    method Search(resource: Resource) returns (found: Option<nat>)
      ensures found == FindUnfinished(entries, resource)
    {
      found := None;
      for i := 0 to |entries|
        invariant found == FindUnfinished(entries[..i], resource)
      {
        assert entries[..i + 1][..i] == entries[..i];
        if entries[i].resource == resource && entries[i].Unfinished() {
          found := Some(i);
        }
      }
      assert entries[..|entries|] == entries;
    }
  }

  // --------------------------------------------------------------- invariants

  ghost predicate OnePerResource(entries: seq<Entry>) {
    forall i, j | 0 <= i < j < |entries| && entries[i].resource == entries[j].resource ::
      !entries[i].Unfinished() || !entries[j].Unfinished()
  }

  ghost predicate AllSettled(graphs: Graphs, entries: seq<Entry>) {
    forall e | e in entries :: e.version in graphs && Settled(graphs[e.version], e.context, e.state)
  }

  ghost predicate AllClosed(graphs: Graphs) {
    forall v | v in graphs :: graphs[v].Closed()
  }

  /** An entry keeps its resource, version and context, and never starts over once it is finished. */
  ghost predicate Follows(later: Entry, earlier: Entry) {
    later == earlier.(state := later.state) && (!earlier.Unfinished() ==> later == earlier)
  }

  ghost predicate Grows(later: seq<Entry>, earlier: seq<Entry>) {
    |earlier| <= |later| && forall i | 0 <= i < |earlier| :: Follows(later[i], earlier[i])
  }

  lemma ActedFollows(graphs: Graphs, e: Entry, c: Command)
    ensures Follows(Acted(graphs, e, c), e)
  {
    if e.version in graphs && !e.Unfinished() {
      var c' := c.(env := c.env.(context := e.context));
      InstanceSafety.CompletedIsFinal(graphs[e.version], e.state, [c']);
      assert RunAll(graphs[e.version], e.state, [c']) == RunAll(graphs[e.version], Attempt(graphs[e.version], e.state, c'), []);
    }
  }

  lemma ClosedAt(graphs: Graphs, v: VersionId)
    requires AllClosed(graphs) && v in graphs
    ensures graphs[v].Closed()
  {
  }

  lemma ActedSettled(graphs: Graphs, e: Entry, c: Command)
    requires AllClosed(graphs) && e.version in graphs && Settled(graphs[e.version], e.context, e.state)
    ensures Settled(graphs[e.version], e.context, Acted(graphs, e, c).state)
  {
    hide Settled, Perform;
    InstanceSafety.PerformSettled(graphs[e.version], c.env.(context := e.context), e.state, c.user, c.request);
  }

  lemma NextGrows(graphs: Graphs, entries: seq<Entry>, event: Event)
    ensures Grows(Next(graphs, entries, event), entries)
  {
    hide Attempt, StartInstance;
    if event.Act? && event.at < |entries| {
      ActedFollows(graphs, entries[event.at], event.command);
      hide Acted;
    }
  }

  lemma NextOnePerResource(graphs: Graphs, entries: seq<Entry>, event: Event)
    requires OnePerResource(entries)
    ensures OnePerResource(Next(graphs, entries, event))
  {
    hide Attempt, StartInstance;
    if event.Act? && event.at < |entries| {
      ActedFollows(graphs, entries[event.at], event.command);
      hide Acted;
    }
  }

  lemma NextSettled(graphs: Graphs, entries: seq<Entry>, event: Event)
    requires AllClosed(graphs) && AllSettled(graphs, entries)
    ensures AllSettled(graphs, Next(graphs, entries, event))
  {
    hide Attempt, StartInstance, Settled, Graph.Closed;
    match event
    case Start(definitions, input, env, start) =>
      var version := InForce(definitions, input);
      if version.Ok? && version.value in graphs && start.Some? {
        ClosedAt(graphs, version.value);
        InstanceSafety.StartSettled(graphs[version.value], env, start.value, input.actor);
      }
    case Act(at, command) =>
      if at < |entries| {
        assert entries[at] in entries;
        ActedSettled(graphs, entries[at], command);
      }
  }

  /** Whatever is started and done, by whomever: a resource has at most one unfinished instance, every instance stays on the
      version it was started on, and every instance is at rest between transactions. */
  lemma {:induction false} RunKeeps(graphs: Graphs, entries: seq<Entry>, events: seq<Event>)
    requires AllClosed(graphs) && OnePerResource(entries) && AllSettled(graphs, entries)
    ensures OnePerResource(Run(graphs, entries, events)) && AllSettled(graphs, Run(graphs, entries, events))
    ensures Grows(Run(graphs, entries, events), entries)
    decreases |events|
  {
    hide Next, AllClosed, OnePerResource, AllSettled, Follows;
    RunGrows(graphs, entries, events);
    if events != [] {
      NextOnePerResource(graphs, entries, events[0]);
      NextSettled(graphs, entries, events[0]);
      RunKeeps(graphs, Next(graphs, entries, events[0]), events[1..]);
    }
  }

  lemma FollowsSelf(e: Entry)
    ensures Follows(e, e)
  {
  }

  lemma FollowsThen(a: Entry, b: Entry, c: Entry)
    requires Follows(b, a) && Follows(c, b)
    ensures Follows(c, a)
  {
  }

  lemma {:induction false} FoundIsTheOne(entries: seq<Entry>, i: nat)
    requires OnePerResource(entries) && i < |entries| && entries[i].Unfinished()
    ensures FindUnfinished(entries, entries[i].resource) == Some(i)
  {
    if i < |entries| - 1 {
      FoundIsTheOne(entries[..|entries| - 1], i);
    }
  }

  /** A start is repeated safely: whatever happens in between, another start for the resource answers with the same instance
      and changes nothing, as long as that instance has not finished; once it has, a new one is started. */
  lemma StartedOnce(definitions: Definitions, graphs: Graphs, entries: seq<Entry>, input: StartInput, env: Env, start: Option<NodeId>,
                    events: seq<Event>, again: StartInput, env': Env, start': Option<NodeId>)
    requires AllClosed(graphs) && OnePerResource(entries) && AllSettled(graphs, entries)
    requires Started(definitions, graphs, entries, input, env, start).Ok? && again.resource == input.resource
    ensures var (after, i) := Started(definitions, graphs, entries, input, env, start).value;
            var later := Run(graphs, after, events);
            var second := Started(definitions, graphs, later, again, env', start');
            && i < |later| && later[i].resource == input.resource
            && (later[i].Unfinished() && second.Ok? ==> second.value == (later, i))
            && (second.Ok? && second.value.0 != later ==>
                  && second.value.1 == |later| && |second.value.0| == |later| + 1
                  && forall j | 0 <= j < |later| && later[j].resource == input.resource :: !later[j].Unfinished())
  {
    hide StartInstance, AllSettled, AllClosed, Run;
    var (after, i) := Started(definitions, graphs, entries, input, env, start).value;
    var event := Event.Start(definitions, input, env, start);
    NextOnePerResource(graphs, entries, event);
    NextSettled(graphs, entries, event);
    RunKeeps(graphs, after, events);
    var later := Run(graphs, after, events);
    assert Follows(later[i], after[i]);
    if later[i].Unfinished() {
      FoundIsTheOne(later, i);
    }
  }

  lemma NextGranted(graphs: Graphs, entries: seq<Entry>, event: Event)
    ensures var after := Next(graphs, entries, event);
            && |entries| <= |after| <= |entries| + 1
            && (|after| > |entries| ==> Granted(event, after[|entries|]) && after[..|entries|] == entries)
  {
    hide StartInstance, Attempt;
  }

  /** Whatever happens: every instance that is there in the end was there before, or was started by an event whose definition
      was the tenant's, in force, and had the instance's version for its current one. */
  lemma {:induction false} RunGranted(graphs: Graphs, entries: seq<Entry>, events: seq<Event>, i: nat)
    requires |entries| <= i < |Run(graphs, entries, events)|
    ensures exists j | 0 <= j < |events| :: Granted(events[j], Run(graphs, entries, events)[i])
    decreases |events|
  {
    hide Next, Granted;
    if events != [] {
      var next := Next(graphs, entries, events[0]);
      NextGranted(graphs, entries, events[0]);
      RunGrows(graphs, next, events[1..]);
      if i < |next| {
        assert i == |entries|;
        StillGranted(events[0], next[i], Run(graphs, next, events[1..])[i]);
      } else {
        RunGranted(graphs, next, events[1..], i);
        var j :| 0 <= j < |events[1..]| && Granted(events[1..][j], Run(graphs, next, events[1..])[i]);
        assert events[1..][j] == events[j + 1];
      }
    }
  }

  lemma StillGranted(event: Event, earlier: Entry, later: Entry)
    requires Granted(event, earlier) && Follows(later, earlier)
    ensures Granted(event, later)
  {
  }

  lemma {:induction false} RunGrows(graphs: Graphs, entries: seq<Entry>, events: seq<Event>)
    ensures Grows(Run(graphs, entries, events), entries)
    decreases |events|
  {
    hide Next, Follows;
    if events == [] {
      forall e
        ensures Follows(e, e)
      {
        FollowsSelf(e);
      }
    } else {
      var next := Next(graphs, entries, events[0]);
      NextGrows(graphs, entries, events[0]);
      RunGrows(graphs, next, events[1..]);
      forall i | 0 <= i < |entries|
        ensures Follows(Run(graphs, next, events[1..])[i], entries[i])
      {
        FollowsThen(entries[i], next[i], Run(graphs, next, events[1..])[i]);
      }
    }
  }

  /** A definition that is not in force starts nothing and answers nothing, even for a resource with an instance. */
  lemma OutOfForce(definitions: Definitions, graphs: Graphs, entries: seq<Entry>, input: StartInput, env: Env, start: Option<NodeId>)
    requires input.definition in definitions && definitions[input.definition].tenant == input.resource.tenant
    requires !definitions[input.definition].inForce || definitions[input.definition].current.None?
    ensures Started(definitions, graphs, entries, input, env, start) == Err(NotInForce)
    ensures Next(graphs, entries, Event.Start(definitions, input, env, start)) == entries
  {
  }
}
