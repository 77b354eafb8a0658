/** What a mixed workflow means: which schedules of its pipeline it can run, and when it can run to the end. */
module MixedMeaning {
  import opened Order
  import opened Acyclic
  import opened Contract
  import opened Pipelines
  import opened Canonical
  import opened Argo
  import opened ArgoMeaning
  import opened MixedLanes
  import opened MixedTemplates
  import opened MixedArgo
  import opened MixedWorkflows

  // ----- who feeds whom -----

  /** The producer outputs this artifact, and the consumer takes it as an input. */
  ghost predicate Feeds(p: Pipeline, producer: string, a: Artifact, consumer: string) {
    Produces(p.matrix, Identity(a), producer) && Takes(p.matrix, consumer, a)
  }

  ghost predicate Takes(rows: seq<MatrixEntry>, consumer: string, a: Artifact) {
    exists row :: row in rows && row.task == consumer && a in row.inputs
  }

  /** Native tasks declare no output artifacts in the workflow. */
  predicate Declaring(p: Pipeline, task: string) { task in ById(p.tasks) && ById(p.tasks)[task].lane != NATIVE }

  /** Every input a task produces is one that other tasks can refer to. */
  ghost predicate AllDeclared(p: Pipeline) {
    forall producer, a, consumer :: Feeds(p, producer, a, consumer) ==> Declaring(p, producer)
  }

  /** And the producer is among what the consumer needs, directly or not. */
  ghost predicate Fed(p: Pipeline) {
    AllDeclared(p) &&
    forall producer, a, consumer :: Feeds(p, producer, a, consumer) ==>
      Reaches(NeedsOf(ById(p.tasks)), consumer, producer)
  }

  /** The schedule runs every producer before its consumers. */
  ghost predicate InOrder(p: Pipeline, s: seq<string>) {
    forall i, producer, a :: 0 <= i < |s| && Feeds(p, producer, a, s[i]) ==> producer in s[..i]
  }

  /** And runs no task that waits for an output no template declares. */
  ghost predicate Served(p: Pipeline, s: seq<string>) {
    InOrder(p, s) && forall i, producer, a :: 0 <= i < |s| && Feeds(p, producer, a, s[i]) ==> Declaring(p, producer)
  }

  /** The decision is what lowering this pipeline yields. */
  ghost predicate Yields(e: Encoders, p: Pipeline, binding: Binding, native: seq<NativeBinding>, initial: seq<Initial>,
                         d: Decision) {
    ValidPipeline(p) && WiredSoundly(p, initial, d.wiring, d.ordered) && EmittedSoundly(e, p, binding, native, d)
  }

  lemma FeedsTasks(p: Pipeline, producer: string, a: Artifact, consumer: string)
    requires ValidPipeline(p) && Feeds(p, producer, a, consumer)
    ensures producer in ById(p.tasks) && consumer in ById(p.tasks)
  {
    RowsHaveTasks(p);
    ByIdExact(p.tasks);
    hide ValidPipeline, IndexBy;
  }

  // ----- the emitted arguments say who feeds whom -----

  ghost predicate Refers(wiring: seq<Wired>, consumer: string, artifact: string, producer: string) {
    exists w :: w in wiring && w.task == consumer && Argument(artifact, Produced(producer)) in w.arguments
  }

  lemma FeedsRefers(p: Pipeline, initial: seq<Initial>, d: Decision, producer: string, a: Artifact, consumer: string)
    requires WiredSoundly(p, initial, d.wiring, d.ordered) && Feeds(p, producer, a, consumer)
    ensures Refers(d.wiring, consumer, a.name, producer)
  {
    hide Ready, Produces, Outputs, KeyMap;
    var row :| row in p.matrix && row.task == consumer && a in row.inputs;
    assert row in d.ordered;
    var j :| 0 <= j < |d.ordered| && d.ordered[j] == row;
    var k :| 0 <= k < |row.inputs| && row.inputs[k] == a;
    ProducerMapExact(p.matrix, a);
    assert d.wiring[j].arguments[k] == Argument(a.name, Produced(producer));
    assert d.wiring[j] in d.wiring;
  }

  lemma RefersFeeds(p: Pipeline, initial: seq<Initial>, d: Decision, w: Wired, g: Argument) returns (a: Artifact)
    requires WiredSoundly(p, initial, d.wiring, d.ordered) && w in d.wiring && g in w.arguments && g.origin.Produced?
    ensures Feeds(p, g.origin.task, a, w.task) && a.name == g.input
  {
    hide Ready, Produces, Outputs, KeyMap;
    var j :| 0 <= j < |d.wiring| && d.wiring[j] == w;
    var k :| 0 <= k < |w.arguments| && w.arguments[k] == g;
    a := d.ordered[j].inputs[k];
    assert d.ordered[j] in p.matrix;
    ProducerMapExact(p.matrix, a);
  }

  // ----- what is declared -----

  lemma ClusterDeclares(g: Site, t: Task, a: Artifact)
    requires t.lane != NATIVE && t.id in g.rows && a in g.rows[t.id].outputs
    ensures Own(g, t) != [] && Declares(Own(g, t)[0], a.name)
  {
    hide Requests;
    var outputs := g.rows[t.id].outputs;
    var k :| 0 <= k < |outputs| && outputs[k] == a;
    var declared := Declared(Own(g, t)[0]);
    assert declared[k].name == a.name;
    assert declared[k] in declared;
  }

  /** The producer's own artifact has the name by which it is referred to. */
  lemma ProducedByName(p: Pipeline, producer: string, a: Artifact, consumer: string)
    returns (row: MatrixEntry, b: Artifact)
    requires Ready(p.matrix) && Feeds(p, producer, a, consumer)
    ensures row in p.matrix && row.task == producer && b in row.outputs && b.name == a.name
  {
    row, b :| row in p.matrix && b in row.outputs && Identity(b) == Identity(a) && row.task == producer;
    IdentityInjective(a, b);
  }

  /** With clear names, a task's reference resolves to the task's own first template. */
  lemma OwnDeclares(g: Site, tasks: seq<Task>, t: Task, artifact: string)
    requires Distinct(tasks, TaskId) && NamesClear(tasks) && t in tasks
    ensures Own(g, t) != [] && NameOf(Own(g, t)[0]) == t.id
    ensures Publishes(Flat(g, tasks), t.id, artifact) <==> Declares(Own(g, t)[0], artifact)
  {
    hide Own, Flat, NamesClear, Distinct, SoleAt, Declares;
    var ts, own := Flat(g, tasks), Own(g, t);
    FlatNames(g, tasks);
    OwnInFlat(g, tasks, t);
    OwnShape(g, t);
    EntryAlone(g, tasks);
    assert own[0] in own && own[0] in ts;
    var k := SoleInDistinct(ts, own[0]);
    forall j: nat | SoleAt(ts, t.id, j) ensures j == k { OneSole(ts, t.id, j, k); }
  }

  lemma ProducerRow(p: Pipeline, tasks: seq<Task>, producer: string, a: Artifact, consumer: string)
    returns (t: Task, b: Artifact)
    requires ValidPipeline(p) && Ready(p.matrix) && Feeds(p, producer, a, consumer)
    requires multiset(tasks) == multiset(p.tasks)
    ensures t in tasks && t.id == producer && producer in ById(p.tasks) && ById(p.tasks)[producer] == t
    ensures Distinct(tasks, TaskId)
    ensures producer in IndexBy(p.matrix, RowTask) && b in IndexBy(p.matrix, RowTask)[producer].outputs
    ensures b.name == a.name
  {
    FeedsTasks(p, producer, a, consumer);
    PipelineFacts(p);
    ByIdExact(p.tasks);
    var row;
    row, b := ProducedByName(p, producer, a, consumer);
    IndexExact(p.matrix, RowTask);
    hide ValidPipeline, IndexBy, Feeds, Distinct;
    PermutationDistinct(p.tasks, tasks, TaskId);
    PermutationMembers(p.tasks, tasks);
    t := ById(p.tasks)[producer];
  }

  lemma DeclaredIff(p: Pipeline, g: Site, tasks: seq<Task>, producer: string, a: Artifact, consumer: string)
    requires ValidPipeline(p) && Ready(p.matrix) && Feeds(p, producer, a, consumer) && NamesClear(tasks)
    requires multiset(tasks) == multiset(p.tasks) && g.rows == IndexBy(p.matrix, RowTask)
    ensures Publishes(Flat(g, tasks), producer, a.name) <==> Declaring(p, producer)
  {
    hide ValidPipeline, Ready, Own, Flat, IndexBy, Feeds, NamesClear, Distinct, Publishes, Declares;
    var t, b := ProducerRow(p, tasks, producer, a, consumer);
    OwnDeclares(g, tasks, t, a.name);
    if t.lane != NATIVE {
      ClusterDeclares(g, t, b);
    } else {
      OwnShape(g, t);
      WrapperDeclaresNothing(Own(g, t)[0], a.name);
    }
  }

  lemma WrapperDeclaresNothing(t: MixedTemplate, artifact: string)
    requires !t.Cluster?
    ensures !Declares(t, artifact)
  {
  }

  lemma OneSole(ts: seq<MixedTemplate>, name: string, j: nat, k: nat)
    requires SoleAt(ts, name, j) && SoleAt(ts, name, k)
    ensures j == k
  {
    assert NameOf(ts[j]) == name;
  }

  /** With clear names, a workflow finds its arguments exactly when producers come first and declare. */
  lemma SuppliesExact(p: Pipeline, initial: seq<Initial>, d: Decision, g: Site, tasks: seq<Task>, s: seq<string>)
    requires ValidPipeline(p) && WiredSoundly(p, initial, d.wiring, d.ordered) && NamesClear(tasks)
    requires d.templates == Flat(g, tasks)
    requires multiset(tasks) == multiset(p.tasks) && g.rows == IndexBy(p.matrix, RowTask)
    ensures Supplies(d.wiring, d.templates, s) <==> Served(p, s)
  {
    hide ValidPipeline, Ready, Flat, IndexBy, Feeds, NamesClear, Publishes, Declaring, Wiring, Wirable;
    if Supplies(d.wiring, d.templates, s) {
      forall i, producer, a | 0 <= i < |s| && Feeds(p, producer, a, s[i])
        ensures producer in s[..i] && Declaring(p, producer)
      {
        FeedsRefers(p, initial, d, producer, a, s[i]);
        DeclaredIff(p, g, tasks, producer, a, s[i]);
        var w :| w in d.wiring && w.task == s[i] && Argument(a.name, Produced(producer)) in w.arguments;
        assert AtHand(d.templates, Argument(a.name, Produced(producer)), s[..i]);
      }
    }
    if Served(p, s) {
      forall i, w, x | 0 <= i < |s| && w in d.wiring && w.task == s[i] && x in w.arguments
        ensures AtHand(d.templates, x, s[..i])
      {
        if x.origin.Produced? {
          var a := RefersFeeds(p, initial, d, w, x);
          DeclaredIff(p, g, tasks, x.origin.task, a, s[i]);
        }
      }
    }
  }

  // ----- the meaning of mixed lowering -----

  lemma YieldsParts(e: Encoders, p: Pipeline, binding: Binding, native: seq<NativeBinding>, initial: seq<Initial>,
                    d: Decision)
    requires Yields(e, p, binding, native, initial, d)
    ensures d.dag == Map(DagTaskOf, CanonicalForm(p).tasks)
    ensures d.templates == Flat(EmittedSite(e, p, binding, native, d), SortBy(p.tasks, TaskId))
    ensures EmittedSite(e, p, binding, native, d).rows == IndexBy(p.matrix, RowTask)
  {
    hide ValidPipeline, WiredSoundly, CanonicalForm, SortBy, Flat, Nodes, UrlTable, Table;
  }

  /** The task lists of pipeline and workflow agree in all that running depends on. */
  lemma SortedAlike(p: Pipeline, s: seq<string>)
    requires ValidPipeline(p)
    ensures var sorted, c := SortBy(p.tasks, TaskId), CanonicalForm(p);
            Distinct(sorted, TaskId) && Distinct(c.tasks, TaskId) &&
            KeySet(c.tasks, TaskId) == KeySet(sorted, TaskId) &&
            (NamesClear(p.tasks) <==> NamesClear(sorted)) && (Admits(p, s) <==> Admits(c, s))
  {
    PipelineFacts(p);
    hide ValidPipeline, SortBy, Distinct, CanonicalForm, Admits, NamesClear, KeySet;
    var sorted := SortBy(p.tasks, TaskId);
    PermutationDistinct(p.tasks, sorted, TaskId);
    PermutationKeys(p.tasks, sorted, TaskId);
    SameClear(p.tasks, sorted);
    SameSchedules(p, s);
    CanonicalIds(p);
  }

  /** A mixed workflow can run a schedule exactly if names do not clash, the pipeline admits the schedule,
      and producers come before their consumers and declare what these take. */
  lemma MixedRunsExact(e: Encoders, p: Pipeline, binding: Binding, native: seq<NativeBinding>, initial: seq<Initial>,
                       d: Decision, s: seq<string>)
    requires Yields(e, p, binding, native, initial, d)
    ensures MixedRuns(d, s) <==> NamesClear(p.tasks) && Admits(p, s) && Served(p, s)
  {
    YieldsParts(e, p, binding, native, initial, d);
    SortedAlike(p, s);
    hide ValidPipeline, Flat, SortBy, IndexBy, Distinct, CanonicalForm, Admits, NamesClear, MixedRuns, EntryFree,
         AllLaunch, KeySet, Supplies, Served, WiredSoundly, EmittedSoundly, EmittedSite;
    var sorted, g := SortBy(p.tasks, TaskId), EmittedSite(e, p, binding, native, d);
    RunsParts(CanonicalForm(p), d, s);
    ClearRuns(g, sorted);
    if NamesClear(p.tasks) { SuppliesExact(p, initial, d, g, sorted, s); }
  }

  /** On a pipeline that is fed, every admitted schedule runs producers first. */
  lemma FedServes(p: Pipeline, s: seq<string>)
    requires Fed(p) && Admits(p, s)
    ensures Served(p, s)
  {
    hide Schedule, Feeds, Reaches, Declaring, ById, NeedsOf;
    forall i, producer, a | 0 <= i < |s| && Feeds(p, producer, a, s[i])
      ensures producer in s[..i] && Declaring(p, producer)
    {
      ReachedBefore(NeedsOf(ById(p.tasks)), s, i, producer);
    }
  }

  /** On one that is not, some admitted schedule does not: the consumer right after its own ancestors. */
  lemma UnfedSchedule(p: Pipeline) returns (s: seq<string>)
    requires ValidPipeline(p) && !Fed(p)
    ensures Admits(p, s) && !Served(p, s)
  {
    KnownNeeds(p);
    var producer, a, consumer :| Feeds(p, producer, a, consumer) &&
      !(Declaring(p, producer) && Reaches(NeedsOf(ById(p.tasks)), consumer, producer));
    FeedsTasks(p, producer, a, consumer);
    hide ValidPipeline, Schedule, Feeds, Reaches, Declaring, ById, Cyclic, NeedsKnown;
    var before := JustBefore(NeedsOf(ById(p.tasks)), consumer);
    s := before + [consumer];
    var i := |before|;
    assert s[i] == consumer && s[..i] == before;
  }

  /** The workflow and its pipeline admit the same schedules if and only if no names clash and the pipeline is
      fed. */
  lemma MixedLoweringMeaning(e: Encoders, p: Pipeline, binding: Binding, native: seq<NativeBinding>,
                             initial: seq<Initial>, d: Decision)
    requires Yields(e, p, binding, native, initial, d)
    ensures (forall s :: MixedRuns(d, s) <==> Admits(p, s)) <==> NamesClear(p.tasks) && Fed(p)
  {
    hide ValidPipeline, WiredSoundly, EmittedSoundly, NamesClear, Fed, MixedRuns, Admits, Served;
    forall s ensures MixedRuns(d, s) <==> NamesClear(p.tasks) && Admits(p, s) && Served(p, s) {
      MixedRunsExact(e, p, binding, native, initial, d, s);
    }
    if Fed(p) {
      forall s | Admits(p, s) ensures Served(p, s) { FedServes(p, s); }
    } else {
      var s := UnfedSchedule(p);
      assert Admits(p, s) && !MixedRuns(d, s);
    }
    NothingAdmitted(p);
    assert MixedRuns(d, []) ==> NamesClear(p.tasks);
  }

  lemma NothingAdmitted(p: Pipeline)
    ensures Admits(p, [])
  {
  }

  // ----- running to the end -----

  ghost predicate FeedsAny(p: Pipeline, producer: string, consumer: string) {
    exists a :: Feeds(p, producer, a, consumer)
  }

  /** Those of the tasks that feed this one. */
  ghost function Suppliers(p: Pipeline, tasks: seq<Task>, consumer: string): seq<string> {
    if tasks == [] then []
    else
      var t := tasks[|tasks| - 1];
      Suppliers(p, tasks[..|tasks| - 1], consumer) + if FeedsAny(p, t.id, consumer) then [t.id] else []
  }

  /** What a task waits for in the workflow: what it needs, and whatever produces its inputs. */
  ghost function WaitsFor(p: Pipeline): Graph<string> {
    map id | id in ById(p.tasks) :: ById(p.tasks)[id].needs + Suppliers(p, p.tasks, id)
  }

  lemma {:induction false} SuppliersExact(p: Pipeline, tasks: seq<Task>, consumer: string, id: string)
    ensures id in Suppliers(p, tasks, consumer) <==> FeedsAny(p, id, consumer) && exists t :: t in tasks && t.id == id
  {
    hide FeedsAny;
    if tasks != [] {
      var front, t := tasks[..|tasks| - 1], tasks[|tasks| - 1];
      assert tasks == front + [t];
      SuppliersExact(p, front, consumer, id);
    }
  }

  lemma WaitsForExact(p: Pipeline, consumer: string, id: string)
    requires ValidPipeline(p) && consumer in ById(p.tasks)
    ensures id in WaitsFor(p)[consumer] <==> id in ById(p.tasks)[consumer].needs || FeedsAny(p, id, consumer)
  {
    SuppliersExact(p, p.tasks, consumer, id);
    ByIdExact(p.tasks);
    if FeedsAny(p, id, consumer) {
      var a :| Feeds(p, id, a, consumer);
      FeedsTasks(p, id, a, consumer);
      assert ById(p.tasks)[id] in p.tasks;
    }
  }

  lemma WaitsForKnown(p: Pipeline)
    requires ValidPipeline(p)
    ensures NeedsKnown(WaitsFor(p)) && WaitsFor(p).Keys == ById(p.tasks).Keys
  {
    KnownNeeds(p);
    hide ValidPipeline, ById, Feeds, Suppliers;
    forall id, need | id in WaitsFor(p) && need in WaitsFor(p)[id] ensures need in WaitsFor(p) {
      WaitsForExact(p, id, need);
      if FeedsAny(p, need, id) {
        var a :| Feeds(p, need, a, id);
        FeedsTasks(p, need, a, id);
      } else {
        assert id in NeedsOf(ById(p.tasks)) && need in NeedsOf(ById(p.tasks))[id];
      }
    }
  }

  lemma WaitsForSchedule(p: Pipeline, s: seq<string>)
    requires ValidPipeline(p)
    ensures Schedule(WaitsFor(p), s) <==> Admits(p, s) && InOrder(p, s)
  {
    hide ValidPipeline, ById, Feeds, Suppliers;
    forall i, id | 0 <= i < |s| && s[i] in ById(p.tasks)
      ensures id in WaitsFor(p)[s[i]] <==> id in ById(p.tasks)[s[i]].needs || FeedsAny(p, id, s[i])
    {
      WaitsForExact(p, s[i], id);
    }
    if Schedule(WaitsFor(p), s) {
      forall i, producer, a | 0 <= i < |s| && Feeds(p, producer, a, s[i]) ensures producer in s[..i] {
        assert s[i] in WaitsFor(p) && FeedsAny(p, producer, s[i]);
      }
    }
  }

  ghost predicate RunsAll(p: Pipeline, s: seq<string>) { forall t :: t in p.tasks ==> t.id in s }

  /** Every partial run extends to one that runs all tasks, if no tasks wait for each other in a circle and
      every input that a task produces is declared. */
  lemma MixedRunsExtend(e: Encoders, p: Pipeline, binding: Binding, native: seq<NativeBinding>, initial: seq<Initial>,
                        d: Decision, s: seq<string>)
    returns (full: seq<string>)
    requires Yields(e, p, binding, native, initial, d) && MixedRuns(d, s)
    requires !Cyclic(WaitsFor(p)) && AllDeclared(p)
    ensures s <= full && MixedRuns(d, full) && RunsAll(p, full)
  {
    WaitsForKnown(p);
    ByIdExact(p.tasks);
    hide ValidPipeline, WiredSoundly, EmittedSoundly, NamesClear, MixedRuns, Admits, ById, WaitsFor, Cyclic,
         NeedsKnown, Schedule, Feeds, Declaring;
    MixedRunsExact(e, p, binding, native, initial, d, s);
    WaitsForSchedule(p, s);
    full := ScheduleExtends(WaitsFor(p), s);
    WaitsForSchedule(p, full);
    MixedRunsExact(e, p, binding, native, initial, d, full);
    forall t | t in p.tasks ensures t.id in full { assert t.id in ById(p.tasks).Keys; }
  }

  /** And only then can the workflow run to the end at all. */
  lemma RunsToTheEnd(e: Encoders, p: Pipeline, binding: Binding, native: seq<NativeBinding>, initial: seq<Initial>,
                     d: Decision)
    requires Yields(e, p, binding, native, initial, d)
    ensures (exists full :: MixedRuns(d, full) && RunsAll(p, full)) <==>
      NamesClear(p.tasks) && !Cyclic(WaitsFor(p)) && AllDeclared(p)
  {
    hide ValidPipeline, WiredSoundly, EmittedSoundly, NamesClear, MixedRuns, Admits, WaitsFor, Cyclic, Served,
         AllDeclared, RunsAll;
    if full :| MixedRuns(d, full) && RunsAll(p, full) {
      MixedRunsExact(e, p, binding, native, initial, d, full);
      FullRun(p, full);
    }
    if NamesClear(p.tasks) && !Cyclic(WaitsFor(p)) && AllDeclared(p) {
      MixedRunsExact(e, p, binding, native, initial, d, []);
      NothingAdmitted(p);
      NothingServed(p);
      var full := MixedRunsExtend(e, p, binding, native, initial, d, []);
    }
  }

  lemma NothingServed(p: Pipeline)
    ensures Served(p, [])
  {
  }

  lemma FullRun(p: Pipeline, full: seq<string>)
    requires ValidPipeline(p) && Admits(p, full) && Served(p, full) && RunsAll(p, full)
    ensures !Cyclic(WaitsFor(p)) && AllDeclared(p)
  {
    WaitsForKnown(p);
    WaitsForSchedule(p, full);
    ByIdExact(p.tasks);
    forall producer, a, consumer | Feeds(p, producer, a, consumer) ensures Declaring(p, producer) {
      FeedsTasks(p, producer, a, consumer);
      assert ById(p.tasks)[consumer] in p.tasks;
      var i :| 0 <= i < |full| && full[i] == consumer;
    }
    hide ValidPipeline, Admits, ById, WaitsFor, Cyclic, Schedule;
    forall id | id in WaitsFor(p) ensures id in full { assert ById(p.tasks)[id] in p.tasks; }
    ScheduledIsAcyclic(WaitsFor(p), full);
  }

  /** A fed pipeline can run to the end. */
  lemma FedIsAcyclic(p: Pipeline)
    requires ValidPipeline(p) && Fed(p)
    ensures !Cyclic(WaitsFor(p)) && AllDeclared(p)
  {
    KnownNeeds(p);
    hide ValidPipeline, Fed, Admits, WaitsFor, Cyclic, Served, NeedsKnown;
    NothingScheduled(NeedsOf(ById(p.tasks)));
    var full := ScheduleExtends(NeedsOf(ById(p.tasks)), []);
    assert Admits(p, full) by { Admitted(p, full); }
    FedServes(p, full);
    FullRun(p, full);
  }

  lemma Admitted(p: Pipeline, s: seq<string>)
    requires Schedule(NeedsOf(ById(p.tasks)), s)
    ensures Admits(p, s)
  {
  }
}
