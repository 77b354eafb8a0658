/** What a lowered workflow means: the schedules of its entry template are those of the pipeline. */
module ArgoMeaning {
  import opened Order
  import opened Acyclic
  import opened Contract
  import opened Pipelines
  import opened Canonical
  import opened Argo

  // ----- how a workflow runs -----

  /** The name is the name of exactly one template. */
  ghost predicate Resolves(w: Workflow, name: string, k: nat) {
    k < |w.templates| && forall i :: 0 <= i < |w.templates| ==> (w.templates[i].name == name <==> i == k)
  }

  function DagName(d: DagTask): string { d.name }

  function DagNeeds(tasks: seq<DagTask>): Graph<string> {
    map n | n in IndexBy(tasks, DagName) :: IndexBy(tasks, DagName)[n].dependencies
  }

  /** The task of the dag runs one container. */
  ghost predicate RunsContainer(w: Workflow, d: DagTask) {
    exists k: nat :: Resolves(w, d.template, k) && w.templates[k].Container?
  }

  /** The entry resolves to a dag, and the tasks run in this order, each after its dependencies, each as the
      one container its template names. */
  ghost predicate Runs(w: Workflow, s: seq<string>) {
    exists k: nat :: Resolves(w, w.entrypoint, k) && RunsDag(w, k, s)
  }

  ghost predicate RunsDag(w: Workflow, k: nat, s: seq<string>)
    requires k < |w.templates|
  {
    w.templates[k].Dag? && Distinct(w.templates[k].tasks, DagName) && Schedule(DagNeeds(w.templates[k].tasks), s) &&
    forall d :: d in w.templates[k].tasks ==> RunsContainer(w, d)
  }

  /** The schedules a pipeline admits. */
  ghost predicate Admits(p: Pipeline, s: seq<string>) { Schedule(NeedsOf(ById(p.tasks)), s) }

  // ----- the templates of a lowered pipeline -----

  lemma FirstTemplate(e: Encoders, c: Pipeline, ws: Storage, table: map<string, Facts>)
    ensures var w := Lowered(e, c, ws, table);
            |w.templates| == |c.tasks| + 1 && w.templates[0] == Dag(ENTRY, Map(DagTaskOf, c.tasks)) &&
            w.entrypoint == ENTRY
  {
  }

  lemma TemplateAt(e: Encoders, c: Pipeline, ws: Storage, table: map<string, Facts>, i: nat)
    requires i < |c.tasks|
    ensures var w := Lowered(e, c, ws, table);
            w.templates[0] == Dag(ENTRY, Map(DagTaskOf, c.tasks)) && |w.templates| == |c.tasks| + 1 &&
            w.templates[i + 1] == ContainerOf(e, c, ws.mountPath, c.tasks[i], RowFor(Rows(c), c.tasks[i]),
                                              FactsFor(table, c.tasks[i]))
  {
  }

  /** Every task's template name resolves to that task's own container, unless the task is named like the
      entry template. */
  lemma TaskResolves(e: Encoders, c: Pipeline, ws: Storage, table: map<string, Facts>, i: nat)
    requires i < |c.tasks| && Distinct(c.tasks, TaskId) && c.tasks[i].id != ENTRY
    ensures Resolves(Lowered(e, c, ws, table), c.tasks[i].id, i + 1)
  {
    hide Lowered, ContainerOf;
    var w := Lowered(e, c, ws, table);
    TemplateAt(e, c, ws, table, i);
    forall k | 0 <= k < |w.templates| ensures w.templates[k].name == c.tasks[i].id <==> k == i + 1 {
      if k > 0 {
        TemplateAt(e, c, ws, table, k - 1);
        ContainerName(e, c, ws.mountPath, c.tasks[k - 1], RowFor(Rows(c), c.tasks[k - 1]),
                      FactsFor(table, c.tasks[k - 1]));
        assert k - 1 != i ==> TaskId(c.tasks[k - 1]) != TaskId(c.tasks[i]);
      }
    }
  }

  lemma ContainerName(e: Encoders, c: Pipeline, mount: string, t: Task, row: MatrixEntry, f: Facts)
    ensures ContainerOf(e, c, mount, t, row, f).Container? && ContainerOf(e, c, mount, t, row, f).name == t.id
  {
  }

  ghost predicate NoneNamed(c: Pipeline, name: string) { forall t :: t in c.tasks ==> t.id != name }

  /** The entry resolves exactly when no task is named like it. */
  lemma EntryResolves(e: Encoders, c: Pipeline, ws: Storage, table: map<string, Facts>)
    ensures Resolves(Lowered(e, c, ws, table), ENTRY, 0) <==> NoneNamed(c, ENTRY)
    ensures forall k: nat :: Resolves(Lowered(e, c, ws, table), ENTRY, k) ==> k == 0
  {
    hide ContainerOf, Lowered;
    var w := Lowered(e, c, ws, table);
    FirstTemplate(e, c, ws, table);
    forall i | 0 <= i < |c.tasks| ensures w.templates[i + 1].name == c.tasks[i].id {
      TemplateAt(e, c, ws, table, i);
      ContainerName(e, c, ws.mountPath, c.tasks[i], RowFor(Rows(c), c.tasks[i]), FactsFor(table, c.tasks[i]));
    }
    assert w.templates[0].name == ENTRY;
    if NoneNamed(c, ENTRY) {
      forall k | 0 <= k < |w.templates| ensures w.templates[k].name == ENTRY <==> k == 0 {
        if k > 0 { assert w.templates[k].name == c.tasks[k - 1].id; }
      }
    } else {
      var t :| t in c.tasks && t.id == ENTRY;
      var i :| 0 <= i < |c.tasks| && c.tasks[i] == t;
      assert w.templates[i + 1].name == ENTRY;
    }
  }

  lemma DagTaskFor(tasks: seq<Task>, n: string)
    requires Distinct(tasks, TaskId) && n in ById(tasks)
    ensures n in IndexBy(Map(DagTaskOf, tasks), DagName)
    ensures IndexBy(Map(DagTaskOf, tasks), DagName)[n].dependencies == ById(tasks)[n].needs
  {
    var dag := Map(DagTaskOf, tasks);
    MapDistinct(DagTaskOf, tasks, TaskId, DagName);
    IndexExact(tasks, TaskId);
    IndexExact(dag, DagName);
    hide IndexBy, Distinct, KeySet;
    var i :| 0 <= i < |tasks| && tasks[i] == ById(tasks)[n];
    assert dag[i] in dag && DagName(dag[i]) == n;
  }

  lemma TaskForDag(tasks: seq<Task>, n: string)
    requires Distinct(tasks, TaskId) && n in IndexBy(Map(DagTaskOf, tasks), DagName)
    ensures n in ById(tasks)
  {
    var dag := Map(DagTaskOf, tasks);
    MapDistinct(DagTaskOf, tasks, TaskId, DagName);
    IndexExact(tasks, TaskId);
    IndexExact(dag, DagName);
    hide IndexBy, Distinct, KeySet;
    var i :| 0 <= i < |dag| && dag[i] == IndexBy(dag, DagName)[n];
    assert TaskId(tasks[i]) == n && tasks[i] in tasks;
  }

  lemma DagTasksNeeds(tasks: seq<Task>)
    requires Distinct(tasks, TaskId)
    ensures Distinct(Map(DagTaskOf, tasks), DagName) && DagNeeds(Map(DagTaskOf, tasks)) == NeedsOf(ById(tasks))
  {
    hide IndexBy, Distinct;
    var dag := Map(DagTaskOf, tasks);
    MapDistinct(DagTaskOf, tasks, TaskId, DagName);
    forall n | n in ById(tasks) ensures n in DagNeeds(dag) && DagNeeds(dag)[n] == ById(tasks)[n].needs {
      DagTaskFor(tasks, n);
    }
    forall n | n in DagNeeds(dag) ensures n in ById(tasks) { TaskForDag(tasks, n); }
  }

  /** The dag of a lowered pipeline admits the pipeline's schedules. */
  lemma CanonicalMeaning(e: Encoders, c: Pipeline, ws: Storage, table: map<string, Facts>, s: seq<string>)
    requires Distinct(c.tasks, TaskId)
    ensures NoneNamed(c, ENTRY) ==> (Runs(Lowered(e, c, ws, table), s) <==> Admits(c, s))
    ensures !NoneNamed(c, ENTRY) ==> !Runs(Lowered(e, c, ws, table), s)
  {
    var w := Lowered(e, c, ws, table);
    EntryResolves(e, c, ws, table);
    if NoneNamed(c, ENTRY) {
      DagTasksNeeds(c.tasks);
      forall d | d in Map(DagTaskOf, c.tasks) ensures RunsContainer(w, d) {
        var i :| 0 <= i < |c.tasks| && Map(DagTaskOf, c.tasks)[i] == d;
        assert c.tasks[i] in c.tasks;
        TaskResolves(e, c, ws, table, i);
        TemplateAt(e, c, ws, table, i);
      }
      assert RunsDag(w, 0, s) <==> Admits(c, s);
    }
  }

  /** Sorting needs and tasks keeps the schedules. */
  lemma SameSchedules(p: Pipeline, s: seq<string>)
    requires ValidPipeline(p)
    ensures Admits(p, s) <==> Admits(CanonicalForm(p), s)
    ensures NoneNamed(p, ENTRY) <==> NoneNamed(CanonicalForm(p), ENTRY)
    ensures Distinct(CanonicalForm(p).tasks, TaskId)
  {
    ValidParts(p);
    hide ValidPipeline, SortBy, IndexBy, TaskOk, RowsOk, Schedule;
    var c := CanonicalForm(p);
    SortedTasksOk(p.schema, p.tasks);
    SameMembersSchedule(NeedsOf(ById(p.tasks)), NeedsOf(ById(c.tasks)), s);
    SameNames(p);
  }

  lemma SameNames(p: Pipeline)
    ensures NoneNamed(p, ENTRY) <==> NoneNamed(CanonicalForm(p), ENTRY)
  {
    hide SortBy;
    var c := CanonicalForm(p);
    SortedMapMembers(CanonicalTask, p.tasks, TaskId);
    forall t | t in p.tasks ensures CanonicalTask(t) in c.tasks && CanonicalTask(t).id == t.id { }
    forall u | u in c.tasks ensures exists t :: t in p.tasks && t.id == u.id {
      var t :| t in p.tasks && CanonicalTask(t) == u;
    }
  }

  ghost predicate SameNeeds(a: Graph<string>, b: Graph<string>) {
    a.Keys == b.Keys && forall id, n :: id in a ==> (n in a[id] <==> n in b[id])
  }

  lemma SameMembersSchedule(a: Graph<string>, b: Graph<string>, s: seq<string>)
    requires SameNeeds(a, b)
    ensures Schedule(a, s) <==> Schedule(b, s)
  {
  }

  // ----- the meaning of lowering -----

  /** An accepted pipeline and its workflow admit the same schedules when no task is named like the entry
      template; otherwise the workflow cannot run at all. */
  lemma LoweringMeaning(e: Encoders, p: Pipeline, binding: Binding, s: seq<string>)
    requires ValidPipeline(p) && Lowerable(CanonicalForm(p), Table(binding))
    ensures NoneNamed(p, ENTRY) ==>
      (Runs(Lowered(e, CanonicalForm(p), binding.workspace, Table(binding)), s) <==> Admits(p, s))
    ensures !NoneNamed(p, ENTRY) ==> !Runs(Lowered(e, CanonicalForm(p), binding.workspace, Table(binding)), s)
  {
    hide Lowered, Lowerable, ValidPipeline, Runs, Admits;
    SameSchedules(p, s);
    CanonicalMeaning(e, CanonicalForm(p), binding.workspace, Table(binding), s);
  }

  /** Every partial schedule of the workflow extends to one that runs every task of the pipeline. */
  lemma PartialRunsExtend(e: Encoders, p: Pipeline, binding: Binding, s: seq<string>) returns (full: seq<string>)
    requires ValidPipeline(p) && Lowerable(CanonicalForm(p), Table(binding)) && NoneNamed(p, ENTRY)
    requires Runs(Lowered(e, CanonicalForm(p), binding.workspace, Table(binding)), s)
    ensures s <= full && Runs(Lowered(e, CanonicalForm(p), binding.workspace, Table(binding)), full)
    ensures forall t :: t in p.tasks ==> t.id in full
  {
    hide Lowered, Lowerable, Runs;
    LoweringMeaning(e, p, binding, s);
    KnownNeeds(p);
    full := ScheduleExtends(NeedsOf(ById(p.tasks)), s);
    LoweringMeaning(e, p, binding, full);
  }

  lemma KnownNeeds(p: Pipeline)
    requires ValidPipeline(p)
    ensures NeedsKnown(NeedsOf(ById(p.tasks))) && !Cyclic(NeedsOf(ById(p.tasks)))
    ensures forall t :: t in p.tasks ==> t.id in NeedsOf(ById(p.tasks))
  {
    ByIdExact(p.tasks);
    forall id, n | id in ById(p.tasks) && n in ById(p.tasks)[id].needs ensures n in ById(p.tasks) {
      assert ById(p.tasks)[id] in p.tasks;
    }
  }

  /** Each task's container runs the task's own argv, under the spec built from its own row and binding. */
  lemma OwnContainer(e: Encoders, p: Pipeline, binding: Binding, i: nat)
    requires ValidPipeline(p) && NoneNamed(p, ENTRY) && i < |CanonicalForm(p).tasks|
    ensures var c, table := CanonicalForm(p), Table(binding);
      var w, t := Lowered(e, c, binding.workspace, table), c.tasks[i];
      Resolves(w, t.id, i + 1) && w.templates[i + 1].Container? &&
      w.templates[i + 1].args == w.templates[i + 1].args[..7] + t.argv &&
      w.templates[i + 1] == ContainerOf(e, c, binding.workspace.mountPath, t, RowFor(Rows(c), t), FactsFor(table, t))
  {
    hide ValidPipeline, Lowered, SortBy, IndexBy, Table;
    var c, table := CanonicalForm(p), Table(binding);
    SameSchedules(p, []);
    assert c.tasks[i] in c.tasks;
    TaskResolves(e, c, binding.workspace, table, i);
    TemplateAt(e, c, binding.workspace, table, i);
  }

  // ----- order does not matter -----

  ghost predicate SameTaskBinding(a: TaskBinding, b: TaskBinding) {
    a.(artifacts := []) == b.(artifacts := []) && multiset(a.artifacts) == multiset(b.artifacts)
  }

  /** Equal up to the order of tasks and of their artifacts. */
  ghost predicate SameBinding(a: Binding, b: Binding) {
    var x, y := IndexBy(a.tasks, BindingId), IndexBy(b.tasks, BindingId);
    a.workspace == b.workspace && x.Keys == y.Keys && forall id :: id in x ==> SameTaskBinding(x[id], y[id])
  }

  lemma SameFacts(a: TaskBinding, b: TaskBinding)
    requires SameTaskBinding(a, b) && Distinct(a.artifacts, PathName)
    ensures FactsOf(a) == FactsOf(b)
  {
    IndexUnique(a.artifacts, b.artifacts, PathName);
    var x, y := a.(artifacts := []), b.(artifacts := []);
    assert FactsOf(a) == Facts(x.image, x.runnerPath, IndexBy(a.artifacts, PathName), x.evidenceDirectory,
                               x.commitManifestPath,
                               x.nonzeroClass, x.timeoutSeconds, x.retryLimit);
    assert FactsOf(b) == Facts(y.image, y.runnerPath, IndexBy(b.artifacts, PathName), y.evidenceDirectory,
                               y.commitManifestPath,
                               y.nonzeroClass, y.timeoutSeconds, y.retryLimit);
  }

  lemma SameTable(a: Binding, b: Binding)
    requires SameBinding(a, b) && WellBound(a)
    ensures Table(a) == Table(b)
  {
    IndexExact(a.tasks, BindingId);
    hide IndexBy, Distinct, KeySet, FactsOf, SameTaskBinding;
    forall id | id in Table(a) ensures Table(a)[id] == Table(b)[id] {
      SameFacts(IndexBy(a.tasks, BindingId)[id], IndexBy(b.tasks, BindingId)[id]);
    }
  }

  /** Reordering tasks, needs, environment, rows, artifacts or bindings changes neither whether a pipeline
      lowers nor what it lowers to. */
  lemma LoweringOrderFree(e: Encoders, p: Pipeline, q: Pipeline, a: Binding, b: Binding)
    requires ValidPipeline(p) && ValidPipeline(q) && SameUpToOrder(p, q) && WellBound(a) && SameBinding(a, b)
    ensures Lowerable(CanonicalForm(p), Table(a)) <==> Lowerable(CanonicalForm(q), Table(b))
    ensures Lowered(e, CanonicalForm(p), a.workspace, Table(a)) == Lowered(e, CanonicalForm(q), b.workspace, Table(b))
  {
    hide Lowerable, Lowered, ValidPipeline, SameUpToOrder, CanonicalForm;
    CanonicalExact(p, q);
    SameTable(a, b);
  }
}
