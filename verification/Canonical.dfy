/** canonicalPipeline: the one representative of all pipelines that differ only in order. */
module Canonical {
  import opened Order
  import opened Acyclic
  import opened Contract
  import opened Pipelines

  function SortedArtifacts(s: seq<Artifact>): seq<Artifact> { SortBy(s, ArtifactName) }

  function CanonicalTask(t: Task): Task {
    t.(needs := SortBy(t.needs, Id), environment := SortBy(t.environment, EnvironmentName))
  }

  function CanonicalRow(r: MatrixEntry): MatrixEntry {
    r.(inputs := SortedArtifacts(r.inputs), outputs := SortedArtifacts(r.outputs))
  }

  function CanonicalForm(p: Pipeline): Pipeline {
    p.(tasks := SortBy(Map(CanonicalTask, p.tasks), TaskId), matrix := SortBy(Map(CanonicalRow, p.matrix), RowKey))
  }

  /** canonicalPipeline copies both slices, sorts inside each element, then sorts the slices. */
  method CanonicalPipeline(p: Pipeline) returns (c: Pipeline)
    ensures c == CanonicalForm(p)
  {
    hide SortBy, SortedArtifacts;
    var tasks := p.tasks;
    for i := 0 to |tasks|
      invariant |tasks| == |p.tasks|
      invariant forall k :: 0 <= k < i ==> tasks[k] == CanonicalTask(p.tasks[k])
      invariant forall k :: i <= k < |tasks| ==> tasks[k] == p.tasks[k]
    {
      var task := tasks[i].(needs := SortBy(tasks[i].needs, Id));
      tasks := tasks[i := task.(environment := SortBy(task.environment, EnvironmentName))];
    }
    assert tasks == Map(CanonicalTask, p.tasks);
    tasks := SortBy(tasks, TaskId);
    var matrix := p.matrix;
    for i := 0 to |matrix|
      invariant |matrix| == |p.matrix|
      invariant forall k :: 0 <= k < i ==> matrix[k] == CanonicalRow(p.matrix[k])
      invariant forall k :: i <= k < |matrix| ==> matrix[k] == p.matrix[k]
    {
      var row := matrix[i].(inputs := SortedArtifacts(matrix[i].inputs));
      matrix := matrix[i := row.(outputs := SortedArtifacts(row.outputs))];
    }
    assert matrix == Map(CanonicalRow, p.matrix);
    matrix := SortBy(matrix, RowKey);
    c := p.(tasks := tasks, matrix := matrix);
  }

  // ----- differing only in order -----

  ghost predicate SameTask(t: Task, u: Task) {
    t.(needs := [], environment := []) == u.(needs := [], environment := []) &&
    multiset(t.needs) == multiset(u.needs) && multiset(t.environment) == multiset(u.environment)
  }

  ghost predicate SameRow(r: MatrixEntry, q: MatrixEntry) {
    r.(inputs := [], outputs := []) == q.(inputs := [], outputs := []) &&
    multiset(r.inputs) == multiset(q.inputs) && multiset(r.outputs) == multiset(q.outputs)
  }

  ghost predicate TaskIn(t: Task, s: seq<Task>) { exists u :: u in s && SameTask(t, u) }

  ghost predicate RowIn(r: MatrixEntry, s: seq<MatrixEntry>) { exists q :: q in s && SameRow(r, q) }

  /** Equal up to the order of tasks, needs, environment, rows and artifacts. */
  ghost predicate SameUpToOrder(p: Pipeline, q: Pipeline) {
    p.(tasks := [], matrix := []) == q.(tasks := [], matrix := []) &&
    (forall t :: t in p.tasks ==> TaskIn(t, q.tasks)) && (forall t :: t in q.tasks ==> TaskIn(t, p.tasks)) &&
    (forall r :: r in p.matrix ==> RowIn(r, q.matrix)) && (forall r :: r in q.matrix ==> RowIn(r, p.matrix))
  }

  lemma SameTaskIffCanonical(schema: string, t: Task, u: Task)
    requires TaskOk(schema, t)
    ensures SameTask(t, u) <==> CanonicalTask(t) == CanonicalTask(u)
  {
    SortByCanonical(t.needs, u.needs, Id);
    SortByCanonical(t.environment, u.environment, EnvironmentName);
    var c, d := CanonicalTask(t), CanonicalTask(u);
    if SameTask(t, u) {
      assert c == t.(needs := [], environment := []).(needs := c.needs, environment := c.environment);
      assert d == u.(needs := [], environment := []).(needs := d.needs, environment := d.environment);
    }
    if c == d {
      assert t.(needs := [], environment := []) == c.(needs := [], environment := []);
      assert u.(needs := [], environment := []) == d.(needs := [], environment := []);
    }
  }

  lemma SameRowIffCanonical(schema: string, tasks: map<string, Task>, r: MatrixEntry, q: MatrixEntry)
    requires RowOk(schema, tasks, r)
    ensures SameRow(r, q) <==> CanonicalRow(r) == CanonicalRow(q)
  {
    SortByCanonical(r.inputs, q.inputs, ArtifactName);
    SortByCanonical(r.outputs, q.outputs, ArtifactName);
    var c, d := CanonicalRow(r), CanonicalRow(q);
    if SameRow(r, q) {
      assert c == r.(inputs := [], outputs := []).(inputs := c.inputs, outputs := c.outputs);
      assert d == q.(inputs := [], outputs := []).(inputs := d.inputs, outputs := d.outputs);
    }
    if c == d {
      assert r.(inputs := [], outputs := []) == c.(inputs := [], outputs := []);
      assert q.(inputs := [], outputs := []) == d.(inputs := [], outputs := []);
    }
  }

  lemma TasksAgree(schema: string, a: seq<Task>, b: seq<Task>)
    requires TasksOk(schema, a) && TasksOk(schema, b)
    ensures SortBy(Map(CanonicalTask, a), TaskId) == SortBy(Map(CanonicalTask, b), TaskId) <==>
            (forall t :: t in a ==> TaskIn(t, b)) && (forall t :: t in b ==> TaskIn(t, a))
  {
    MapDistinct(CanonicalTask, a, TaskId, TaskId);
    MapDistinct(CanonicalTask, b, TaskId, TaskId);
    MapAgree(CanonicalTask, a, b, TaskId);
    forall t, s | (t in a || t in b) && (s == a || s == b) ensures TaskIn(t, s) <==> Matched(CanonicalTask, t, s) {
      forall u | u in s ensures SameTask(t, u) <==> CanonicalTask(t) == CanonicalTask(u) {
        SameTaskIffCanonical(schema, t, u);
      }
    }
  }

  lemma RowsAgree(schema: string, tasks: map<string, Task>, others: map<string, Task>, a: seq<MatrixEntry>,
                  b: seq<MatrixEntry>)
    requires RowsOk(schema, tasks, a) && RowsOk(schema, others, b)
    ensures SortBy(Map(CanonicalRow, a), RowKey) == SortBy(Map(CanonicalRow, b), RowKey) <==>
            (forall r :: r in a ==> RowIn(r, b)) && (forall r :: r in b ==> RowIn(r, a))
  {
    MapDistinct(CanonicalRow, a, RowKey, RowKey);
    MapDistinct(CanonicalRow, b, RowKey, RowKey);
    MapAgree(CanonicalRow, a, b, RowKey);
    forall r, s | (r in a || r in b) && (s == a || s == b) ensures RowIn(r, s) <==> Matched(CanonicalRow, r, s) {
      forall q | q in s ensures SameRow(r, q) <==> CanonicalRow(r) == CanonicalRow(q) {
        SameRowIffCanonical(schema, if r in a then tasks else others, r, q);
      }
    }
  }

  lemma FormFields(p: Pipeline, q: Pipeline)
    ensures CanonicalForm(p) == CanonicalForm(q) <==>
            p.(tasks := [], matrix := []) == q.(tasks := [], matrix := []) &&
            SortBy(Map(CanonicalTask, p.tasks), TaskId) == SortBy(Map(CanonicalTask, q.tasks), TaskId) &&
            SortBy(Map(CanonicalRow, p.matrix), RowKey) == SortBy(Map(CanonicalRow, q.matrix), RowKey)
  {
  }

  lemma ValidParts(p: Pipeline)
    requires ValidPipeline(p)
    ensures TasksOk(p.schema, p.tasks) && RowsOk(p.schema, ById(p.tasks), p.matrix)
  {
  }

  lemma CanonicalParts(p: Pipeline, q: Pipeline, tasks: map<string, Task>, others: map<string, Task>)
    requires TasksOk(p.schema, p.tasks) && RowsOk(p.schema, tasks, p.matrix)
    requires TasksOk(q.schema, q.tasks) && RowsOk(q.schema, others, q.matrix)
    ensures CanonicalForm(p) == CanonicalForm(q) <==> SameUpToOrder(p, q)
  {
    FormFields(p, q);
    if p.schema == q.schema {
      TasksAgree(p.schema, p.tasks, q.tasks);
      RowsAgree(p.schema, tasks, others, p.matrix, q.matrix);
    }
  }

  /** Two valid pipelines have one canonical form exactly when they differ only in order. */
  lemma CanonicalExact(p: Pipeline, q: Pipeline)
    requires ValidPipeline(p) && ValidPipeline(q)
    ensures CanonicalForm(p) == CanonicalForm(q) <==> SameUpToOrder(p, q)
  {
    ValidParts(p);
    ValidParts(q);
    CanonicalParts(p, q, ById(p.tasks), ById(q.tasks));
  }

  // ----- the canonical form is valid -----

  lemma SortedArtifactsOk(s: seq<Artifact>, schema: string)
    requires ValidArtifacts(s, schema)
    ensures ValidArtifacts(SortedArtifacts(s), schema)
  {
    PermutationMembers(s, SortedArtifacts(s));
    PermutationDistinct(s, SortedArtifacts(s), ArtifactName);
  }

  lemma CanonicalTaskOk(schema: string, t: Task)
    requires TaskOk(schema, t)
    ensures TaskOk(schema, CanonicalTask(t))
    ensures forall n :: n in CanonicalTask(t).needs <==> n in t.needs
  {
    hide SortBy, Distinct, ValidTaskFields, ValidVariable, ValidId, OpenVariable, ValidPlacement;
    var c := CanonicalTask(t);
    PermutationMembers(t.needs, c.needs);
    PermutationDistinct(t.needs, c.needs, Id);
    PermutationMembers(t.environment, c.environment);
    PermutationDistinct(t.environment, c.environment, EnvironmentName);
    SameTaskFields(t, c.needs, c.environment);
  }

  lemma SameTaskFields(t: Task, needs: seq<string>, environment: seq<Environment>)
    ensures ValidTaskFields(t.(needs := needs, environment := environment)) <==> ValidTaskFields(t)
    ensures ValidPlacement(t.(needs := needs, environment := environment)) <==> ValidPlacement(t)
  {
  }

  lemma SortedMapMembers<T, U>(f: T -> U, s: seq<T>, key: U -> string)
    ensures forall c :: c in SortBy(Map(f, s), key) <==> exists t :: t in s && f(t) == c
  {
    var m := Map(f, s);
    PermutationMembers(m, SortBy(m, key));
    forall c ensures c in m <==> exists t :: t in s && f(t) == c {
      if c in m {
        var i :| 0 <= i < |m| && m[i] == c;
        assert s[i] in s;
      }
      if t :| t in s && f(t) == c {
        var i :| 0 <= i < |s| && s[i] == t;
        assert m[i] == c;
      }
    }
  }

  /** The same task map, with each task's lists reordered. */
  ghost predicate SameMap(tasks: map<string, Task>, sorted: map<string, Task>) {
    tasks.Keys == sorted.Keys && forall id :: id in tasks ==>
      sorted[id] == CanonicalTask(tasks[id]) && forall n :: n in sorted[id].needs <==> n in tasks[id].needs
  }

  lemma SortedTasksOk(schema: string, tasks: seq<Task>)
    requires TasksOk(schema, tasks)
    ensures var sorted := SortBy(Map(CanonicalTask, tasks), TaskId);
            TasksOk(schema, sorted) && SameMap(ById(tasks), ById(sorted))
  {
    var mapped := Map(CanonicalTask, tasks);
    var sorted := SortBy(mapped, TaskId);
    MapDistinct(CanonicalTask, tasks, TaskId, TaskId);
    PermutationDistinct(mapped, sorted, TaskId);
    SortedMapMembers(CanonicalTask, tasks, TaskId);
    forall t | t in tasks
      ensures TaskOk(schema, CanonicalTask(t)) && forall n :: n in CanonicalTask(t).needs <==> n in t.needs
    {
      CanonicalTaskOk(schema, t);
    }
    ByIdExact(tasks);
    ByIdExact(sorted);
    forall id | id in ById(tasks) ensures id in ById(sorted) && ById(sorted)[id] == CanonicalTask(ById(tasks)[id]) {
      assert CanonicalTask(ById(tasks)[id]) in sorted;
    }
    forall id | id in ById(sorted) ensures id in ById(tasks) {
      var t :| t in tasks && CanonicalTask(t) == ById(sorted)[id];
      assert t.id == id;
    }
  }

  lemma SortedNeedsOk(tasks: seq<Task>, sorted: seq<Task>)
    requires Distinct(tasks, TaskId) && Distinct(sorted, TaskId)
    requires NeedsOk(tasks) && SameMap(ById(tasks), ById(sorted))
    ensures NeedsOk(sorted)
  {
    ByIdExact(tasks);
    ByIdExact(sorted);
    forall t, n | t in sorted && n in t.needs ensures n in ById(sorted) && n != t.id {
      assert ById(sorted)[t.id] == t;
      var u := ById(tasks)[t.id];
      assert u in tasks && n in u.needs;
    }
  }

  lemma SameCycles(tasks: map<string, Task>, sorted: map<string, Task>)
    requires SameMap(tasks, sorted)
    ensures Cyclic(NeedsOf(sorted)) ==> Cyclic(NeedsOf(tasks))
  {
    var g, h := NeedsOf(tasks), NeedsOf(sorted);
    if Cyclic(h) {
      var id :| Reaches(h, id, id);
      var p :| WalkFromTo(h, p, id, id);
      forall i, j | 0 <= i && j == i + 1 < |p| ensures p[j] in g[p[i]] {
        assert p[j] in h[p[i]];
      }
      assert WalkFromTo(g, p, id, id);
      assert Reaches(g, id, id);
    }
  }

  lemma CanonicalRowOk(schema: string, tasks: map<string, Task>, sorted: map<string, Task>, r: MatrixEntry)
    requires SameMap(tasks, sorted) && RowOk(schema, tasks, r)
    ensures RowOk(schema, sorted, CanonicalRow(r))
  {
    SortedArtifactsOk(r.inputs, schema);
    SortedArtifactsOk(r.outputs, schema);
  }

  lemma SortedRowsOk(schema: string, tasks: map<string, Task>, sorted: map<string, Task>, rows: seq<MatrixEntry>)
    requires SameMap(tasks, sorted) && RowsOk(schema, tasks, rows)
    ensures var r := SortBy(Map(CanonicalRow, rows), RowKey);
            RowsOk(schema, sorted, r) && ChunksOf(r) == ChunksOf(rows) && forall id :: Covered(rows, id) ==>
              Covered(r, id)
  {
    var mapped := Map(CanonicalRow, rows);
    var r := SortBy(mapped, RowKey);
    MapDistinct(CanonicalRow, rows, RowKey, RowKey);
    PermutationDistinct(mapped, r, RowKey);
    SortedMapMembers(CanonicalRow, rows, RowKey);
    forall q | q in rows ensures RowOk(schema, sorted, CanonicalRow(q)) && CanonicalRow(q) in r {
      CanonicalRowOk(schema, tasks, sorted, q);
    }
    SortedChunks(rows, r);
  }

  lemma SortedAgree(rows: seq<MatrixEntry>, r: seq<MatrixEntry>)
    requires ChunksAgree(rows)
    requires forall c :: c in r <==> exists q :: q in rows && CanonicalRow(q) == c
    ensures ChunksAgree(r)
  {
    hide SortedArtifacts;
  }

  lemma SortedChunks(rows: seq<MatrixEntry>, r: seq<MatrixEntry>)
    requires ChunksAgree(rows)
    requires forall c :: c in r <==> exists q :: q in rows && CanonicalRow(q) == c
    ensures ChunksAgree(r) && ChunksOf(r) == ChunksOf(rows)
  {
    SortedAgree(rows, r);
    ChunksExact(rows);
    ChunksExact(r);
    hide ChunksAgree, ChunksOf, SortedArtifacts;
    forall id | id in ChunksOf(r) ensures id in ChunksOf(rows) {
      var c :| c in r && c.task == id && c.chunk == Some(ChunksOf(r)[id]);
      var q :| q in rows && CanonicalRow(q) == c;
    }
    forall id | id in ChunksOf(rows) ensures id in ChunksOf(r) && ChunksOf(r)[id] == ChunksOf(rows)[id] {
      var q :| q in rows && q.task == id && q.chunk == Some(ChunksOf(rows)[id]);
      assert CanonicalRow(q) in r;
    }
  }

  lemma SameShards(tasks: map<string, Task>, sorted: map<string, Task>, chunks: map<string, Chunk>)
    requires SameMap(tasks, sorted)
    ensures forall id :: Shard(tasks, chunks, id) <==> Shard(sorted, chunks, id)
    ensures forall id, r :: ShardOf(tasks, chunks, id, r) <==> ShardOf(sorted, chunks, id, r)
    ensures forall id :: Shard(tasks, chunks, id) ==> tasks[id].reducer == sorted[id].reducer
  {
  }

  lemma SameCoverage(tasks: map<string, Task>, sorted: map<string, Task>, chunks: map<string, Chunk>)
    requires SameMap(tasks, sorted) && ReduceCovered(tasks, chunks)
    ensures ReduceCovered(sorted, chunks)
  {
    SameShards(tasks, sorted, chunks);
    forall id | Shard(sorted, chunks, id)
      ensures sorted[id].reducer in sorted && id in sorted[sorted[id].reducer].needs
    {
      assert Shard(tasks, chunks, id);
    }
    forall r, index | HasIndex(tasks, chunks, r, index) ensures HasIndex(sorted, chunks, r, index) {
      var id :| ShardOf(tasks, chunks, id, r) && chunks[id].index == index;
      assert ShardOf(sorted, chunks, id, r);
    }
  }

  lemma CanonicalValid(p: Pipeline)
    requires ValidPipeline(p)
    ensures ValidPipeline(CanonicalForm(p))
  {
    var c := CanonicalForm(p);
    var tasks, sorted := ById(p.tasks), ById(c.tasks);
    SortedTasksOk(p.schema, p.tasks);
    SortedNeedsOk(p.tasks, c.tasks);
    SameCycles(tasks, sorted);
    SortedRowsOk(p.schema, tasks, sorted, p.matrix);
    if p.schema == PIPELINE_V2 { SameCoverage(tasks, sorted, ChunksOf(p.matrix)); }
  }

  lemma SameTasks(tasks: seq<Task>)
    ensures var sorted := SortBy(Map(CanonicalTask, tasks), TaskId);
            (forall t :: t in tasks ==> TaskIn(t, sorted)) && (forall t :: t in sorted ==> TaskIn(t, tasks))
  {
    var sorted := SortBy(Map(CanonicalTask, tasks), TaskId);
    SortedMapMembers(CanonicalTask, tasks, TaskId);
    forall t | t in tasks ensures TaskIn(t, sorted) {
      assert SameTask(t, CanonicalTask(t)) && CanonicalTask(t) in sorted;
    }
    forall d | d in sorted ensures TaskIn(d, tasks) {
      var t :| t in tasks && CanonicalTask(t) == d;
      assert SameTask(d, t);
    }
  }

  lemma SameRows(rows: seq<MatrixEntry>)
    ensures var sorted := SortBy(Map(CanonicalRow, rows), RowKey);
            (forall r :: r in rows ==> RowIn(r, sorted)) && (forall r :: r in sorted ==> RowIn(r, rows))
  {
    var sorted := SortBy(Map(CanonicalRow, rows), RowKey);
    SortedMapMembers(CanonicalRow, rows, RowKey);
    forall r | r in rows ensures RowIn(r, sorted) { assert SameRow(r, CanonicalRow(r)) && CanonicalRow(r) in sorted; }
    forall d | d in sorted ensures RowIn(d, rows) {
      var r :| r in rows && CanonicalRow(r) == d;
      assert SameRow(d, r);
    }
  }

  /** Canonicalising keeps validity, changes only order, and does nothing the second time. */
  lemma CanonicalIdempotent(p: Pipeline)
    requires ValidPipeline(p)
    ensures ValidPipeline(CanonicalForm(p)) && SameUpToOrder(p, CanonicalForm(p))
    ensures CanonicalForm(CanonicalForm(p)) == CanonicalForm(p)
  {
    CanonicalValid(p);
    SameTasks(p.tasks);
    SameRows(p.matrix);
    CanonicalExact(p, CanonicalForm(p));
  }
}
