/** Pipeline.Validate and the canonical form of a pipeline. */
module Pipelines {
  import opened Order
  import opened Acyclic
  import opened Contract

  /** The task map the validator fills; a later task of the same id would win. */
  function ById(tasks: seq<Task>): map<string, Task> { IndexBy(tasks, TaskId) }

  function NeedsOf(tasks: map<string, Task>): Graph<string> {
    map id | id in tasks :: tasks[id].needs
  }

  /** The chunk map the validator fills. */
  function ChunksOf(rows: seq<MatrixEntry>): map<string, Chunk> {
    if rows == [] then map[]
    else
      var last := rows[|rows| - 1];
      var front := ChunksOf(rows[..|rows| - 1]);
      if last.chunk.Some? then front[last.task := last.chunk.value] else front
  }

  ghost predicate TaskOk(schema: string, t: Task) { ValidTask(t) && VersionedTask(schema, t) }

  ghost predicate TasksOk(schema: string, tasks: seq<Task>) {
    (forall t :: t in tasks ==> TaskOk(schema, t)) && Distinct(tasks, TaskId)
  }

  ghost predicate NeedsOk(tasks: seq<Task>) {
    forall t, n :: t in tasks && n in t.needs ==> n in ById(tasks) && n != t.id
  }

  predicate RowFieldsOk(tasks: map<string, Task>, r: MatrixEntry) {
    r.task in tasks && ValidPlatform(r.platform) &&
    (tasks[r.task].lane == NATIVE ==> r.platform.backend == "vk-native") &&
    (tasks[r.task].distribution == SHARDABLE <==> r.chunk.Some?) &&
    (r.chunk.Some? ==> ValidChunk(r.chunk.value))
  }

  ghost predicate RowOk(schema: string, tasks: map<string, Task>, r: MatrixEntry) {
    RowFieldsOk(tasks, r) && ValidArtifacts(r.inputs, schema) && ValidArtifacts(r.outputs, schema)
  }

  /** All rows of one shardable task carry one chunk identity. */
  ghost predicate ChunksAgree(rows: seq<MatrixEntry>) {
    forall r, q :: r in rows && q in rows && r.task == q.task && r.chunk.Some? && q.chunk.Some? ==> r.chunk == q.chunk
  }

  predicate Covered(rows: seq<MatrixEntry>, id: string) {
    exists r :: r in rows && r.task == id
  }

  ghost predicate RowsOk(schema: string, tasks: map<string, Task>, rows: seq<MatrixEntry>) {
    (forall r :: r in rows ==> RowOk(schema, tasks, r)) && ChunksAgree(rows) && Distinct(rows, RowKey)
  }

  ghost predicate MatrixOk(schema: string, tasks: map<string, Task>, rows: seq<MatrixEntry>) {
    rows != [] && RowsOk(schema, tasks, rows) && forall id :: id in tasks ==> Covered(rows, id)
  }

  ghost predicate ValidPipeline(p: Pipeline) {
    (p.schema == PIPELINE_V1 || p.schema == PIPELINE_V2) && ValidId(p.pipeline) && ValidSource(p.source) &&
    p.tasks != [] && TasksOk(p.schema, p.tasks) && NeedsOk(p.tasks) && !Cyclic(NeedsOf(ById(p.tasks))) &&
    MatrixOk(p.schema, ById(p.tasks), p.matrix) &&
    (p.schema == PIPELINE_V2 ==> ReduceCovered(ById(p.tasks), ChunksOf(p.matrix)))
  }

  lemma ByIdExact(tasks: seq<Task>)
    requires Distinct(tasks, TaskId)
    ensures forall t :: t in tasks ==> t.id in ById(tasks) && ById(tasks)[t.id] == t
    ensures forall id :: id in ById(tasks) ==> ById(tasks)[id] in tasks && ById(tasks)[id].id == id
  {
    IndexExact(tasks, TaskId);
  }

  lemma {:induction false} ChunksExact(rows: seq<MatrixEntry>)
    requires ChunksAgree(rows)
    ensures forall r :: r in rows && r.chunk.Some? ==>
      r.task in ChunksOf(rows) && ChunksOf(rows)[r.task] == r.chunk.value
    ensures forall id :: id in ChunksOf(rows) ==>
      exists r :: r in rows && r.task == id && r.chunk == Some(ChunksOf(rows)[id])
  {
    if rows != [] {
      var front, last := rows[..|rows| - 1], rows[|rows| - 1];
      assert rows == front + [last];
      ChunksExact(front);
    }
  }

  // ----- one more task, one more row -----

  lemma TasksSnoc(schema: string, front: seq<Task>, t: Task)
    requires TasksOk(schema, front)
    ensures TasksOk(schema, front + [t]) <==> TaskOk(schema, t) && t.id !in ById(front)
    ensures ById(front + [t]) == ById(front)[t.id := t]
  {
    hide IndexBy, Distinct, KeySet, TaskOk;
    IndexExact(front, TaskId);
    IndexSnoc(front, t, TaskId);
    DistinctSnoc(front, t, TaskId);
    assert forall x :: x in front + [t] <==> x in front || x == t;
  }

  lemma TasksPrefix(schema: string, tasks: seq<Task>, n: nat)
    requires n <= |tasks| && TasksOk(schema, tasks)
    ensures TasksOk(schema, tasks[..n])
  {
    DistinctPrefix(tasks, n, TaskId);
  }

  lemma AgreeSnoc(front: seq<MatrixEntry>, r: MatrixEntry)
    requires ChunksAgree(front)
    ensures ChunksAgree(front + [r]) <==>
            (r.chunk.Some? && r.task in ChunksOf(front) ==> ChunksOf(front)[r.task] == r.chunk.value)
    ensures ChunksOf(front + [r]) == if r.chunk.Some? then ChunksOf(front)[r.task := r.chunk.value] else ChunksOf(front)
  {
    ChunksExact(front);
    assert (front + [r])[..|front|] == front;
    assert forall x :: x in front + [r] <==> x in front || x == r;
  }

  lemma RowsSnoc(schema: string, tasks: map<string, Task>, front: seq<MatrixEntry>, r: MatrixEntry)
    requires RowsOk(schema, tasks, front)
    ensures RowsOk(schema, tasks, front + [r]) <==>
            RowOk(schema, tasks, r) && RowKey(r) !in KeySet(front, RowKey) && ChunksAgree(front + [r])
  {
    DistinctSnoc(front, r, RowKey);
    assert forall x :: x in front + [r] <==> x in front || x == r;
  }

  lemma RowsPrefix(schema: string, tasks: map<string, Task>, rows: seq<MatrixEntry>, n: nat)
    requires n <= |rows| && RowsOk(schema, tasks, rows)
    ensures RowsOk(schema, tasks, rows[..n])
  {
    DistinctPrefix(rows, n, RowKey);
  }

  // ----- Pipeline.Validate -----

  method CheckTask(schema: string, t: Task) returns (ok: bool)
    ensures ok <==> TaskOk(schema, t)
  {
    ok := ValidateTask(t);
    ok := ok && VersionedTask(schema, t);
  }

  method ValidateTasks(schema: string, tasks: seq<Task>) returns (ok: bool, byId: map<string, Task>)
    ensures ok <==> TasksOk(schema, tasks)
    ensures ok ==> byId == ById(tasks)
  {
    byId := map[];
    for i := 0 to |tasks|
      invariant byId == ById(tasks[..i]) && TasksOk(schema, tasks[..i])
    {
      var task := tasks[i];
      ok := CheckTask(schema, task);
      assert tasks[..i + 1] == tasks[..i] + [task];
      TasksSnoc(schema, tasks[..i], task);
      if !ok || task.id in byId {
        if TasksOk(schema, tasks) { TasksPrefix(schema, tasks, i + 1); }
        return false, byId;
      }
      byId := byId[task.id := task];
    }
    assert tasks[..|tasks|] == tasks;
    return true, byId;
  }

  method ValidateNeeds(tasks: seq<Task>, byId: map<string, Task>) returns (ok: bool)
    requires byId == ById(tasks)
    ensures ok <==> NeedsOk(tasks)
  {
    for i := 0 to |tasks|
      invariant forall k :: 0 <= k < i ==> forall n :: n in tasks[k].needs ==> n in byId && n != tasks[k].id
    {
      var task := tasks[i];
      for j := 0 to |task.needs|
        invariant forall n :: n in task.needs[..j] ==> n in byId && n != task.id
      {
        if task.needs[j] !in byId || task.needs[j] == task.id {
          assert task in tasks && task.needs[j] in task.needs;
          return false;
        }
        assert task.needs[..j + 1] == task.needs[..j] + [task.needs[j]];
      }
      assert task.needs[..|task.needs|] == task.needs;
    }
    return true;
  }

  method CheckRow(schema: string, tasks: map<string, Task>, r: MatrixEntry) returns (ok: bool)
    ensures ok <==> RowOk(schema, tasks, r)
  {
    if !RowFieldsOk(tasks, r) { return false; }
    ok := ValidateArtifacts(r.inputs, true, schema);
    if !ok { return false; }
    ok := ValidateArtifacts(r.outputs, true, schema);
  }

  function RowTask(r: MatrixEntry): string { r.task }

  method ValidateMatrix(schema: string, tasks: map<string, Task>, rows: seq<MatrixEntry>)
    returns (ok: bool, chunks: map<string, Chunk>)
    ensures ok <==> MatrixOk(schema, tasks, rows)
    ensures ok ==> chunks == ChunksOf(rows)
  {
    chunks := map[];
    var keys: set<string>, covered: set<string> := {}, {};
    if rows == [] { return false, chunks; }
    for i := 0 to |rows|
      invariant RowsOk(schema, tasks, rows[..i]) && chunks == ChunksOf(rows[..i])
      invariant keys == KeySet(rows[..i], RowKey) && covered == KeySet(rows[..i], RowTask)
    {
      var row := rows[i];
      ghost var front := rows[..i];
      assert rows[..i + 1] == front + [row];
      AgreeSnoc(front, row);
      RowsSnoc(schema, tasks, front, row);
      KeySetSnoc(front, row, RowKey);
      KeySetSnoc(front, row, RowTask);
      var conflict := row.chunk.Some? && row.task in chunks && chunks[row.task] != row.chunk.value;
      ok := CheckRow(schema, tasks, row);
      if conflict || !ok || RowKey(row) in keys {
        if RowsOk(schema, tasks, rows) { RowsPrefix(schema, tasks, rows, i + 1); }
        return false, chunks;
      }
      if row.chunk.Some? { chunks := chunks[row.task := row.chunk.value]; }
      keys, covered := keys + {RowKey(row)}, covered + {row.task};
    }
    assert rows[..|rows|] == rows;
    forall id ensures Covered(rows, id) <==> id in covered { }
    ok := tasks.Keys <= covered;
  }

  /** Pipeline.Validate accepts exactly the valid pipelines, whatever the map iteration order. */
  method Validate(p: Pipeline) returns (ok: bool)
    ensures ok <==> ValidPipeline(p)
  {
    if p.schema != PIPELINE_V1 && p.schema != PIPELINE_V2 { return false; }
    if !ValidId(p.pipeline) || !ValidSource(p.source) || p.tasks == [] { return false; }
    var tasksOk, byId := ValidateTasks(p.schema, p.tasks);
    if !tasksOk { return false; }
    ByIdExact(p.tasks);
    var needsOk := ValidateNeeds(p.tasks, byId);
    if !needsOk { return false; }
    var acyclic, _ := ValidateAcyclic(NeedsOf(byId));
    if !acyclic { return false; }
    var matrixOk, chunks := ValidateMatrix(p.schema, byId, p.matrix);
    if !matrixOk { return false; }
    ChunksExact(p.matrix);
    if p.schema == PIPELINE_V2 {
      ok := ValidateReduceCoverage(byId, chunks);
    } else {
      ok := true;
    }
  }

  /** Shard cover of a valid v2 pipeline: the shards of every reducer that has one are as many as their
      common count, carry each index from 1 to it exactly once under one manifest, and are all needed by
      the reducer. */
  lemma ShardCover(p: Pipeline, id: string)
    requires ValidPipeline(p) && p.schema == PIPELINE_V2 && Shard(ById(p.tasks), ChunksOf(p.matrix), id)
    ensures var tasks, chunks := ById(p.tasks), ChunksOf(p.matrix);
            var r, c := tasks[id].reducer, chunks[id];
            var shards := ShardsOf(tasks, chunks, r);
            r in tasks && |shards| == c.count &&
            (forall s :: s in shards ==>
             s in tasks[r].needs && chunks[s] == Chunk(chunks[s].index, c.count, c.manifestSha256)) &&
            (forall s, t :: s in shards && t in shards && s != t ==> chunks[s].index != chunks[t].index) &&
            forall i :: 1 <= i <= c.count ==> HasIndex(tasks, chunks, r, i)
  {
    hide ReduceCovered, TasksOk, NeedsOk, Cyclic, ById, Shard, HasIndex;
    RowChunksValid(p);
    ShardBijection(ById(p.tasks), ChunksOf(p.matrix), id);
  }

  lemma RowChunksValid(p: Pipeline)
    requires ValidPipeline(p)
    ensures forall s :: s in ChunksOf(p.matrix) ==> ValidChunk(ChunksOf(p.matrix)[s])
  {
    hide TasksOk, NeedsOk, Cyclic, ReduceCovered, ById, ValidChunk;
    ChunksExact(p.matrix);
    forall s | s in ChunksOf(p.matrix) ensures ValidChunk(ChunksOf(p.matrix)[s]) {
      var r :| r in p.matrix && r.task == s && r.chunk == Some(ChunksOf(p.matrix)[s]);
      assert RowOk(p.schema, ById(p.tasks), r);
    }
  }
}
