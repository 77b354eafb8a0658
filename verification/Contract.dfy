/** The dhnt.pipeline contract: field rules, pipeline validation and shard coverage. */
module Contract {
  import opened Order
  import opened Paths

  const PIPELINE_V1 := "dhnt.pipeline/v1"
  const PIPELINE_V2 := "dhnt.pipeline/v2"
  const RUN_V1 := "dhnt.run/v1"
  const RUN_V2 := "dhnt.run/v2"
  const FILE := "file"
  const TREE := "tree"
  const FILE_DIGEST := "sha256-file-v1"
  const TREE_DIGEST := "sha256-tree-v1"
  const SHARDABLE := "shardable"
  const COUPLED := "topology-coupled"
  const NATIVE := "native"
  const PASS := "pass"
  const TEST_FAIL := "test-fail"
  const INFRA_FAIL := "infra-fail"
  const INCOMPLETE := "incomplete"
  const CANCELED := "canceled"

  datatype Option<+T> = None | Some(value: T)

  datatype Source = Source(repository: string, commit: string, sha256: string)

  datatype Artifact = Artifact(name: string, kind: string, digestAlgorithm: string, sha256: string)

  datatype Environment = Environment(name: string, value: string)

  datatype Platform = Platform(backend: string, os: string, arch: string)

  datatype Placement = Placement(
    cpu: int, memoryBytes: nat, acceleratorKind: string, acceleratorFamily: string, acceleratorCount: int,
    acceleratorMemoryBytes: nat, minimumCapacity: map<string, nat>, topologyKey: string, cohortSize: int)

  datatype Task = Task(
    id: string, lane: string, distribution: string, needs: seq<string>, argv: seq<string>,
    workingDirectory: string, environment: seq<Environment>, placement: Option<Placement>, reducer: string)

  datatype Chunk = Chunk(index: int, count: int, manifestSha256: string)

  datatype MatrixEntry = MatrixEntry(
    task: string, platform: Platform, chunk: Option<Chunk>, inputs: seq<Artifact>, outputs: seq<Artifact>)

  datatype Pipeline = Pipeline(
    schema: string, pipeline: string, source: Source, tasks: seq<Task>, matrix: seq<MatrixEntry>)

  function TaskId(t: Task): string { t.id }
  function ArtifactName(a: Artifact): string { a.name }
  function EnvironmentName(e: Environment): string { e.name }
  function RowKey(r: MatrixEntry): string { MatrixKey(r.task, r.platform) }

  function MatrixKey(task: string, p: Platform): string {
    task + "\0" + p.backend + "\0" + p.os + "\0" + p.arch
  }

  // ----- field rules -----

  predicate Digit(c: char) { '0' <= c <= '9' }
  predicate Letter(c: char) { 'a' <= c <= 'z' || 'A' <= c <= 'Z' }
  predicate LowerHex(c: char) { '0' <= c <= '9' || 'a' <= c <= 'f' }

  predicate ValidId(s: string) {
    1 <= |s| <= 128 && (Letter(s[0]) || Digit(s[0])) &&
    forall c :: c in s ==> Letter(c) || Digit(c) || c in "._/-"
  }

  /** A lower-case Kubernetes name: letters and digits at both ends, dots and dashes between. */
  predicate KubeName(s: string) {
    s != "" && (forall c :: c in s ==> 'a' <= c <= 'z' || Digit(c) || c == '-' || c == '.') &&
    s[0] !in "-." && s[|s| - 1] !in "-."
  }

  predicate ValidEnvironmentName(s: string) {
    s != "" && !Digit(s[0]) && forall c :: c in s ==> Letter(c) || Digit(c) || c == '_'
  }

  predicate ValidDigest(s: string) { |s| == 64 && forall c :: c in s ==> LowerHex(c) }

  /** strings.TrimSpace(s) == "", on ASCII. */
  predicate Blank(s: string) { forall c :: c in s ==> c in " \t\n\r" || c == 11 as char || c == 12 as char }

  predicate ValidSource(s: Source) {
    !Blank(s.repository) && '\0' !in s.repository && !Blank(s.commit) && '\0' !in s.commit && ValidDigest(s.sha256)
  }

  predicate ValidPlatform(p: Platform) {
    p.backend in ["local", "vk-native", "vk-podman", "k3s", "cloud"] &&
    p.os in ["linux", "darwin", "windows"] && p.arch in ["amd64", "arm64"]
  }

  predicate ValidChunk(c: Chunk) { c.count >= 1 && 1 <= c.index <= c.count && ValidDigest(c.manifestSha256) }

  predicate ValidWorkingDirectory(wd: string) {
    wd != "" && '\0' !in wd && '\\' !in wd && !("/" <= wd) && !(|wd| >= 2 && wd[1] == ':' && Letter(wd[0])) &&
    Clean(wd) == wd && wd != ".." && !("../" <= wd)
  }

  predicate ValidArtifact(a: Artifact, schema: string) {
    ValidId(a.name) && ValidDigest(a.sha256) &&
    if schema == PIPELINE_V1 || schema == RUN_V1 then a.kind == "" && a.digestAlgorithm == ""
    else (schema == PIPELINE_V2 || schema == RUN_V2) &&
         ((a.kind == FILE && a.digestAlgorithm == FILE_DIGEST) || (a.kind == TREE && a.digestAlgorithm == TREE_DIGEST))
  }

  ghost predicate ValidArtifacts(s: seq<Artifact>, schema: string) {
    s != [] && (forall a :: a in s ==> ValidArtifact(a, schema)) && Distinct(s, ArtifactName)
  }

  predicate ValidVariable(e: Environment) {
    '\0' !in e.name && ValidEnvironmentName(e.name) && '\0' !in e.value
  }

  predicate ValidTaskFields(t: Task) {
    ValidId(t.id) && t.lane in [NATIVE, "container", "cluster", "cloud"] &&
    t.distribution in ["single", SHARDABLE, "replicated", COUPLED] &&
    t.argv != [] && t.argv[0] != "" && (forall a :: a in t.argv ==> '\0' !in a) &&
    ValidWorkingDirectory(t.workingDirectory)
  }

  ghost predicate ValidTask(t: Task) {
    ValidTaskFields(t) &&
    (forall n :: n in t.needs ==> ValidId(n)) && Distinct(t.needs, Id) &&
    (forall e :: e in t.environment ==> ValidVariable(e)) && Distinct(t.environment, EnvironmentName)
  }

  function Lower(c: char): char { if 'A' <= c <= 'Z' then (c as int + 32) as char else c }

  function LowerCase(s: string): string { seq(|s|, i requires 0 <= i < |s| => Lower(s[i])) }

  predicate Contains(s: string, sub: string) { exists i :: 0 <= i <= |s| && sub <= s[i..] }

  predicate SecretName(name: string) {
    exists w :: w in ["secret", "token", "password", "passwd", "credential", "privatekey", "private_key", "private-key",
                      "apikey", "api_key", "api-key"] && Contains(LowerCase(name), w)
  }

  predicate OpenVariable(e: Environment) { !("DHNT_" <= e.name) && !SecretName(e.name) }

  predicate ValidPlacement(t: Task) {
    (t.placement.Some? ==>
      var p := t.placement.value;
      p.cpu >= 0 && p.acceleratorCount >= 0 && p.cohortSize >= 0 &&
      (p.acceleratorKind == "" ==>
        p.acceleratorFamily == "" && p.acceleratorCount == 0 && p.acceleratorMemoryBytes == 0) &&
      forall k :: k in p.minimumCapacity ==> !Blank(k) && p.minimumCapacity[k] != 0) &&
    (t.distribution == COUPLED ==>
      t.placement.Some? && t.placement.value.topologyKey != "" && t.placement.value.cohortSize >= 1) &&
    (t.distribution == SHARDABLE && t.placement.Some? ==> t.reducer != "")
  }

  /** The task rules that depend on the schema version. */
  predicate VersionedTask(schema: string, t: Task) {
    if schema == PIPELINE_V2 then (forall e :: e in t.environment ==> OpenVariable(e)) && ValidPlacement(t)
    else t.placement == None && t.reducer == ""
  }

  // ----- loops over one field -----

  method ValidateArtifacts(s: seq<Artifact>, required: bool, schema: string) returns (ok: bool)
    ensures ok <==> (required ==> s != []) && (s != [] ==> ValidArtifacts(s, schema))
  {
    if required && s == [] { return false; }
    var seen: set<string> := {};
    for i := 0 to |s|
      invariant seen == KeySet(s[..i], ArtifactName) && Distinct(s[..i], ArtifactName)
      invariant forall k :: 0 <= k < i ==> ValidArtifact(s[k], schema)
    {
      assert s[..i + 1] == s[..i] + [s[i]];
      KeySetSnoc(s[..i], s[i], ArtifactName);
      DistinctSnoc(s[..i], s[i], ArtifactName);
      if s[i].name in seen || !ValidArtifact(s[i], schema) {
        if ValidArtifacts(s, schema) { DistinctPrefix(s, i + 1, ArtifactName); }
        return false;
      }
      seen := seen + {s[i].name};
    }
    assert s[..|s|] == s;
    return true;
  }

  method ValidateUniqueStrings(s: seq<string>) returns (ok: bool)
    ensures ok <==> (forall n :: n in s ==> ValidId(n)) && Distinct(s, Id)
  {
    var seen: set<string> := {};
    for i := 0 to |s|
      invariant seen == KeySet(s[..i], Id) && Distinct(s[..i], Id)
      invariant forall k :: 0 <= k < i ==> ValidId(s[k])
    {
      assert s[..i + 1] == s[..i] + [s[i]];
      KeySetSnoc(s[..i], s[i], Id);
      DistinctSnoc(s[..i], s[i], Id);
      if !ValidId(s[i]) || s[i] in seen {
        if Distinct(s, Id) { DistinctPrefix(s, i + 1, Id); }
        return false;
      }
      seen := seen + {s[i]};
    }
    assert s[..|s|] == s;
    return true;
  }

  method ValidateEnvironment(s: seq<Environment>) returns (ok: bool)
    ensures ok <==> (forall e :: e in s ==> ValidVariable(e)) && Distinct(s, EnvironmentName)
  {
    var seen: set<string> := {};
    for i := 0 to |s|
      invariant seen == KeySet(s[..i], EnvironmentName) && Distinct(s[..i], EnvironmentName)
      invariant forall k :: 0 <= k < i ==> ValidVariable(s[k])
    {
      assert s[..i + 1] == s[..i] + [s[i]];
      KeySetSnoc(s[..i], s[i], EnvironmentName);
      DistinctSnoc(s[..i], s[i], EnvironmentName);
      if !ValidVariable(s[i]) || s[i].name in seen {
        if Distinct(s, EnvironmentName) { DistinctPrefix(s, i + 1, EnvironmentName); }
        return false;
      }
      seen := seen + {s[i].name};
    }
    assert s[..|s|] == s;
    return true;
  }

  method ValidateTask(t: Task) returns (ok: bool)
    ensures ok <==> ValidTask(t)
  {
    if !ValidTaskFields(t) { return false; }
    var needsOk := ValidateUniqueStrings(t.needs);
    if !needsOk { return false; }
    ok := ValidateEnvironment(t.environment);
  }

  // ----- matrix keys -----

  lemma NulSplit(a: string, x: string, b: string, y: string)
    requires '\0' !in a && '\0' !in b && a + "\0" + x == b + "\0" + y
    ensures a == b && x == y
  {
    var l, r := a + "\0" + x, b + "\0" + y;
    assert l[|a|] == '\0' && r[|b|] == '\0';
    assert forall k :: 0 <= k < |a| ==> l[k] == a[k] && a[k] in a;
    assert forall k :: 0 <= k < |b| ==> r[k] == b[k] && b[k] in b;
    assert l[..|a|] == a && r[..|b|] == b && l[|a| + 1..] == x && r[|b| + 1..] == y;
  }

  lemma KeyShape(t: string, p: Platform)
    ensures MatrixKey(t, p) == t + "\0" + (p.backend + "\0" + (p.os + "\0" + p.arch))
  {
  }

  lemma PlatformNulFree(p: Platform)
    requires ValidPlatform(p)
    ensures '\0' !in p.backend && '\0' !in p.os
  {
  }

  /** Two validated rows share a matrix key exactly when they share task and platform. */
  lemma MatrixKeyInjective(t: string, p: Platform, u: string, q: Platform)
    requires ValidId(t) && ValidId(u) && ValidPlatform(p) && ValidPlatform(q)
    ensures MatrixKey(t, p) == MatrixKey(u, q) <==> t == u && p == q
  {
    if MatrixKey(t, p) == MatrixKey(u, q) {
      KeyShape(t, p);
      KeyShape(u, q);
      PlatformNulFree(p);
      PlatformNulFree(q);
      var pTail, qTail := p.os + "\0" + p.arch, q.os + "\0" + q.arch;
      NulSplit(t, p.backend + "\0" + pTail, u, q.backend + "\0" + qTail);
      NulSplit(p.backend, pTail, q.backend, qTail);
      NulSplit(p.os, p.arch, q.os, q.arch);
    }
  }

  // ----- shard coverage -----

  predicate Shard(tasks: map<string, Task>, chunks: map<string, Chunk>, id: string) {
    id in chunks && id in tasks && tasks[id].reducer != ""
  }

  predicate ShardOf(tasks: map<string, Task>, chunks: map<string, Chunk>, id: string, reducer: string) {
    Shard(tasks, chunks, id) && tasks[id].reducer == reducer
  }

  /** Each named reducer depends on all its shards, and they carry 1..count, each index once, under
      one manifest. */
  ghost predicate ReduceCovered(tasks: map<string, Task>, chunks: map<string, Chunk>) {
    (forall id :: Shard(tasks, chunks, id) ==>
      tasks[id].reducer in tasks && id in tasks[tasks[id].reducer].needs) &&
    (forall id, other :: Shard(tasks, chunks, id) && ShardOf(tasks, chunks, other, tasks[id].reducer) ==>
      chunks[id].count == chunks[other].count && chunks[id].manifestSha256 == chunks[other].manifestSha256 &&
      (id != other ==> chunks[id].index != chunks[other].index)) &&
    (forall id, index :: Shard(tasks, chunks, id) && 1 <= index <= chunks[id].count ==>
      HasIndex(tasks, chunks, tasks[id].reducer, index))
  }

  ghost predicate HasIndex(tasks: map<string, Task>, chunks: map<string, Chunk>, reducer: string, index: int) {
    exists id :: ShardOf(tasks, chunks, id, reducer) && chunks[id].index == index
  }

  datatype Group = Group(count: int, manifest: string, indexes: map<int, string>)

  ghost predicate NonEmpty(g: Group) { exists index :: index in g.indexes }

  /** A processed shard sits in its reducer's group under its own index. */
  ghost predicate Joined(tasks: map<string, Task>, chunks: map<string, Chunk>, groups: map<string, Group>, id: string)
    requires id in tasks && id in chunks
  {
    var r, c := tasks[id].reducer, chunks[id];
    r in tasks && id in tasks[r].needs && r in groups && groups[r].count == c.count &&
    groups[r].manifest == c.manifestSha256 && c.index in groups[r].indexes && groups[r].indexes[c.index] == id
  }

  /** What a group records at an index is a processed shard with that index. */
  ghost predicate Backed(tasks: map<string, Task>, chunks: map<string, Chunk>, done: set<string>, r: string,
                         index: int, id: string) {
    id in done && ShardOf(tasks, chunks, id, r) && chunks[id].index == index
  }

  ghost predicate GroupsHold(tasks: map<string, Task>, chunks: map<string, Chunk>, done: set<string>,
                             groups: map<string, Group>) {
    (forall id :: id in done && Shard(tasks, chunks, id) ==> Joined(tasks, chunks, groups, id)) &&
    (forall r :: r in groups ==> NonEmpty(groups[r])) &&
    (forall r, index :: r in groups && index in groups[r].indexes ==>
      Backed(tasks, chunks, done, r, index, groups[r].indexes[index]))
  }

  function GroupFor(tasks: map<string, Task>, chunks: map<string, Chunk>, groups: map<string, Group>, id: string): Group
    requires id in tasks && id in chunks
  {
    if tasks[id].reducer in groups then groups[tasks[id].reducer]
    else Group(chunks[id].count, chunks[id].manifestSha256, map[])
  }

  lemma Unreduced(tasks: map<string, Task>, chunks: map<string, Chunk>, id: string)
    requires Shard(tasks, chunks, id)
    requires tasks[id].reducer in tasks ==> id !in tasks[tasks[id].reducer].needs
    ensures !ReduceCovered(tasks, chunks)
  {
  }

  /** A shard that disagrees with its group, or repeats an index, breaks coverage. */
  lemma GroupClash(tasks: map<string, Task>, chunks: map<string, Chunk>, done: set<string>, groups: map<string, Group>,
                   id: string)
    requires GroupsHold(tasks, chunks, done, groups) && Shard(tasks, chunks, id) && id !in done
    requires var g, c := GroupFor(tasks, chunks, groups, id), chunks[id];
             g.count != c.count || g.manifest != c.manifestSha256 || c.index in g.indexes
    ensures !ReduceCovered(tasks, chunks)
  {
    var r, c := tasks[id].reducer, chunks[id];
    var g := groups[r];
    assert NonEmpty(g);
    var index := if c.index in g.indexes then c.index else (var k :| k in g.indexes; k);
    var other := g.indexes[index];
    assert Backed(tasks, chunks, done, r, index, other);
    assert Joined(tasks, chunks, groups, other);
    assert ShardOf(tasks, chunks, other, r) && other != id;
  }

  lemma GroupJoins(tasks: map<string, Task>, chunks: map<string, Chunk>, done: set<string>, groups: map<string, Group>,
                   id: string)
    requires GroupsHold(tasks, chunks, done, groups) && Shard(tasks, chunks, id) && id !in done
    requires tasks[id].reducer in tasks && id in tasks[tasks[id].reducer].needs
    requires var g, c := GroupFor(tasks, chunks, groups, id), chunks[id];
             g.count == c.count && g.manifest == c.manifestSha256 && c.index !in g.indexes
    ensures var g := GroupFor(tasks, chunks, groups, id);
            GroupsHold(tasks, chunks, done + {id},
                       groups[tasks[id].reducer := g.(indexes := g.indexes[chunks[id].index := id])])
  {
    var g, r := GroupFor(tasks, chunks, groups, id), tasks[id].reducer;
    var joined := g.(indexes := g.indexes[chunks[id].index := id]);
    var after := groups[r := joined];
    assert chunks[id].index in joined.indexes;
    forall s | s in done + {id} && Shard(tasks, chunks, s) ensures Joined(tasks, chunks, after, s) {
      if s != id { assert Joined(tasks, chunks, groups, s); }
    }
    forall q, index | q in after && index in after[q].indexes
      ensures Backed(tasks, chunks, done + {id}, q, index, after[q].indexes[index])
    {
      if q != r || index != chunks[id].index {
        assert q in groups && index in groups[q].indexes;
        assert Backed(tasks, chunks, done, q, index, groups[q].indexes[index]);
      }
    }
  }

  method ValidateReduceCoverage(tasks: map<string, Task>, chunks: map<string, Chunk>) returns (ok: bool)
    requires chunks.Keys <= tasks.Keys && "" !in tasks
    ensures ok <==> ReduceCovered(tasks, chunks)
  {
    assert GroupsHold(tasks, chunks, {}, map[]);
    hide GroupsHold, ReduceCovered;
    var groups: map<string, Group> := map[];
    var rest := chunks.Keys;
    ghost var done: set<string> := {};
    while rest != {}
      invariant done + rest == chunks.Keys && done !! rest
      invariant GroupsHold(tasks, chunks, done, groups)
      decreases rest
    {
      var id :| id in rest;
      var task, chunk := tasks[id], chunks[id];
      if task.reducer != "" {
        if task.reducer !in tasks || id !in tasks[task.reducer].needs {
          Unreduced(tasks, chunks, id);
          return false;
        }
        var g := GroupFor(tasks, chunks, groups, id);
        if g.count != chunk.count || g.manifest != chunk.manifestSha256 || chunk.index in g.indexes {
          GroupClash(tasks, chunks, done, groups, id);
          return false;
        }
        GroupJoins(tasks, chunks, done, groups, id);
        groups := groups[task.reducer := g.(indexes := g.indexes[chunk.index := id])];
      } else {
        Unnamed(tasks, chunks, done, groups, id);
      }
      rest, done := rest - {id}, done + {id};
    }
    assert done == chunks.Keys;
    ok := EveryIndex(tasks, chunks, groups);
  }

  lemma Unnamed(tasks: map<string, Task>, chunks: map<string, Chunk>, done: set<string>, groups: map<string, Group>,
                id: string)
    requires GroupsHold(tasks, chunks, done, groups) && id in tasks && tasks[id].reducer == ""
    ensures GroupsHold(tasks, chunks, done + {id}, groups)
  {
    forall r, index | r in groups && index in groups[r].indexes
      ensures Backed(tasks, chunks, done + {id}, r, index, groups[r].indexes[index])
    {
      assert Backed(tasks, chunks, done, r, index, groups[r].indexes[index]);
    }
  }

  /** The final loop: every group must hold all indexes 1..count. */
  method EveryIndex(tasks: map<string, Task>, chunks: map<string, Chunk>, groups: map<string, Group>) returns (ok: bool)
    requires GroupsHold(tasks, chunks, chunks.Keys, groups)
    ensures ok <==> ReduceCovered(tasks, chunks)
  {
    hide GroupsHold, ReduceCovered;
    var rest := groups.Keys;
    while rest != {}
      invariant rest <= groups.Keys
      invariant forall r, index :: r in groups && r !in rest && 1 <= index <= groups[r].count ==>
        index in groups[r].indexes
      decreases rest
    {
      var r :| r in rest;
      var g := groups[r];
      var index := 1;
      while index <= g.count
        invariant index >= 1
        invariant forall k :: 1 <= k < index && k <= g.count ==> k in g.indexes
      {
        if index !in g.indexes {
          MissingIndex(tasks, chunks, groups, r, index);
          return false;
        }
        index := index + 1;
      }
      rest := rest - {r};
    }
    AllIndexes(tasks, chunks, groups);
    return true;
  }

  lemma MissingIndex(tasks: map<string, Task>, chunks: map<string, Chunk>, groups: map<string, Group>, r: string,
                     index: int)
    requires GroupsHold(tasks, chunks, chunks.Keys, groups)
    requires r in groups && 1 <= index <= groups[r].count && index !in groups[r].indexes
    ensures !ReduceCovered(tasks, chunks)
  {
    assert NonEmpty(groups[r]);
    var some :| some in groups[r].indexes;
    var id := groups[r].indexes[some];
    assert Backed(tasks, chunks, chunks.Keys, r, some, id) && Joined(tasks, chunks, groups, id);
    assert forall other :: ShardOf(tasks, chunks, other, r) ==> Joined(tasks, chunks, groups, other);
    assert !HasIndex(tasks, chunks, r, index);
  }

  lemma AllIndexes(tasks: map<string, Task>, chunks: map<string, Chunk>, groups: map<string, Group>)
    requires GroupsHold(tasks, chunks, chunks.Keys, groups)
    requires forall r, index :: r in groups && 1 <= index <= groups[r].count ==> index in groups[r].indexes
    ensures ReduceCovered(tasks, chunks)
  {
    forall id | Shard(tasks, chunks, id) ensures Joined(tasks, chunks, groups, id) { }
    forall id, index | Shard(tasks, chunks, id) && 1 <= index <= chunks[id].count
      ensures HasIndex(tasks, chunks, tasks[id].reducer, index)
    {
      var r := tasks[id].reducer;
      assert index in groups[r].indexes;
      assert Backed(tasks, chunks, chunks.Keys, r, index, groups[r].indexes[index]);
    }
  }

  ghost predicate Indexed(shards: set<string>, index: map<string, int>, i: int) {
    exists s :: s in shards && s in index && index[s] == i
  }

  lemma {:induction false} CountUpTo(shards: set<string>, index: map<string, int>, n: nat)
    requires shards <= index.Keys && forall s :: s in shards ==> 1 <= index[s] <= n
    requires forall s, t :: s in shards && t in shards && s != t ==> index[s] != index[t]
    requires forall i :: 1 <= i <= n ==> Indexed(shards, index, i)
    ensures |shards| == n
  {
    if n == 0 {
      assert shards == {};
    } else {
      assert Indexed(shards, index, n);
      var last :| last in shards && index[last] == n;
      forall i | 1 <= i <= n - 1 ensures Indexed(shards - {last}, index, i) {
        assert Indexed(shards, index, i);
        var s :| s in shards && index[s] == i;
        assert s in shards - {last};
      }
      CountUpTo(shards - {last}, index, n - 1);
    }
  }

  /** The shards that name one reducer. */
  function ShardsOf(tasks: map<string, Task>, chunks: map<string, Chunk>, reducer: string): set<string> {
    set s | s in chunks && ShardOf(tasks, chunks, s, reducer)
  }

  /** Coverage is a bijection: a reducer has exactly `count` shards, no two with one index, one for
      each index 1..count, all under one manifest and all among its needs. */
  lemma ShardBijection(tasks: map<string, Task>, chunks: map<string, Chunk>, id: string)
    requires ReduceCovered(tasks, chunks) && Shard(tasks, chunks, id)
    requires forall s :: s in chunks ==> ValidChunk(chunks[s])
    ensures var r, c := tasks[id].reducer, chunks[id];
            var shards := ShardsOf(tasks, chunks, r);
            r in tasks && |shards| == c.count &&
            (forall s :: s in shards ==>
             s in tasks[r].needs && chunks[s] == Chunk(chunks[s].index, c.count, c.manifestSha256)) &&
            (forall s, t :: s in shards && t in shards && s != t ==> chunks[s].index != chunks[t].index) &&
            forall i :: 1 <= i <= c.count ==> HasIndex(tasks, chunks, r, i)
  {
    var r, c := tasks[id].reducer, chunks[id];
    var shards := ShardsOf(tasks, chunks, r);
    var index := map s | s in shards :: chunks[s].index;
    forall i | 1 <= i <= c.count ensures Indexed(shards, index, i) {
      assert HasIndex(tasks, chunks, r, i);
      var s :| ShardOf(tasks, chunks, s, r) && chunks[s].index == i;
      assert s in shards && index[s] == i;
    }
    CountUpTo(shards, index, c.count);
  }
}
