/** The parts of the mixed lowerer that decide where tasks run and where their inputs come from. */
module MixedArgo {
  import opened Order
  import opened Paths
  import opened Contract
  import opened Pipelines
  import opened Argo
  import opened Canonical
  import opened RunnerSpecs
  import opened MixedLanes
  import opened MixedTemplates

  // ----- artifact identities -----

  function Identity(a: Artifact): string { a.name + "@" + a.sha256 }

  lemma CutAt(a: string, x: string, b: string, y: string)
    requires '@' !in a && '@' !in b && a + "@" + x == b + "@" + y
    ensures a == b && x == y
  {
    var l, r := a + "@" + x, b + "@" + y;
    assert l[|a|] == '@' && r[|b|] == '@';
    assert forall k :: 0 <= k < |a| ==> l[k] == a[k] && a[k] in a;
    assert forall k :: 0 <= k < |b| ==> r[k] == b[k] && b[k] in b;
    assert l[..|a|] == a && r[..|b|] == b && l[|a| + 1..] == x && r[|b| + 1..] == y;
  }

  /** Two artifacts with valid names share an identity only if they share name and digest. */
  lemma IdentityInjective(a: Artifact, b: Artifact)
    requires ValidId(a.name) && ValidId(b.name)
    ensures Identity(a) == Identity(b) <==> a.name == b.name && a.sha256 == b.sha256
  {
    assert '@' !in a.name && '@' !in b.name;
    if Identity(a) == Identity(b) { CutAt(a.name, a.sha256, b.name, b.sha256); }
  }

  // ----- producers -----

  datatype Output = Output(identity: string, task: string)

  function OutputId(o: Output): string { o.identity }

  function OutputsOf(row: MatrixEntry): (r: seq<Output>)
    ensures |r| == |row.outputs| && forall i :: 0 <= i < |r| ==> r[i] == Output(Identity(row.outputs[i]), row.task)
  {
    seq(|row.outputs|, i requires 0 <= i < |row.outputs| => Output(Identity(row.outputs[i]), row.task))
  }

  /** Every output of every row, in order. */
  function Outputs(rows: seq<MatrixEntry>): seq<Output> {
    if rows == [] then [] else Outputs(rows[..|rows| - 1]) + OutputsOf(rows[|rows| - 1])
  }

  /** Some row of this task outputs this identity. */
  ghost predicate Produces(rows: seq<MatrixEntry>, identity: string, task: string) {
    exists row, a :: row in rows && a in row.outputs && Identity(a) == identity && row.task == task
  }

  lemma {:induction false} OutputsExact(rows: seq<MatrixEntry>, identity: string, task: string)
    ensures Output(identity, task) in Outputs(rows) <==> Produces(rows, identity, task)
  {
    if rows != [] {
      var front, last := rows[..|rows| - 1], rows[|rows| - 1];
      assert rows == front + [last];
      OutputsExact(front, identity, task);
      OutputsOfExact(last, identity, task);
      if Produces(rows, identity, task) {
        var row, a :| row in rows && a in row.outputs && Identity(a) == identity && row.task == task;
        if row in front { assert Produces(front, identity, task); } else { assert row == last; }
      }
      if Produces(front, identity, task) {
        var row, a :| row in front && a in row.outputs && Identity(a) == identity && row.task == task;
        assert row in rows;
      }
    }
  }

  lemma OutputsOfExact(row: MatrixEntry, identity: string, task: string)
    ensures Output(identity, task) in OutputsOf(row) <==>
      task == row.task && exists a :: a in row.outputs && Identity(a) == identity
  {
    var os := OutputsOf(row);
    if Output(identity, task) in os {
      var i :| 0 <= i < |os| && os[i] == Output(identity, task);
      assert row.outputs[i] in row.outputs;
    }
    if a :| a in row.outputs && Identity(a) == identity {
      var i :| 0 <= i < |row.outputs| && row.outputs[i] == a;
      assert os[i] == Output(identity, row.task);
    }
  }

  function ProducerMap(outputs: seq<Output>): map<string, string> {
    map id | id in IndexBy(outputs, OutputId) :: IndexBy(outputs, OutputId)[id].task
  }

  /** mixedArtifactProducers: it succeeds exactly when no identity is output twice. */
  method ArtifactProducers(rows: seq<MatrixEntry>) returns (ok: bool, producers: map<string, string>)
    ensures ok <==> Distinct(Outputs(rows), OutputId)
    ensures ok ==> producers == ProducerMap(Outputs(rows))
  {
    hide Distinct, IndexBy;
    producers := map[];
    NoOutputs();
    for i := 0 to |rows|
      invariant Distinct(Outputs(rows[..i]), OutputId) && producers == ProducerMap(Outputs(rows[..i]))
    {
      var row := rows[i];
      assert rows[..i + 1][..i] == rows[..i];
      assert Outputs(rows[..i]) + OutputsOf(row)[..0] == Outputs(rows[..i]);
      for j := 0 to |row.outputs|
        invariant var done := Outputs(rows[..i]) + OutputsOf(row)[..j];
                  Distinct(done, OutputId) && producers == ProducerMap(done)
      {
        ghost var done, output := Outputs(rows[..i]) + OutputsOf(row)[..j], OutputsOf(row)[j];
        assert OutputsOf(row)[..j + 1] == OutputsOf(row)[..j] + [output];
        assert Outputs(rows[..i]) + OutputsOf(row)[..j + 1] == done + [output];
        OneMoreOutput(done, output);
        if Identity(row.outputs[j]) in producers {
          TwoProducers(rows, i, j);
          return false, producers;
        }
        producers := producers[Identity(row.outputs[j]) := row.task];
      }
      assert OutputsOf(row)[..|row.outputs|] == OutputsOf(row);
    }
    assert rows[..|rows|] == rows;
    ok := true;
  }

  lemma NoOutputs()
    ensures Outputs([]) == [] && Distinct([], OutputId) && ProducerMap([]) == map[]
  {
  }

  lemma OneMoreOutput(done: seq<Output>, output: Output)
    requires Distinct(done, OutputId)
    ensures Distinct(done + [output], OutputId) <==> output.identity !in ProducerMap(done)
    ensures ProducerMap(done + [output]) == ProducerMap(done)[output.identity := output.task]
  {
    hide IndexBy, Distinct, KeySet;
    DistinctSnoc(done, output, OutputId);
    IndexExact(done, OutputId);
    IndexSnoc(done, output, OutputId);
  }

  lemma {:induction false} OutputsPrefix(rows: seq<MatrixEntry>, n: nat)
    requires n <= |rows|
    ensures Outputs(rows[..n]) <= Outputs(rows)
  {
    if n < |rows| {
      OutputsPrefix(rows[..|rows| - 1], n);
      assert rows[..|rows| - 1][..n] == rows[..n];
    } else {
      assert rows[..n] == rows;
    }
  }

  /** A clash inside a prefix is a clash. */
  lemma TwoProducers(rows: seq<MatrixEntry>, i: nat, j: nat)
    requires i < |rows| && j < |rows[i].outputs|
    requires !Distinct(Outputs(rows[..i]) + OutputsOf(rows[i])[..j + 1], OutputId)
    ensures !Distinct(Outputs(rows), OutputId)
  {
    OutputsPrefix(rows, i + 1);
    assert rows[..i + 1][..i] == rows[..i];
    var whole, part := Outputs(rows), Outputs(rows[..i]) + OutputsOf(rows[i])[..j + 1];
    assert part <= Outputs(rows[..i + 1]) <= whole;
    assert part == whole[..|part|];
  }

  // ----- wiring -----

  datatype Initial = Initial(name: string, sha256: string, key: string)

  function InitialId(i: Initial): string { i.name + "@" + i.sha256 }

  /** Where a task takes an input from: another task's output, or an object of the repository. */
  datatype Origin = Produced(task: string) | Stored(key: string)

  datatype Argument = Argument(input: string, origin: Origin)

  datatype Wired = Wired(task: string, arguments: seq<Argument>)

  /** The initial artifacts by identity. */
  function KeyMap(initial: seq<Initial>): map<string, string> {
    map id | id in IndexBy(initial, InitialId) :: IndexBy(initial, InitialId)[id].key
  }

  predicate HasOrigin(producers: map<string, string>, keys: map<string, string>, a: Artifact) {
    Identity(a) in producers || Identity(a) in keys
  }

  function OriginOf(producers: map<string, string>, keys: map<string, string>, a: Artifact): Argument
    requires HasOrigin(producers, keys, a)
  {
    Argument(a.name, if Identity(a) in producers then Produced(producers[Identity(a)]) else Stored(keys[Identity(a)]))
  }

  predicate AllHaveOrigin(producers: map<string, string>, keys: map<string, string>, inputs: seq<Artifact>) {
    forall a :: a in inputs ==> HasOrigin(producers, keys, a)
  }

  function Arguments(producers: map<string, string>, keys: map<string, string>,
                     inputs: seq<Artifact>): (r: seq<Argument>)
    requires AllHaveOrigin(producers, keys, inputs)
    ensures |r| == |inputs|
    ensures forall i :: 0 <= i < |r| ==> inputs[i] in inputs && r[i] == OriginOf(producers, keys, inputs[i])
  {
    seq(|inputs|, i requires 0 <= i < |inputs| => assert inputs[i] in inputs; OriginOf(producers, keys, inputs[i]))
  }

  /** The repository keys these inputs use. */
  function Used(producers: map<string, string>, inputs: seq<Artifact>): set<string> {
    set a | a in inputs && Identity(a) !in producers :: Identity(a)
  }

  /** The loop over one task's inputs. */
  method WireTask(producers: map<string, string>, keys: map<string, string>, inputs: seq<Artifact>, before: set<string>)
    returns (ok: bool, arguments: seq<Argument>, used: set<string>)
    ensures ok <==> AllHaveOrigin(producers, keys, inputs)
    ensures ok ==> arguments == Arguments(producers, keys, inputs) && used == before + Used(producers, inputs)
  {
    arguments, used := [], before;
    for i := 0 to |inputs|
      invariant AllHaveOrigin(producers, keys, inputs[..i])
      invariant arguments == Arguments(producers, keys, inputs[..i]) && used == before + Used(producers, inputs[..i])
    {
      var a := inputs[i];
      assert inputs[..i + 1] == inputs[..i] + [a];
      UsedSnoc(producers, inputs[..i], a);
      if Identity(a) in producers {
        arguments := arguments + [Argument(a.name, Produced(producers[Identity(a)]))];
      } else if Identity(a) in keys {
        arguments, used := arguments + [Argument(a.name, Stored(keys[Identity(a)]))], used + {Identity(a)};
      } else {
        assert !HasOrigin(producers, keys, a) && a in inputs;
        return false, arguments, used;
      }
    }
    assert inputs[..|inputs|] == inputs;
    ok := true;
  }

  lemma UsedSnoc(producers: map<string, string>, inputs: seq<Artifact>, a: Artifact)
    ensures Used(producers, inputs + [a]) == Used(producers, inputs) +
      (if Identity(a) in producers then {} else {Identity(a)})
  {
    assert forall x :: x in inputs + [a] <==> x in inputs || x == a;
  }

  /** The inputs of every row that no task produces. */
  function Roots(producers: map<string, string>, rows: seq<MatrixEntry>): set<string> {
    set row, a | row in rows && a in row.inputs && Identity(a) !in producers :: Identity(a)
  }

  function Wiring(producers: map<string, string>, keys: map<string, string>, rows: seq<MatrixEntry>): (r: seq<Wired>)
    requires forall row :: row in rows ==> AllHaveOrigin(producers, keys, row.inputs)
    ensures |r| == |rows|
    ensures forall i :: 0 <= i < |r| ==>
      rows[i] in rows && r[i] == Wired(rows[i].task, Arguments(producers, keys, rows[i].inputs))
  {
    seq(|rows|, i requires 0 <= i < |rows| => assert rows[i] in rows; Wired(rows[i].task,
        Arguments(producers, keys, rows[i].inputs)))
  }

  /** Exactly the pipelines and repositories that can be wired. */
  ghost predicate Wirable(rows: seq<MatrixEntry>, initial: seq<Initial>) {
    var producers, keys := ProducerMap(Outputs(rows)), KeyMap(initial);
    Distinct(Outputs(rows), OutputId) && (forall row :: row in rows ==> AllHaveOrigin(producers, keys, row.inputs)) &&
    keys.Keys == Roots(producers, rows)
  }

  lemma RootsSnoc(producers: map<string, string>, rows: seq<MatrixEntry>, row: MatrixEntry)
    ensures Roots(producers, rows + [row]) == Roots(producers, rows) + Used(producers, row.inputs)
  {
    assert forall x :: x in rows + [row] <==> x in rows || x == row;
  }

  lemma RootsHaveKeys(producers: map<string, string>, keys: map<string, string>, rows: seq<MatrixEntry>)
    requires forall row :: row in rows ==> AllHaveOrigin(producers, keys, row.inputs)
    ensures Roots(producers, rows) <= keys.Keys && Roots(producers, rows) !! producers.Keys
  {
    forall id | id in Roots(producers, rows) ensures id in keys && id !in producers {
      var row, a :| row in rows && a in row.inputs && Identity(a) !in producers && Identity(a) == id;
      assert HasOrigin(producers, keys, a);
    }
  }

  lemma RootsOfMembers(producers: map<string, string>, rows: seq<MatrixEntry>, ordered: seq<MatrixEntry>)
    requires forall row :: row in rows <==> row in ordered
    ensures Roots(producers, rows) == Roots(producers, ordered)
  {
  }

  /** The wiring of LowerMixedDKS: producers first, then every task's arguments in task order, then the
      check that no initial artifact is produced or left over. */
  method Wire(rows: seq<MatrixEntry>, ordered: seq<MatrixEntry>, initial: seq<Initial>)
    returns (ok: bool, wiring: seq<Wired>)
    requires forall row :: row in rows <==> row in ordered
    ensures ok <==> Wirable(rows, initial)
    ensures ok ==> wiring == Wiring(ProducerMap(Outputs(rows)), KeyMap(initial), ordered)
  {
    hide AllHaveOrigin, Distinct, IndexBy, Outputs, ProducerMap, Used;
    wiring := [];
    var producers;
    ok, producers := ArtifactProducers(rows);
    if !ok { return; }
    RootsOfMembers(producers, rows, ordered);
    var index := Index(initial, InitialId);
    var keys := map id | id in index :: index[id].key;
    var used: set<string> := {};
    for i := 0 to |ordered|
      invariant forall row :: row in ordered[..i] ==> AllHaveOrigin(producers, keys, row.inputs)
      invariant wiring == Wiring(producers, keys, ordered[..i]) && used == Roots(producers, ordered[..i])
    {
      assert ordered[..i + 1] == ordered[..i] + [ordered[i]];
      RootsSnoc(producers, ordered[..i], ordered[i]);
      var arguments;
      ok, arguments, used := WireTask(producers, keys, ordered[i].inputs, used);
      if !ok {
        assert ordered[i] in ordered;
        return;
      }
      wiring := wiring + [Wired(ordered[i].task, arguments)];
    }
    assert ordered[..|ordered|] == ordered;
    RootsHaveKeys(producers, keys, ordered);
    ok := forall id :: id in keys.Keys ==> id !in producers && id in used;
  }

  // ----- exactly one source for each input -----

  /** This input is output by exactly this task. */
  ghost predicate OnlyFrom(rows: seq<MatrixEntry>, a: Artifact, task: string) {
    Produces(rows, Identity(a), task) && forall u :: Produces(rows, Identity(a), u) ==> u == task
  }

  ghost predicate FromNobody(rows: seq<MatrixEntry>, a: Artifact) { forall u :: !Produces(rows, Identity(a), u) }

  ghost predicate KeptUnder(initial: seq<Initial>, a: Artifact, key: string) {
    exists i :: i in initial && InitialId(i) == Identity(a) && i.key == key
  }

  /** The one right place for this task to take this input from. */
  ghost predicate Supplied(rows: seq<MatrixEntry>, initial: seq<Initial>, consumer: string, a: Artifact,
                           origin: Origin) {
    if origin.Produced? then origin.task != consumer && OnlyFrom(rows, a, origin.task)
    else FromNobody(rows, a) && KeptUnder(initial, a, origin.key)
  }

  lemma ProducerMapExact(rows: seq<MatrixEntry>, a: Artifact)
    requires Distinct(Outputs(rows), OutputId)
    ensures Identity(a) in ProducerMap(Outputs(rows)) ==> OnlyFrom(rows, a, ProducerMap(Outputs(rows))[Identity(a)])
    ensures Identity(a) !in ProducerMap(Outputs(rows)) ==> FromNobody(rows, a)
  {
    var outputs, id := Outputs(rows), Identity(a);
    IndexExact(outputs, OutputId);
    forall u ensures Produces(rows, id, u) <==> Output(id, u) in outputs { OutputsExact(rows, id, u); }
    forall u | Output(id, u) in outputs ensures id in ProducerMap(outputs) && u == ProducerMap(outputs)[id] {
      assert OutputId(Output(id, u)) == id;
    }
    if id in ProducerMap(outputs) { assert IndexBy(outputs, OutputId)[id] == Output(id, ProducerMap(outputs)[id]); }
  }

  /** No row reads what it writes: runnerSpecForTask has refused artifacts that are both. */
  ghost predicate NotInPlace(row: MatrixEntry) { KeySet(row.inputs, ArtifactName) !! KeySet(row.outputs, ArtifactName) }

  ghost predicate Ready(rows: seq<MatrixEntry>) {
    Distinct(rows, RowTask) &&
    forall row :: row in rows ==>
      NotInPlace(row) && (forall a :: a in row.inputs || a in row.outputs ==> ValidId(a.name))
  }

  lemma ProducerDiffers(rows: seq<MatrixEntry>, i: nat, a: Artifact, task: string)
    requires Ready(rows) && i < |rows| && a in rows[i].inputs && Produces(rows, Identity(a), task)
    ensures task != rows[i].task
  {
    var row, b :| row in rows && b in row.outputs && Identity(b) == Identity(a) && row.task == task;
    assert rows[i] in rows;
    IdentityInjective(a, b);
    var j :| 0 <= j < |rows| && rows[j] == row;
    assert RowTask(rows[i]) == RowTask(rows[j]) ==> i == j;
    KeyIn(rows[i].inputs, a, ArtifactName);
    KeyIn(row.outputs, b, ArtifactName);
  }

  /** Exact cover: the k-th argument of a task supplies its k-th input, from the one other task that
      outputs it, or else from the repository object kept under its identity. */
  lemma WiringCovers(rows: seq<MatrixEntry>, ordered: seq<MatrixEntry>, initial: seq<Initial>, i: nat, k: nat)
    requires Wirable(rows, initial) && Ready(rows) && Distinct(initial, InitialId)
    requires forall row :: row in rows <==> row in ordered
    requires i < |ordered| && k < |ordered[i].inputs|
    ensures var a := ordered[i].inputs[k];
      var wired := Wiring(ProducerMap(Outputs(rows)), KeyMap(initial), ordered)[i];
      wired.task == ordered[i].task && |wired.arguments| == |ordered[i].inputs| && wired.arguments[k].input == a.name &&
      Supplied(rows, initial, ordered[i].task, a, wired.arguments[k].origin)
  {
    hide Produces, Ready;
    var a := ordered[i].inputs[k];
    var producers, keys := ProducerMap(Outputs(rows)), KeyMap(initial);
    assert ordered[i] in ordered && a in ordered[i].inputs;
    ProducerMapExact(rows, a);
    IndexExact(initial, InitialId);
    if Identity(a) in producers {
      var j :| 0 <= j < |rows| && rows[j] == ordered[i];
      ProducerDiffers(rows, j, a, producers[Identity(a)]);
    }
    else { assert IndexBy(initial, InitialId)[Identity(a)] in initial; }
  }

  /** The initial artifacts are exactly the inputs no task produces. */
  lemma InitialExact(rows: seq<MatrixEntry>, initial: seq<Initial>, id: string)
    requires Wirable(rows, initial)
    ensures (exists i :: i in initial && InitialId(i) == id) <==>
            exists row, a :: row in rows && a in row.inputs && Identity(a) == id && FromNobody(rows, a)
  {
    hide Produces;
    var producers := ProducerMap(Outputs(rows));
    forall row, a | row in rows && a in row.inputs ensures Identity(a) !in producers <==> FromNobody(rows, a) {
      ProducerMapExact(rows, a);
    }
    KeysAre(initial, id);
    assert id in KeyMap(initial).Keys <==> id in Roots(producers, rows);
  }

  lemma {:induction false} KeysAre(initial: seq<Initial>, id: string)
    ensures id in KeyMap(initial).Keys <==> exists i :: i in initial && InitialId(i) == id
  {
    IndexKeys(initial, id);
  }

  lemma {:induction false} IndexKeys(initial: seq<Initial>, id: string)
    ensures id in IndexBy(initial, InitialId) <==> exists i :: i in initial && InitialId(i) == id
  {
    if initial != [] {
      var front, last := initial[..|initial| - 1], initial[|initial| - 1];
      assert initial == front + [last];
      IndexKeys(front, id);
      if i :| i in initial && InitialId(i) == id { assert i in front || i == last; }
    }
  }

  // ----- placement -----

  datatype Cohort = Cohort(task: string, workers: seq<string>, topologyClass: string, topologyDomain: string)

  datatype ChunkPlan = ChunkPlan(index: int, members: seq<string>, worker: string)

  datatype Reduction = Reduction(reducer: string, manifestSha256: string, membershipSha256: string,
                                 chunks: seq<ChunkPlan>, required: seq<int>)

  const PLACEMENT_PLAN := "dhnt.dks-placement/v1"

  datatype Plan = Plan(schema: string, pipeline: string, cohorts: seq<Cohort>, reductions: seq<Reduction>)

  /** The digest of a reduction's membership: reducer, and index and task of each chunk in order. */
  type Membership = (string, seq<(int, string)>) -> string

  datatype Placed = Placed(task: string, worker: string)

  function PlacedTask(a: Placed): string { a.task }

  predicate CohortOk(tasks: map<string, Task>, c: Cohort) {
    c.task in tasks && tasks[c.task].placement.Some? && tasks[c.task].distribution != SHARDABLE &&
    |c.workers| == 1 && !Blank(c.workers[0]) &&
    (tasks[c.task].distribution == COUPLED ==>
     c.topologyClass == tasks[c.task].placement.value.topologyKey && c.topologyDomain != "")
  }

  /** The chunk names one shard of this reducer, at the shard's own index and under its manifest. */
  predicate ChunkOk(tasks: map<string, Task>, rows: map<string, MatrixEntry>, r: Reduction, c: ChunkPlan) {
    |c.members| == 1 && c.members[0] in tasks && tasks[c.members[0]].distribution == SHARDABLE &&
    tasks[c.members[0]].reducer == r.reducer && c.members[0] in rows && rows[c.members[0]].chunk.Some? &&
    rows[c.members[0]].chunk.value.index == c.index &&
    rows[c.members[0]].chunk.value.manifestSha256 == r.manifestSha256 &&
    !Blank(c.worker)
  }

  function First(s: seq<string>): string { if s == [] then "" else s[0] }

  function CohortPlace(c: Cohort): Placed { Placed(c.task, First(c.workers)) }

  function ChunkPlace(c: ChunkPlan): Placed { Placed(First(c.members), c.worker) }

  function Member(c: ChunkPlan): (int, string) { (c.index, First(c.members)) }

  function ChunkIndex(c: ChunkPlan): int { c.index }

  function InsertInt(x: int, s: seq<int>): seq<int> {
    if s == [] || x <= s[0] then [x] + s else [s[0]] + InsertInt(x, s[1..])
  }

  /** sort.Ints. */
  function SortInts(s: seq<int>): seq<int> { if s == [] then [] else InsertInt(s[0], SortInts(s[1..])) }

  predicate Ascending(s: seq<int>) { forall i, j :: 0 <= i < j < |s| ==> s[i] <= s[j] }

  predicate Below(x: int, s: seq<int>) { forall y :: y in s ==> x <= y }

  lemma AscendingCons(x: int, s: seq<int>)
    ensures Ascending([x] + s) <==> Below(x, s) && Ascending(s)
  {
    var r := [x] + s;
    assert forall k :: 0 <= k < |s| ==> r[k + 1] == s[k];
    if Ascending(r) {
      forall y | y in s ensures x <= y {
        var k :| 0 <= k < |s| && s[k] == y;
        assert r[0] <= r[k + 1];
      }
      forall a, b | 0 <= a < b < |s| ensures s[a] <= s[b] { assert r[a + 1] <= r[b + 1]; }
    } else if Below(x, s) && Ascending(s) {
      forall a, b | 0 <= a < b < |r| ensures r[a] <= r[b] { assert r[b] == s[b - 1] && s[b - 1] in s; }
    }
  }

  lemma BelowSame(x: int, a: seq<int>, b: seq<int>)
    requires forall y :: y in multiset(a) <==> y in multiset(b)
    ensures Below(x, a) <==> Below(x, b)
  {
    forall y ensures y in a <==> y in b { InSeq(a, y); InSeq(b, y); }
  }

  lemma {:induction false} InsertAscending(x: int, s: seq<int>)
    requires Ascending(s)
    ensures Ascending(InsertInt(x, s)) && multiset(InsertInt(x, s)) == multiset{x} + multiset(s)
  {
    hide Ascending;
    if s == [] {
      AscendingOne(x);
    } else {
      var h, t := s[0], s[1..];
      assert s == [h] + t;
      AscendingCons(h, t);
      if x <= h {
        AscendingCons(x, s);
      } else {
        InsertAscending(x, t);
        AscendingCons(h, InsertInt(x, t));
        BelowSame(h, InsertInt(x, t), [x] + t);
      }
    }
  }

  lemma AscendingOne(x: int)
    ensures Ascending([]) && Ascending([x]) && Ascending([x] + [])
  {
  }

  lemma {:induction false} SortIntsSorts(s: seq<int>)
    ensures Ascending(SortInts(s)) && multiset(SortInts(s)) == multiset(s)
  {
    hide Ascending, InsertInt;
    AscendingOne(0);
    if s != [] {
      SortIntsSorts(s[1..]);
      InsertAscending(s[0], SortInts(s[1..]));
      assert s == [s[0]] + s[1..];
    }
  }

  lemma {:induction false} AscendingUnique(a: seq<int>, b: seq<int>)
    requires Ascending(a) && Ascending(b) && multiset(a) == multiset(b)
    ensures a == b
  {
    hide Ascending;
    PermutationMembers(a, b);
    if a != [] {
      TailContents(a);
      TailContents(b);
      AscendingCons(a[0], a[1..]);
      AscendingCons(b[0], b[1..]);
      assert a[0] in b && b[0] in a;
      AscendingUnique(a[1..], b[1..]);
    }
  }

  /** A list is the sorted form of another exactly when it ascends and has the same elements. */
  lemma SortIntsExact(s: seq<int>, t: seq<int>)
    ensures SortInts(s) == t <==> Ascending(t) && multiset(t) == multiset(s)
  {
    SortIntsSorts(s);
    if Ascending(t) && multiset(t) == multiset(s) { AscendingUnique(SortInts(s), t); }
  }

  /** Each chunk is the shard it names, the required indexes are the chunk indexes in ascending order, and
      the membership digest is that of the chunks' members. */
  ghost predicate ReductionOk(hash: Membership, tasks: map<string, Task>, rows: map<string, MatrixEntry>,
                              r: Reduction) {
    (forall c :: c in r.chunks ==> ChunkOk(tasks, rows, r, c)) &&
    Ascending(r.required) && multiset(r.required) == multiset(Map(ChunkIndex, r.chunks)) &&
    hash(r.reducer, Map(Member, r.chunks)) == r.membershipSha256
  }

  /** The assignments made so far are exactly these places, one for each task. */
  ghost predicate Assigns(assignments: map<string, string>, used: set<string>, places: seq<Placed>) {
    Distinct(places, PlacedTask) && assignments.Keys == KeySet(places, PlacedTask) &&
    (forall a :: a in places ==> a.task in assignments && assignments[a.task] == a.worker) &&
    used == assignments.Values
  }

  lemma NothingAssigned()
    ensures Assigns(map[], {}, [])
  {
  }

  /** One more place, for a task that has none yet. */
  lemma AssignMore(assignments: map<string, string>, used: set<string>, places: seq<Placed>, a: Placed)
    requires Assigns(assignments, used, places)
    ensures a.task in assignments <==> !Distinct(places + [a], PlacedTask)
    ensures a.task !in assignments ==> Assigns(assignments[a.task := a.worker], used + {a.worker}, places + [a])
  {
    DistinctSnoc(places, a, PlacedTask);
    KeySetSnoc(places, a, PlacedTask);
    if a.task !in assignments {
      var after := assignments[a.task := a.worker];
      forall w ensures w in after.Values <==> w in used || w == a.worker {
        if w in used {
          var t :| t in assignments && assignments[t] == w;
          assert after[t] == w;
        }
        if w == a.worker { assert after[a.task] == w; }
      }
      forall p | p in places ensures after[p.task] == p.worker { }
    }
  }

  /** The places of all chunks of these reductions. */
  function ReductionPlaces(reductions: seq<Reduction>): seq<Placed> {
    if reductions == [] then []
    else ReductionPlaces(reductions[..|reductions| - 1]) + Map(ChunkPlace, reductions[|reductions| - 1].chunks)
  }

  function Places(plan: Plan): seq<Placed> { Map(CohortPlace, plan.cohorts) + ReductionPlaces(plan.reductions) }

  /** The tasks that must be placed. */
  predicate MustBePlaced(t: Task) { t.lane == NATIVE || t.distribution == SHARDABLE || t.placement.Some? }

  /** Exactly the plans that place every task that must be placed, none twice, and nothing else. */
  ghost predicate PlanFits(hash: Membership, p: Pipeline, plan: Plan) {
    var tasks, rows := ById(p.tasks), IndexBy(p.matrix, RowTask);
    (forall c :: c in plan.cohorts ==> CohortOk(tasks, c)) &&
    (forall r :: r in plan.reductions ==> ReductionOk(hash, tasks, rows, r)) &&
    Distinct(Places(plan), PlacedTask) && forall t :: t in p.tasks && MustBePlaced(t) ==>
      t.id in KeySet(Places(plan), PlacedTask)
  }

  lemma DistinctFront(a: seq<Placed>, b: seq<Placed>)
    requires Distinct(a + b, PlacedTask)
    ensures Distinct(a, PlacedTask)
  {
    assert (a + b)[..|a|] == a;
    DistinctPrefix(a + b, |a|, PlacedTask);
  }

  lemma PlaceSnoc<T>(f: T -> Placed, s: seq<T>, i: nat, before: seq<Placed>)
    requires i < |s|
    ensures before + Map(f, s[..i + 1]) == before + Map(f, s[..i]) + [f(s[i])]
  {
    assert Map(f, s[..i + 1]) == Map(f, s[..i]) + [f(s[i])];
  }

  lemma MapRest<T>(f: T -> Placed, s: seq<T>, i: nat)
    requires i <= |s|
    ensures Map(f, s) == Map(f, s[..i]) + Map(f, s[i..])
  {
  }

  lemma PlaceRest<T>(f: T -> Placed, s: seq<T>, i: nat, before: seq<Placed>)
    requires i <= |s|
    ensures before + Map(f, s) == before + Map(f, s[..i]) + Map(f, s[i..])
  {
    MapRest(f, s, i);
  }

  lemma TakenTwice<T>(f: T -> Placed, s: seq<T>, i: nat, before: seq<Placed>)
    requires i < |s| && !Distinct(before + Map(f, s[..i]) + [f(s[i])], PlacedTask)
    ensures !Distinct(before + Map(f, s), PlacedTask)
  {
    hide Map, Distinct;
    PlaceSnoc(f, s, i, before);
    PlaceRest(f, s, i + 1, before);
    if Distinct(before + Map(f, s), PlacedTask) { DistinctFront(before + Map(f, s[..i + 1]), Map(f, s[i + 1..])); }
  }

  lemma MapSnoc<T>(f: T -> Placed, s: seq<T>, i: nat)
    requires i < |s|
    ensures Map(f, s[..i + 1]) == Map(f, s[..i]) + [f(s[i])]
  {
  }

  lemma TwiceTaken<T>(f: T -> Placed, s: seq<T>, i: nat)
    requires i < |s| && !Distinct(Map(f, s[..i]) + [f(s[i])], PlacedTask)
    ensures !Distinct(Map(f, s), PlacedTask)
  {
    hide Map, Distinct;
    MapSnoc(f, s, i);
    MapRest(f, s, i + 1);
    if Distinct(Map(f, s), PlacedTask) { DistinctFront(Map(f, s[..i + 1]), Map(f, s[i + 1..])); }
  }

  method PlaceCohorts(tasks: map<string, Task>, cohorts: seq<Cohort>)
    returns (ok: bool, assignments: map<string, string>, used: set<string>)
    ensures ok <==> (forall c :: c in cohorts ==> CohortOk(tasks, c)) && Distinct(Map(CohortPlace, cohorts), PlacedTask)
    ensures ok ==> Assigns(assignments, used, Map(CohortPlace, cohorts))
  {
    hide Assigns, Distinct, CohortOk;
    assignments, used := map[], {};
    NothingAssigned();
    for i := 0 to |cohorts|
      invariant forall k :: 0 <= k < i ==> CohortOk(tasks, cohorts[k])
      invariant Assigns(assignments, used, Map(CohortPlace, cohorts[..i]))
    {
      var c := cohorts[i];
      MapSnoc(CohortPlace, cohorts, i);
      if !CohortOk(tasks, c) {
        assert c in cohorts;
        return false, assignments, used;
      }
      AssignMore(assignments, used, Map(CohortPlace, cohorts[..i]), CohortPlace(c));
      if c.task in assignments {
        TwiceTaken(CohortPlace, cohorts, i);
        return false, assignments, used;
      }
      assignments, used := assignments[c.task := First(c.workers)], used + {First(c.workers)};
    }
    assert cohorts[..|cohorts|] == cohorts;
    AssignsDistinct(assignments, used, Map(CohortPlace, cohorts));
    ok := true;
  }

  lemma AssignsDistinct(assignments: map<string, string>, used: set<string>, places: seq<Placed>)
    requires Assigns(assignments, used, places)
    ensures Distinct(places, PlacedTask) && assignments.Keys == KeySet(places, PlacedTask)
  {
  }

  /** One reduction of the plan. */
  method PlaceReduction(hash: Membership, tasks: map<string, Task>, rows: map<string, MatrixEntry>, r: Reduction,
                        before: map<string, string>, usedBefore: set<string>, ghost places: seq<Placed>)
    returns (ok: bool, assignments: map<string, string>, used: set<string>)
    requires Assigns(before, usedBefore, places)
    ensures ok <==> ReductionOk(hash, tasks, rows, r) && Distinct(places + Map(ChunkPlace, r.chunks), PlacedTask)
    ensures ok ==> Assigns(assignments, used, places + Map(ChunkPlace, r.chunks))
  {
    hide Assigns, Distinct, SortInts, ChunkOk;
    assignments, used := before, usedBefore;
    var required: seq<int>, members: seq<(int, string)> := [], [];
    assert places + [] == places;
    for i := 0 to |r.chunks|
      invariant forall k :: 0 <= k < i ==> ChunkOk(tasks, rows, r, r.chunks[k])
      invariant Assigns(assignments, used, places + Map(ChunkPlace, r.chunks[..i]))
      invariant required == Map(ChunkIndex, r.chunks[..i]) && members == Map(Member, r.chunks[..i])
    {
      var c := r.chunks[i];
      PlaceSnoc(ChunkPlace, r.chunks, i, places);
      assert r.chunks[..i + 1] == r.chunks[..i] + [c];
      if !ChunkOk(tasks, rows, r, c) {
        assert c in r.chunks;
        return false, assignments, used;
      }
      AssignMore(assignments, used, places + Map(ChunkPlace, r.chunks[..i]), ChunkPlace(c));
      if First(c.members) in assignments {
        TakenTwice(ChunkPlace, r.chunks, i, places);
        return false, assignments, used;
      }
      assignments, used := assignments[First(c.members) := c.worker], used + {c.worker};
      required, members := required + [c.index], members + [(c.index, First(c.members))];
    }
    assert r.chunks[..|r.chunks|] == r.chunks;
    AssignsDistinct(assignments, used, places + Map(ChunkPlace, r.chunks));
    SortIntsExact(required, r.required);
    ok := SortInts(required) == r.required && hash(r.reducer, members) == r.membershipSha256;
  }

  // ----- the whole assignment -----

  lemma PlacesSnoc(start: seq<Placed>, reductions: seq<Reduction>, i: nat)
    requires i < |reductions|
    ensures start + ReductionPlaces(reductions[..i + 1]) == start + ReductionPlaces(reductions[..i]) +
      Map(ChunkPlace, reductions[i].chunks)
  {
    assert reductions[..i + 1][..i] == reductions[..i];
  }

  lemma {:induction false} PlacesPrefix(reductions: seq<Reduction>, n: nat) returns (rest: seq<Placed>)
    requires n <= |reductions|
    ensures ReductionPlaces(reductions) == ReductionPlaces(reductions[..n]) + rest
  {
    if n == |reductions| {
      rest := [];
      assert reductions[..n] == reductions;
    } else {
      var front := reductions[..|reductions| - 1];
      var more := PlacesPrefix(front, n);
      assert front[..n] == reductions[..n];
      rest := more + Map(ChunkPlace, reductions[|reductions| - 1].chunks);
    }
  }

  lemma Associate(a: seq<Placed>, b: seq<Placed>, c: seq<Placed>)
    ensures a + (b + c) == a + b + c
  {
  }

  lemma ReductionClash(start: seq<Placed>, reductions: seq<Reduction>, i: nat)
    requires i < |reductions|
    requires !Distinct(start + ReductionPlaces(reductions[..i]) + Map(ChunkPlace, reductions[i].chunks), PlacedTask)
    ensures !Distinct(start + ReductionPlaces(reductions), PlacedTask)
  {
    hide Distinct, ReductionPlaces, Map;
    PlacesSnoc(start, reductions, i);
    var rest := PlacesPrefix(reductions, i + 1);
    Associate(start, ReductionPlaces(reductions[..i + 1]), rest);
    if Distinct(start + ReductionPlaces(reductions), PlacedTask) {
      DistinctFront(start + ReductionPlaces(reductions[..i + 1]), rest);
    }
  }

  method PlaceReductions(hash: Membership, tasks: map<string, Task>, rows: map<string, MatrixEntry>,
                         reductions: seq<Reduction>, before: map<string, string>, usedBefore: set<string>,
                         ghost start: seq<Placed>)
    returns (ok: bool, assignments: map<string, string>, used: set<string>)
    requires Assigns(before, usedBefore, start)
    ensures ok <==>
      (forall r :: r in reductions ==> ReductionOk(hash, tasks, rows, r)) &&
      Distinct(start + ReductionPlaces(reductions), PlacedTask)
    ensures ok ==> Assigns(assignments, used, start + ReductionPlaces(reductions))
  {
    hide Assigns, Distinct, ReductionOk;
    assignments, used := before, usedBefore;
    assert start + ReductionPlaces([]) == start;
    for i := 0 to |reductions|
      invariant forall k :: 0 <= k < i ==> ReductionOk(hash, tasks, rows, reductions[k])
      invariant Assigns(assignments, used, start + ReductionPlaces(reductions[..i]))
    {
      PlacesSnoc(start, reductions, i);
      ok, assignments, used :=
        PlaceReduction(hash, tasks, rows, reductions[i], assignments, used, start + ReductionPlaces(reductions[..i]));
      if !ok {
        assert reductions[i] in reductions;
        if ReductionOk(hash, tasks, rows, reductions[i]) { ReductionClash(start, reductions, i); }
        return;
      }
    }
    assert reductions[..|reductions|] == reductions;
    AssignsDistinct(assignments, used, start + ReductionPlaces(reductions));
    ok := true;
  }

  /** mixedAssignments: it succeeds exactly on fitting plans, and then assigns exactly their places. */
  method MixedAssignments(hash: Membership, p: Pipeline, plan: Plan)
    returns (ok: bool, assignments: map<string, string>, used: set<string>)
    ensures ok <==> PlanFits(hash, p, plan)
    ensures ok ==> Assigns(assignments, used, Places(plan))
  {
    hide Assigns, Distinct, CohortOk, ReductionOk, IndexBy;
    var tasks := Index(p.tasks, TaskId);
    var rows := Index(p.matrix, RowTask);
    ok, assignments, used := PlaceCohorts(tasks, plan.cohorts);
    if !ok {
      CohortClash(plan);
      return;
    }
    ok, assignments, used :=
      PlaceReductions(hash, tasks, rows, plan.reductions, assignments, used, Map(CohortPlace, plan.cohorts));
    if !ok { return; }
    AssignsDistinct(assignments, used, Places(plan));
    for i := 0 to |p.tasks|
      invariant forall k :: 0 <= k < i && MustBePlaced(p.tasks[k]) ==> p.tasks[k].id in assignments
    {
      if MustBePlaced(p.tasks[i]) && p.tasks[i].id !in assignments {
        assert p.tasks[i] in p.tasks;
        return false, assignments, used;
      }
    }
    ok := true;
  }

  lemma CohortClash(plan: Plan)
    ensures Distinct(Places(plan), PlacedTask) ==> Distinct(Map(CohortPlace, plan.cohorts), PlacedTask)
  {
    hide Distinct;
    if Distinct(Places(plan), PlacedTask) {
      DistinctFront(Map(CohortPlace, plan.cohorts), ReductionPlaces(plan.reductions));
    }
  }

  // ----- placement is total and single -----

  /** The task is placed on this worker by a cohort of the plan. */
  ghost predicate ByCohort(plan: Plan, t: Task, worker: string) {
    exists c :: c in plan.cohorts && c.task == t.id && c.workers == [worker]
  }

  /** The shard is placed on this worker under its own reducer, at its own index and under its manifest. */
  ghost predicate ByReduction(plan: Plan, t: Task, row: MatrixEntry, worker: string) {
    exists r, c ::
      r in plan.reductions && c in r.chunks && c.members == [t.id] && c.worker == worker && r.reducer == t.reducer &&
      row.chunk.Some? && c.index == row.chunk.value.index && r.manifestSha256 == row.chunk.value.manifestSha256
  }

  lemma {:induction false} PlaceCameFrom(reductions: seq<Reduction>, a: Placed) returns (r: Reduction, c: ChunkPlan)
    requires a in ReductionPlaces(reductions)
    ensures r in reductions && c in r.chunks && ChunkPlace(c) == a
  {
    var front, last := reductions[..|reductions| - 1], reductions[|reductions| - 1];
    if a in ReductionPlaces(front) {
      r, c := PlaceCameFrom(front, a);
    } else {
      var i :| 0 <= i < |last.chunks| && Map(ChunkPlace, last.chunks)[i] == a;
      r, c := last, last.chunks[i];
    }
  }

  /** Every task that must be placed has exactly one worker: a shard its own chunk's, any other task its
      cohort's. */
  lemma PlacementTotal(hash: Membership, p: Pipeline, plan: Plan, assignments: map<string, string>, used: set<string>,
                       t: Task)
    requires Distinct(p.tasks, TaskId) && PlanFits(hash, p, plan) && Assigns(assignments, used, Places(plan))
    requires t in p.tasks && MustBePlaced(t)
    ensures t.id in assignments && assignments[t.id] in used && !Blank(assignments[t.id])
    ensures if t.distribution == SHARDABLE
            then t.id in IndexBy(p.matrix, RowTask) &&
            ByReduction(plan, t, IndexBy(p.matrix, RowTask)[t.id], assignments[t.id])
            else ByCohort(plan, t, assignments[t.id])
    ensures forall a :: a in Places(plan) && a.task == t.id ==> a.worker == assignments[t.id]
  {
    hide Distinct, IndexBy, SortInts;
    ByIdExact(p.tasks);
    var places := Places(plan);
    var i :| 0 <= i < |places| && PlacedTask(places[i]) == t.id;
    var a := places[i];
    assert a in places && a.task == t.id && a.worker == assignments[t.id];
    ValueIn(assignments, t.id);
    if a in Map(CohortPlace, plan.cohorts) {
      FromCohort(hash, p, plan, t, a);
    } else {
      FromReduction(hash, p, plan, t, a);
    }
  }

  lemma ValueIn(m: map<string, string>, k: string)
    requires k in m
    ensures m[k] in m.Values
  {
  }

  lemma FromCohort(hash: Membership, p: Pipeline, plan: Plan, t: Task, a: Placed)
    requires PlanFits(hash, p, plan) && t.id in ById(p.tasks) && ById(p.tasks)[t.id] == t && a.task == t.id
    requires a in Map(CohortPlace, plan.cohorts)
    ensures t.distribution != SHARDABLE && ByCohort(plan, t, a.worker) && !Blank(a.worker)
  {
    hide Distinct, ById, ReductionOk;
    var i :| 0 <= i < |plan.cohorts| && Map(CohortPlace, plan.cohorts)[i] == a;
    var c := plan.cohorts[i];
    assert c in plan.cohorts && CohortOk(ById(p.tasks), c) && c.workers == [a.worker];
  }

  lemma FromReduction(hash: Membership, p: Pipeline, plan: Plan, t: Task, a: Placed)
    requires PlanFits(hash, p, plan) && t.id in ById(p.tasks) && ById(p.tasks)[t.id] == t && a.task == t.id
    requires a in ReductionPlaces(plan.reductions)
    ensures t.distribution == SHARDABLE && t.id in IndexBy(p.matrix, RowTask) && !Blank(a.worker)
    ensures ByReduction(plan, t, IndexBy(p.matrix, RowTask)[t.id], a.worker)
  {
    hide Distinct, ById, SortInts;
    var r, c := PlaceCameFrom(plan.reductions, a);
    assert ReductionOk(hash, ById(p.tasks), IndexBy(p.matrix, RowTask), r) &&
      ChunkOk(ById(p.tasks), IndexBy(p.matrix, RowTask), r, c);
    assert c.members == [t.id];
  }

  // ----- workers and nodes -----

  datatype Resolution = Resolution(worker: string, node: string, backend: string, os: string, arch: string,
                                   topologyClass: string, topologyDomain: string)

  function WorkerOf(r: Resolution): string { r.worker }
  function NodeOf(r: Resolution): string { r.node }

  /** The coverage check against the resolver: the workers used are exactly the workers resolved. */
  method CoverWorkers(used: set<string>, resolver: seq<Resolution>)
    returns (ok: bool, resolutions: map<string, Resolution>)
    ensures resolutions == IndexBy(resolver, WorkerOf)
    ensures ok <==> used == resolutions.Keys
  {
    resolutions := Index(resolver, WorkerOf);
    ok := |used| == |resolutions| && used <= resolutions.Keys;
    if ok { SameSize(used, resolutions.Keys); }
    assert used == resolutions.Keys ==> |used| == |resolutions|;
  }

  /** Distinct workers run on distinct nodes. */
  lemma NodesApart(resolver: seq<Resolution>, u: string, v: string)
    requires Distinct(resolver, WorkerOf) && Distinct(resolver, NodeOf) && u != v
    requires u in IndexBy(resolver, WorkerOf) && v in IndexBy(resolver, WorkerOf)
    ensures IndexBy(resolver, WorkerOf)[u].node != IndexBy(resolver, WorkerOf)[v].node
  {
    IndexExact(resolver, WorkerOf);
    var a, b := IndexBy(resolver, WorkerOf)[u], IndexBy(resolver, WorkerOf)[v];
    var i :| 0 <= i < |resolver| && resolver[i] == a;
    var j :| 0 <= j < |resolver| && resolver[j] == b;
    assert NodeOf(resolver[i]) != NodeOf(resolver[j]);
  }

  /** validateResolutionForTask. */
  predicate Suits(t: Task, row: MatrixEntry, r: Resolution) {
    r.worker != "" && r.backend == row.platform.backend && r.os == row.platform.os && r.arch == row.platform.arch &&
    (t.distribution == COUPLED && t.placement.Some? ==> r.topologyClass == t.placement.value.topologyKey)
  }

  // ----- LowerMixedDKS: where tasks run and where inputs come from -----

  /** The parts of the resolver's validation that placement relies on. */
  ghost predicate Resolved(resolver: seq<Resolution>) { Distinct(resolver, WorkerOf) && Distinct(resolver, NodeOf) }

  predicate CohortOnTopology(resolutions: map<string, Resolution>, c: Cohort) {
    First(c.workers) in resolutions && c.topologyClass != "" ==>
      resolutions[First(c.workers)].topologyClass == c.topologyClass &&
      resolutions[First(c.workers)].topologyDomain == c.topologyDomain
  }

  /** The worker's node suits the task in platform and topology. */
  ghost predicate RunsOn(p: Pipeline, resolutions: map<string, Resolution>, t: Task, worker: string) {
    worker in resolutions && t.id in IndexBy(p.matrix, RowTask) &&
    Suits(t, IndexBy(p.matrix, RowTask)[t.id], resolutions[worker])
  }

  ghost predicate WellPlaced(p: Pipeline, assignments: map<string, string>, resolutions: map<string, Resolution>,
                             t: Task) {
    t.id in assignments ==> RunsOn(p, resolutions, t, assignments[t.id])
  }

  /** The task is bound, and its binding gives a path to each of its artifacts and to nothing else. */
  ghost predicate Bindable(p: Pipeline, bindings: map<string, TaskBinding>, t: Task) {
    t.id in bindings && t.id in IndexBy(p.matrix, RowTask) &&
    BindsExactly(IndexBy(p.matrix, RowTask)[t.id], FactsOf(bindings[t.id]))
  }

  /** The task is bound, suits its lane, and its worker's node suits it. */
  ghost predicate TaskMixes(p: Pipeline, bindings: map<string, TaskBinding>, natives: map<string, NativeBinding>,
                            assignments: map<string, string>, resolutions: map<string, Resolution>, t: Task) {
    Bindable(p, bindings, t) && WellPlaced(p, assignments, resolutions, t) &&
    LaneFits(p, t, IndexBy(p.matrix, RowTask)[t.id], bindings[t.id], natives)
  }

  /** The runner specs of the tasks, as far as path claims look at them. */
  function BareSpecs(p: Pipeline, rows: map<string, MatrixEntry>, table: map<string, Facts>,
                     tasks: seq<Task>): seq<RunnerSpec> {
    Map(Bare, Specs(p, rows, table, tasks))
  }

  /** Claims compare what the code's identity strings compare. */
  lemma BareIsIdentity(a: RunnerArtifact, b: RunnerArtifact)
    requires ValidId(a.name) && ValidId(b.name)
    ensures Portable(BareArtifact(a)) == Portable(BareArtifact(b)) <==> Identity(Portable(a)) == Identity(Portable(b))
  {
    IdentityInjective(Portable(a), Portable(b));
  }

  lemma BareSnoc(p: Pipeline, rows: map<string, MatrixEntry>, table: map<string, Facts>, front: seq<Task>, t: Task)
    ensures BareSpecs(p, rows, table, front + [t]) == BareSpecs(p, rows, table, front) +
      [Bare(SpecAt(p, rows, table, t))]
  {
    hide Bare, SpecAt;
    assert Specs(p, rows, table, front + [t]) == Specs(p, rows, table, front) + [SpecAt(p, rows, table, t)];
    MapConcat(Bare, Specs(p, rows, table, front), [SpecAt(p, rows, table, t)]);
  }

  /** The loop over the sorted tasks, but for the wiring. */
  method CheckTasks(e: Encoders, p: Pipeline, tasks: seq<Task>, rows: map<string, MatrixEntry>,
                    bindings: map<string, TaskBinding>, natives: map<string, NativeBinding>,
                    assignments: map<string, string>, resolutions: map<string, Resolution>, mount: string,
                    ghost table: map<string, Facts>)
    returns (ok: bool, ordered: seq<MatrixEntry>, specs: seq<RunnerSpec>, templates: seq<MixedTemplate>)
    requires rows == IndexBy(p.matrix, RowTask) && forall t :: t in tasks ==> t.id in rows && NamedOnce(rows[t.id])
    requires forall id :: id in assignments ==> assignments[id] in resolutions
    requires forall id :: id in bindings ==> id in table && table[id] == FactsOf(bindings[id])
    ensures ok <==> forall t :: t in tasks ==> TaskMixes(p, bindings, natives, assignments, resolutions, t)
    ensures ok ==> |ordered| == |tasks| && forall i :: 0 <= i < |tasks| ==>
      ordered[i] == rows[tasks[i].id] && NotInPlace(ordered[i])
    ensures ok ==> specs == BareSpecs(p, rows, table, tasks)
    ensures ok ==> templates == Flat(SiteOf(e, p, mount, rows, table, natives, assignments, resolutions), tasks)
  {
    hide NotInPlace, Suits, NamedOnce, BindsExactly, IndexBy, FactsOf, SpecOf, LaneFits, Bare, BareSpecs, Own, Flat,
         TaskTemplates, UrlTable, UrlsFor;
    ordered, specs, templates := [], [], [];
    ghost var site := SiteOf(e, p, mount, rows, table, natives, assignments, resolutions);
    NoTemplates(site);
    NoSpecs(p, rows, table);
    for i := 0 to |tasks|
      invariant |ordered| == i && forall k :: 0 <= k < i ==> ordered[k] == rows[tasks[k].id] && NotInPlace(ordered[k])
      invariant forall k :: 0 <= k < i ==> TaskMixes(p, bindings, natives, assignments, resolutions, tasks[k])
      invariant specs == BareSpecs(p, rows, table, tasks[..i])
      invariant templates == Flat(site, tasks[..i])
    {
      var task := tasks[i];
      assert task in tasks;
      if task.id !in bindings { return false, ordered, specs, templates; }
      var spec;
      ok, spec := SpecForTask(p, task, rows[task.id], bindings[task.id]);
      if !ok { return; }
      ApartByBinding(rows[task.id], FactsOf(bindings[task.id]));
      if task.id in assignments && !Suits(task, rows[task.id], resolutions[assignments[task.id]]) {
        return false, ordered, specs, templates;
      }
      ok := CheckLane(e, p, task, rows[task.id], bindings[task.id], natives, spec);
      if !ok { return; }
      assert tasks[..i + 1] == tasks[..i] + [task];
      BareSnoc(p, rows, table, tasks[..i], task);
      FlatSnoc(site, tasks[..i], task);
      var node := if task.id in assignments then Some(resolutions[assignments[task.id]].node) else None;
      OwnHere(site, task, node);
      var urls := UrlsFor(UrlTable(natives), task);
      templates := templates +
        TaskTemplates(e, mount, task, rows[task.id], urls, spec, FactsOf(bindings[task.id]), node);
      ordered, specs := ordered + [rows[task.id]], specs + [Bare(spec)];
    }
    assert tasks[..|tasks|] == tasks;
    ok := true;
  }

  /** The node of each placed task. */
  function Nodes(assignments: map<string, string>, resolutions: map<string, Resolution>): map<string, string> {
    map id | id in assignments && assignments[id] in resolutions :: resolutions[assignments[id]].node
  }

  /** The input URLs of each native task. */
  function UrlTable(natives: map<string, NativeBinding>): map<string, map<string, string>> {
    map id | id in natives :: UrlsOf(natives[id])
  }

  function SiteOf(e: Encoders, p: Pipeline, mount: string, rows: map<string, MatrixEntry>, table: map<string, Facts>,
                  natives: map<string, NativeBinding>, assignments: map<string, string>,
                  resolutions: map<string, Resolution>): Site {
    Site(e, p, mount, rows, table, Nodes(assignments, resolutions), UrlTable(natives))
  }

  lemma NoTemplates(g: Site)
    ensures Flat(g, []) == []
  {
  }

  lemma OwnHere(g: Site, t: Task, node: Option<string>)
    requires t.id in g.rows && t.id in g.table && node == NodeFor(g.nodes, t)
    ensures Own(g, t) ==
            TaskTemplates(g.e, g.mount, t, g.rows[t.id], UrlsFor(g.urls, t),
                          SpecOf(g.p, t, g.rows[t.id], g.table[t.id]),
                          g.table[t.id], node)
  {
  }

  lemma NoSpecs(p: Pipeline, rows: map<string, MatrixEntry>, table: map<string, Facts>)
    ensures BareSpecs(p, rows, table, []) == []
  {
  }

  lemma ApartByBinding(row: MatrixEntry, f: Facts)
    requires BindsExactly(row, f)
    ensures NotInPlace(row)
  {
  }

  /** What a mixed lowering has decided, and the workflow it emits: an entry template with the dag and its
      arguments, and the templates its tasks name. */
  datatype Decision = Decision(
    wiring: seq<Wired>, assignments: map<string, string>, resolutions: map<string, Resolution>,
    ordered: seq<MatrixEntry>,
    dag: seq<DagTask>, templates: seq<MixedTemplate>)

  ghost predicate PlacedSoundly(hash: Membership, p: Pipeline, plan: Plan, resolver: seq<Resolution>,
                                assignments: map<string, string>, resolutions: map<string, Resolution>) {
    PlanFits(hash, p, plan) && Assigns(assignments, assignments.Values, Places(plan)) &&
    resolutions == IndexBy(resolver, WorkerOf) &&
    assignments.Values == resolutions.Keys && forall c :: c in plan.cohorts ==> CohortOnTopology(resolutions, c)
  }

  function PlacedWorker(a: Placed): string { a.worker }

  /** The plan fits the pipeline, names exactly the resolved workers, and keeps cohorts on their topology. */
  ghost predicate Placeable(hash: Membership, p: Pipeline, plan: Plan, resolver: seq<Resolution>) {
    PlanFits(hash, p, plan) && KeySet(Places(plan), PlacedWorker) == IndexBy(resolver, WorkerOf).Keys &&
    forall c :: c in plan.cohorts ==> CohortOnTopology(IndexBy(resolver, WorkerOf), c)
  }

  lemma UsedWorkers(assignments: map<string, string>, used: set<string>, places: seq<Placed>)
    requires Assigns(assignments, used, places)
    ensures used == KeySet(places, PlacedWorker)
  {
    forall w | w in used ensures w in KeySet(places, PlacedWorker) {
      var k :| k in assignments && assignments[k] == w;
      assert k in KeySet(places, PlacedTask);
      var a := KeyFrom(places, k, PlacedTask);
      KeyIn(places, a, PlacedWorker);
    }
    forall w | w in KeySet(places, PlacedWorker) ensures w in used {
      var a := KeyFrom(places, w, PlacedWorker);
      assert a.task in assignments && assignments[a.task] == w;
    }
  }

  /** The placement half. */
  method Place(hash: Membership, p: Pipeline, plan: Plan, resolver: seq<Resolution>)
    returns (ok: bool, assignments: map<string, string>, resolutions: map<string, Resolution>)
    ensures ok <==> Placeable(hash, p, plan, resolver)
    ensures ok ==> PlacedSoundly(hash, p, plan, resolver, assignments, resolutions)
    ensures ok ==> forall id :: id in assignments ==> assignments[id] in resolutions
  {
    hide PlanFits, Assigns, CohortOnTopology, IndexBy, Places;
    var used;
    resolutions := map[];
    ok, assignments, used := MixedAssignments(hash, p, plan);
    if !ok { return; }
    UsedWorkers(assignments, used, Places(plan));
    ok, resolutions := CoverWorkers(used, resolver);
    if !ok { return; }
    UsedValues(assignments, used, Places(plan));
    ok := forall c :: c in plan.cohorts ==> CohortOnTopology(resolutions, c);
  }

  ghost predicate WiredSoundly(p: Pipeline, initial: seq<Initial>, wiring: seq<Wired>, ordered: seq<MatrixEntry>) {
    Ready(p.matrix) && Wirable(p.matrix, initial) && (forall row :: row in p.matrix <==> row in ordered) &&
    wiring == Wiring(ProducerMap(Outputs(p.matrix)), KeyMap(initial), ordered)
  }

  /** No path of the workflow means two things or lies within another. */
  ghost predicate PathsMix(p: Pipeline, table: map<string, Facts>) {
    var specs := BareSpecs(p, IndexBy(p.matrix, RowTask), table, SortBy(p.tasks, TaskId));
    Coexist(specs) && AliasFree(PathsOf(specs))
  }

  /** The tasks in the order of their ids: lanes, placement, claimed paths and wiring. */
  method WireTasks(e: Encoders, p: Pipeline, rows: map<string, MatrixEntry>, bindings: map<string, TaskBinding>,
                   natives: map<string, NativeBinding>, initial: seq<Initial>, assignments: map<string, string>,
                   resolutions: map<string, Resolution>, mount: string, ghost table: map<string, Facts>)
    returns (ok: bool, wiring: seq<Wired>, ordered: seq<MatrixEntry>, dag: seq<DagTask>, templates: seq<MixedTemplate>)
    requires ValidPipeline(p) && Distinct(p.matrix, RowTask) && rows == IndexBy(p.matrix, RowTask)
    requires forall id :: id in assignments ==> assignments[id] in resolutions
    requires forall id :: id in bindings ==> id in table && table[id] == FactsOf(bindings[id])
    ensures ok <==> (forall t :: t in p.tasks ==> TaskMixes(p, bindings, natives, assignments, resolutions, t)) &&
                    PathsMix(p, table) && Wirable(p.matrix, initial)
    ensures ok ==> WiredSoundly(p, initial, wiring, ordered)
    ensures ok ==> dag == Map(DagTaskOf, CanonicalForm(p).tasks)
    ensures ok ==>
      templates == Flat(SiteOf(e, p, mount, rows, table, natives, assignments, resolutions), SortBy(p.tasks, TaskId))
  {
    PipelineFacts(p);
    hide ValidPipeline, Ready, Wirable, WellPlaced, SortBy, IndexBy, NamedOnce, Distinct, Wiring, NotInPlace,
         ProducerMap, KeyMap, Outputs, CanonicalForm, RowFor, CanonicalRow, CanonicalTask, AllHaveOrigin, WiredSoundly,
         Rows, TaskMixes, Coexist, AliasFree, BareSpecs, FactsOf, Flat, Nodes;
    wiring, dag := [], [];
    var tasks := SortBy(p.tasks, TaskId);
    PermutationMembers(tasks, p.tasks);
    RowsReady(p, tasks, rows);
    CanonicalTasks(p);
    dag := Map(DagTaskOf, Map(CanonicalTask, tasks));
    var specs;
    ok, ordered, specs, templates :=
      CheckTasks(e, p, tasks, rows, bindings, natives, assignments, resolutions, mount, table);
    if !ok { return; }
    ok := ClaimAll(specs);
    if !ok { return; }
    SameRowsOrdered(p, tasks, ordered);
    AllReady(p, tasks, ordered);
    ok, wiring := Wire(p.matrix, ordered, initial);
    if ok { WiredUp(p, initial, wiring, ordered); }
  }

  lemma WiredUp(p: Pipeline, initial: seq<Initial>, wiring: seq<Wired>, ordered: seq<MatrixEntry>)
    requires Ready(p.matrix) && Wirable(p.matrix, initial) && (forall row :: row in p.matrix <==> row in ordered)
    requires wiring == Wiring(ProducerMap(Outputs(p.matrix)), KeyMap(initial), ordered)
    ensures WiredSoundly(p, initial, wiring, ordered)
  {
  }

  /** The emitted dag is that of the canonical pipeline, followed by the templates of its tasks in order. */
  ghost predicate EmittedSoundly(e: Encoders, p: Pipeline, binding: Binding, native: seq<NativeBinding>, d: Decision) {
    d.dag == Map(DagTaskOf, CanonicalForm(p).tasks) &&
    d.templates == Flat(EmittedSite(e, p, binding, native, d), SortBy(p.tasks, TaskId))
  }

  ghost function EmittedSite(e: Encoders, p: Pipeline, binding: Binding, native: seq<NativeBinding>,
                             d: Decision): Site {
    SiteOf(e, p, binding.workspace.mountPath, IndexBy(p.matrix, RowTask), Table(binding), IndexBy(native, NativeTask),
           d.assignments, d.resolutions)
  }

  /** A sound decision: wired as an exact cover, placed as planned, on nodes that suit each task, and run by
      exactly the resolved workers. */
  ghost predicate Sound(hash: Membership, p: Pipeline, plan: Plan, initial: seq<Initial>, resolver: seq<Resolution>,
                        d: Decision) {
    WiredSoundly(p, initial, d.wiring, d.ordered) &&
    PlacedSoundly(hash, p, plan, resolver, d.assignments, d.resolutions) &&
    forall t :: t in p.tasks ==> WellPlaced(p, d.assignments, d.resolutions, t)
  }

  /** Every planned worker's node suits the task planned on it. */
  ghost predicate PlanSuits(p: Pipeline, plan: Plan, resolver: seq<Resolution>) {
    forall t, a :: t in p.tasks && a in Places(plan) && a.task == t.id ==>
      RunsOn(p, IndexBy(resolver, WorkerOf), t, a.worker)
  }

  /** The task is bound and suits its lane. */
  ghost predicate Hosted(p: Pipeline, bindings: map<string, TaskBinding>, natives: map<string, NativeBinding>,
                         t: Task) {
    Bindable(p, bindings, t) && LaneFits(p, t, IndexBy(p.matrix, RowTask)[t.id], bindings[t.id], natives)
  }

  /** All that acceptance depends on: every conjunct speaks of the arguments alone. */
  ghost predicate MixedLowerable(hash: Membership, p: Pipeline, plan: Plan, binding: Binding,
                                 native: seq<NativeBinding>, initial: seq<Initial>, resolver: seq<Resolution>) {
    |p.pipeline| <= 40 && KubeName(p.pipeline) && plan.schema == PLACEMENT_PLAN && plan.pipeline == p.pipeline &&
    Distinct(p.matrix, RowTask) && |IndexBy(binding.tasks, BindingId)| == |p.tasks| &&
    Placeable(hash, p, plan, resolver) && PlanSuits(p, plan, resolver) &&
    (forall t :: t in p.tasks ==> Hosted(p, IndexBy(binding.tasks, BindingId), IndexBy(native, NativeTask), t)) &&
    PathsMix(p, Table(binding)) && Wirable(p.matrix, initial) &&
    NativesBelong(ById(p.tasks), IndexBy(native, NativeTask))
  }

  lemma SuitsIffPlaced(p: Pipeline, plan: Plan, resolver: seq<Resolution>, assignments: map<string, string>,
                       used: set<string>)
    requires Assigns(assignments, used, Places(plan))
    ensures PlanSuits(p, plan, resolver) <==> forall t :: t in p.tasks ==>
      WellPlaced(p, assignments, IndexBy(resolver, WorkerOf), t)
  {
    hide RunsOn, Places, IndexBy;
    if PlanSuits(p, plan, resolver) {
      forall t | t in p.tasks ensures WellPlaced(p, assignments, IndexBy(resolver, WorkerOf), t) {
        if t.id in assignments {
          var a := KeyFrom(Places(plan), t.id, PlacedTask);
        }
      }
    }
  }

  /** LowerMixedDKS: whether it accepts, where tasks run and where their inputs come from. */
  method LowerMixed(e: Encoders, hash: Membership, p: Pipeline, plan: Plan, binding: Binding,
                    native: seq<NativeBinding>, initial: seq<Initial>, resolver: seq<Resolution>)
    returns (d: Option<Decision>)
    requires ValidPipeline(p) && p.schema == PIPELINE_V2 && Resolved(resolver) && Distinct(initial, InitialId)
    ensures d.Some? <==> MixedLowerable(hash, p, plan, binding, native, initial, resolver)
    ensures d.Some? ==>
      Sound(hash, p, plan, initial, resolver, d.value) && EmittedSoundly(e, p, binding, native, d.value)
  {
    hide ValidPipeline, Ready, Wirable, PlanFits, Assigns, CohortOnTopology, WellPlaced, IndexBy, Distinct, Places,
         Wiring, Bindable, PlanSuits, Placeable, LaneFits, PathsMix, FactsOf, Flat, Nodes, CanonicalForm, SortBy, Table;
    if |p.pipeline| > 40 || !KubeName(p.pipeline) { return None; }
    if plan.schema != PLACEMENT_PLAN || plan.pipeline != p.pipeline { return None; }
    var ok, rows := RowsByTask(p.matrix);
    if !ok { return None; }
    var bindings := Index(binding.tasks, BindingId);
    if |bindings| != |p.tasks| { return None; }
    var natives := Index(native, NativeTask);
    var assignments, resolutions;
    ok, assignments, resolutions := Place(hash, p, plan, resolver);
    if !ok { return None; }
    SuitsIffPlaced(p, plan, resolver, assignments, assignments.Values);
    TableOf(binding);
    var wiring, ordered, dag, templates;
    ok, wiring, ordered, dag, templates :=
      WireTasks(e, p, rows, bindings, natives, initial, assignments, resolutions, binding.workspace.mountPath,
                Table(binding));
    if !ok { return None; }
    var tasks := Index(p.tasks, TaskId);
    if !NativesBelong(tasks, natives) { return None; }
    d := Some(Decision(wiring, assignments, resolutions, ordered, dag, templates));
  }

  lemma TableOf(b: Binding)
    ensures var bindings := IndexBy(b.tasks, BindingId);
            forall id :: id in bindings ==> id in Table(b) && Table(b)[id] == FactsOf(bindings[id])
  {
    hide IndexBy, FactsOf;
  }

  lemma UsedValues(assignments: map<string, string>, used: set<string>, places: seq<Placed>)
    requires Assigns(assignments, used, places)
    ensures used == assignments.Values && forall id :: id in assignments ==> assignments[id] in used
  {
  }

  lemma SameRowsOrdered(p: Pipeline, tasks: seq<Task>, ordered: seq<MatrixEntry>)
    requires ValidPipeline(p) && Distinct(p.matrix, RowTask) && (forall t :: t in tasks <==> t in p.tasks)
    requires |ordered| == |tasks|
    requires forall t :: t in tasks ==> t.id in IndexBy(p.matrix, RowTask)
    requires forall i :: 0 <= i < |tasks| ==> ordered[i] == IndexBy(p.matrix, RowTask)[tasks[i].id]
    ensures forall row :: row in p.matrix <==> row in ordered
  {
    forall row | row in p.matrix ensures row in ordered { RowIsOrdered(p, tasks, ordered, row); }
    IndexExact(p.matrix, RowTask);
    hide ValidPipeline, IndexBy, Distinct, KeySet;
    forall row | row in ordered ensures row in p.matrix {
      var i :| 0 <= i < |ordered| && ordered[i] == row;
      assert tasks[i] in tasks;
    }
  }

  lemma RowIsOrdered(p: Pipeline, tasks: seq<Task>, ordered: seq<MatrixEntry>, row: MatrixEntry)
    requires ValidPipeline(p) && Distinct(p.matrix, RowTask) && (forall t :: t in tasks <==> t in p.tasks)
    requires |ordered| == |tasks|
    requires forall t :: t in tasks ==> t.id in IndexBy(p.matrix, RowTask)
    requires forall i :: 0 <= i < |tasks| ==> ordered[i] == IndexBy(p.matrix, RowTask)[tasks[i].id]
    requires row in p.matrix
    ensures row in ordered
  {
    RowsHaveTasks(p);
    IndexExact(p.matrix, RowTask);
    hide ValidPipeline, IndexBy, Distinct, KeySet;
    var t :| t in p.tasks && t.id == row.task;
    var i :| 0 <= i < |tasks| && tasks[i] == t;
    assert RowTask(row) == t.id && ordered[i] == row;
  }

  lemma RowsHaveTasks(p: Pipeline)
    requires ValidPipeline(p)
    ensures forall row :: row in p.matrix ==> exists t :: t in p.tasks && t.id == row.task
    ensures forall row, a :: row in p.matrix && (a in row.inputs || a in row.outputs) ==> ValidId(a.name)
  {
    ByIdExact(p.tasks);
    forall row | row in p.matrix ensures exists t :: t in p.tasks && t.id == row.task {
      assert RowOk(p.schema, ById(p.tasks), row);
      assert ById(p.tasks)[row.task] in p.tasks;
    }
    forall row, a | row in p.matrix && (a in row.inputs || a in row.outputs) ensures ValidId(a.name) {
      assert RowOk(p.schema, ById(p.tasks), row);
      assert ValidArtifact(a, p.schema);
    }
  }

  lemma AllReady(p: Pipeline, tasks: seq<Task>, ordered: seq<MatrixEntry>)
    requires ValidPipeline(p) && Distinct(p.matrix, RowTask) && (forall row :: row in p.matrix <==> row in ordered)
    requires forall i :: 0 <= i < |ordered| ==> NotInPlace(ordered[i])
    ensures Ready(p.matrix)
  {
    hide NotInPlace;
    RowsHaveTasks(p);
    forall row | row in p.matrix ensures NotInPlace(row) {
      var i :| 0 <= i < |ordered| && ordered[i] == row;
    }
  }
}
