/** The dependency-cycle check: a depth-first search with three colours. */
module Acyclic {

  type Graph<K> = map<K, seq<K>>

  ghost predicate NeedsKnown<K(!new)>(needs: Graph<K>) {
    forall id, need :: id in needs && need in needs[id] ==> need in needs
  }

  /** A walk along needs: each element is needed by the one before it. */
  ghost predicate Walk<K(!new)>(needs: Graph<K>, p: seq<K>) {
    |p| > 0 && (forall i :: 0 <= i < |p| ==> p[i] in needs) &&
    forall i, j :: 0 <= i && j == i + 1 < |p| ==> p[j] in needs[p[i]]
  }

  ghost predicate WalkFromTo<K(!new)>(needs: Graph<K>, p: seq<K>, from: K, to: K) {
    |p| >= 2 && Walk(needs, p) && p[0] == from && p[|p| - 1] == to
  }

  ghost predicate Reaches<K(!new)>(needs: Graph<K>, from: K, to: K) {
    exists p :: WalkFromTo(needs, p, from, to)
  }

  ghost predicate Cyclic<K(!new)>(needs: Graph<K>) {
    exists id :: Reaches(needs, id, id)
  }

  /** Every task comes after all its needs, and none comes twice. */
  ghost predicate Topological<K(!new)>(needs: Graph<K>, order: seq<K>) {
    order == [] ||
    var front, last := order[..|order| - 1], order[|order| - 1];
    Topological(needs, front) && last in needs && last !in front && forall need :: need in needs[last] ==> need in front
  }

  lemma Step<K(!new)>(needs: Graph<K>, from: K, mid: K, to: K)
    requires NeedsKnown(needs) && mid in needs && to in needs[mid]
    requires from == mid || Reaches(needs, from, mid)
    ensures Reaches(needs, from, to)
  {
    if from == mid {
      assert WalkFromTo(needs, [mid, to], mid, to);
    } else {
      var p :| WalkFromTo(needs, p, from, mid);
      assert WalkFromTo(needs, p + [to], from, to);
    }
  }

  /** A walk that starts inside an order stays inside it. */
  lemma {:induction false} WalkStays<K(!new)>(needs: Graph<K>, order: seq<K>, p: seq<K>)
    requires Topological(needs, order) && Walk(needs, p) && p[0] in order
    ensures forall x :: x in p ==> x in order
    decreases |p|
  {
    if |p| > 1 {
      NeedsInside(needs, order, p[0]);
      assert p[1] in needs[p[0]];
      assert Walk(needs, p[1..]);
      WalkStays(needs, order, p[1..]);
      assert p == [p[0]] + p[1..];
    }
  }

  lemma {:induction false} NeedsInside<K(!new)>(needs: Graph<K>, order: seq<K>, id: K)
    requires Topological(needs, order) && id in order
    ensures id in needs && forall need :: need in needs[id] ==> need in order
  {
    var front, last := order[..|order| - 1], order[|order| - 1];
    assert order == front + [last];
    if id != last { NeedsInside(needs, front, id); }
  }

  /** Topologically ordered tasks lie on no cycle. */
  lemma {:induction false} OffCycle<K(!new)>(needs: Graph<K>, order: seq<K>, id: K)
    requires Topological(needs, order) && id in order
    ensures !Reaches(needs, id, id)
  {
    var front, last := order[..|order| - 1], order[|order| - 1];
    assert order == front + [last];
    if id in front {
      OffCycle(needs, front, id);
    } else if Reaches(needs, id, id) {
      var p :| WalkFromTo(needs, p, id, id);
      assert p[1] in needs[p[0]] && Walk(needs, p[1..]);
      assert p[1..][|p| - 2] == last;
      WalkStays(needs, front, p[1..]);
    }
  }

  datatype Color = Active | Finished

  function Colored<K>(state: map<K, Color>, color: Color): set<K> {
    set id | id in state && state[id] == color
  }

  datatype Top<K> = Root | At(id: K)

  ghost predicate LeadsTo<K(!new)>(needs: Graph<K>, id: K, top: Top<K>) {
    top.At? && (id == top.id || Reaches(needs, id, top.id))
  }

  /** Every active task leads to the one being visited; finished ones are topologically ordered. */
  ghost predicate Consistent<K(!new)>(needs: Graph<K>, state: map<K, Color>, top: Top<K>, order: seq<K>) {
    NeedsKnown(needs) && state.Keys <= needs.Keys &&
    (forall id :: id in Colored(state, Active) ==> LeadsTo(needs, id, top)) &&
    (forall id :: id in order <==> id in Colored(state, Finished)) &&
    Topological(needs, order)
  }

  lemma Recolor<K>(state: map<K, Color>, id: K, color: Color)
    ensures Colored(state[id := color], color) == Colored(state, color) + {id}
    ensures forall c :: c != color ==> Colored(state[id := color], c) == Colored(state, c) - {id}
    ensures state[id := color].Keys == state.Keys + {id}
  {
  }

  lemma EnterKeeps<K(!new)>(needs: Graph<K>, state: map<K, Color>, top: Top<K>, order: seq<K>, id: K)
    requires Consistent(needs, state, top, order) && id in needs && id !in state
    requires top.At? ==> top.id in needs && id in needs[top.id]
    ensures Consistent(needs, state[id := Active], At(id), order)
    ensures Colored(state[id := Active], Active) == Colored(state, Active) + {id}
    ensures Colored(state[id := Active], Finished) == Colored(state, Finished)
  {
    Recolor(state, id, Active);
    forall x | x in Colored(state, Active) ensures Reaches(needs, x, id) { Step(needs, x, top.id, id); }
  }

  lemma LeaveKeeps<K(!new)>(needs: Graph<K>, entry: map<K, Color>, before: seq<K>, state: map<K, Color>, top: Top<K>,
                            order: seq<K>, id: K)
    requires Consistent(needs, state, At(id), order) && id in Colored(state, Active)
    requires forall need :: need in needs[id] ==> need in Colored(state, Finished)
    requires Consistent(needs, entry, top, before) && id !in entry
    requires Colored(state, Active) == Colored(entry, Active) + {id}
    ensures Consistent(needs, state[id := Finished], top, order + [id])
    ensures Colored(state[id := Finished], Active) == Colored(entry, Active)
    ensures Colored(state[id := Finished], Finished) == Colored(state, Finished) + {id}
  {
    Recolor(state, id, Finished);
    var done := order + [id];
    assert done[..|done| - 1] == order;
    assert forall x :: x in done <==> x in order || x == id;
    assert id in needs;
  }

  /** The closure visit, with the colour map it updates passed in and out. An error means a cycle;
      success finishes id and everything it needs, and leaves the active tasks as they were. */
  method Visit<K(==,!new)>(needs: Graph<K>, id: K, state: map<K, Color>, ghost top: Top<K>, ghost order: seq<K>)
    returns (ok: bool, after: map<K, Color>, ghost finished: seq<K>)
    requires Consistent(needs, state, top, order) && id in needs
    requires top.At? ==> top.id in needs && id in needs[top.id]
    ensures !ok ==> Cyclic(needs)
    ensures ok ==> Consistent(needs, after, top, finished) && id in Colored(after, Finished)
    ensures ok ==> Colored(state, Finished) <= Colored(after, Finished)
    ensures ok ==> Colored(state, Active) == Colored(after, Active)
    ensures ok ==> state.Keys <= after.Keys
    decreases needs.Keys - state.Keys, 0
  {
    after, finished := state, order;
    if id in state {
      ok := state[id] == Finished;
      if !ok {
        assert id in Colored(state, Active);
        Step(needs, id, top.id, id);
      }
      return;
    }
    EnterKeeps(needs, state, top, order, id);
    ok, after, finished := VisitNeeds(needs, id, state[id := Active], order);
    if ok {
      LeaveKeeps(needs, state, order, after, top, finished, id);
      after, finished := after[id := Finished], finished + [id];
    }
  }

  /** The loop of visit over the needs of the task just entered. */
  method VisitNeeds<K(==,!new)>(needs: Graph<K>, id: K, state: map<K, Color>, ghost order: seq<K>)
    returns (ok: bool, after: map<K, Color>, ghost finished: seq<K>)
    requires Consistent(needs, state, At(id), order) && id in needs
    ensures !ok ==> Cyclic(needs)
    ensures ok ==> Consistent(needs, after, At(id), finished)
    ensures ok ==> forall need :: need in needs[id] ==> need in Colored(after, Finished)
    ensures ok ==> Colored(state, Finished) <= Colored(after, Finished)
    ensures ok ==> Colored(state, Active) == Colored(after, Active)
    ensures ok ==> state.Keys <= after.Keys
    decreases needs.Keys - state.Keys, 1
  {
    var todo := needs[id];
    after, finished := state, order;
    for i := 0 to |todo|
      invariant Consistent(needs, after, At(id), finished)
      invariant state.Keys <= after.Keys
      invariant Colored(state, Finished) <= Colored(after, Finished)
      invariant Colored(state, Active) == Colored(after, Active)
      invariant forall need :: need in todo[..i] ==> need in Colored(after, Finished)
    {
      assert needs.Keys - after.Keys <= needs.Keys - state.Keys;
      ok, after, finished := Visit(needs, todo[i], after, At(id), finished);
      if !ok { return; }
      assert todo[..i + 1] == todo[..i] + [todo[i]];
    }
    ok := true;
  }

  /** validateAcyclic: for every order in which the map may be ranged over, it accepts exactly the
      graphs in which no task reaches itself, and on acceptance its finishing order is a
      topological order of all tasks. */
  method ValidateAcyclic<K(==,!new)>(needs: Graph<K>) returns (ok: bool, ghost order: seq<K>)
    requires NeedsKnown(needs)
    ensures ok <==> !Cyclic(needs)
    ensures ok ==> Topological(needs, order) && forall id :: id in order <==> id in needs
  {
    var state: map<K, Color>;
    state, order, ok := map[], [], true;
    var rest := needs.Keys;
    while rest != {}
      invariant rest <= needs.Keys && Consistent(needs, state, Root, order)
      invariant needs.Keys - rest <= Colored(state, Finished)
      decreases |rest|
    {
      var id :| id in rest;
      ok, state, order := Visit(needs, id, state, Root, order);
      if !ok { return; }
      rest := rest - {id};
    }
    ok := true;
    forall id | Reaches(needs, id, id) ensures false {
      var p :| WalkFromTo(needs, p, id, id);
      OffCycle(needs, order, id);
    }
  }

  // ----- an acyclic graph can always be worked off -----

  lemma {:induction false} Repeats<K>(p: seq<K>, s: set<K>) returns (i: nat, j: nat)
    requires |p| > |s| && forall x :: x in p ==> x in s
    ensures i < j < |p| && p[i] == p[j]
    decreases |p|
  {
    var front, last := p[..|p| - 1], p[|p| - 1];
    if last in front {
      i :| 0 <= i < |front| && front[i] == last;
      j := |p| - 1;
    } else {
      forall x | x in front ensures x in s - {last} { assert x in p; }
      i, j := Repeats(front, s - {last});
    }
  }

  ghost predicate Stuck<K(!new)>(needs: Graph<K>, rest: set<K>, id: K)
    requires id in needs
  {
    exists need :: need in needs[id] && need in rest
  }

  lemma {:induction false} LongWalk<K(!new)>(needs: Graph<K>, rest: set<K>, start: K, n: nat) returns (p: seq<K>)
    requires rest <= needs.Keys && start in rest && forall id :: id in rest ==> Stuck(needs, rest, id)
    ensures |p| == n + 1 && Walk(needs, p) && forall x :: x in p ==> x in rest
  {
    if n == 0 {
      p := [start];
    } else {
      var q := LongWalk(needs, rest, start, n - 1);
      var last := q[|q| - 1];
      assert last in rest && Stuck(needs, rest, last);
      var need :| need in needs[last] && need in rest;
      p := q + [need];
    }
  }

  /** If every task of a nonempty set needs another of them, there is a cycle. */
  lemma StuckIsCyclic<K(!new)>(needs: Graph<K>, rest: set<K>, start: K)
    requires rest <= needs.Keys && start in rest && forall id :: id in rest ==> Stuck(needs, rest, id)
    ensures Cyclic(needs)
  {
    hide Stuck;
    var p := LongWalk(needs, rest, start, |rest|);
    var i, j := Repeats(p, rest);
    assert WalkFromTo(needs, p[i..j + 1], p[i], p[i]);
    assert Reaches(needs, p[i], p[i]);
  }

  /** Unless all is done, some task has all its needs done. */
  lemma ReadyTask<K(!new)>(needs: Graph<K>, done: set<K>) returns (id: K)
    requires NeedsKnown(needs) && !Cyclic(needs) && !(needs.Keys <= done)
    ensures id in needs && id !in done && forall need :: need in needs[id] ==> need in done
  {
    hide Cyclic;
    var rest := needs.Keys - done;
    var start :| start in needs.Keys && start !in done;
    if forall x :: x in rest ==> Stuck(needs, rest, x) { StuckIsCyclic(needs, rest, start); }
    id :| id in rest && !Stuck(needs, rest, id);
    forall need | need in needs[id] ensures need in done { assert need in needs; }
  }

  /** Tasks run one after another, none twice, each after all its needs. */
  ghost predicate Schedule<K(!new)>(needs: Graph<K>, s: seq<K>) {
    (forall i :: 0 <= i < |s| ==> s[i] in needs && s[i] !in s[..i]) &&
    forall i, need :: 0 <= i < |s| && need in needs[s[i]] ==> need in s[..i]
  }

  lemma ScheduleSnoc<K(!new)>(needs: Graph<K>, s: seq<K>, id: K)
    requires Schedule(needs, s) && id in needs && id !in s && forall need :: need in needs[id] ==> need in s
    ensures Schedule(needs, s + [id])
  {
    var t := s + [id];
    forall i | 0 <= i < |t|
      ensures t[i] in needs && t[i] !in t[..i] && forall need :: need in needs[t[i]] ==> need in t[..i]
    {
      if i < |s| { assert t[..i] == s[..i]; } else { assert t[..i] == s; }
    }
  }

  function Members<K>(s: seq<K>): set<K> { set x | x in s }

  lemma MembersSnoc<K>(s: seq<K>, id: K)
    ensures Members(s + [id]) == Members(s) + {id}
  {
  }

  /** Every partial schedule of an acyclic graph extends to one that runs every task. */
  lemma {:induction false} ScheduleExtends<K(!new)>(needs: Graph<K>, s: seq<K>) returns (full: seq<K>)
    requires NeedsKnown(needs) && !Cyclic(needs) && Schedule(needs, s)
    ensures s <= full && Schedule(needs, full) && forall id :: id in needs ==> id in full
    decreases needs.Keys - Members(s)
  {
    hide Schedule, Cyclic, NeedsKnown;
    if needs.Keys <= Members(s) {
      full := s;
    } else {
      var id := ReadyTask(needs, Members(s));
      ScheduleSnoc(needs, s, id);
      MembersSnoc(s, id);
      assert id in needs.Keys - Members(s) && id !in needs.Keys - Members(s + [id]);
      full := ScheduleExtends(needs, s + [id]);
    }
  }

  lemma ScheduleFront<K(!new)>(needs: Graph<K>, s: seq<K>, n: nat)
    requires Schedule(needs, s) && n <= |s|
    ensures Schedule(needs, s[..n])
  {
    assert forall i :: 0 <= i < n ==> s[..n][..i] == s[..i];
  }

  lemma {:induction false} ScheduleTopological<K(!new)>(needs: Graph<K>, s: seq<K>)
    requires Schedule(needs, s)
    ensures Topological(needs, s)
  {
    if s != [] {
      var n := |s| - 1;
      ScheduleFront(needs, s, n);
      ScheduleTopological(needs, s[..n]);
      assert s[n] in needs && s[n] !in s[..n];
    }
  }

  /** A task that a schedule runs has run after all it reaches. */
  lemma ReachedBefore<K(!new)>(needs: Graph<K>, s: seq<K>, i: nat, id: K)
    requires Schedule(needs, s) && i < |s| && Reaches(needs, s[i], id)
    ensures id in s[..i]
  {
    ScheduleFront(needs, s, i);
    ScheduleTopological(needs, s[..i]);
    var p :| WalkFromTo(needs, p, s[i], id);
    assert p[1] in needs[p[0]] && Walk(needs, p[1..]);
    WalkStays(needs, s[..i], p[1..]);
    assert p[1..][|p| - 2] == id;
  }

  /** A graph whose tasks can all be scheduled has no cycle. */
  lemma ScheduledIsAcyclic<K(!new)>(needs: Graph<K>, s: seq<K>)
    requires Schedule(needs, s) && forall id :: id in needs ==> id in s
    ensures !Cyclic(needs)
  {
    ScheduleTopological(needs, s);
    forall id | Reaches(needs, id, id) ensures false {
      var p :| WalkFromTo(needs, p, id, id);
      assert p[0] in needs;
      OffCycle(needs, s, id);
    }
  }

  function Keep<K>(s: seq<K>, kept: set<K>): seq<K> {
    if s == [] then []
    else Keep(s[..|s| - 1], kept) + if s[|s| - 1] in kept then [s[|s| - 1]] else []
  }

  /** What a schedule runs of a set that holds its own needs is a schedule. */
  lemma {:induction false} KeepSchedule<K(!new)>(needs: Graph<K>, s: seq<K>, kept: set<K>)
    requires Schedule(needs, s) && forall id, need :: id in kept && id in needs && need in needs[id] ==> need in kept
    ensures Schedule(needs, Keep(s, kept)) && forall id :: id in Keep(s, kept) <==> id in s && id in kept
  {
    if s != [] {
      var n := |s| - 1;
      ScheduleFront(needs, s, n);
      KeepSchedule(needs, s[..n], kept);
      assert s == s[..n] + [s[n]];
      if s[n] in kept {
        assert forall need :: need in needs[s[n]] ==> need in s[..n] && need in kept;
        ScheduleSnoc(needs, Keep(s[..n], kept), s[n]);
      } else {
        assert Keep(s, kept) == Keep(s[..n], kept);
      }
    }
  }

  /** A task can be run right after the tasks it reaches, and nothing else. */
  lemma JustBefore<K(!new)>(needs: Graph<K>, id: K) returns (s: seq<K>)
    requires NeedsKnown(needs) && !Cyclic(needs) && id in needs
    ensures Schedule(needs, s + [id]) && forall x :: x in s <==> Reaches(needs, id, x)
  {
    hide Schedule, Cyclic, Reaches;
    NothingScheduled(needs);
    var full := ScheduleExtends(needs, []);
    var kept := Reached(needs, id);
    forall x, need | x in kept && x in needs && need in needs[x] ensures need in kept { Step(needs, id, x, need); }
    KeepSchedule(needs, full, kept);
    s := Keep(full, kept);
    forall need | need in needs[id] ensures need in s { Step(needs, id, id, need); }
    assert id !in s by { NotItself(needs, id); }
    forall x | Reaches(needs, id, x) ensures x in kept { ReachesKnown(needs, id, x); }
    ScheduleSnoc(needs, s, id);
  }

  lemma NothingScheduled<K(!new)>(needs: Graph<K>)
    ensures Schedule(needs, [])
  {
  }

  ghost function Reached<K(!new)>(needs: Graph<K>, from: K): set<K> { set x | x in needs && Reaches(needs, from, x) }

  lemma NotItself<K(!new)>(needs: Graph<K>, id: K)
    requires !Cyclic(needs)
    ensures !Reaches(needs, id, id)
  {
  }

  lemma ReachesKnown<K(!new)>(needs: Graph<K>, from: K, to: K)
    requires Reaches(needs, from, to)
    ensures to in needs
  {
    var p :| WalkFromTo(needs, p, from, to);
    assert p[|p| - 1] in needs;
  }
}
