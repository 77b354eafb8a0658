/** How a mixed workflow runs, and when its names let it. */
module MixedWorkflows {
  import opened Order
  import opened Acyclic
  import opened Contract
  import opened Canonical
  import opened Argo
  import opened ArgoMeaning
  import opened MixedTemplates
  import opened MixedArgo

  // ----- how a mixed workflow runs -----

  /** The name is the name of exactly one template, at k, and not the entry's. */
  ghost predicate SoleAt(ts: seq<MixedTemplate>, name: string, k: nat) {
    name != ENTRY && k < |ts| && forall i :: 0 <= i < |ts| ==> (NameOf(ts[i]) == name <==> i == k)
  }

  ghost predicate Creates(ts: seq<MixedTemplate>, name: string) {
    exists k: nat :: SoleAt(ts, name, k) && ts[k].Create?
  }

  ghost predicate Collects(ts: seq<MixedTemplate>, name: string) {
    exists k: nat :: SoleAt(ts, name, k) && ts[k].Collect?
  }

  /** A container, or a wrapper both of whose steps resolve. */
  ghost predicate Launchable(ts: seq<MixedTemplate>, t: MixedTemplate) {
    t.Cluster? || (t.Wrapper? && Creates(ts, t.create) && Collects(ts, t.collect))
  }

  ghost predicate Launches(ts: seq<MixedTemplate>, name: string) {
    exists k: nat :: SoleAt(ts, name, k) && Launchable(ts, ts[k])
  }

  ghost predicate EntryFree(ts: seq<MixedTemplate>) { forall t :: t in ts ==> NameOf(t) != ENTRY }

  ghost predicate Declares(t: MixedTemplate, artifact: string) { exists a :: a in Declared(t) && a.name == artifact }

  /** The task's template declares this output artifact. */
  ghost predicate Publishes(ts: seq<MixedTemplate>, task: string, artifact: string) {
    exists k: nat :: SoleAt(ts, task, k) && Declares(ts[k], artifact)
  }

  /** An argument comes from the repository, or is an output artifact of a task that has run. */
  ghost predicate AtHand(ts: seq<MixedTemplate>, a: Argument, done: seq<string>) {
    a.origin.Produced? ==> a.origin.task in done && Publishes(ts, a.origin.task, a.input)
  }

  /** Every task of the run finds all its arguments when its turn comes. */
  ghost predicate Supplies(wiring: seq<Wired>, ts: seq<MixedTemplate>, s: seq<string>) {
    forall i, w, a :: 0 <= i < |s| && w in wiring && w.task == s[i] && a in w.arguments ==> AtHand(ts, a, s[..i])
  }

  /** The entry is unambiguous and every task of its dag launches; the tasks run in this order, each after
      its dependencies and with its arguments at hand. */
  ghost predicate MixedRuns(d: Decision, s: seq<string>) {
    EntryFree(d.templates) && Distinct(d.dag, DagName) && Schedule(DagNeeds(d.dag), s) &&
    (forall x :: x in d.dag ==> Launches(d.templates, x.template)) &&
    Supplies(d.wiring, d.templates, s)
  }

  // ----- names -----

  function OwnNames(t: Task): set<string> {
    {t.id} + if t.lane == NATIVE then {CreateName(t.id), CollectName(t.id)} else {}
  }

  /** No task takes the entry's name or a name derived from a native task's. */
  ghost predicate NamesClear(tasks: seq<Task>) {
    forall t, u :: t in tasks && u in tasks ==> Clear(t, u)
  }

  predicate Clear(t: Task, u: Task) {
    t.id != ENTRY && (t.lane == NATIVE ==> u.id != CreateName(t.id) && u.id != CollectName(t.id))
  }

  lemma Suffixes(a: string, b: string)
    ensures CreateName(a) != CollectName(b) && CreateName(a) != ENTRY && CollectName(a) != ENTRY
    ensures CreateName(a) != a && CollectName(a) != a
    ensures (CreateName(a) == CreateName(b) ==> a == b) && (CollectName(a) == CollectName(b) ==> a == b)
  {
    var c, d, e := CreateName(a), CollectName(b), CollectName(a);
    assert c[|c| - 1] == 'e' && d[|d| - 1] == 't' && e[|e| - 1] == 't' && c[|c| - 2] == 't' &&
      ENTRY[|ENTRY| - 2] == 'n' && ENTRY[|ENTRY| - 1] == 'e';
    assert c[..|a|] == a && CreateName(b)[..|b|] == b && e[..|a|] == a && d[..|b|] == b;
  }

  lemma NamesDisjoint(t: Task, u: Task)
    requires Clear(t, u) && Clear(u, t) && t.id != u.id
    ensures OwnNames(t) !! OwnNames(u) && ENTRY !in OwnNames(t)
  {
    hide CreateName, CollectName;
    Suffixes(t.id, u.id);
    Suffixes(u.id, t.id);
  }

  lemma OwnShape(g: Site, t: Task)
    ensures var own := Own(g, t);
            KeySet(own, NameOf) == OwnNames(t) && Distinct(own, NameOf) && own != [] && NameOf(own[0]) == t.id &&
            !own[0].Create? && !own[0].Collect?
    ensures t.lane == NATIVE ==>
            var own := Own(g, t);
            |own| == 3 && own[0] == Wrapper(t.id, CreateName(t.id), CollectName(t.id)) &&
            own[1].Create? && NameOf(own[1]) == CreateName(t.id) && own[2] == Collect(CollectName(t.id))
    ensures t.lane != NATIVE ==> Own(g, t)[0].Cluster?
  {
    hide CreateName, CollectName, JobVariables, Requests;
    Suffixes(t.id, t.id);
    var own := Own(g, t);
    if t.lane == NATIVE {
      assert own == [own[0]] + [own[1]] + [own[2]];
      KeySetSnoc([], own[0], NameOf);
      KeySetSnoc([own[0]], own[1], NameOf);
      KeySetSnoc([own[0]] + [own[1]], own[2], NameOf);
      assert [] + [own[0]] == [own[0]];
    } else {
      KeySetSnoc([], own[0], NameOf);
      assert own == [] + [own[0]];
    }
  }

  ghost predicate NamedBy(tasks: seq<Task>, n: string) { exists t :: t in tasks && n in OwnNames(t) }

  /** The templates' names are the tasks' own names, and distinct if none clash. */
  lemma {:induction false} FlatNames(g: Site, tasks: seq<Task>)
    ensures forall n :: n in KeySet(Flat(g, tasks), NameOf) <==> NamedBy(tasks, n)
    ensures Distinct(tasks, TaskId) && NamesClear(tasks) ==> Distinct(Flat(g, tasks), NameOf)
  {
    hide Own, OwnNames, Clear;
    if tasks != [] {
      var front, t := tasks[..|tasks| - 1], tasks[|tasks| - 1];
      assert tasks == front + [t];
      FlatNames(g, front);
      var flat, own := Flat(g, front), Own(g, t);
      OwnShape(g, t);
      KeySetConcat(flat, own, NameOf);
      NamedSnoc(front, t);
      if Distinct(tasks, TaskId) && NamesClear(tasks) {
        DistinctSnoc(front, t, TaskId);
        FrontClear(front, t);
        DistinctConcat(flat, own, NameOf);
      }
    }
  }

  lemma NamedSnoc(front: seq<Task>, t: Task)
    ensures forall n :: NamedBy(front + [t], n) <==> NamedBy(front, n) || n in OwnNames(t)
  {
    hide OwnNames;
    forall n ensures NamedBy(front + [t], n) <==> NamedBy(front, n) || n in OwnNames(t) {
      if NamedBy(front, n) {
        var u :| u in front && n in OwnNames(u);
        assert u in front + [t];
      }
      if n in OwnNames(t) { assert t in front + [t]; }
    }
  }

  lemma FrontClear(front: seq<Task>, t: Task)
    requires NamesClear(front + [t]) && t.id !in KeySet(front, TaskId)
    ensures NamesClear(front) && forall n :: NamedBy(front, n) ==> n !in OwnNames(t)
  {
    hide Clear, OwnNames, KeySet;
    var tasks := front + [t];
    assert t in tasks;
    forall n | NamedBy(front, n) ensures n !in OwnNames(t) {
      var u :| u in front && n in OwnNames(u);
      assert u in tasks && Clear(t, u) && Clear(u, t);
      KeyIn(front, u, TaskId);
      NamesDisjoint(t, u);
    }
  }

  lemma {:induction false} OwnInFlat(g: Site, tasks: seq<Task>, t: Task)
    requires t in tasks
    ensures var flat := Flat(g, tasks);
            forall x :: x in Own(g, t) ==> x in flat
  {
    hide Own;
    var front := tasks[..|tasks| - 1];
    if t in front { OwnInFlat(g, front, t); }
  }

  // ----- what launches -----

  lemma SoleInDistinct(ts: seq<MixedTemplate>, x: MixedTemplate) returns (k: nat)
    requires Distinct(ts, NameOf) && x in ts && NameOf(x) != ENTRY
    ensures SoleAt(ts, NameOf(x), k) && ts[k] == x
  {
    k :| 0 <= k < |ts| && ts[k] == x;
  }

  lemma TwiceIsNotSole(ts: seq<MixedTemplate>, x: MixedTemplate, y: MixedTemplate)
    requires x in ts && y in ts && x != y && NameOf(x) == NameOf(y)
    ensures !Launches(ts, NameOf(x))
  {
    hide Launchable;
    var i :| 0 <= i < |ts| && ts[i] == x;
    var j :| 0 <= j < |ts| && ts[j] == y;
    assert NameOf(ts[i]) == NameOf(ts[j]);
  }

  lemma ClearLaunches(g: Site, tasks: seq<Task>, t: Task)
    requires Distinct(tasks, TaskId) && NamesClear(tasks) && t in tasks
    ensures Launches(Flat(g, tasks), t.id)
  {
    hide Own, Flat, CreateName, CollectName, Distinct, SoleAt;
    var ts, own := Flat(g, tasks), Own(g, t);
    FlatNames(g, tasks);
    OwnInFlat(g, tasks, t);
    OwnShape(g, t);
    Suffixes(t.id, t.id);
    assert Clear(t, t);
    if t.lane == NATIVE {
      assert own[1] in own && own[2] in own;
      var i := SoleInDistinct(ts, own[1]);
      var j := SoleInDistinct(ts, own[2]);
      assert Creates(ts, CreateName(t.id)) && Collects(ts, CollectName(t.id));
    }
    assert own[0] in own;
    var k := SoleInDistinct(ts, own[0]);
    assert Launchable(ts, ts[k]);
  }

  lemma EntryAlone(g: Site, tasks: seq<Task>)
    requires NamesClear(tasks)
    ensures EntryFree(Flat(g, tasks))
  {
    hide Flat, Own, CreateName, CollectName;
    var ts := Flat(g, tasks);
    FlatNames(g, tasks);
    forall x | x in ts ensures NameOf(x) != ENTRY {
      KeyIn(ts, x, NameOf);
      assert NamedBy(tasks, NameOf(x));
      var t :| t in tasks && NameOf(x) in OwnNames(t);
      assert Clear(t, t);
      Suffixes(t.id, t.id);
    }
  }

  lemma ClashStops(g: Site, tasks: seq<Task>)
    requires !NamesClear(tasks)
    ensures var ts := Flat(g, tasks);
            EntryFree(ts) ==> !AllLaunch(ts, KeySet(tasks, TaskId))
  {
    hide Own, Flat, CreateName, CollectName, Launches, KeySet;
    var t, u :| t in tasks && u in tasks && !Clear(t, u);
    var ts := Flat(g, tasks);
    var own, other := Own(g, t), Own(g, u);
    OwnInFlat(g, tasks, t);
    OwnInFlat(g, tasks, u);
    OwnShape(g, t);
    OwnShape(g, u);
    assert own[0] in own && other[0] in other;
    if t.id != ENTRY {
      var n := if u.id == CreateName(t.id) then 1 else 2;
      assert own[n] in own;
      TwiceIsNotSole(ts, other[0], own[n]);
      KeyIn(tasks, u, TaskId);
    }
  }

  ghost predicate AllLaunch(ts: seq<MixedTemplate>, ids: set<string>) { forall id :: id in ids ==> Launches(ts, id) }

  lemma DagLaunches(tasks: seq<Task>, ts: seq<MixedTemplate>)
    ensures (forall d :: d in Map(DagTaskOf, tasks) ==> Launches(ts, d.template)) <==>
      AllLaunch(ts, KeySet(tasks, TaskId))
  {
    hide Launches, KeySet;
    var dag := Map(DagTaskOf, tasks);
    if forall d :: d in dag ==> Launches(ts, d.template) {
      forall id | id in KeySet(tasks, TaskId) ensures Launches(ts, id) {
        var t := KeyFrom(tasks, id, TaskId);
        var i :| 0 <= i < |tasks| && tasks[i] == t;
        assert dag[i] in dag;
      }
    } else {
      var d :| d in dag && !Launches(ts, d.template);
      var i :| 0 <= i < |dag| && dag[i] == d;
      KeyIn(tasks, tasks[i], TaskId);
    }
  }

  lemma CanonicalIds(p: Pipeline)
    requires Distinct(p.tasks, TaskId)
    ensures KeySet(CanonicalForm(p).tasks, TaskId) == KeySet(p.tasks, TaskId)
  {
    hide CanonicalForm, Distinct, SortBy, KeySet, CanonicalTask;
    CanonicalTasks(p);
    var sorted := SortBy(p.tasks, TaskId);
    PermutationKeys(sorted, p.tasks, TaskId);
    SameIds(sorted);
  }

  lemma SameIds(tasks: seq<Task>)
    ensures KeySet(Map(CanonicalTask, tasks), TaskId) == KeySet(tasks, TaskId)
  {
    hide KeySet;
    var m := Map(CanonicalTask, tasks);
    forall id ensures id in KeySet(m, TaskId) <==> id in KeySet(tasks, TaskId) {
      if id in KeySet(m, TaskId) {
        var x := KeyFrom(m, id, TaskId);
        var i :| 0 <= i < |m| && m[i] == x;
        KeyIn(tasks, tasks[i], TaskId);
      }
      if id in KeySet(tasks, TaskId) {
        var x := KeyFrom(tasks, id, TaskId);
        var i :| 0 <= i < |tasks| && tasks[i] == x;
        KeyIn(m, m[i], TaskId);
      }
    }
  }

  lemma RunsParts(c: Pipeline, d: Decision, s: seq<string>)
    requires Distinct(c.tasks, TaskId) && d.dag == Map(DagTaskOf, c.tasks)
    ensures MixedRuns(d, s) <==>
            EntryFree(d.templates) && Admits(c, s) && AllLaunch(d.templates, KeySet(c.tasks, TaskId)) &&
            Supplies(d.wiring, d.templates, s)
  {
    hide Distinct, Schedule, DagNeeds, EntryFree, AllLaunch, KeySet, Launches, Supplies;
    DagTasksNeeds(c.tasks);
    DagLaunches(c.tasks, d.templates);
  }

  lemma ClearRuns(g: Site, tasks: seq<Task>)
    requires Distinct(tasks, TaskId)
    ensures var ts := Flat(g, tasks);
            NamesClear(tasks) <==> EntryFree(ts) && AllLaunch(ts, KeySet(tasks, TaskId))
  {
    hide Distinct, EntryFree, KeySet, Launches, NamesClear, Flat;
    if NamesClear(tasks) {
      EntryAlone(g, tasks);
      forall id | id in KeySet(tasks, TaskId) ensures Launches(Flat(g, tasks), id) {
        var t := KeyFrom(tasks, id, TaskId);
        ClearLaunches(g, tasks, t);
      }
    } else {
      ClashStops(g, tasks);
    }
  }

  lemma SameClear(a: seq<Task>, b: seq<Task>)
    requires multiset(a) == multiset(b)
    ensures NamesClear(a) <==> NamesClear(b)
  {
    hide Clear;
    PermutationMembers(a, b);
  }
}
