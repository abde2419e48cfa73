/** `notebookutils.notebook.runMultiple` (notebookutils_shim.py): a depth-first
    topological sort of the activities, then one run of each whose upstream succeeded. */
module Scheduler {
  import opened Text

  datatype Activity = Activity(name: string, dependencies: seq<string>)

  type Graph = map<string, seq<string>>

  /** `{a["name"]: a for a in activities}`: the last activity of a name wins. */
  function ByName(activities: seq<Activity>): (g: Graph)
    ensures forall n :: n in g <==> exists i :: 0 <= i < |activities| && activities[i].name == n
  {
    if activities == [] then map[]
    else
      var last := activities[|activities| - 1];
      ByName(activities[..|activities| - 1])[last.name := last.dependencies]
  }

  /** No later activity has the name of this one. */
  predicate LastNamed(activities: seq<Activity>, i: nat) {
    i < |activities| && forall j :: i < j < |activities| ==> activities[j].name != activities[i].name
  }

  lemma {:induction false} LastNamedGives(activities: seq<Activity>, i: nat)
    requires LastNamed(activities, i)
    ensures activities[i].name in ByName(activities)
    ensures ByName(activities)[activities[i].name] == activities[i].dependencies
  {
    var n := |activities| - 1;
    if i == n {
    } else {
      assert activities[n].name != activities[i].name;
      LastNamedGives(activities[..n], i);
    }
  }

  lemma {:induction false} HasLast(activities: seq<Activity>, name: string) returns (i: nat)
    requires exists j :: 0 <= j < |activities| && activities[j].name == name
    ensures LastNamed(activities, i) && activities[i].name == name
  {
    var n := |activities| - 1;
    if activities[n].name == name {
      i := n;
    } else {
      i := HasLast(activities[..n], name);
    }
  }

  /** Each name stands for the dependencies that the last activity of that name lists. */
  lemma ByNameIs(activities: seq<Activity>)
    ensures forall i: nat :: LastNamed(activities, i) ==>
              && activities[i].name in ByName(activities)
              && ByName(activities)[activities[i].name] == activities[i].dependencies
    ensures forall n <- ByName(activities) :: exists i: nat :: LastNamed(activities, i) && activities[i].name == n
  {
    forall i: nat | LastNamed(activities, i)
      ensures activities[i].name in ByName(activities)
      ensures ByName(activities)[activities[i].name] == activities[i].dependencies
    {
      LastNamedGives(activities, i);
    }
    forall n <- ByName(activities)
      ensures exists i: nat :: LastNamed(activities, i) && activities[i].name == n
    {
      var i := HasLast(activities, n);
    }
  }

  // ---- paths and cycles ----

  /** Each activity of p depends on the next one. */
  ghost predicate IsPath(g: Graph, p: seq<string>) {
    && p != []
    && forall i :: 0 <= i < |p| - 1 ==> p[i] in g && p[i + 1] in g[p[i]]
  }

  ghost predicate DependsOn(g: Graph, a: string, d: string) {
    exists p :: IsPath(g, p) && |p| >= 2 && p[0] == a && p[|p| - 1] == d
  }

  ghost predicate HasCycle(g: Graph) {
    exists a :: DependsOn(g, a, a)
  }

  ghost predicate AllKnown(g: Graph) {
    forall a <- g :: forall d <- g[a] :: d in g
  }

  lemma EdgeIsDependence(g: Graph, a: string, d: string)
    requires a in g && d in g[a]
    ensures DependsOn(g, a, d)
  {
    assert IsPath(g, [a, d]);
  }

  lemma DependsTransitive(g: Graph, a: string, d: string, e: string)
    requires a in g && d in g[a] && DependsOn(g, d, e)
    ensures DependsOn(g, a, e)
  {
    var p :| IsPath(g, p) && |p| >= 2 && p[0] == d && p[|p| - 1] == e;
    assert IsPath(g, [a] + p);
  }

  lemma DependsFirst(g: Graph, a: string, e: string)
    requires DependsOn(g, a, e)
    ensures a in g && exists d <- g[a] :: d == e || DependsOn(g, d, e)
  {
    var p :| IsPath(g, p) && |p| >= 2 && p[0] == a && p[|p| - 1] == e;
    assert p[1] in g[p[0]];
    if |p| > 2 {
      assert IsPath(g, p[1..]);
    }
  }

  // ---- the order ----

  ghost predicate NoDuplicates(s: seq<string>) {
    forall i, j :: 0 <= i < j < |s| ==> s[i] != s[j]
  }

  /** Every activity comes after all its dependencies. */
  ghost predicate Ordered(g: Graph, order: seq<string>) {
    forall i :: 0 <= i < |order| ==> order[i] in g && forall d <- g[order[i]] :: d in order[..i]
  }

  /** In an order, what an activity depends on comes before it. */
  lemma {:induction false} DependsBefore(g: Graph, order: seq<string>, p: seq<string>, i: nat)
    requires Ordered(g, order) && IsPath(g, p) && |p| >= 2 && i < |order| && order[i] == p[0]
    ensures p[|p| - 1] in order[..i]
    decreases |p|
  {
    assert p[1] in g[p[0]];
    var j :| 0 <= j < i && order[..i][j] == p[1];
    if |p| <= 2 {
    } else {
      assert IsPath(g, p[1..]);
      DependsBefore(g, order, p[1..], j);
    }
  }

  /** A complete order leaves no room for a cycle. */
  lemma OrderedIsAcyclic(g: Graph, order: seq<string>)
    requires Ordered(g, order) && NoDuplicates(order) && forall a <- g :: a in order
    ensures !HasCycle(g)
  {
    if HasCycle(g) {
      var a :| DependsOn(g, a, a);
      var p :| IsPath(g, p) && |p| >= 2 && p[0] == a && p[|p| - 1] == a;
      assert a in order by {
        assert p[0] in g;
      }
      var i :| 0 <= i < |order| && order[i] == a;
      DependsBefore(g, order, p, i);
      assert false;
    }
  }

  // ---- the depth-first search ----

  datatype Visit = Fine | Cycle(at: string) | UnknownDependency(activity: string, dependency: string)

  class Sorter {
    const byName: Graph
    var order: seq<string>
    var visiting: set<string>

    constructor (byName: Graph)
      ensures this.byName == byName && order == [] && visiting == {}
    {
      this.byName, order, visiting := byName, [], {};
    }

    ghost predicate Valid()
      reads this
    {
      && NoDuplicates(order)
      && Ordered(byName, order)
      && (forall n <- order :: n !in visiting)
      && visiting <= byName.Keys
    }

    /** `visit(name)`. The recursion stack is a path of dependencies, made of exactly the
        names being visited. */
    method Visit(name: string, ghost stack: seq<string>) returns (r: Visit)
      requires Valid() && name in byName
      requires visiting == set n <- stack
      requires IsPath(byName, stack + [name])
      modifies this
      ensures r.Fine? ==> Valid() && visiting == old(visiting) && old(order) <= order && name in order
      ensures r.Cycle? ==> HasCycle(byName)
      ensures r.UnknownDependency? ==>
                r.activity in byName && r.dependency in byName[r.activity] && r.dependency !in byName
      decreases byName.Keys - visiting
    {
      if name in order {
        return Fine;
      }
      if name in visiting {
        ClosesCycle(byName, stack, name);
        return Cycle(name);
      }
      visiting := visiting + {name};
      var deps := byName[name];
      ghost var inner := stack + [name];
      var i := 0;
      while i < |deps|
        invariant 0 <= i <= |deps|
        invariant Valid() && visiting == old(visiting) + {name} && old(order) <= order
        invariant forall j :: 0 <= j < i ==> deps[j] in order
      {
        if deps[i] !in byName {
          return UnknownDependency(name, deps[i]);
        }
        ExtendPath(byName, inner, deps[i]);
        var before := order;
        r := Visit(deps[i], inner);
        if !r.Fine? {
          return;
        }
        assert forall j :: 0 <= j < i ==> deps[j] in before;
        i := i + 1;
      }
      visiting := visiting - {name};
      AppendOrdered(byName, order, name);
      order := order + [name];
      r := Fine;
    }
  }

  lemma ExtendPath(g: Graph, p: seq<string>, d: string)
    requires IsPath(g, p) && p[|p| - 1] in g && d in g[p[|p| - 1]]
    ensures IsPath(g, p + [d])
  {
  }

  lemma AppendOrdered(g: Graph, order: seq<string>, name: string)
    requires Ordered(g, order) && NoDuplicates(order) && name !in order
    requires name in g && forall j :: 0 <= j < |g[name]| ==> g[name][j] in order
    ensures Ordered(g, order + [name]) && NoDuplicates(order + [name])
  {
    var more := order + [name];
    forall i | 0 <= i < |more|
      ensures more[i] in g && forall d <- g[more[i]] :: d in more[..i]
    {
      assert more[..i] == order[..i];
      if i == |order| {
        assert more[..i] == order;
      }
    }
  }

  /** A name met again while it is being visited is on the stack: the stack from there
      on is a cycle. */
  lemma ClosesCycle(g: Graph, stack: seq<string>, name: string)
    requires IsPath(g, stack + [name]) && name in stack
    ensures HasCycle(g)
  {
    var i :| 0 <= i < |stack| && stack[i] == name;
    var p := (stack + [name])[i..];
    assert IsPath(g, p) && |p| >= 2 && p[0] == name && p[|p| - 1] == name;
    assert DependsOn(g, name, name);
  }

  /** Every name once, each after everything that its activity lists. */
  ghost predicate Sorted(activities: seq<Activity>, order: seq<string>) {
    && NoDuplicates(order)
    && (forall n :: n in order <==> exists i :: 0 <= i < |activities| && activities[i].name == n)
    && forall i: nat, k: nat :: LastNamed(activities, i) && k < |order| && order[k] == activities[i].name ==>
         forall d <- activities[i].dependencies :: d in order[..k]
  }

  lemma OrderedIsSorted(activities: seq<Activity>, order: seq<string>)
    requires NoDuplicates(order) && Ordered(ByName(activities), order)
    requires forall n :: n in order <==> n in ByName(activities)
    ensures Sorted(activities, order)
  {
    ByNameIs(activities);
    hide ByName;
  }

  /** The sort of a whole graph. */
  method Sort(activities: seq<Activity>) returns (r: Visit, order: seq<string>)
    ensures r.Fine? ==> Sorted(activities, order)
    ensures var g := ByName(activities);
            && (r.Fine? ==> && NoDuplicates(order) && Ordered(g, order) && (forall n :: n in order <==> n in g)
                            && !HasCycle(g) && AllKnown(g))
            && (r.Cycle? ==> HasCycle(g))
            && (r.UnknownDependency? ==> !AllKnown(g))
            && (AllKnown(g) ==> (r.Cycle? <==> HasCycle(g)))
  {
    var g := ByName(activities);
    var sorter := new Sorter(g);
    var i := 0;
    while i < |activities|
      invariant 0 <= i <= |activities|
      invariant sorter.Valid() && sorter.visiting == {}
      invariant forall j :: 0 <= j < i ==> activities[j].name in sorter.order
    {
      var name := activities[i].name;
      assert [] + [name] == [name] && IsPath(g, [name]);
      ghost var before := sorter.order;
      r := sorter.Visit(name, []);
      if !r.Fine? {
        return r, sorter.order;
      }
      assert forall j :: 0 <= j < i ==> activities[j].name in before;
      i := i + 1;
    }
    order := sorter.order;
    r := Fine;
    OrderedIsAcyclic(g, order);
    OrderedIsSorted(activities, order);
    forall a <- g, d <- g[a]
      ensures d in g
    {
      var k :| 0 <= k < |order| && order[k] == a;
      assert d in order[..k];
    }
  }

  // ---- the runs ----

  /** What the engine's run_notebook does for an activity. */
  datatype Run = Ran(exception: Option<string>) | Throws(error: string) {
    predicate Succeeds() {
      Ran? && exception.None?
    }
  }

  /** One entry of the result: the exception it carries, if any. */
  datatype Entry = Entry(exception: Option<string>)

  const SKIPPED := "skipped: upstream activity failed"

  datatype Outcome =
    | Finished(done: map<string, Entry>)
    | RunError(done: map<string, Entry>)        // NotebookRunError, with its .result
    | Propagated(error: string)                 // run_notebook itself raised
    | BadDag(reason: Visit)

  /** Every activity that a depends on, directly or not, runs without an exception. */
  ghost predicate UpstreamSucceeds(g: Graph, run: string -> Run, a: string) {
    forall d :: DependsOn(g, a, d) ==> run(d).Succeeds()
  }

  /** What the result says of one activity. */
  ghost predicate EntryOk(g: Graph, run: string -> Run, a: string, e: Entry) {
    if UpstreamSucceeds(g, run, a) then run(a) == Ran(e.exception) else e.exception == Some(SKIPPED)
  }

  /** The activities of `order` so far have their right entries, and `ran` lists those
      that were executed. */
  ghost predicate Progress(g: Graph, run: string -> Run, order: seq<string>, done: map<string, Entry>,
                           ran: seq<string>)
  {
    && (forall a :: a in done <==> a in order)
    && (forall a <- done :: EntryOk(g, run, a, done[a]))
    && NoDuplicates(ran) && Ordered(g, ran)
    && (forall a :: a in ran <==> a in order && UpstreamSucceeds(g, run, a))
  }

  /** All upstream activities succeed exactly when each direct one carries no exception. */
  lemma UpstreamByDirect(g: Graph, run: string -> Run, a: string, done: map<string, Entry>)
    requires a in g && forall d <- g[a] :: d in done && EntryOk(g, run, d, done[d])
    ensures UpstreamSucceeds(g, run, a) <==> forall d <- g[a] :: done[d].exception.None?
  {
    if UpstreamSucceeds(g, run, a) {
      forall d <- g[a]
        ensures done[d].exception.None?
      {
        DirectUpstream(g, run, a, d);
      }
    }
    if forall d <- g[a] :: done[d].exception.None? {
      forall e | DependsOn(g, a, e)
        ensures run(e).Succeeds()
      {
        DependsFirst(g, a, e);
        var d :| d in g[a] && (d == e || DependsOn(g, d, e));
        assert UpstreamSucceeds(g, run, d);
      }
    }
  }

  predicate AnyFailed(done: map<string, Entry>, deps: seq<string>)
    requires forall d <- deps :: d in done
  {
    exists d <- deps :: done[d].exception.Some?
  }

  predicate SomeFailed(done: map<string, Entry>) {
    exists a <- done :: done[a].exception.Some?
  }

  lemma SomeFailedStep(done: map<string, Entry>, name: string, entry: Entry)
    requires name !in done
    ensures SomeFailed(done[name := entry]) <==> SomeFailed(done) || entry.exception.Some?
  {
    var more := done[name := entry];
    assert more[name] == entry;
    if SomeFailed(done) {
      var a :| a in done && done[a].exception.Some?;
      assert a in more && more[a] == done[a];
    }
  }

  /** One more activity, run or skipped. */
  lemma ProgressStep(g: Graph, run: string -> Run, order: seq<string>, done: map<string, Entry>, ran: seq<string>,
                     name: string, entry: Entry)
    requires Progress(g, run, order, done, ran) && name !in order && EntryOk(g, run, name, entry)
    requires name in g && forall d <- g[name] :: d in order
    ensures Progress(g, run, order + [name], done[name := entry],
                     if UpstreamSucceeds(g, run, name) then ran + [name] else ran)
  {
    if UpstreamSucceeds(g, run, name) {
      forall j | 0 <= j < |g[name]|
        ensures g[name][j] in ran
      {
        DirectUpstream(g, run, name, g[name][j]);
      }
      AppendOrdered(g, ran, name);
    }
  }

  lemma DirectUpstream(g: Graph, run: string -> Run, a: string, d: string)
    requires a in g && d in g[a] && UpstreamSucceeds(g, run, a)
    ensures run(d).Succeeds() && UpstreamSucceeds(g, run, d)
  {
    EdgeIsDependence(g, a, d);
    forall e | DependsOn(g, d, e)
      ensures run(e).Succeeds()
    {
      DependsTransitive(g, a, d, e);
    }
  }

  /** The loop over the sorted activities. */
  method RunInOrder(g: Graph, order: seq<string>, run: string -> Run) returns (out: Outcome, ran: seq<string>)
    requires NoDuplicates(order) && Ordered(g, order)
    ensures out.Finished? || out.RunError? ==>
              Progress(g, run, order, out.done, ran) && (out.RunError? <==> SomeFailed(out.done))
    ensures out.Propagated? ==> exists a <- order :: UpstreamSucceeds(g, run, a) && run(a) == Throws(out.error)
    ensures !out.BadDag?
  {
    var done: map<string, Entry> := map[];
    ran := [];
    var failed := false;
    var i := 0;
    while i < |order|
      invariant 0 <= i <= |order|
      invariant Progress(g, run, order[..i], done, ran)
      invariant failed <==> SomeFailed(done)
    {
      var name := order[i];
      assert order[..i + 1] == order[..i] + [name] && name !in order[..i];
      assert forall d <- g[name] :: d in order[..i];
      UpstreamByDirect(g, run, name, done);
      var entry := Entry(Some(SKIPPED));
      if !AnyFailed(done, g[name]) {
        var res := run(name);
        if res.Throws? {
          return Propagated(res.error), ran;
        }
        entry := Entry(res.exception);
        ProgressStep(g, run, order[..i], done, ran, name, entry);
        ran := ran + [name];
      } else {
        ProgressStep(g, run, order[..i], done, ran, name, entry);
      }
      SomeFailedStep(done, name, entry);
      done := done[name := entry];
      failed := failed || entry.exception.Some?;
      i := i + 1;
    }
    assert order[..|order|] == order;
    out := if failed then RunError(done) else Finished(done);
  }

  /** What the result says of each activity by what it says of those it lists: one of these with
      an exception skips it; otherwise it was executed and has what the engine answered. */
  ghost predicate Recorded(activities: seq<Activity>, run: string -> Run, done: map<string, Entry>, ran: seq<string>) {
    forall i: nat :: LastNamed(activities, i) ==>
      var a := activities[i];
      && a.name in done && (forall d <- a.dependencies :: d in done)
      && if exists d <- a.dependencies :: done[d].exception.Some?
         then done[a.name].exception == Some("skipped: upstream activity failed") && a.name !in ran
         else run(a.name) == Ran(done[a.name].exception) && a.name in ran
  }

  lemma ProgressIsRecorded(activities: seq<Activity>, run: string -> Run, done: map<string, Entry>, ran: seq<string>)
    requires var g := ByName(activities);
             && done.Keys == g.Keys && AllKnown(g) && (forall a <- g :: EntryOk(g, run, a, done[a]))
             && (forall a :: a in ran <==> a in g && UpstreamSucceeds(g, run, a))
    ensures Recorded(activities, run, done, ran)
  {
    hide UpstreamSucceeds;
    var g := ByName(activities);
    ByNameIs(activities);
    hide ByName;
    forall i: nat | LastNamed(activities, i)
      ensures var a := activities[i];
              && a.name in done && (forall d <- a.dependencies :: d in done)
              && if exists d <- a.dependencies :: done[d].exception.Some?
                 then done[a.name].exception == Some("skipped: upstream activity failed") && a.name !in ran
                 else run(a.name) == Ran(done[a.name].exception) && a.name in ran
    {
      var a := activities[i];
      assert a.name in g && g[a.name] == a.dependencies;
      UpstreamByDirect(g, run, a.name, done);
    }
  }

  /** `runMultiple(dag)`. `ran` is the activities handed to the engine, in order. An
      activity is executed exactly when everything upstream of it succeeds, every other
      one is recorded as skipped, and the call fails exactly when some entry carries an
      exception. */
  method RunMultiple(activities: seq<Activity>, run: string -> Run) returns (out: Outcome, ran: seq<string>)
    ensures out.BadDag? ==> ran == [] && !out.reason.Fine? && (out.reason.Cycle? ==> HasCycle(ByName(activities)))
    ensures AllKnown(ByName(activities)) ==> (out.BadDag? <==> HasCycle(ByName(activities)))
    ensures !AllKnown(ByName(activities)) ==> out.BadDag?
    ensures out.Finished? || out.RunError? ==>
              var g := ByName(activities);
              && out.done.Keys == g.Keys
              && (forall a <- g :: EntryOk(g, run, a, out.done[a]))
              && NoDuplicates(ran) && Ordered(g, ran)
              && (forall a :: a in ran <==> a in g && UpstreamSucceeds(g, run, a))
              && (out.RunError? <==> SomeFailed(out.done))
    ensures out.Finished? || out.RunError? ==> Recorded(activities, run, out.done, ran)
    ensures out.Propagated? ==>
              var g := ByName(activities);
              exists a <- g :: UpstreamSucceeds(g, run, a) && run(a) == Throws(out.error)
  {
    var g := ByName(activities);
    var reason, order := Sort(activities);
    if !reason.Fine? {
      return BadDag(reason), [];
    }
    out, ran := RunInOrder(g, order, run);
    if !out.Propagated? {
      ProgressIsRecorded(activities, run, out.done, ran);
    }
  }
}
