/** Routing of mount notices (engine.py). `materialize` adds one item to a JVM queue;
    preload workers, `mount_tables` and user cells all drain that queue under one
    lock. A worker claims its tables before it mounts them, drops the items of
    claimed tables while draining, and parks the others for the next cell. What a
    notebook's SQL cell drains goes into a result that the notebook does not keep. */
module Notices {
  import opened Text
  import Names

  // ---- the text of a notice ----

  /** One item of the Materialized queue: "ns.table<TAB>millis<TAB>how"; `secs` is the
      duration as the engine prints it. */
  datatype Mount = Mount(name: string, secs: string, how: string)

  function Render(m: Mount): string {
    "mounted " + m.name + " in " + m.secs + " s (" + m.how + ")"
  }

  /** `notice.split(" ", 2)[1].lower()` for a text that starts with "mounted ". */
  function NoticeTable(text: string): string {
    if StartsWith(text, "mounted ") then
      var rest := text[8..];
      Lower(rest[..FirstOf(rest, ' ')])
    else ""
  }

  lemma TableOfRest(rest: string)
    ensures NoticeTable("mounted " + rest) == Lower(rest[..FirstOf(rest, ' ')])
  {
    assert ("mounted " + rest)[8..] == rest;
  }

  /** The routing key of a rendered notice is its table's name in lower case exactly
      when the name has no space in it. */
  lemma NoticeTableOfRender(m: Mount)
    ensures NoticeTable(Render(m)) == Lower(m.name) <==> ' ' !in m.name
  {
    var tail := "in " + m.secs + " s (" + m.how + ")";
    var rest := m.name + [' '] + tail;
    assert Render(m) == "mounted " + rest;
    TableOfRest(rest);
    if ' ' !in m.name {
      FirstOfHead(m.name, ' ', tail);
      assert rest[..|m.name|] == m.name;
    } else {
      var i :| 0 <= i < |m.name| && m.name[i] == ' ';
      assert rest[i] == ' ';
      assert |NoticeTable(Render(m))| == FirstOf(rest, ' ') <= i < |Lower(m.name)|;
    }
  }

  /** What `mount_tables` claims for an entry, and what the notice of mounting it says. */
  function MountClaim(lakehouse: string, entry: string): string {
    Lower(lakehouse + "." + entry)
  }

  function MountedName(lakehouse: string, entry: string): string {
    var q := Names.Qualified(lakehouse, entry);
    q.0 + "." + q.1
  }

  /** `mount_tables` does not translate schemas: its claim covers the notice of its own
      mount exactly for the entries that are plain tables. */
  lemma MountClaimCovers(lakehouse: string, entry: string)
    ensures MountClaim(lakehouse, entry) == Lower(MountedName(lakehouse, entry)) <==> '/' !in entry
  {
    var cut := FirstOf(entry, '/');
    if '/' in entry {
      assert cut < |entry|;
      assert |MountedName(lakehouse, entry)| == |lakehouse| + 2 + |entry|;
      assert |MountClaim(lakehouse, entry)| == |lakehouse| + 1 + |entry|;
    }
  }

  // ---- the two drains, as the engine runs them under the lock ----

  /** The notices a drain does not drop. */
  function Unclaimed(items: seq<Mount>, claims: set<string>): (r: seq<string>) {
    if items == [] then []
    else (if NoticeTable(Render(items[0])) in claims then [] else [Render(items[0])]) + Unclaimed(items[1..], claims)
  }

  lemma {:induction false} UnclaimedAppend(items: seq<Mount>, m: Mount, claims: set<string>)
    ensures Unclaimed(items + [m], claims) ==
            Unclaimed(items, claims) + (if NoticeTable(Render(m)) in claims then [] else [Render(m)])
  {
    hide NoticeTable, Render;
    if items == [] {
    } else {
      assert (items + [m])[1..] == items[1..] + [m];
      UnclaimedAppend(items[1..], m, claims);
    }
  }

  class Board {
    var queue: seq<Mount>      // the JVM queue
    var stray: seq<string>     // _stray_notices
    var pending: seq<string>   // _pending_notices
    var claims: set<string>    // _claimed_mounts

    constructor ()
      ensures queue == [] && stray == [] && pending == [] && claims == {}
    {
      queue, stray, pending, claims := [], [], [], {};
    }

    /** drainMaterialized: poll until the queue is empty. */
    method DrainJvm() returns (items: seq<Mount>)
      modifies this`queue
      ensures items == old(queue) && queue == []
    {
      items := [];
      while queue != []
        invariant items + queue == old(queue)
        decreases |queue|
      {
        items := items + [queue[0]];
        queue := queue[1..];
      }
    }

    /** `_consume_mount_notices(own)`: nothing leaves the engine, the claims are released. */
    method ConsumeMountNotices(own: set<string>)
      modifies this`queue, this`stray, this`claims
      ensures queue == []
      ensures stray == old(stray) + Unclaimed(old(queue), old(claims))
      ensures claims == old(claims) - own
    {
      var items := DrainJvm();
      var i := 0;
      while i < |items|
        invariant 0 <= i <= |items|
        invariant stray == old(stray) + Unclaimed(items[..i], claims)
        invariant claims == old(claims) && queue == []
      {
        UnclaimedAppend(items[..i], items[i], claims);
        assert items[..i + 1] == items[..i] + [items[i]];
        if NoticeTable(Render(items[i])) !in claims {
          stray := stray + [Render(items[i])];
        }
        i := i + 1;
      }
      assert items[..|items|] == items;
      claims := claims - own;
    }

    /** `drain_mount_notices()`: what the result being built reports. */
    method DrainMountNotices() returns (out: seq<string>)
      modifies this`queue, this`stray, this`pending
      ensures out == old(stray) + Unclaimed(old(queue), claims) + old(pending)
      ensures queue == [] && stray == [] && pending == []
    {
      var items := DrainJvm();
      var unclaimed := [];
      var i := 0;
      while i < |items|
        invariant 0 <= i <= |items|
        invariant unclaimed == Unclaimed(items[..i], claims)
        invariant queue == [] && stray == old(stray) && pending == old(pending)
      {
        UnclaimedAppend(items[..i], items[i], claims);
        assert items[..i + 1] == items[..i] + [items[i]];
        if NoticeTable(Render(items[i])) !in claims {
          unclaimed := unclaimed + [Render(items[i])];
        }
        i := i + 1;
      }
      assert items[..|items|] == items;
      out := stray + unclaimed + pending;
      stray, pending := [], [];
    }
  }

  // ---- every interleaving ----

  datatype Source = User | Worker(w: nat)

  /** A notice of the machine: `key` is its routing key. */
  datatype Notice = Notice(id: nat, key: string, source: Source)

  datatype Phase = Fresh | Claimed | Over

  datatype Drainer =
    | Result                     // run_code, run_sql: the caller gets it
    | SqlCell                    // run_notebook keeps only the rows of what run_sql gives it
    | MarkdownCell(returned: bool) // its notices are in the notebook's result, if that gets to the caller
    | Consumer(w: nat)
  {
    /** Somebody sees what it drains. */
    predicate Handed() {
      Result? || (MarkdownCell? && returned)
    }
  }

  /** Who holds `_notice_lock` to drain, what it polled so far, and whether its poll
      has answered null. */
  datatype Drain = Free | Busy(who: Drainer, got: seq<Notice>, sawEmpty: bool)

  datatype State = State(
    own: map<nat, set<string>>,      // what each worker claims
    phase: map<nat, Phase>,
    queue: seq<Notice>,
    drain: Drain,
    claims: set<string>,
    stray: seq<Notice>,
    discarded: seq<Notice>,
    delivered: seq<seq<Notice>>,     // the mount notices of each result, in order
    lost: seq<Notice>,               // those of results that nobody gets
    produced: seq<Notice>)           // every notice ever queued

  datatype Action =
    | Claim(ws: set<nat>)            // preload claims for all workers of a lakehouse at once
    | WorkerMount(w: nat, key: string)
    | UserMount(key: string)
    | StartConsume(w: nat)           // the worker's mounts are over, failed or not
    | StartDrain(who: Drainer)       // a result is being built
    | Poll
    | PollNull
    | Finish

  predicate IsClaimed(phase: map<nat, Phase>, w: nat) {
    w in phase && phase[w].Claimed?
  }

  predicate Enabled(s: State, a: Action) {
    match a
    case Claim(ws) => s.drain.Free? && forall w <- ws :: w in s.phase && s.phase[w].Fresh?
    case WorkerMount(w, key) =>
      IsClaimed(s.phase, w) && w in s.own && key in s.own[w] && !(s.drain.Busy? && s.drain.who == Consumer(w))
    case UserMount(_) => true
    case StartConsume(w) => s.drain.Free? && IsClaimed(s.phase, w)
    case StartDrain(who) => s.drain.Free? && !who.Consumer?
    case Poll => s.drain.Busy? && !s.drain.sawEmpty && s.queue != []
    case PollNull => s.drain.Busy? && !s.drain.sawEmpty && s.queue == []
    case Finish => s.drain.Busy? && s.drain.sawEmpty
  }

  function OwnOf(own: map<nat, set<string>>, w: nat): set<string> {
    if w in own then own[w] else {}
  }

  function OwnOfAll(own: map<nat, set<string>>, ws: set<nat>): (r: set<string>)
    ensures forall w <- ws :: OwnOf(own, w) <= r
    ensures forall k <- r :: exists w <- ws :: k in OwnOf(own, w)
  {
    set w <- ws, k <- OwnOf(own, w) :: k
  }

  function Filter(ns: seq<Notice>, claims: set<string>, claimed: bool): (r: seq<Notice>)
    ensures forall n :: n in r <==> n in ns && (n.key in claims <==> claimed)
  {
    if ns == [] then []
    else (if (ns[0].key in claims) == claimed then [ns[0]] else []) + Filter(ns[1..], claims, claimed)
  }

  /** The routing keys of some texts, and of some notices. */
  function TextKeys(texts: seq<string>): seq<string> {
    if texts == [] then [] else [NoticeTable(texts[0])] + TextKeys(texts[1..])
  }

  function Keys(ns: seq<Notice>): seq<string> {
    if ns == [] then [] else [ns[0].key] + Keys(ns[1..])
  }

  /** The machine's filter is the one the Board's drains run, on routing keys instead of
      texts. */
  lemma {:induction false} UnclaimedIsFilter(ns: seq<Notice>, items: seq<Mount>, claims: set<string>)
    requires |ns| == |items| && forall i :: 0 <= i < |ns| ==> ns[i].key == NoticeTable(Render(items[i]))
    ensures TextKeys(Unclaimed(items, claims)) == Keys(Filter(ns, claims, false))
  {
    hide Render, NoticeTable;
    if ns == [] {
    } else {
      assert forall i :: 0 <= i < |ns[1..]| ==> ns[1..][i] == ns[i + 1] && items[1..][i] == items[i + 1];
      UnclaimedIsFilter(ns[1..], items[1..], claims);
      Unprefix(Render(items[0]), Unclaimed(items[1..], claims));
      Unprefix(ns[0], Filter(ns[1..], claims, false));
    }
  }

  lemma Unprefix<T>(x: T, s: seq<T>)
    ensures ([x] + s)[1..] == s && [] + s == s
  {
  }

  function Enqueue(s: State, key: string, source: Source): State {
    var n := Notice(|s.produced|, key, source);
    s.(queue := s.queue + [n], produced := s.produced + [n])
  }

  function Do(s: State, a: Action): State
    requires Enabled(s, a)
  {
    match a
    case Claim(ws) =>
      s.(claims := s.claims + OwnOfAll(s.own, ws),
         phase := map w <- s.phase :: if w in ws then Claimed else s.phase[w])
    case WorkerMount(w, key) => Enqueue(s, key, Worker(w))
    case UserMount(key) => Enqueue(s, key, User)
    case StartConsume(w) => s.(drain := Busy(Consumer(w), [], false))
    case StartDrain(who) => s.(drain := Busy(who, [], false))
    case Poll => s.(drain := s.drain.(got := s.drain.got + [s.queue[0]]), queue := s.queue[1..])
    case PollNull => s.(drain := s.drain.(sawEmpty := true))
    case Finish =>
      var kept := Filter(s.drain.got, s.claims, false);
      var dropped := Filter(s.drain.got, s.claims, true);
      match s.drain.who {
        case Consumer(w) =>
          s.(drain := Free, discarded := s.discarded + dropped, stray := s.stray + kept,
             claims := s.claims - OwnOf(s.own, w), phase := s.phase[w := Over])
        case _ =>
          var s1 := s.(drain := Free, discarded := s.discarded + dropped, stray := []);
          if s.drain.who.Handed() then s1.(delivered := s.delivered + [s.stray + kept])
          else s1.(lost := s.lost + (s.stray + kept))
      }
  }

  /** Nothing has happened yet. */
  ghost predicate Init(s: State) {
    && (forall w <- s.phase :: s.phase[w].Fresh?)
    && s.drain.Free? && s.claims == {} && s.queue == [] && s.stray == []
    && s.discarded == [] && s.delivered == [] && s.lost == [] && s.produced == []
  }

  /** No two workers claim one table. */
  predicate ClaimsApart(own: map<nat, set<string>>) {
    forall w <- own, v <- own :: w != v ==> own[w] !! own[v]
  }

  ghost predicate IsRun(trace: seq<State>, acts: seq<Action>) {
    && |trace| == |acts| + 1
    && Init(trace[0])
    && forall i | 0 <= i < |acts| :: Enabled(trace[i], acts[i]) && trace[i + 1] == Do(trace[i], acts[i])
  }

  // ---- conservation ----

  function Flat(xs: seq<seq<Notice>>): seq<Notice> {
    if xs == [] then [] else Flat(xs[..|xs| - 1]) + xs[|xs| - 1]
  }

  function Polled(s: State): seq<Notice> {
    if s.drain.Busy? then s.drain.got else []
  }

  function Count(ns: seq<Notice>, n: Notice): nat {
    if ns == [] then 0 else (if ns[0] == n then 1 else 0) + Count(ns[1..], n)
  }

  lemma {:induction false} CountAppend(a: seq<Notice>, b: seq<Notice>, n: Notice)
    ensures Count(a + b, n) == Count(a, n) + Count(b, n)
  {
    if a == [] {
      assert a + b == b;
    } else {
      assert (a + b)[1..] == a[1..] + b;
      CountAppend(a[1..], b, n);
    }
  }

  lemma {:induction false} CountIn(ns: seq<Notice>, n: Notice)
    ensures Count(ns, n) > 0 <==> n in ns
  {
    if ns == [] {
    } else {
      CountIn(ns[1..], n);
    }
  }

  /** How often n occurs over all the places a notice can be in. */
  function Places(s: State, n: Notice): nat {
    Count(s.queue, n) + Count(Polled(s), n) + Count(s.stray, n) + Count(s.discarded, n)
    + Count(Flat(s.delivered), n) + Count(s.lost, n)
  }

  ghost predicate Conserved(s: State) {
    && (forall n :: Places(s, n) == Count(s.produced, n))
    && (forall i :: 0 <= i < |s.produced| ==> s.produced[i].id == i)
  }

  lemma {:induction false} FilterSplits(ns: seq<Notice>, claims: set<string>, n: Notice)
    ensures Count(Filter(ns, claims, false), n) + Count(Filter(ns, claims, true), n) == Count(ns, n)
  {
    if ns == [] {
    } else {
      FilterSplits(ns[1..], claims, n);
      CountAppend(if ns[0].key in claims then [] else [ns[0]], Filter(ns[1..], claims, false), n);
      CountAppend(if ns[0].key in claims then [ns[0]] else [], Filter(ns[1..], claims, true), n);
    }
  }

  lemma NoneCount(n: Notice)
    ensures Count([], n) == 0
  {
  }

  lemma FlatAppend(xs: seq<seq<Notice>>, x: seq<Notice>)
    ensures Flat(xs + [x]) == Flat(xs) + x
  {
    assert (xs + [x])[..|xs|] == xs;
  }

  lemma FinishConserves(s: State, n: Notice)
    requires Enabled(s, Finish)
    ensures Places(Do(s, Finish), n) == Places(s, n)
  {
    hide Filter, Count, Flat;
    var kept, dropped := Filter(s.drain.got, s.claims, false), Filter(s.drain.got, s.claims, true);
    NoneCount(n);
    FilterSplits(s.drain.got, s.claims, n);
    CountAppend(s.discarded, dropped, n);
    CountAppend(s.stray, kept, n);
    CountAppend(s.lost, s.stray + kept, n);
    FlatAppend(s.delivered, s.stray + kept);
    CountAppend(Flat(s.delivered), s.stray + kept, n);
  }

  lemma EnqueueConserves(s: State, key: string, source: Source)
    requires Conserved(s)
    ensures Conserved(Enqueue(s, key, source))
  {
    hide Count, Flat;
    var notice := Notice(|s.produced|, key, source);
    forall n
      ensures Places(Enqueue(s, key, source), n) == Count(s.produced + [notice], n)
    {
      assert Places(s, n) == Count(s.produced, n);
      CountAppend(s.queue, [notice], n);
      CountAppend(s.produced, [notice], n);
    }
  }

  lemma PollConserves(s: State)
    requires Conserved(s) && Enabled(s, Poll)
    ensures Conserved(Do(s, Poll))
  {
    hide Count, Flat, Filter;
    forall n
      ensures Places(Do(s, Poll), n) == Places(s, n)
    {
      CountAppend(s.drain.got, [s.queue[0]], n);
      CountAppend([s.queue[0]], s.queue[1..], n);
      assert s.queue == [s.queue[0]] + s.queue[1..];
    }
  }

  lemma ConservedStep(s: State, a: Action)
    requires Conserved(s) && Enabled(s, a)
    ensures Conserved(Do(s, a))
  {
    hide Filter, Flat;
    match a
    case Finish =>
      forall n
        ensures Places(Do(s, Finish), n) == Count(s.produced, n)
      {
        FinishConserves(s, n);
      }
    case Poll => PollConserves(s);
    case WorkerMount(w, key) => EnqueueConserves(s, key, Worker(w));
    case UserMount(key) => EnqueueConserves(s, key, User);
    case _ => assert forall n :: Places(Do(s, a), n) == Places(s, n);
  }

  lemma {:induction false} Unique(ns: seq<Notice>, n: Notice)
    requires forall i :: 0 <= i < |ns| ==> ns[i].id == i
    ensures Count(ns, n) == if n in ns then 1 else 0
  {
    if ns == [] {
    } else {
      var last := |ns| - 1;
      assert ns == ns[..last] + [ns[last]];
      Unique(ns[..last], n);
      CountAppend(ns[..last], [ns[last]], n);
    }
  }

  // ---- routing ----

  /** The claims are what the workers in flight own. */
  ghost predicate ClaimsOk(s: State) {
    && ClaimsApart(s.own)
    && (forall w :: IsClaimed(s.phase, w) ==> OwnOf(s.own, w) <= s.claims)
    && (forall k <- s.claims :: exists w :: IsClaimed(s.phase, w) && k in OwnOf(s.own, w))
    && (s.drain.Busy? && s.drain.who.Consumer? ==> IsClaimed(s.phase, s.drain.who.w))
  }

  /** A worker's own notice still on its way: its claim is still held. */
  ghost predicate InFlightOk(s: State, n: Notice) {
    n.source.Worker? ==> IsClaimed(s.phase, n.source.w) && n.key in OwnOf(s.own, n.source.w)
  }

  ghost predicate EverClaimed(s: State, k: string) {
    exists w <- s.own :: k in s.own[w]
  }

  ghost predicate RoutingOk(s: State) {
    && ClaimsOk(s)
    && (forall n <- s.queue :: InFlightOk(s, n))
    && (forall n <- Polled(s) :: InFlightOk(s, n))
    && (s.drain.Busy? && s.drain.who.Consumer? && s.drain.sawEmpty ==>
          forall n <- s.queue :: n.source != Worker(s.drain.who.w))
    && (forall n <- s.stray :: n.source.User?)
    && (forall n <- Flat(s.delivered) :: n.source.User?)
    && (forall n <- s.lost :: n.source.User?)
  }

  lemma RoutingClaim(s: State, ws: set<nat>)
    requires RoutingOk(s) && Enabled(s, Claim(ws))
    ensures RoutingOk(Do(s, Claim(ws)))
  {
    var s' := Do(s, Claim(ws));
    forall w | IsClaimed(s'.phase, w)
      ensures OwnOf(s'.own, w) <= s'.claims
    {
      assert w in ws || IsClaimed(s.phase, w);
      assert OwnOf(s.own, w) <= s'.claims;
    }
    forall k <- s'.claims
      ensures exists w :: IsClaimed(s'.phase, w) && k in OwnOf(s'.own, w)
    {
      if k in s.claims {
        var w :| IsClaimed(s.phase, w) && k in OwnOf(s.own, w);
        assert IsClaimed(s'.phase, w) && k in OwnOf(s'.own, w);
      } else {
        var w :| w in ws && k in OwnOf(s.own, w);
        assert IsClaimed(s'.phase, w) && k in OwnOf(s'.own, w);
      }
    }
    assert forall n :: InFlightOk(s, n) ==> InFlightOk(s', n);
  }

  lemma RoutingConsumed(s: State)
    requires RoutingOk(s) && Enabled(s, Finish) && s.drain.who.Consumer?
    ensures RoutingOk(Do(s, Finish))
  {
    var w, s' := s.drain.who.w, Do(s, Finish);
    forall k <- s'.claims
      ensures exists v :: IsClaimed(s'.phase, v) && k in OwnOf(s'.own, v)
    {
      var v :| IsClaimed(s.phase, v) && k in OwnOf(s.own, v);
      assert IsClaimed(s'.phase, v) && k in OwnOf(s'.own, v);
    }
    assert forall n :: InFlightOk(s, n) && n.source != Worker(w) ==> InFlightOk(s', n);
  }

  lemma RoutingDrained(s: State)
    requires RoutingOk(s) && Enabled(s, Finish) && !s.drain.who.Consumer?
    ensures RoutingOk(Do(s, Finish))
  {
    var s' := Do(s, Finish);
    FlatAppend(s.delivered, s.stray + Filter(s.drain.got, s.claims, false));
    forall n <- Filter(s.drain.got, s.claims, false)
      ensures n.source.User?
    {
      assert n in Polled(s) && InFlightOk(s, n) && n.key !in s.claims;
    }
  }

  lemma RoutingMount(s: State, a: Action)
    requires RoutingOk(s) && Enabled(s, a) && (a.WorkerMount? || a.UserMount?)
    ensures RoutingOk(Do(s, a))
  {
    var s' := Do(s, a);
    assert forall n :: InFlightOk(s, n) <==> InFlightOk(s', n);
  }

  lemma RoutingPoll(s: State, a: Action)
    requires RoutingOk(s) && Enabled(s, a) && (a.StartConsume? || a.StartDrain? || a.Poll? || a.PollNull?)
    ensures RoutingOk(Do(s, a))
  {
    var s' := Do(s, a);
    assert forall n :: InFlightOk(s, n) <==> InFlightOk(s', n);
  }

  lemma RoutingStep(s: State, a: Action)
    requires RoutingOk(s) && Enabled(s, a)
    ensures RoutingOk(Do(s, a))
  {
    match a
    case Claim(ws) => RoutingClaim(s, ws);
    case Finish => if s.drain.who.Consumer? { RoutingConsumed(s); } else { RoutingDrained(s); }
    case WorkerMount(_, _) => RoutingMount(s, a);
    case UserMount(_) => RoutingMount(s, a);
    case _ => RoutingPoll(s, a);
  }

  /** Claims are what some worker owns, and only such a table's notice is discarded. */
  ghost predicate DiscardOk(s: State) {
    && (forall k <- s.claims :: EverClaimed(s, k))
    && (forall n <- s.discarded :: EverClaimed(s, n.key))
  }

  lemma DiscardStep(s: State, a: Action)
    requires DiscardOk(s) && Enabled(s, a)
    ensures DiscardOk(Do(s, a)) && Do(s, a).own == s.own
  {
    hide Flat;
    if a.Claim? {
      forall k <- OwnOfAll(s.own, a.ws)
        ensures EverClaimed(Do(s, a), k)
      {
        var w :| w in a.ws && k in OwnOf(s.own, w);
      }
    }
    assert forall k :: EverClaimed(s, k) ==> EverClaimed(Do(s, a), k);
  }

  lemma {:induction false} InvRun(trace: seq<State>, acts: seq<Action>, n: nat)
    requires IsRun(trace, acts) && n <= |acts|
    ensures Conserved(trace[n]) && DiscardOk(trace[n]) && trace[n].own == trace[0].own
  {
    hide Do, Enabled;
    if n == 0 {
    } else {
      InvRun(trace, acts, n - 1);
      ConservedStep(trace[n - 1], acts[n - 1]);
      DiscardStep(trace[n - 1], acts[n - 1]);
    }
  }

  lemma {:induction false} RoutingRun(trace: seq<State>, acts: seq<Action>, n: nat)
    requires IsRun(trace, acts) && n <= |acts| && ClaimsApart(trace[0].own)
    ensures RoutingOk(trace[n])
  {
    hide Do, Enabled;
    if n == 0 {
    } else {
      RoutingRun(trace, acts, n - 1);
      RoutingStep(trace[n - 1], acts[n - 1]);
    }
  }

  // ---- what every interleaving satisfies ----

  /** Each queued notice is in exactly one place, and nothing else is anywhere. */
  lemma NoticesConserved(trace: seq<State>, acts: seq<Action>, n: nat, notice: Notice)
    requires IsRun(trace, acts) && n <= |acts|
    ensures Places(trace[n], notice) == if notice in trace[n].produced then 1 else 0
  {
    InvRun(trace, acts, n);
    Unique(trace[n].produced, notice);
    assert Places(trace[n], notice) == Count(trace[n].produced, notice);
  }

  /** When no two workers claim one table, a notice of a claiming worker's own mount never
      reaches a result, kept or not. */
  lemma OwnMountsStayInside(trace: seq<State>, acts: seq<Action>, n: nat)
    requires IsRun(trace, acts) && n <= |acts| && ClaimsApart(trace[0].own)
    ensures forall notice <- Flat(trace[n].delivered) :: notice.source.User?
    ensures forall notice <- trace[n].stray + trace[n].lost :: notice.source.User?
  {
    RoutingRun(trace, acts, n);
  }

  lemma RunMore(trace: seq<State>, acts: seq<Action>, a: Action) returns (trace': seq<State>, acts': seq<Action>)
    requires IsRun(trace, acts) && Enabled(trace[|acts|], a)
    ensures IsRun(trace', acts') && acts' == acts + [a] && trace' == trace + [Do(trace[|acts|], a)]
  {
    hide Enabled, Do;
    trace', acts' := trace + [Do(trace[|acts|], a)], acts + [a];
  }

  function Start(own: map<nat, set<string>>): State {
    State(own, map w <- own :: Fresh, [], Free, {}, [], [], [], [], [])
  }

  /** A queue of one notice that nobody claims is drained into a result. */
  lemma DrainsOne(trace: seq<State>, acts: seq<Action>, who: Drainer, notice: Notice)
    returns (trace': seq<State>, acts': seq<Action>)
    requires IsRun(trace, acts) && !who.Consumer?
    requires var s := trace[|acts|];
             s.drain.Free? && s.queue == [notice] && s.stray == [] && notice.key !in s.claims
    ensures IsRun(trace', acts') && acts' == acts + [StartDrain(who), Poll, PollNull, Finish]
    ensures trace'[..|trace|] == trace && |trace'| == |trace| + 4
    ensures var s, s' := trace[|acts|], trace'[|trace| + 3];
            && s'.produced == s.produced
            && s'.lost == s.lost + (if who.Handed() then [] else [notice])
            && s'.delivered == s.delivered + if who.Handed() then [[notice]] else []
  {
    var s := trace[|acts|];
    trace', acts' := RunMore(trace, acts, StartDrain(who));
    trace', acts' := RunMore(trace', acts', Poll);
    trace', acts' := RunMore(trace', acts', PollNull);
    assert [notice][1..] == [] && [] + [notice] == [notice];
    assert trace'[|trace| + 2] == s.(queue := [], drain := Busy(who, [notice], true));
    FilterOne(notice, s.claims);
    hide Filter;
    trace', acts' := RunMore(trace', acts', Finish);
  }

  lemma FilterOne(n: Notice, claims: set<string>)
    requires n.key !in claims
    ensures Filter([n], claims, false) == [n] && Filter([n], claims, true) == []
  {
    assert [n][1..] == [];
  }

  /** The second of two workers that claim a table has released its claim. */
  lemma SharedClaim(own: map<nat, set<string>>, w: nat, v: nat, key: string)
    returns (trace: seq<State>, acts: seq<Action>)
    requires w in own && v in own && w != v && key in own[w] && key in own[v]
    ensures IsRun(trace, acts) && trace[0].own == own
    ensures var s := trace[|acts|];
            && s == Start(own).(claims := s.claims, phase := s.phase)
            && key !in s.claims && IsClaimed(s.phase, w)
  {
    trace, acts := [Start(own)], [];
    trace, acts := RunMore(trace, acts, Claim({w, v}));
    assert trace[1].phase[w] == trace[1].phase[v] == Claimed;
    trace, acts := RunMore(trace, acts, StartConsume(v));
    trace, acts := RunMore(trace, acts, PollNull);
    trace, acts := RunMore(trace, acts, Finish);
  }

  /** That no table is claimed twice is needed: the first of two that do releases the other's
      claim, and a result then reports what the other mounts. */
  lemma SharedClaimLeaks(own: map<nat, set<string>>, w: nat, v: nat, key: string)
    returns (trace: seq<State>, acts: seq<Action>)
    requires w in own && v in own && w != v && key in own[w] && key in own[v]
    ensures IsRun(trace, acts) && trace[0].own == own
    ensures trace[|acts|].delivered == [[Notice(0, key, Worker(w))]]
  {
    trace, acts := SharedClaim(own, w, v, key);
    var s := trace[|acts|];
    trace, acts := RunMore(trace, acts, WorkerMount(w, key));
    assert s.queue == [] && s.produced == [];
    trace, acts := DrainsOne(trace, acts, Result, Notice(0, key, Worker(w)));
  }

  /** A result takes the notice: it polled it, or found it parked. */
  predicate Takes(s: State, a: Action, notice: Notice) {
    a.Finish? && s.drain.Busy? && !s.drain.who.Consumer? && (notice in s.stray || notice in s.drain.got)
  }

  /** A result that somebody gets takes it, or one that nobody gets. */
  ghost predicate Taken(trace: seq<State>, acts: seq<Action>, n: nat, notice: Notice, handed: bool)
    requires n <= |acts| && |trace| == |acts| + 1
  {
    exists i :: 0 <= i < n && Takes(trace[i], acts[i], notice) && trace[i].drain.who.Handed() == handed
  }

  lemma TakesStep(s: State, a: Action, notice: Notice)
    requires Enabled(s, a) && notice.key !in s.claims
    ensures var s' := Do(s, a);
            && (notice in s'.lost <==> notice in s.lost || (Takes(s, a, notice) && !s.drain.who.Handed()))
            && (notice in Flat(s'.delivered) <==>
                  notice in Flat(s.delivered) || (Takes(s, a, notice) && s.drain.who.Handed()))
  {
    var s' := Do(s, a);
    if a.Finish? && s.drain.who.Handed() {
      FlatAppend(s.delivered, s.stray + Filter(s.drain.got, s.claims, false));
    }
  }

  lemma TakenMore(trace: seq<State>, acts: seq<Action>, n: nat, notice: Notice, handed: bool)
    requires 0 < n <= |acts| && |trace| == |acts| + 1
    ensures Taken(trace, acts, n, notice, handed)
       <==> Taken(trace, acts, n - 1, notice, handed)
            || (Takes(trace[n - 1], acts[n - 1], notice) && trace[n - 1].drain.who.Handed() == handed)
  {
    hide Takes;
  }

  lemma {:induction false} TakenIff(trace: seq<State>, acts: seq<Action>, n: nat, notice: Notice)
    requires IsRun(trace, acts) && n <= |acts| && !EverClaimed(trace[0], notice.key)
    ensures notice in trace[n].lost <==> Taken(trace, acts, n, notice, false)
    ensures notice in Flat(trace[n].delivered) <==> Taken(trace, acts, n, notice, true)
  {
    hide Do, Enabled, Takes, Taken, Flat;
    if n == 0 {
      NothingTaken(trace, acts, notice);
    } else {
      TakenIff(trace, acts, n - 1, notice);
      InvRun(trace, acts, n - 1);
      TakesStep(trace[n - 1], acts[n - 1], notice);
      TakenMore(trace, acts, n, notice, false);
      TakenMore(trace, acts, n, notice, true);
    }
  }

  lemma NothingTaken(trace: seq<State>, acts: seq<Action>, notice: Notice)
    requires IsRun(trace, acts)
    ensures notice !in trace[0].lost && notice !in Flat(trace[0].delivered)
    ensures !Taken(trace, acts, 0, notice, false) && !Taken(trace, acts, 0, notice, true)
  {
  }

  /** The notice of a table nobody ever claims is never discarded. It is reported, once, exactly
      when a result that somebody gets takes it, and lost exactly when another takes it: a
      notebook's SQL cell, or a markdown cell of a notebook whose own result gets to nobody. */
  lemma UnclaimedLostIff(trace: seq<State>, acts: seq<Action>, n: nat, notice: Notice)
    requires IsRun(trace, acts) && n <= |acts| && !EverClaimed(trace[0], notice.key)
    ensures notice !in trace[n].discarded
    ensures notice in trace[n].lost <==> Taken(trace, acts, n, notice, false)
    ensures notice in Flat(trace[n].delivered) <==> Taken(trace, acts, n, notice, true)
    ensures Count(Flat(trace[n].delivered), notice) + Count(trace[n].lost, notice) <= 1
  {
    hide Do, Enabled, Takes, Taken, Flat, Count;
    InvRun(trace, acts, n);
    TakenIff(trace, acts, n, notice);
    NoticesConserved(trace, acts, n, notice);
  }

  /** When a result is built, every such notice queued so far is in it or an earlier one, or in
      one that nobody gets, or arrived after its last poll. */
  lemma ResultReportsAll(trace: seq<State>, acts: seq<Action>, n: nat, notice: Notice)
    requires IsRun(trace, acts) && n < |acts| && acts[n].Finish? && !trace[n].drain.who.Consumer?
    requires notice in trace[n].produced && !EverClaimed(trace[0], notice.key)
    ensures || notice in Flat(trace[n + 1].delivered) || notice in trace[n].queue
            || Taken(trace, acts, n + 1, notice, false)
  {
    hide Taken;
    InvRun(trace, acts, n + 1);
    UnclaimedLostIff(trace, acts, n + 1, notice);
    var s := trace[n + 1];
    NoticesConserved(trace, acts, n + 1, notice);
    CountIn(s.queue, notice);
    CountIn(s.discarded, notice);
    CountIn(s.lost, notice);
    CountIn(Flat(s.delivered), notice);
  }

  /** The notice of a table that is first touched on its own is reported or lost by who drains it
      next: a notebook whose only cell is a SQL query loses it. */
  lemma NextDrainDecides(key: string, who: Drainer) returns (trace: seq<State>, acts: seq<Action>)
    requires !who.Consumer?
    ensures IsRun(trace, acts) && trace[0].own == map[]
    ensures acts == [UserMount(key), StartDrain(who), Poll, PollNull, Finish]
    ensures who in {Result, MarkdownCell(true)} ==>
              trace[5].delivered == [[Notice(0, key, User)]] && trace[5].lost == []
    ensures who in {SqlCell, MarkdownCell(false)} ==>
              trace[5].delivered == [] && trace[5].lost == [Notice(0, key, User)]
  {
    trace, acts := [Start(map[])], [];
    trace, acts := RunMore(trace, acts, UserMount(key));
    trace, acts := DrainsOne(trace, acts, who, Notice(0, key, User));
  }
}
