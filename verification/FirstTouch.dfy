/** Concurrent first touch of lakehouse tables (OneLakeCatalog.loadTable).

    Any number of threads interleave `loadTable` on any identifiers. Each thread is
    a stack of calls: the SQL that `materialize` runs re-enters the catalog on the
    same thread, so a call in progress can have a nested one on top of it. Every
    shared read or write of the Scala code is one step of the machine; Java monitors
    are re-entrant. Session-catalog entries are never dropped. */
module FirstTouch {
  import opened Text

  datatype Ident = Ident(ns: string, name: string)

  /** The session catalog's own key: Spark normalizes both parts to lower case. */
  datatype TableKey = TableKey(ns: string, name: string)

  function KeyOf(ident: Ident): TableKey {
    TableKey(Lower(ident.ns), Lower(ident.name))
  }

  /** The key of `materializeLocks`. It is coarser than the catalog's key: a dot
      inside a name can make two tables share a monitor. */
  function LockName(key: TableKey): string {
    key.ns + "." + key.name
  }

  /** Where one `loadTable` call stands. */
  datatype Pc =
    | Start                     // about to try super.loadTable
    | Missed                    // it threw NoSuchTableException
    | Resolved                  // resolveOneLake found the table
    | Waiting(lock: nat)        // has the monitor, wants to enter it
    | Entered(lock: nat)        // inside, before the re-check
    | Materializing(lock: nat)  // inside materialize, SQL not finished
    | Created(lock: nat)        // the SQL registered the table, notice not queued yet
    | Leaving(lock: nat)        // about to leave the monitor normally
    | Failing(lock: nat)        // about to leave it with an exception
    | Reload                    // the super.loadTable after the monitor
    | Returned
    | Threw
  {
    predicate Holds() {
      Entered? || InMaterialize() || Leaving? || Failing?
    }

    predicate InMaterialize() {
      Materializing? || Created?
    }

    /** Knows its monitor object. */
    predicate HasLock() {
      Waiting? || Holds()
    }

    predicate Done() {
      Returned? || Threw?
    }

    /** A call that never got past resolveOneLake. */
    predicate Shallow() {
      Start? || Missed? || Done()
    }
  }

  /** The calls of one thread, innermost first. */
  datatype Stack = Idle | InCall(key: TableKey, pc: Pc, caller: Stack)

  /** `reentrant` is the thread-local flag of the companion object. */
  datatype Thread = Thread(stack: Stack, reentrant: bool)

  /** The outermost call. */
  function Outer(st: Stack): (r: Stack)
    ensures r.InCall? <==> st.InCall?
  {
    if st.Idle? || st.caller.Idle? then st else Outer(st.caller)
  }

  /** One successful materialization. */
  datatype Made = Made(thread: nat, key: TableKey)

  datatype State = State(
    threads: map<nat, Thread>,
    catalog: set<TableKey>,         // the session catalog
    locks: map<string, nat>,        // materializeLocks: name -> monitor object
    nextLock: nat,
    owner: map<nat, nat>,           // monitor -> thread inside it
    queue: seq<TableKey>,           // what was added to the Materialized queue, oldest first
    made: seq<Made>)                // history of successful materializations

  datatype Action =
    | Call(ident: Ident)            // loadTable is called (by user code, or by materialize's SQL)
    | Load
    | Resolve(found: bool)          // what OneLake and its caches answer
    | GetLock
    | Enter
    | Recheck
    | Create(ifNotExists: bool)     // the SQL commits; SHALLOW CLONE has no IF NOT EXISTS
    | Fail                          // the SQL throws
    | Announce                      // queue the notice, clear the flag
    | Leave
    | LoadAgain
    | Pop                           // the call ends, its caller continues
    | UserCreate(key: TableKey)     // a CREATE TABLE outside loadTable

  predicate At(s: State, t: nat) {
    t in s.threads && s.threads[t].stack.InCall?
  }

  function PcOf(s: State, t: nat): Pc
    requires At(s, t)
  {
    s.threads[t].stack.pc
  }

  /** A monitor admits one thread, and that thread again. */
  predicate MayEnter(s: State, t: nat, lock: nat) {
    lock !in s.owner || s.owner[lock] == t
  }

  predicate Enabled(s: State, t: nat, a: Action) {
    t in s.threads &&
    match a
    case UserCreate(_) => true
    case Call(_) => !At(s, t) || PcOf(s, t).Materializing?
    case Load => At(s, t) && PcOf(s, t).Start?
    case Resolve(_) => At(s, t) && PcOf(s, t).Missed?
    case GetLock => At(s, t) && PcOf(s, t).Resolved?
    case Enter => At(s, t) && PcOf(s, t).Waiting? && MayEnter(s, t, PcOf(s, t).lock)
    case Recheck => At(s, t) && PcOf(s, t).Entered?
    case Create(ifNotExists) =>
      At(s, t) && PcOf(s, t).Materializing? && (ifNotExists || s.threads[t].stack.key !in s.catalog)
    case Fail => At(s, t) && PcOf(s, t).Materializing?
    case Announce => At(s, t) && PcOf(s, t).Created?
    case Leave => At(s, t) && (PcOf(s, t).Leaving? || PcOf(s, t).Failing?)
    case LoadAgain => At(s, t) && PcOf(s, t).Reload?
    case Pop => At(s, t) && PcOf(s, t).Done()
  }

  function GoTo(s: State, t: nat, pc: Pc, flag: bool): State
    requires At(s, t)
  {
    s.(threads := s.threads[t := Thread(s.threads[t].stack.(pc := pc), flag)])
  }

  function Do(s: State, t: nat, a: Action): State
    requires Enabled(s, t, a)
  {
    var th := s.threads[t];
    match a
    case UserCreate(key) => s.(catalog := s.catalog + {key})
    case Call(ident) => s.(threads := s.threads[t := th.(stack := InCall(KeyOf(ident), Start, th.stack))])
    case Load => GoTo(s, t, if th.stack.key in s.catalog then Returned else Missed, th.reentrant)
    // resolveOneLake answers None while this thread is inside materialize
    case Resolve(found) => GoTo(s, t, if found && !th.reentrant then Resolved else Threw, th.reentrant)
    case GetLock =>
      var name := LockName(th.stack.key);
      if name in s.locks then GoTo(s, t, Waiting(s.locks[name]), th.reentrant)
      else GoTo(s, t, Waiting(s.nextLock), th.reentrant)
           .(locks := s.locks[name := s.nextLock], nextLock := s.nextLock + 1)
    case Enter =>
      var l := th.stack.pc.lock;
      GoTo(s, t, Entered(l), th.reentrant).(owner := s.owner[l := t])
    case Recheck =>
      var l := th.stack.pc.lock;
      if th.stack.key in s.catalog then GoTo(s, t, Leaving(l), th.reentrant)
      else GoTo(s, t, Materializing(l), true)
    case Create(_) =>
      var key := th.stack.key;
      GoTo(s, t, Created(th.stack.pc.lock), th.reentrant)
      .(catalog := s.catalog + {key}, made := s.made + [Made(t, key)])
    case Fail => GoTo(s, t, Failing(th.stack.pc.lock), false)
    case Announce => GoTo(s, t, Leaving(th.stack.pc.lock), false).(queue := s.queue + [th.stack.key])
    case Leave =>
      GoTo(s, t, if th.stack.pc.Failing? then Threw else Reload, th.reentrant).(owner := s.owner - {th.stack.pc.lock})
    case LoadAgain => GoTo(s, t, if th.stack.key in s.catalog then Returned else Threw, th.reentrant)
    case Pop => s.(threads := s.threads[t := th.(stack := th.stack.caller)])
  }

  predicate Init(s: State) {
    && (forall t <- s.threads :: s.threads[t] == Thread(Idle, false))
    && s.locks == map[] && s.owner == map[] && s.queue == [] && s.made == []
  }

  datatype Move = Move(t: nat, a: Action)

  /** `trace` is the run that `moves` makes from trace[0]. */
  ghost predicate IsRun(trace: seq<State>, moves: seq<Move>) {
    && |trace| == |moves| + 1
    && Init(trace[0])
    && forall i | 0 <= i < |moves| ::
         Enabled(trace[i], moves[i].t, moves[i].a) && trace[i + 1] == Do(trace[i], moves[i].t, moves[i].a)
  }

  // ---- the invariant ----

  predicate MadeKey(made: seq<Made>, key: TableKey) {
    exists i | 0 <= i < |made| :: made[i].key == key
  }

  /** Only the outermost call can be past resolveOneLake, and a nested one sits on a
      materialize whose SQL has not finished. */
  predicate StackOk(th: Thread) {
    match th.stack
    case Idle => !th.reentrant
    case InCall(_, pc, Idle) => th.reentrant <==> pc.InMaterialize()
    case InCall(_, pc, InCall(_, pc0, below)) => below.Idle? && pc0.Materializing? && pc.Shallow() && th.reentrant
  }

  /** The outermost call's monitor is the one its key is mapped to, and the monitor
      table says who is inside. */
  predicate LockOk(s: State, t: nat, c: Stack) {
    c.InCall? && c.pc.HasLock() ==>
      && LockName(c.key) in s.locks && s.locks[LockName(c.key)] == c.pc.lock
      && (c.pc.Holds() ==> c.pc.lock in s.owner && s.owner[c.pc.lock] == t)
  }

  /** What the catalog, the history and the queue hold at each stage of a call. */
  predicate CatalogOk(s: State, c: Stack) {
    c.InCall? ==>
      && (c.pc.Materializing? ==> !MadeKey(s.made, c.key))
      && (c.pc.Created? ==> MadeKey(s.made, c.key) && c.key !in s.queue)
      && (c.pc.Created? || c.pc.Leaving? || c.pc.Reload? || c.pc.Returned? ==> c.key in s.catalog)
  }

  predicate ThreadOk(s: State, t: nat, th: Thread) {
    && StackOk(th)
    && LockOk(s, t, Outer(th.stack))
    && CatalogOk(s, Outer(th.stack))
  }

  ghost predicate LocksOk(s: State) {
    && (forall n <- s.locks :: s.locks[n] < s.nextLock)
    && (forall n <- s.locks, m <- s.locks :: s.locks[n] == s.locks[m] ==> n == m)
  }

  predicate HeldBy(s: State, l: nat, t: nat) {
    t in s.threads &&
    var c := Outer(s.threads[t].stack);
    c.InCall? && c.pc.Holds() && c.pc.lock == l
  }

  /** Thread t has run the SQL for `key` and will queue its notice. */
  predicate Announcing(s: State, t: nat, key: TableKey) {
    At(s, t) && s.threads[t].stack.key == key && PcOf(s, t).Created?
  }

  ghost predicate HistoryOk(s: State) {
    && (forall i, j :: 0 <= i < j < |s.made| ==> s.made[i].key != s.made[j].key)
    && (forall i :: 0 <= i < |s.made| ==> s.made[i].key in s.catalog)
    && (forall i, j :: 0 <= i < j < |s.queue| ==> s.queue[i] != s.queue[j])
    && (forall i :: 0 <= i < |s.queue| ==> MadeKey(s.made, s.queue[i]))
  }

  /** A materialization whose notice is not queued is still inside materialize. */
  ghost predicate AnnouncedOk(s: State) {
    forall m <- s.made :: m.key in s.queue || Announcing(s, m.thread, m.key)
  }

  ghost predicate Inv(s: State) {
    && (forall t <- s.threads :: ThreadOk(s, t, s.threads[t]))
    && (forall l <- s.owner :: HeldBy(s, l, s.owner[l]))
    && LocksOk(s)
    && HistoryOk(s)
  }

  /** Two threads inside a monitor for the same key are the same thread: the same key
      has the same monitor. */
  lemma OneHolderPerKey(s: State, t: nat, u: nat)
    requires Inv(s) && t in s.threads && u in s.threads
    requires var c := Outer(s.threads[t].stack); c.InCall? && c.pc.Holds()
    requires var c := Outer(s.threads[u].stack); c.InCall? && c.pc.Holds()
    requires Outer(s.threads[t].stack).key == Outer(s.threads[u].stack).key
    ensures t == u
  {
  }

  lemma MadeAppend(made: seq<Made>, m: Made)
    ensures forall k :: MadeKey(made + [m], k) <==> MadeKey(made, k) || k == m.key
  {
    assert (made + [m])[|made|] == m;
    forall k | MadeKey(made, k)
      ensures MadeKey(made + [m], k)
    {
      var i :| 0 <= i < |made| && made[i].key == k;
      assert (made + [m])[i].key == k;
    }
  }

  predicate AtBottom(s: State, t: nat) {
    t in s.threads && (s.threads[t].stack.InCall? ==> s.threads[t].stack.caller.Idle?)
  }

  /** Steps that make no monitor, no table and no notice leave those as they are. */
  lemma RestKept(s: State, t: nat, a: Action)
    requires LocksOk(s) && HistoryOk(s) && Enabled(s, t, a)
    requires !a.GetLock? && !a.Create? && !a.Announce?
    ensures var s' := Do(s, t, a);
            && LocksOk(s') && HistoryOk(s')
            && s'.locks == s.locks && s'.made == s.made && s'.queue == s.queue && s.catalog <= s'.catalog
  {
    hide MadeKey;
  }

  /** A call nested in materialize never gets past resolveOneLake. */
  lemma InvNested(s: State, t: nat, a: Action)
    requires Inv(s) && Enabled(s, t, a) && !AtBottom(s, t)
    ensures Inv(Do(s, t, a))
  {
    hide LocksOk, HistoryOk, MadeKey;
    RestKept(s, t, a);
    var s' := Do(s, t, a);
    assert ThreadOk(s, t, s.threads[t]);
    assert a.Load? || a.Resolve? || a.Pop? || a.UserCreate?;
    assert s'.locks == s.locks && s'.owner == s.owner && s'.made == s.made && s'.queue == s.queue;
    forall u <- s'.threads
      ensures ThreadOk(s', u, s'.threads[u])
      ensures Outer(s'.threads[u].stack) == Outer(s.threads[u].stack)
    {
      assert ThreadOk(s, u, s.threads[u]);
    }
    forall l <- s'.owner
      ensures HeldBy(s', l, s'.owner[l])
    {
      assert HeldBy(s, l, s.owner[l]);
    }
  }

  lemma InvCallPop(s: State, t: nat, a: Action)
    requires Inv(s) && Enabled(s, t, a) && AtBottom(s, t)
    requires a.Call? || a.Pop? || a.UserCreate?
    ensures Inv(Do(s, t, a))
  {
    hide LocksOk, HistoryOk, MadeKey;
    RestKept(s, t, a);
    var s' := Do(s, t, a);
    forall u <- s'.threads
      ensures ThreadOk(s', u, s'.threads[u])
    {
      assert ThreadOk(s, u, s.threads[u]);
    }
    forall l <- s'.owner
      ensures HeldBy(s', l, s'.owner[l])
    {
      assert l in s.owner ==> HeldBy(s, l, s.owner[l]);
    }
  }

  lemma InvLookups(s: State, t: nat, a: Action)
    requires Inv(s) && Enabled(s, t, a) && AtBottom(s, t)
    requires a.Load? || a.Resolve? || a.LoadAgain?
    ensures Inv(Do(s, t, a))
  {
    hide LocksOk, HistoryOk, MadeKey;
    RestKept(s, t, a);
    var s' := Do(s, t, a);
    forall u <- s'.threads
      ensures ThreadOk(s', u, s'.threads[u])
    {
      assert ThreadOk(s, u, s.threads[u]);
    }
    forall l <- s'.owner
      ensures HeldBy(s', l, s'.owner[l])
    {
      assert l in s.owner ==> HeldBy(s, l, s.owner[l]);
    }
  }

  lemma GetLockLocks(s: State, t: nat, a: Action)
    requires Inv(s) && Enabled(s, t, a) && a.GetLock?
    ensures LocksOk(Do(s, t, a)) && HistoryOk(Do(s, t, a))
    ensures forall n <- s.locks :: n in Do(s, t, a).locks && Do(s, t, a).locks[n] == s.locks[n]
  {
    hide ThreadOk, HeldBy;
  }

  lemma GetLockThread(s: State, t: nat, a: Action, u: nat)
    requires Inv(s) && Enabled(s, t, a) && AtBottom(s, t) && a.GetLock? && u in s.threads
    ensures ThreadOk(Do(s, t, a), u, Do(s, t, a).threads[u])
  {
    hide HeldBy, HistoryOk, MadeKey;
    assert ThreadOk(s, u, s.threads[u]);
    GetLockLocks(s, t, a);
  }

  lemma InvGetLock(s: State, t: nat, a: Action)
    requires Inv(s) && Enabled(s, t, a) && AtBottom(s, t) && a.GetLock?
    ensures Inv(Do(s, t, a))
  {
    hide ThreadOk, LocksOk, HistoryOk;
    var s' := Do(s, t, a);
    GetLockLocks(s, t, a);
    forall u <- s'.threads
      ensures ThreadOk(s', u, s'.threads[u])
    {
      GetLockThread(s, t, a, u);
    }
    forall l <- s'.owner
      ensures HeldBy(s', l, s'.owner[l])
    {
      assert HeldBy(s, l, s.owner[l]);
    }
  }

  lemma InvEnter(s: State, t: nat, a: Action)
    requires Inv(s) && Enabled(s, t, a) && AtBottom(s, t) && a.Enter?
    ensures Inv(Do(s, t, a))
  {
    hide LocksOk, HistoryOk, MadeKey;
    RestKept(s, t, a);
    var s' := Do(s, t, a);
    forall u <- s'.threads
      ensures ThreadOk(s', u, s'.threads[u])
    {
      assert ThreadOk(s, u, s.threads[u]);
    }
    forall l <- s'.owner
      ensures HeldBy(s', l, s'.owner[l])
    {
      assert l in s.owner ==> HeldBy(s, l, s.owner[l]);
    }
  }

  lemma NotMade(s: State, key: TableKey)
    requires HistoryOk(s) && key !in s.catalog
    ensures !MadeKey(s.made, key)
  {
  }

  lemma InvRecheck(s: State, t: nat, a: Action)
    requires Inv(s) && Enabled(s, t, a) && AtBottom(s, t) && a.Recheck?
    ensures Inv(Do(s, t, a))
  {
    hide LocksOk, HistoryOk, MadeKey;
    RestKept(s, t, a);
    var s' := Do(s, t, a);
    assert ThreadOk(s, t, s.threads[t]);
    assert s'.locks == s.locks && s'.owner == s.owner && s'.catalog == s.catalog;
    assert s'.made == s.made && s'.queue == s.queue;
    if s.threads[t].stack.key !in s.catalog {
      NotMade(s, s.threads[t].stack.key);
    }
    forall u <- s'.threads
      ensures ThreadOk(s', u, s'.threads[u])
    {
      assert ThreadOk(s, u, s.threads[u]);
    }
  }

  lemma CreateHistory(s: State, t: nat, a: Action)
    requires Inv(s) && Enabled(s, t, a) && AtBottom(s, t) && a.Create?
    ensures LocksOk(Do(s, t, a)) && HistoryOk(Do(s, t, a))
    ensures !MadeKey(s.made, s.threads[t].stack.key) && s.threads[t].stack.key !in s.queue
    ensures forall k :: MadeKey(Do(s, t, a).made, k) <==> MadeKey(s.made, k) || k == s.threads[t].stack.key
  {
    hide HeldBy;
    var key := s.threads[t].stack.key;
    assert ThreadOk(s, t, s.threads[t]);
    MadeAppend(s.made, Made(t, key));
  }

  lemma InvCreate(s: State, t: nat, a: Action)
    requires Inv(s) && Enabled(s, t, a) && AtBottom(s, t) && a.Create?
    ensures Inv(Do(s, t, a))
  {
    hide LocksOk, HistoryOk, MadeKey;
    var key := s.threads[t].stack.key;
    var s' := Do(s, t, a);
    CreateHistory(s, t, a);
    forall u <- s'.threads
      ensures ThreadOk(s', u, s'.threads[u])
    {
      var c := Outer(s.threads[u].stack);
      if u != t && c.InCall? && c.pc.Holds() && c.key == key {
        OneHolderPerKey(s, t, u);
      }
    }
  }

  lemma AnnounceHistory(s: State, t: nat, a: Action)
    requires Inv(s) && Enabled(s, t, a) && AtBottom(s, t) && a.Announce?
    ensures LocksOk(Do(s, t, a)) && HistoryOk(Do(s, t, a))
  {
    hide HeldBy, MadeKey;
    assert ThreadOk(s, t, s.threads[t]);
  }

  lemma InvAnnounce(s: State, t: nat, a: Action)
    requires Inv(s) && Enabled(s, t, a) && AtBottom(s, t) && a.Announce?
    ensures Inv(Do(s, t, a))
  {
    hide LocksOk, HistoryOk, MadeKey;
    AnnounceHistory(s, t, a);
    var s' := Do(s, t, a);
    forall u <- s'.threads
      ensures ThreadOk(s', u, s'.threads[u])
    {
      var c := Outer(s.threads[u].stack);
      if u != t && c.InCall? && c.pc.Holds() && c.key == s.threads[t].stack.key {
        OneHolderPerKey(s, t, u);
      }
    }
  }

  lemma InvLeave(s: State, t: nat, a: Action)
    requires Inv(s) && Enabled(s, t, a) && AtBottom(s, t)
    requires a.Leave? || a.Fail?
    ensures Inv(Do(s, t, a))
  {
    hide LocksOk, HistoryOk, MadeKey;
    RestKept(s, t, a);
    var s' := Do(s, t, a);
    forall u <- s'.threads
      ensures ThreadOk(s', u, s'.threads[u])
    {
      assert ThreadOk(s, u, s.threads[u]);
    }
    forall l <- s'.owner
      ensures HeldBy(s', l, s'.owner[l])
    {
      assert l in s.owner ==> HeldBy(s, l, s.owner[l]);
    }
  }

  lemma InvStep(s: State, t: nat, a: Action)
    requires Inv(s) && Enabled(s, t, a)
    ensures Inv(Do(s, t, a))
  {
    if !AtBottom(s, t) {
      InvNested(s, t, a);
    } else {
      match a
      case Call(_) => InvCallPop(s, t, a);
      case Pop => InvCallPop(s, t, a);
      case UserCreate(_) => InvCallPop(s, t, a);
      case Load => InvLookups(s, t, a);
      case Resolve(_) => InvLookups(s, t, a);
      case LoadAgain => InvLookups(s, t, a);
      case GetLock => InvGetLock(s, t, a);
      case Enter => InvEnter(s, t, a);
      case Recheck => InvRecheck(s, t, a);
      case Create(_) => InvCreate(s, t, a);
      case Announce => InvAnnounce(s, t, a);
      case Leave => InvLeave(s, t, a);
      case Fail => InvLeave(s, t, a);
    }
  }

  lemma AnnouncedStep(s: State, t: nat, a: Action)
    requires Inv(s) && AnnouncedOk(s) && Enabled(s, t, a)
    ensures AnnouncedOk(Do(s, t, a))
  {
    hide LocksOk, HistoryOk, MadeKey, HeldBy, ThreadOk;
    var s' := Do(s, t, a);
    forall m <- s'.made
      ensures m.key in s'.queue || Announcing(s', m.thread, m.key)
    {
      if m in s.made && m.thread == t {
        assert m.key in s.queue || Announcing(s, t, m.key);
      }
    }
  }

  lemma {:induction false} InvRun(trace: seq<State>, moves: seq<Move>, n: nat)
    requires IsRun(trace, moves) && n <= |moves|
    ensures Inv(trace[n]) && AnnouncedOk(trace[n])
  {
    if n == 0 {
    } else {
      InvRun(trace, moves, n - 1);
      InvStep(trace[n - 1], moves[n - 1].t, moves[n - 1].a);
      AnnouncedStep(trace[n - 1], moves[n - 1].t, moves[n - 1].a);
    }
  }

  // ---- what every run satisfies ----

  /** Thread t is inside `materialize` for `key`. */
  predicate Inside(s: State, t: nat, key: TableKey) {
    t in s.threads &&
    var c := Outer(s.threads[t].stack);
    c.InCall? && c.pc.InMaterialize() && c.key == key
  }

  /** In every reachable state: a table is materialized at most once, and so is its
      notice queued; no two threads are inside materialize for one table; no thread
      is inside two monitors. */
  lemma FirstTouchSafety(trace: seq<State>, moves: seq<Move>, n: nat)
    requires IsRun(trace, moves) && n <= |moves|
    ensures forall i, j :: 0 <= i < j < |trace[n].made| ==> trace[n].made[i].key != trace[n].made[j].key
    ensures forall i, j :: 0 <= i < j < |trace[n].queue| ==> trace[n].queue[i] != trace[n].queue[j]
    ensures forall i :: 0 <= i < |trace[n].queue| ==> MadeKey(trace[n].made, trace[n].queue[i])
    ensures forall t, u, key :: Inside(trace[n], t, key) && Inside(trace[n], u, key) ==> t == u
    ensures forall l, m ::
              l in trace[n].owner && m in trace[n].owner && trace[n].owner[l] == trace[n].owner[m] ==> l == m
  {
    InvRun(trace, moves, n);
    var s := trace[n];
    forall t, u, key | Inside(s, t, key) && Inside(s, u, key)
      ensures t == u
    {
      OneHolderPerKey(s, t, u);
    }
    forall l, m | l in s.owner && m in s.owner && s.owner[l] == s.owner[m]
      ensures l == m
    {
      assert HeldBy(s, l, s.owner[l]) && HeldBy(s, m, s.owner[m]);
    }
  }

  /** A call that resolved on OneLake and did not fail inside materialize finds its
      table registered: its last super.loadTable returns, and whatever loadTable
      returns is in the session catalog. */
  lemma ResolvedCallReturns(trace: seq<State>, moves: seq<Move>, n: nat)
    requires IsRun(trace, moves) && n < |moves|
    ensures moves[n].a.LoadAgain? ==> PcOf(trace[n + 1], moves[n].t).Returned?
    ensures forall t :: At(trace[n], t) && Outer(trace[n].threads[t].stack).pc.Returned? ==>
              Outer(trace[n].threads[t].stack).key in trace[n].catalog
  {
    InvRun(trace, moves, n);
    assert ThreadOk(trace[n], moves[n].t, trace[n].threads[moves[n].t]);
    forall t | At(trace[n], t) && Outer(trace[n].threads[t].stack).pc.Returned?
      ensures Outer(trace[n].threads[t].stack).key in trace[n].catalog
    {
      assert ThreadOk(trace[n], t, trace[n].threads[t]);
    }
  }

  /** What makes an outermost call throw: OneLake has no such table, or the SQL failed. */
  predicate Spoils(s: State, t: nat, a: Action) {
    (a == Resolve(false) || a.Fail?) && AtBottom(s, t)
  }

  /** The outermost call of t stands where only such a step leads. */
  predicate Spoilt(s: State, t: nat) {
    At(s, t) && (Outer(s.threads[t].stack).pc.Threw? || Outer(s.threads[t].stack).pc.Failing?)
  }

  /** From n, where t made an outermost call, to k it is in that call. */
  ghost predicate InOneCall(trace: seq<State>, moves: seq<Move>, n: nat, k: nat, t: nat)
    requires IsRun(trace, moves)
  {
    && n < k <= |moves| && moves[n].t == t && moves[n].a.Call?
    && t in trace[n].threads && trace[n].threads[t].stack.Idle?
    && forall i :: n < i < k ==> At(trace[i], t) && !(moves[i].t == t && moves[i].a.Pop? && AtBottom(trace[i], t))
  }

  lemma SpoiltStep(s: State, u: nat, a: Action, t: nat)
    requires Inv(s) && Enabled(s, u, a) && At(s, t) && !(u == t && a.Pop? && AtBottom(s, t))
    ensures At(Do(s, u, a), t)
    ensures Spoilt(Do(s, u, a), t) ==> Spoilt(s, t) || (u == t && Spoils(s, t, a))
  {
    hide LocksOk, HistoryOk;
    assert ThreadOk(s, t, s.threads[t]);
  }

  /** A call throws only when OneLake has no such table or its own SQL fails: if it resolves and the
      SQL goes through, it returns, whatever the other threads do meanwhile. */
  lemma {:induction false} CallThrowsOnlyIfSpoilt(trace: seq<State>, moves: seq<Move>, n: nat, k: nat, t: nat)
    requires IsRun(trace, moves) && InOneCall(trace, moves, n, k, t)
    ensures At(trace[k], t)
    ensures Spoilt(trace[k], t) ==> exists i :: n < i < k && moves[i].t == t && Spoils(trace[i], t, moves[i].a)
    decreases k
  {
    hide Enabled, Do, Inv, Spoils, Spoilt, Init;
    if k == n + 1 {
      CallIsNew(trace[n], t, moves[n].a);
    } else {
      assert InOneCall(trace, moves, n, k - 1, t);
      CallThrowsOnlyIfSpoilt(trace, moves, n, k - 1, t);
      InvRun(trace, moves, k - 1);
      SpoiltStep(trace[k - 1], moves[k - 1].t, moves[k - 1].a, t);
    }
  }

  lemma CallIsNew(s: State, t: nat, a: Action)
    requires Enabled(s, t, a) && a.Call? && s.threads[t].stack.Idle?
    ensures At(Do(s, t, a), t) && !Spoilt(Do(s, t, a), t)
  {
  }

  /** Thread t takes these steps one after the other. */
  ghost predicate Steps(states: seq<State>, t: nat, acts: seq<Action>) {
    && |states| == |acts| + 1
    && forall i :: 0 <= i < |acts| ==> Enabled(states[i], t, acts[i]) && states[i + 1] == Do(states[i], t, acts[i])
  }

  lemma OneStep(states: seq<State>, t: nat, acts: seq<Action>, a: Action, s: State)
    requires Steps(states, t, acts) && Enabled(states[|acts|], t, a) && s == Do(states[|acts|], t, a)
    ensures Steps(states + [s], t, acts + [a])
  {
    hide Enabled, Do;
  }

  /** s, with thread t in one call that stands here. */
  function With(s: State, t: nat, key: TableKey, pc: Pc, flag: bool): State {
    s.(threads := s.threads[t := Thread(InCall(key, pc, Idle), flag)])
  }

  /** A thread that is inside nothing, and a table that is not registered and whose monitor is free. */
  ghost predicate Untouched(s: State, t: nat, key: TableKey) {
    && Inv(s) && t in s.threads && s.threads[t].stack.Idle? && key !in s.catalog
    && (LockName(key) in s.locks ==> s.locks[LockName(key)] !in s.owner)
  }

  /** The monitor of a key, made if there is none. */
  function WithLock(s: State, key: TableKey): State {
    if LockName(key) in s.locks then s
    else s.(locks := s.locks[LockName(key) := s.nextLock], nextLock := s.nextLock + 1)
  }

  function LockOf(s: State, key: TableKey): nat {
    if LockName(key) in s.locks then s.locks[LockName(key)] else s.nextLock
  }

  lemma OwnedIsOld(s: State, l: nat)
    requires Inv(s) && l in s.owner
    ensures l < s.nextLock
  {
    assert HeldBy(s, l, s.owner[l]) && ThreadOk(s, s.owner[l], s.threads[s.owner[l]]);
  }

  lemma LockIsFree(s: State, t: nat, key: TableKey)
    requires Untouched(s, t, key)
    ensures LockOf(s, key) !in s.owner && !s.threads[t].reentrant
  {
    assert ThreadOk(s, t, s.threads[t]);
    forall l <- s.owner
      ensures l < s.nextLock
    {
      OwnedIsOld(s, l);
    }
  }

  /** Up to the monitor. */
  lemma TouchToLock(s: State, t: nat, ident: Ident) returns (states: seq<State>)
    requires Untouched(s, t, KeyOf(ident))
    ensures Steps(states, t, [Call(ident), Load, Resolve(true), GetLock]) && states[0] == s
    ensures var key := KeyOf(ident);
            states[4] == With(WithLock(s, key), t, key, Waiting(LockOf(s, key)), false)
  {
    LockIsFree(s, t, KeyOf(ident));
    hide Inv, KeyOf, LockName;
    var key := KeyOf(ident);
    var s1, s2, s3 := With(s, t, key, Start, false), With(s, t, key, Missed, false), With(s, t, key, Resolved, false);
    var s4 := With(WithLock(s, key), t, key, Waiting(LockOf(s, key)), false);
    OneStep([s], t, [], Call(ident), s1);
    OneStep([s, s1], t, [Call(ident)], Load, s2);
    OneStep([s, s1, s2], t, [Call(ident), Load], Resolve(true), s3);
    LockIsMade(s, t, key);
    hide Enabled, Do, WithLock, With;
    OneStep([s, s1, s2, s3], t, [Call(ident), Load, Resolve(true)], GetLock, s4);
    states := [s, s1, s2, s3, s4];
  }

  lemma LockIsMade(s: State, t: nat, key: TableKey)
    requires t in s.threads && LockOf(s, key) !in s.owner
    ensures Enabled(With(s, t, key, Resolved, false), t, GetLock)
    ensures Do(With(s, t, key, Resolved, false), t, GetLock)
         == With(WithLock(s, key), t, key, Waiting(LockOf(s, key)), false)
  {
  }

  /** From there to the SQL. */
  lemma LockToSql(s: State, t: nat, key: TableKey, l: nat) returns (states: seq<State>)
    requires t in s.threads && l !in s.owner && key !in s.catalog
    ensures Steps(states, t, [Enter, Recheck]) && states[0] == With(s, t, key, Waiting(l), false)
    ensures states[2] == With(s, t, key, Materializing(l), true).(owner := s.owner[l := t])
  {
    var s0 := With(s, t, key, Waiting(l), false);
    var s1 := With(s, t, key, Entered(l), false).(owner := s.owner[l := t]);
    var s2 := With(s, t, key, Materializing(l), true).(owner := s.owner[l := t]);
    OneStep([s0], t, [], Enter, s1);
    OneStep([s0, s1], t, [Enter], Recheck, s2);
    states := [s0, s1, s2];
  }

  lemma CreateIs(s: State, t: nat, key: TableKey, l: nat)
    requires t in s.threads && key !in s.catalog
    ensures var s0 := With(s, t, key, Materializing(l), true);
            && Enabled(s0, t, Create(false))
            && Do(s0, t, Create(false))
            == With(s.(catalog := s.catalog + {key}, made := s.made + [Made(t, key)]), t, key, Created(l), true)
  {
  }

  lemma AnnounceIs(s: State, t: nat, key: TableKey, l: nat)
    requires t in s.threads
    ensures var s0 := With(s, t, key, Created(l), true);
            && Enabled(s0, t, Announce)
            && Do(s0, t, Announce) == With(s.(queue := s.queue + [key]), t, key, Leaving(l), false)
  {
  }

  lemma LeaveIs(s: State, t: nat, key: TableKey, l: nat)
    requires t in s.threads
    ensures var s0 := With(s, t, key, Leaving(l), false);
            Enabled(s0, t, Leave) && Do(s0, t, Leave) == With(s.(owner := s.owner - {l}), t, key, Reload, false)
  {
  }

  lemma LoadAgainIs(s: State, t: nat, key: TableKey)
    requires t in s.threads && key in s.catalog
    ensures var s0 := With(s, t, key, Reload, false);
            Enabled(s0, t, LoadAgain) && Do(s0, t, LoadAgain) == With(s, t, key, Returned, false)
  {
  }

  /** And to the end, when that goes through. */
  lemma SqlToEnd(s: State, t: nat, key: TableKey, l: nat) returns (states: seq<State>)
    requires t in s.threads && l in s.owner && key !in s.catalog
    ensures Steps(states, t, [Create(false), Announce, Leave, LoadAgain])
    ensures states[0] == With(s, t, key, Materializing(l), true)
    ensures states[4] == With(s, t, key, Returned, false)
                         .(catalog := s.catalog + {key}, made := s.made + [Made(t, key)], queue := s.queue + [key],
                           owner := s.owner - {l})
  {
    var more := s.(catalog := s.catalog + {key}, made := s.made + [Made(t, key)]);
    var told := more.(queue := s.queue + [key]);
    var left := told.(owner := s.owner - {l});
    CreateIs(s, t, key, l);
    AnnounceIs(more, t, key, l);
    LeaveIs(told, t, key, l);
    LoadAgainIs(left, t, key);
    hide Enabled, Do, With;
    var s0, s1 := With(s, t, key, Materializing(l), true), With(more, t, key, Created(l), true);
    var s2, s3 := With(told, t, key, Leaving(l), false), With(left, t, key, Reload, false);
    var s4 := With(left, t, key, Returned, false);
    OneStep([s0], t, [], Create(false), s1);
    OneStep([s0, s1], t, [Create(false)], Announce, s2);
    OneStep([s0, s1, s2], t, [Create(false), Announce], Leave, s3);
    OneStep([s0, s1, s2, s3], t, [Create(false), Announce, Leave], LoadAgain, s4);
    states := [s0, s1, s2, s3, s4];
    WithRest(left, t, key, s, l);
  }

  lemma WithRest(left: State, t: nat, key: TableKey, s: State, l: nat)
    requires left == s.(catalog := s.catalog + {key}, made := s.made + [Made(t, key)], queue := s.queue + [key],
                        owner := s.owner - {l})
    ensures With(left, t, key, Returned, false)
         == With(s, t, key, Returned, false)
            .(catalog := s.catalog + {key}, made := s.made + [Made(t, key)], queue := s.queue + [key],
              owner := s.owner - {l})
  {
  }

  lemma StepsOn(a: seq<State>, b: seq<State>, t: nat, x: seq<Action>, y: seq<Action>)
    requires Steps(a, t, x) && Steps(b, t, y) && a[|x|] == b[0]
    ensures Steps(a + b[1..], t, x + y)
  {
    hide Enabled, Do;
    var states, acts := a + b[1..], x + y;
    forall i | 0 <= i < |acts|
      ensures Enabled(states[i], t, acts[i]) && states[i + 1] == Do(states[i], t, acts[i])
    {
      if i >= |x| {
        assert states[i] == b[i - |x|] && states[i + 1] == b[i - |x| + 1];
      }
    }
  }

  /** A first touch of a table that OneLake has can go through from every reachable state in which
      its monitor is free: it materializes the table, queues its notice, frees the monitor and
      returns. */
  lemma FirstTouchSucceeds(s: State, t: nat, ident: Ident) returns (states: seq<State>, acts: seq<Action>)
    requires Untouched(s, t, KeyOf(ident))
    ensures Steps(states, t, acts) && states[0] == s
    ensures acts == [Call(ident), Load, Resolve(true), GetLock, Enter, Recheck,
                     Create(false), Announce, Leave, LoadAgain]
    ensures var key, s' := KeyOf(ident), states[10];
            && s'.threads == s.threads[t := Thread(InCall(key, Returned, Idle), false)]
            && s'.catalog == s.catalog + {key} && s'.queue == s.queue + [key] && s'.made == s.made + [Made(t, key)]
            && s'.owner == s.owner
  {
    LockIsFree(s, t, KeyOf(ident));
    var key := KeyOf(ident);
    hide Enabled, Do, Inv, KeyOf, LockName;
    var lock, l := WithLock(s, key), LockOf(s, key);
    var first := TouchToLock(s, t, ident);
    var second := LockToSql(lock, t, key, l);
    var third := SqlToEnd(lock.(owner := s.owner[l := t]), t, key, l);
    StepsOn(first, second, t, [Call(ident), Load, Resolve(true), GetLock], [Enter, Recheck]);
    states := first + second[1..];
    acts := [Call(ident), Load, Resolve(true), GetLock] + [Enter, Recheck];
    assert states[6] == second[2] == third[0];
    StepsOn(states, third, t, acts, [Create(false), Announce, Leave, LoadAgain]);
    states := states + third[1..];
    acts := acts + [Create(false), Announce, Leave, LoadAgain];
    assert states[10] == third[4];
    assert s.owner[l := t] - {l} == s.owner;
  }

  /** When the SQL fails, the call throws and leaves nothing but the monitor behind. */
  lemma FailureThrows(s: State, t: nat, key: TableKey, l: nat)
    requires t in s.threads
    ensures var s0 := With(s, t, key, Materializing(l), true);
            && Enabled(s0, t, Fail) && Enabled(Do(s0, t, Fail), t, Leave)
            && Do(Do(s0, t, Fail), t, Leave) == With(s.(owner := s.owner - {l}), t, key, Threw, false)
  {
  }

  /** A touch of a table that is registered returns at once. */
  lemma RegisteredReturns(s: State, t: nat, ident: Ident)
    requires t in s.threads && s.threads[t].stack.Idle? && KeyOf(ident) in s.catalog
    ensures Enabled(s, t, Call(ident)) && Enabled(Do(s, t, Call(ident)), t, Load)
    ensures Do(Do(s, t, Call(ident)), t, Load)
         == With(s, t, KeyOf(ident), Returned, s.threads[t].reentrant)
  {
    hide KeyOf;
  }

  /** Once nobody is between the SQL and the queue, the notices are exactly the
      materialized tables: one clone, one notice, however many threads touched it. */
  lemma OneNoticePerMaterialization(trace: seq<State>, moves: seq<Move>, n: nat, key: TableKey)
    requires IsRun(trace, moves) && n <= |moves|
    requires forall t :: !Announcing(trace[n], t, key)
    ensures key in trace[n].queue <==> MadeKey(trace[n].made, key)
    ensures MadeKey(trace[n].made, key) ==> key in trace[n].catalog
  {
    InvRun(trace, moves, n);
  }

  /** A step that carries on with the call in progress, rather than starting another. */
  predicate Continues(a: Action) {
    !a.Call? && !a.UserCreate?
  }

  /** How many steps are left, at most, before a call inside its monitor leaves it. */
  function StepsInside(pc: Pc): nat {
    if pc.Entered? then 4
    else if pc.Materializing? then 3
    else if pc.Created? then 2
    else if pc.Leaving? || pc.Failing? then 1
    else 0
  }

  function StepsNested(pc: Pc): nat {
    if pc.Start? then 3 else if pc.Missed? then 2 else 1
  }

  function ToLeave(st: Stack): nat {
    if st.Idle? then 0
    else if st.caller.Idle? then StepsInside(st.pc)
    else StepsNested(st.pc) + ToLeave(st.caller)
  }

  lemma NestedProgresses(s: State, u: nat, a: Action)
    requires u in s.threads && StackOk(s.threads[u]) && !AtBottom(s, u)
    requires Continues(a) && Enabled(s, u, a)
    ensures 0 < ToLeave(Do(s, u, a).threads[u].stack) < ToLeave(s.threads[u].stack)
  {
    hide LockName, KeyOf;
  }

  lemma BottomProgresses(s: State, u: nat, l: nat, a: Action)
    requires HeldBy(s, l, u) && StackOk(s.threads[u]) && AtBottom(s, u)
    requires Continues(a) && Enabled(s, u, a)
    ensures ToLeave(Do(s, u, a).threads[u].stack) < ToLeave(s.threads[u].stack)
    ensures ToLeave(Do(s, u, a).threads[u].stack) == 0 ==> l !in Do(s, u, a).owner
  {
    hide LockName, KeyOf;
  }

  /** Every step that the thread inside a monitor takes on its call brings it closer to leaving,
      and the last one frees the monitor. */
  lemma HolderProgresses(s: State, u: nat, l: nat, a: Action)
    requires Inv(s) && HeldBy(s, l, u) && Continues(a) && Enabled(s, u, a)
    ensures ToLeave(Do(s, u, a).threads[u].stack) < ToLeave(s.threads[u].stack)
    ensures ToLeave(Do(s, u, a).threads[u].stack) == 0 ==> l !in Do(s, u, a).owner
  {
    hide ToLeave, Do, Enabled, LocksOk, HistoryOk;
    assert ThreadOk(s, u, s.threads[u]);
    if AtBottom(s, u) {
      BottomProgresses(s, u, l, a);
    } else {
      NestedProgresses(s, u, a);
    }
  }

  /** It always has such a step to take. */
  lemma HolderCanStep(s: State, u: nat, l: nat)
    requires Inv(s) && HeldBy(s, l, u)
    ensures exists a: Action :: Continues(a) && Enabled(s, u, a)
  {
    hide LocksOk, HistoryOk, Do;
    assert ThreadOk(s, u, s.threads[u]);
    var pc := PcOf(s, u);
    var a := if pc.Start? then Load else if pc.Missed? then Resolve(false) else if pc.Done() then Pop
             else if pc.Entered? then Recheck else if pc.Materializing? then Fail
             else if pc.Created? then Announce else Leave;
    assert Continues(a) && Enabled(s, u, a);
  }

  /** How many of the moves n..m are thread u's. */
  function MovesOf(moves: seq<Move>, n: nat, m: nat, u: nat): nat
    requires n <= m <= |moves|
    decreases m - n
  {
    if n == m then 0 else (if moves[n].t == u then 1 else 0) + MovesOf(moves, n + 1, m, u)
  }

  /** Whatever the other threads do meanwhile, a thread inside a monitor leaves it within
      `ToLeave` steps of its own, as long as its SQL starts no further call. */
  lemma {:induction false} MonitorIsFreed(trace: seq<State>, moves: seq<Move>, n: nat, m: nat, u: nat, l: nat)
    requires IsRun(trace, moves) && n <= m <= |moves| && HeldBy(trace[n], l, u)
    requires forall i :: n <= i < m && moves[i].t == u ==> Continues(moves[i].a)
    requires MovesOf(moves, n, m, u) >= ToLeave(trace[n].threads[u].stack)
    ensures exists i :: n < i <= m && !HeldBy(trace[i], l, u)
    decreases m - n
  {
    hide ToLeave, Enabled, Do, Inv, HeldBy, Init;
    InvRun(trace, moves, n);
    StillInside(trace[n], l, u);
    if n == m {
    } else {
      var a := moves[n].a;
      assert trace[n + 1] == Do(trace[n], moves[n].t, a);
      if HeldBy(trace[n + 1], l, u) {
        InvRun(trace, moves, n + 1);
        if moves[n].t == u {
          HolderProgresses(trace[n], u, l, a);
        } else {
          OthersLeaveStack(trace[n], moves[n].t, a, u);
        }
        MonitorIsFreed(trace, moves, n + 1, m, u, l);
      }
    }
  }

  /** A thread inside a monitor has steps left. */
  lemma StillInside(s: State, l: nat, u: nat)
    requires Inv(s) && HeldBy(s, l, u)
    ensures u in s.threads && ToLeave(s.threads[u].stack) > 0
  {
    hide LocksOk, HistoryOk;
    assert ThreadOk(s, u, s.threads[u]);
  }

  lemma OthersLeaveStack(s: State, t: nat, a: Action, u: nat)
    requires Enabled(s, t, a) && u != t && u in s.threads
    ensures u in Do(s, t, a).threads && Do(s, t, a).threads[u] == s.threads[u]
  {
  }

  /** A thread that waits for a monitor is inside none; and if it cannot enter, the thread that
      keeps it out is inside that monitor, has a step to take on its call, and gets closer to
      leaving by every one of them: first touch never deadlocks. */
  lemma NoDeadlock(trace: seq<State>, moves: seq<Move>, n: nat, t: nat)
    requires IsRun(trace, moves) && n <= |moves| && At(trace[n], t) && PcOf(trace[n], t).Waiting?
    ensures forall l <- trace[n].owner :: trace[n].owner[l] != t
    ensures !MayEnter(trace[n], t, PcOf(trace[n], t).lock) ==>
              var s, l := trace[n], PcOf(trace[n], t).lock;
              var u := s.owner[l];
              && u != t && HeldBy(s, l, u)
              && (exists a: Action :: Continues(a) && Enabled(s, u, a))
              && (forall a: Action :: Continues(a) && Enabled(s, u, a) ==>
                    ToLeave(Do(s, u, a).threads[u].stack) < ToLeave(s.threads[u].stack))
  {
    InvRun(trace, moves, n);
    var s := trace[n];
    assert ThreadOk(s, t, s.threads[t]);
    forall l <- s.owner
      ensures s.owner[l] != t
    {
      assert HeldBy(s, l, s.owner[l]);
    }
    var l := PcOf(s, t).lock;
    if !MayEnter(s, t, l) {
      var u := s.owner[l];
      assert HeldBy(s, l, u);
      HolderCanStep(s, u, l);
      forall a: Action | Continues(a) && Enabled(s, u, a)
        ensures ToLeave(Do(s, u, a).threads[u].stack) < ToLeave(s.threads[u].stack)
      {
        HolderProgresses(s, u, l, a);
      }
    }
  }
}
