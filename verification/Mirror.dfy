/** The Files mirror as a cache of OneLake (files.py `pull`, `fetch_file`, `clear`;
    lazy_files.py `_open`, `_stale`). OneLake is whatever it is at each moment: the mirror
    sees it only when it makes contact, and it may change between any two contacts. */
module Mirror {
  import opened Text

  /** A path below Files/. */
  type Rel = seq<string>

  datatype Remote = Remote(bytes: string, mtime: nat)

  /** OneLake at one moment. `high` is the latest modification time each path has ever had. */
  datatype Store = Store(files: map<Rel, Remote>, dirs: set<Rel>, high: map<Rel, nat>) {
    function High(rel: Rel): nat {
      if rel in high then high[rel] else 0
    }

    ghost predicate Valid() {
      forall rel <- files :: 0 < files[rel].mtime <= High(rel) && rel !in dirs
    }
  }

  /** Files keep their bytes as long as they keep their modification time. */
  ghost predicate Later(s0: Store, s1: Store) {
    && (forall rel :: s0.High(rel) <= s1.High(rel))
    && (forall rel <- s1.files ::
          (rel in s0.files && s0.files[rel] == s1.files[rel]) || s1.files[rel].mtime > s0.High(rel))
  }

  datatype Copy = Copy(bytes: string, mtime: nat)

  /** `local.st_size == size and local.st_mtime >= mtime`. */
  predicate Matches(copy: Copy, size: nat, mtime: nat) {
    |copy.bytes| == size && copy.mtime >= mtime
  }

  type Copies = map<Rel, Copy>

  /** The copy is not newer than the file ever was, and as new as the file only when it has
      the file's bytes. */
  ghost predicate Coherent(local: Copies, s: Store, rel: Rel) {
    rel in local ==>
      && local[rel].mtime <= s.High(rel)
      && (rel in s.files && local[rel].mtime >= s.files[rel].mtime ==> local[rel].bytes == s.files[rel].bytes)
  }

  ghost predicate CoherenceKept(local0: Copies, s0: Store, local1: Copies, s1: Store) {
    forall rel :: Coherent(local0, s0, rel) ==> Coherent(local1, s1, rel)
  }

  /** Every copy has bytes that OneLake had at a contact between start and t. */
  ghost predicate Known(h: History, start: nat, t: nat, local: Copies) {
    forall rel <- local :: SeenBetween(h, start, t, rel, local[rel].bytes)
  }

  ghost predicate KnownKept(h: History, t0: nat, local0: Copies, t1: nat, local1: Copies) {
    forall start: nat :: start <= t0 && Known(h, start, t0, local0) ==> Known(h, start, t1, local1)
  }

  lemma KnownLater(h: History, t0: nat, t1: nat, local: Copies)
    requires t0 <= t1
    ensures KnownKept(h, t0, local, t1, local)
  {
    forall start: nat, rel | Known(h, start, t0, local) && rel in local
      ensures SeenBetween(h, start, t1, rel, local[rel].bytes)
    {
      assert SeenBetween(h, start, t0, rel, local[rel].bytes);
    }
  }

  /** Keeping what contact t gave. */
  lemma KnownMore(h: History, t: nat, local: Copies, rel: Rel, copy: Copy)
    requires rel in h.at(t).files && h.at(t).files[rel].bytes == copy.bytes
    ensures KnownKept(h, t, local, t + 1, local[rel := copy])
  {
    KnownLater(h, t, t + 1, local);
    forall start: nat | start <= t && Known(h, start, t, local)
      ensures Known(h, start, t + 1, local[rel := copy])
    {
      assert Known(h, start, t + 1, local);
      assert SeenBetween(h, start, t + 1, rel, copy.bytes);
    }
  }

  lemma KnownTwice(h: History, t0: nat, l0: Copies, t1: nat, l1: Copies, t2: nat, l2: Copies)
    requires t0 <= t1 && KnownKept(h, t0, l0, t1, l1) && KnownKept(h, t1, l1, t2, l2)
    ensures KnownKept(h, t0, l0, t2, l2)
  {
  }

  /** The copy has the size of OneLake's file and is not older. */
  predicate UpToDate(local: Copies, s: Store, rel: Rel) {
    && rel in s.files && rel in local
    && |local[rel].bytes| == |s.files[rel].bytes| && local[rel].mtime >= s.files[rel].mtime
  }

  /** Remote changes cannot break coherence. */
  lemma CoherentLater(local: Copies, s0: Store, s1: Store, rel: Rel)
    requires Later(s0, s1) && Coherent(local, s0, rel)
    ensures Coherent(local, s1, rel)
  {
  }

  lemma LaterTransitive(s0: Store, s1: Store, s2: Store)
    requires Later(s0, s1) && Later(s1, s2)
    ensures Later(s0, s2)
  {
    forall rel <- s2.files
      ensures (rel in s0.files && s0.files[rel] == s2.files[rel]) || s2.files[rel].mtime > s0.High(rel)
    {
      assert s0.High(rel) <= s1.High(rel);
    }
  }

  /** What OneLake is at each contact, and whether it answers. */
  datatype History = History(at: nat -> Store, answers: nat -> bool) {
    ghost predicate Valid() {
      forall t: nat :: at(t).Valid() && Later(at(t), at(t + 1))
    }

    /** Nothing changes and everything answers for the next n contacts. */
    ghost predicate Steady(t0: nat, n: nat) {
      forall t: nat :: t0 <= t < t0 + n ==> answers(t) && at(t) == at(t0)
    }
  }

  lemma {:induction false} LaterOn(h: History, t0: nat, t1: nat)
    requires h.Valid() && t0 <= t1
    ensures Later(h.at(t0), h.at(t1))
    decreases t1
  {
    if t0 >= t1 {
    } else {
      LaterOn(h, t0, t1 - 1);
      LaterTransitive(h.at(t0), h.at(t1 - 1), h.at(t1));
    }
  }

  datatype Stat = Unreachable | Missing | Directory | File(size: nat, mtime: nat)

  function StatOf(s: Store, answers: bool, rel: Rel): Stat {
    if !answers then Unreachable
    else if rel in s.files then File(|s.files[rel].bytes|, s.files[rel].mtime)
    else if rel in s.dirs then Directory
    else Missing
  }

  datatype Outcome = Data(bytes: string) | NotFound | IsADirectory | NetworkError

  datatype Sync = Sync(transferred: nat, skipped: nat, errors: nat) {
    function Plus(other: Sync): Sync {
      Sync(transferred + other.transferred, skipped + other.skipped, errors + other.errors)
    }
  }

  class FilesMirror {
    const history: History
    var now: nat              // how many contacts there have been
    var local: Copies
    var fetched: map<Rel, nat>

    constructor (history: History)
      requires history.Valid()
      ensures this.history == history && local == map[] && fetched == map[] && now == 0
    {
      this.history, now, local, fetched := history, 0, map[], map[];
    }

    /** OneLake at the next contact. */
    function Current(): Store
      reads this
    {
      history.at(now)
    }

    /** `remote_stat`. */
    method RemoteStat(rel: Rel) returns (st: Stat)
      modifies this`now
      ensures now == old(now) + 1
      ensures st == StatOf(history.at(old(now)), history.answers(old(now)), rel)
    {
      st := StatOf(Current(), history.answers(now), rel);
      now := now + 1;
    }

    /** `download_file().readall()`. */
    method Download(rel: Rel) returns (data: Option<string>)
      modifies this`now
      ensures now == old(now) + 1
      ensures data == if history.answers(old(now)) && rel in history.at(old(now)).files
                      then Some(history.at(old(now)).files[rel].bytes) else None
    {
      data := if history.answers(now) && rel in Current().files then Some(Current().files[rel].bytes) else None;
      now := now + 1;
    }

    /** Writing what was downloaded, with the modification time that was seen before. */
    method Keep(rel: Rel, data: string, mtime: nat, ghost seen: nat)
      requires history.Valid() && seen + 1 == now
      requires rel in history.at(seen).files && history.at(seen).files[rel].bytes == data
      requires mtime <= history.at(seen).High(rel)
      modifies this`local
      ensures local == old(local)[rel := Copy(data, mtime)]
      ensures CoherenceKept(old(local), history.at(seen), local, history.at(now))
    {
      ghost var before := local;
      local := local[rel := Copy(data, mtime)];
      assert CoherenceKept(before, history.at(seen), local, history.at(seen));
      Onwards(history, seen, now, local);
    }

    /** The part of `fetch_file` and `pull` after the comparison: download, write, set the time
        that was seen at an earlier contact. */
    method Refresh(rel: Rel, mtime: nat, ghost seen: nat) returns (data: Option<string>)
      requires history.Valid() && seen < now
      requires rel in history.at(seen).files && history.at(seen).files[rel].mtime == mtime
      modifies this`now, this`local
      ensures now == old(now) + 1
      ensures CoherenceKept(old(local), history.at(old(now)), local, history.at(now))
      ensures data == if history.answers(old(now)) && rel in history.at(old(now)).files
                      then Some(history.at(old(now)).files[rel].bytes) else None
      ensures local == if data.Some? then old(local)[rel := Copy(data.value, mtime)] else old(local)
      ensures KnownKept(history, old(now), old(local), now, local)
    {
      hide KnownKept;
      ghost var t, before := now, local;
      data := Download(rel);
      KnownLater(history, t, now, before);
      if data.Some? {
        KnownMore(history, t, before, rel, Copy(data.value, mtime));
      }
      LaterOn(history, seen, t);
      if data.Some? {
        Keep(rel, data.value, mtime, t);
      } else {
        Onwards(history, t, now, local);
      }
    }

    /** `fetch_file`. */
    method FetchFile(rel: Rel) returns (r: Outcome)
      requires history.Valid()
      modifies this
      ensures old(now) < now <= old(now) + 2
      ensures CoherenceKept(old(local), history.at(old(now)), local, history.at(now))
      ensures local == old(local) || (r.Data? && exists m :: local == old(local)[rel := Copy(r.bytes, m)])
      ensures fetched == old(fetched) || (r.Data? && fetched == old(fetched)[rel := |r.bytes|])
      ensures r.Data? ==> rel in local && r.bytes == local[rel].bytes
      ensures !history.answers(old(now)) ==> r == NetworkError
      ensures history.answers(old(now)) && rel !in history.at(old(now)).files ==>
                r == if rel in history.at(old(now)).dirs then IsADirectory else NotFound
      // the bytes are the remote ones at one of the contacts
      ensures r.Data? && Coherent(old(local), history.at(old(now)), rel) ==>
              SeenBetween(history, old(now), now, rel, r.bytes)
      ensures history.Steady(old(now), 2) && rel in history.at(old(now)).files ==>
                r.Data? && UpToDate(local, history.at(old(now)), rel)
      ensures history.Steady(old(now), 2) && rel in history.at(old(now)).files &&
              !UpToDate(old(local), history.at(old(now)), rel) ==>
                r == Data(history.at(old(now)).files[rel].bytes)
      ensures KnownKept(history, old(now), old(local), now, local)
    {
      hide CoherenceKept, KnownKept;
      ghost var t0, before := now, local;
      var st := RemoteStat(rel);
      Onwards(history, t0, now, local);
      KnownLater(history, t0, now, local);
      match st
      case Unreachable => return NetworkError;
      case Missing => return NotFound;
      case Directory => return IsADirectory;
      case File(size, mtime) =>
        if rel in local && Matches(local[rel], size, mtime) {
          return Data(local[rel].bytes);
        }
        var data := Refresh(rel, mtime, t0);
        KeptTwice(before, history.at(t0), before, history.at(t0 + 1), local, history.at(now));
        KnownTwice(history, t0, before, t0 + 1, before, now, local);
        if data.None? {
          return NetworkError;
        }
        fetched := fetched[rel := |data.value|];
        r := Data(data.value);
    }

    /** `_stale`. */
    method Stale(rel: Rel) returns (stale: bool)
      requires rel in local
      modifies this`now
      ensures now == old(now) + 1
      ensures stale <==> history.answers(old(now)) && rel in history.at(old(now)).files
                         && !UpToDate(local, history.at(old(now)), rel)
    {
      var st := RemoteStat(rel);
      stale := st.File? && !Matches(local[rel], st.size, st.mtime);
    }

    /** `open` for reading: what the reader gets. */
    method OpenRead(rel: Rel) returns (r: Outcome)
      requires history.Valid()
      modifies this
      ensures old(now) <= now <= old(now) + 4
      ensures CoherenceKept(old(local), history.at(old(now)), local, history.at(now))
      ensures r.Data? && Coherent(old(local), history.at(old(now)), rel) ==>
                || SeenBetween(history, old(now), now, rel, r.bytes)
                || (NotThere(history, old(now), now, rel) && rel in old(local) && r.bytes == old(local)[rel].bytes)
      // a copy is served as it is unless OneLake answers with a file that it does not match
      ensures rel in old(local) &&
              (history.answers(old(now)) && rel in history.at(old(now)).files ==>
                 UpToDate(old(local), history.at(old(now)), rel)) ==>
                r == Data(old(local)[rel].bytes)
      ensures rel !in old(local) && !(history.answers(old(now)) && rel in history.at(old(now)).files) ==>
                r == if history.answers(old(now)) && rel in history.at(old(now)).dirs then IsADirectory else NotFound
      ensures history.Steady(old(now), 4) && rel in history.at(old(now)).files &&
              Coherent(old(local), history.at(old(now)), rel) ==>
                r == Data(history.at(old(now)).files[rel].bytes)
      // whatever the mirror holds: the reader gets the current bytes exactly when a copy that
      // passes for up to date has them
      ensures history.Steady(old(now), 4) && rel in history.at(old(now)).files ==>
                (r == Data(history.at(old(now)).files[rel].bytes)
                 <==> (UpToDate(old(local), history.at(old(now)), rel) ==>
                         old(local)[rel].bytes == history.at(old(now)).files[rel].bytes))
      ensures KnownKept(history, old(now), old(local), now, local)
    {
      hide CoherenceKept, KnownKept;
      ghost var t0, before := now, local;
      if rel in local {
        var stale := Stale(rel);
        Onwards(history, t0, now, local);
        KnownLater(history, t0, now, local);
        if !stale {
          return Data(local[rel].bytes);
        }
      }
      var st := RemoteStat(rel);
      Onwards(history, t0, now, local);
      KnownLater(history, t0, now, local);
      if st.Unreachable? || st.Missing? {
        return if rel in local then Data(local[rel].bytes) else NotFound;
      }
      if st.Directory? {
        return IsADirectory;
      }
      ghost var t2 := now;
      KeptAt(before, history.at(t0), before, history.at(t2), rel);
      r := FetchFile(rel);
      KeptTwice(before, history.at(t0), before, history.at(t2), local, history.at(now));
      KeptAt(before, history.at(t0), local, history.at(now), rel);
      KnownTwice(history, t0, before, t2, before, now, local);
    }

    // ---- pull and clear ----

    /** One file of a listing made at contact `seen`. */
    method PullEntry(rel: Rel, size: nat, mtime: nat, ghost seen: nat) returns (s: Sync)
      requires history.Valid() && seen < now && rel in history.at(seen).files
      requires history.at(seen).files[rel].mtime == mtime && |history.at(seen).files[rel].bytes| == size
      modifies this`now, this`local
      ensures old(now) <= now <= old(now) + 1
      ensures CoherenceKept(old(local), history.at(old(now)), local, history.at(now))
      ensures s.skipped == 1 <==> rel in old(local) && Matches(old(local)[rel], size, mtime)
      ensures s.skipped + s.transferred + s.errors == 1
      ensures s.errors == 1 ==>
                now == old(now) + 1 && !(history.answers(old(now)) && rel in history.at(old(now)).files)
      ensures s.transferred == 0 ==> local == old(local)
      ensures s.transferred == 1 ==> && now == old(now) + 1 && rel in history.at(old(now)).files
                                     && local == old(local)[rel := Copy(history.at(old(now)).files[rel].bytes, mtime)]
      ensures KnownKept(history, old(now), old(local), now, local)
    {
      hide KnownKept;
      if rel in local && Matches(local[rel], size, mtime) {
        Onwards(history, now, now, local);
        KnownLater(history, now, now, local);
        return Sync(0, 1, 0);
      }
      var data := Refresh(rel, mtime, seen);
      return if data.Some? then Sync(1, 0, 0) else Sync(0, 0, 1);
    }

    /** The loop of `pull` over a listing made at contact `seen`. */
    method PullListed(listed: map<Rel, Remote>, ghost seen: nat) returns (s: Sync)
      requires history.Valid() && seen < now
      requires forall rel <- listed :: rel in history.at(seen).files && history.at(seen).files[rel] == listed[rel]
      modifies this`now, this`local
      ensures old(now) <= now && s.transferred + s.skipped + s.errors == |listed|
      ensures NoErrors(history, seen, now, s)
      ensures CoherenceKept(old(local), history.at(old(now)), local, history.at(now))
      ensures SoFar(history, seen, now, old(local), local, listed.Keys, listed.Keys, s)
      ensures KnownKept(history, old(now), old(local), now, local)
    {
      hide CoherenceKept, SoFar, KnownKept, History.Steady, NoErrors;
      NoErrorsYet(history, seen, now);
      ghost var start, before, done: set<Rel> := now, local, {};
      var todo := listed.Keys;
      s := Sync(0, 0, 0);
      SoFarNothing(history, seen, now, local, listed.Keys);
      Onwards(history, start, now, local);
      KnownLater(history, start, now, local);
      while todo != {}
        invariant start <= now && CoherenceKept(before, history.at(start), local, history.at(now))
        invariant KnownKept(history, start, before, now, local)
        invariant SoFar(history, seen, now, before, local, listed.Keys, done, s)
        invariant done + todo == listed.Keys && done !! todo && s.transferred + s.skipped + s.errors == |done|
        invariant NoErrors(history, seen, now, s)
        decreases todo
      {
        var rel :| rel in todo;
        ghost var t, had := now, local;
        var one := PullEntry(rel, |listed[rel].bytes|, listed[rel].mtime, seen);
        KeptTwice(before, history.at(start), had, history.at(t), local, history.at(now));
        KnownTwice(history, start, before, t, had, now, local);
        NoErrorsNext(history, seen, t, now, rel, s, one);
        SoFarNext(history, seen, t, now, before, had, local, listed.Keys, done, rel, s, one);
        s := s.Plus(one);
        MoveOne(done, todo, rel);
        todo, done := todo - {rel}, done + {rel};
      }
      assert done == listed.Keys;
    }

    /** One path of a `pull`: list what is at or below it, then every file. */
    method PullPath(path: Rel) returns (s: Sync)
      requires history.Valid()
      modifies this`now, this`local
      ensures old(now) < now && (s.transferred == 0 ==> local == old(local))
      ensures s.transferred + s.skipped + s.errors
           == if history.answers(old(now)) && path in history.at(old(now)).files.Keys + history.at(old(now)).dirs
              then |FilesAt(history.at(old(now)), path)| else 1
      ensures CoherenceKept(old(local), history.at(old(now)), local, history.at(now))
      ensures history.Steady(old(now), now - old(now)) ==>
                s.errors == if path in history.at(old(now)).files.Keys + history.at(old(now)).dirs then 0 else 1
      ensures history.Steady(old(now), now - old(now)) ==> && Brought(old(local), local, history.at(old(now)), path, s)
                                                           && Idle(old(local), local, history.at(old(now)), path, s)
      ensures KnownKept(history, old(now), old(local), now, local)
    {
      hide CoherenceKept, SoFar, Brought, Idle, KnownKept, History.Steady, NoErrors, History.Valid, Listing, FilesAt;
      ghost var t0, before := now, local;
      ghost var store := history.at(t0);
      if !Listable(Current(), history.answers(now), path) {
        now := now + 1;
        if history.Steady(t0, 1) {
          SteadyAnswers(history, t0, 1);
        }
        Onwards(history, t0, now, local);
        KnownLater(history, t0, now, local);
        PullFailed(local, store, path);
        return Sync(0, 0, 1);
      }
      var listed := Listing(Current(), path);
      now := now + 1;
      Onwards(history, t0, now, local);
      KnownLater(history, t0, now, local);
      ghost var t1 := now;
      s := PullListed(listed, t0);
      KnownTwice(history, t0, before, t1, before, now, local);
      KeptTwice(before, store, before, history.at(t1), local, history.at(now));
      PullDone(history, t0, now, before, local, path, listed.Keys, s);
    }

    /** `pull`; a caller that names no path gives the root, [[]]. */
    method Pull(paths: seq<Rel>) returns (s: Sync)
      requires history.Valid()
      modifies this`now, this`local
      ensures old(now) + |paths| <= now
      ensures history.Steady(old(now), now - old(now)) ==>
                (s.errors == 0
                 <==> forall p <- paths :: p in history.at(old(now)).files.Keys + history.at(old(now)).dirs)
      ensures CoherenceKept(old(local), history.at(old(now)), local, history.at(now))
      ensures SoFar(history, old(now), now, old(local), local, Below(history.at(old(now)), paths, |paths|),
                    Below(history.at(old(now)), paths, |paths|), s)
      ensures KnownKept(history, old(now), old(local), now, local)
    {
      hide CoherenceKept, SoFar, Brought, Idle, Below, KnownKept;
      ghost var t0, before := now, local;
      ghost var store := history.at(t0);
      ghost var all := Below(store, paths, |paths|);
      s := Sync(0, 0, 0);
      Onwards(history, t0, now, local);
      KnownLater(history, t0, now, local);
      NothingBelow(store, paths);
      SoFarNothing(history, t0, now, local, all);
      for i := 0 to |paths|
        invariant t0 + i <= now
        invariant history.Steady(t0, now - t0) ==>
                    (s.errors == 0 <==> forall k :: 0 <= k < i ==> paths[k] in store.files.Keys + store.dirs)
        invariant CoherenceKept(before, store, local, history.at(now))
        invariant KnownKept(history, t0, before, now, local)
        invariant SoFar(history, t0, now, before, local, all, Below(store, paths, i), s)
      {
        ghost var t, had := now, local;
        var one := PullPath(paths[i]);
        KeptTwice(before, store, had, history.at(t), local, history.at(now));
        KnownTwice(history, t0, before, t, had, now, local);
        PullNext(history, t0, t, now, before, had, local, paths, i, s, one);
        s := s.Plus(one);
      }
    }

    /** Pulling again, when the first pull had no errors and nothing changed, transfers nothing. */
    method PullTwice(paths: seq<Rel>) returns (first: Sync, again: Sync)
      requires history.Valid()
      modifies this`now, this`local
      ensures old(now) <= now
      ensures history.Steady(old(now), now - old(now)) && first.errors == 0 ==>
                && again.transferred == 0
                && forall rel <- history.at(old(now)).files, p <- paths :: p <= rel ==>
                    UpToDate(local, history.at(old(now)), rel)
    {
      ghost var t0 := now;
      first := Pull(paths);
      ghost var t1, had := now, local;
      again := Pull(paths);
      if history.Steady(t0, now - t0) && first.errors == 0 {
        SteadyParts(history, t0, t1, now);
        BelowAll(history.at(t0), paths);
        if t1 < now {
          assert forall rel <- Below(history.at(t0), paths, |paths|) :: UpToDate(had, history.at(t0), rel);
        } else {
          NothingBelow(history.at(t1), paths);
        }
      }
    }

    /** `clear` of the paths below which `gone` lies: the copies are dropped, local writes too. */
    method Clear(paths: seq<Rel>)
      requires history.Valid()
      modifies this`local, this`fetched
      ensures local == map rel | rel in old(local) && !(exists p <- paths :: p <= rel) :: old(local)[rel]
      ensures fetched == map rel | rel in old(fetched) && !(exists p <- paths :: p <= rel) :: old(fetched)[rel]
      ensures CoherenceKept(old(local), history.at(now), local, history.at(now))
      ensures forall rel, p :: p in paths && p <= rel ==> Coherent(local, history.at(now), rel)
      ensures KnownKept(history, now, old(local), now, local)
    {
      local := map rel | rel in local && !(exists p <- paths :: p <= rel) :: local[rel];
      fetched := map rel | rel in fetched && !(exists p <- paths :: p <= rel) :: fetched[rel];
    }

    /** Any run of read-opens, fetches, pulls and clears on a mirror that starts empty, while
        OneLake changes as it likes. */
    method Session(ops: seq<Op>) returns (opens: seq<Read>)
      requires history.Valid() && local == map[]
      modifies this
      ensures forall i :: 0 <= i < |opens| ==> Served(history, old(now), opens[i])
    {
      hide Coherent, CoherenceKept, Known, KnownKept, Served, SoFar;
      opens := [];
      ghost var start := now;
      EmptyIsCoherent(history, now);
      for i := 0 to |ops|
        invariant start <= now && AllCoherent(local, history.at(now)) && Known(history, start, now, local)
        invariant forall k :: 0 <= k < |opens| ==> Served(history, start, opens[k])
      {
        ghost var t, had := now, local;
        match ops[i] {
          case OpenFile(rel) =>
            var from := now;
            CoherentOne(local, history.at(now), rel);
            var r := OpenRead(rel);
            KnownOpen(history, start, t, now, had, rel, r);
            opens := opens + [Read(rel, from, now, r)];
          case Fetch(rel) =>
            var _ := FetchFile(rel);
          case PullFiles(paths) =>
            var _ := Pull(paths);
          case ClearFiles(paths) =>
            Clear(paths);
        }
        Kept(history, start, t, had, now, local);
      }
    }
  }

  ghost predicate AllCoherent(local: Copies, s: Store) {
    forall rel :: Coherent(local, s, rel)
  }

  lemma EmptyIsCoherent(h: History, t: nat)
    ensures AllCoherent(map[], h.at(t)) && Known(h, t, t, map[])
  {
  }

  lemma CoherentOne(local: Copies, s: Store, rel: Rel)
    requires AllCoherent(local, s)
    ensures Coherent(local, s, rel)
  {
  }

  lemma Kept(h: History, start: nat, t0: nat, local0: Copies, t1: nat, local1: Copies)
    requires start <= t0 <= t1 && AllCoherent(local0, h.at(t0)) && Known(h, start, t0, local0)
    requires CoherenceKept(local0, h.at(t0), local1, h.at(t1)) && KnownKept(h, t0, local0, t1, local1)
    ensures AllCoherent(local1, h.at(t1)) && Known(h, start, t1, local1)
  {
    hide Coherent;
  }

  /** What an open gives is served, when the copies it started from were known. */
  lemma KnownOpen(h: History, start: nat, t0: nat, t1: nat, local: Copies, rel: Rel, r: Outcome)
    requires start <= t0 <= t1 && Known(h, start, t0, local)
    requires r.Data? ==> || SeenBetween(h, t0, t1, rel, r.bytes)
                         || (NotThere(h, t0, t1, rel) && rel in local && r.bytes == local[rel].bytes)
    requires h.Steady(t0, 4) && rel in h.at(t0).files ==> r == Data(h.at(t0).files[rel].bytes)
    ensures Served(h, start, Read(rel, t0, t1, r))
  {
    hide History.Steady;
    KnownLater(h, t0, t1, local);
    if rel in local {
      assert Known(h, start, t1, local);
      assert SeenBetween(h, start, t1, rel, local[rel].bytes);
    }
  }

  /** One operation of a session. */
  datatype Op = OpenFile(rel: Rel) | Fetch(rel: Rel) | PullFiles(paths: seq<Rel>) | ClearFiles(paths: seq<Rel>)

  /** A read-open, the contacts it made, and what it gave. */
  datatype Read = Read(rel: Rel, from: nat, to: nat, outcome: Outcome)

  /** The reader got bytes that OneLake had during the open; or, when it did not answer or had no
      such file, bytes that it had had earlier in the session; and the current bytes when OneLake
      kept still. */
  ghost predicate Served(h: History, start: nat, r: Read) {
    && (r.outcome.Data? ==>
          || SeenBetween(h, r.from, r.to, r.rel, r.outcome.bytes)
          || (NotThere(h, r.from, r.to, r.rel) && SeenBetween(h, start, r.to, r.rel, r.outcome.bytes)))
    && (h.Steady(r.from, 4) && r.rel in h.at(r.from).files ==> r.outcome == Data(h.at(r.from).files[r.rel].bytes))
  }

  /** The files at or below one of the first n paths. */
  function Below(s: Store, paths: seq<Rel>, n: nat): set<Rel>
    requires n <= |paths|
  {
    set rel | rel in s.files && exists k :: 0 <= k < n && paths[k] <= rel
  }

  lemma NothingBelow(s: Store, paths: seq<Rel>)
    ensures Below(s, paths, 0) == {}
  {
  }

  lemma BelowAll(s: Store, paths: seq<Rel>)
    ensures forall rel <- s.files, p <- paths :: p <= rel ==> rel in Below(s, paths, |paths|)
  {
  }

  lemma SteadyParts(h: History, t0: nat, t1: nat, t2: nat)
    requires t0 <= t1 <= t2 && h.Steady(t0, t2 - t0)
    ensures h.Steady(t0, t1 - t0) && (t1 < t2 ==> h.Steady(t1, t2 - t1) && h.at(t1) == h.at(t0))
  {
  }

  lemma PullNext(h: History, t0: nat, t: nat, t1: nat, local0: Copies, had: Copies, local1: Copies,
                 paths: seq<Rel>, i: nat, s: Sync, one: Sync)
    requires t0 <= t < t1 && i < |paths|
    requires SoFar(h, t0, t, local0, had, Below(h.at(t0), paths, |paths|), Below(h.at(t0), paths, i), s)
    requires one.transferred == 0 ==> local1 == had
    requires h.Steady(t, t1 - t) ==> && Brought(had, local1, h.at(t), paths[i], one)
                                     && Idle(had, local1, h.at(t), paths[i], one)
    ensures SoFar(h, t0, t1, local0, local1, Below(h.at(t0), paths, |paths|), Below(h.at(t0), paths, i + 1),
                  s.Plus(one))
  {
    if h.Steady(t0, t1 - t0) {
      SteadyParts(h, t0, t, t1);
      assert forall rel :: rel in Below(h.at(t0), paths, i + 1) <==>
                           rel in Below(h.at(t0), paths, i) || (rel in h.at(t0).files && paths[i] <= rel);
    }
  }

  /** `get_paths` of a directory or a file. */
  predicate Listable(s: Store, answers: bool, path: Rel) {
    answers && (path in s.files || path in s.dirs)
  }

  /** The files at or below a path. */
  function FilesAt(s: Store, path: Rel): set<Rel> {
    set rel | rel in s.files && path <= rel
  }

  /** They, as a listing gives them. */
  function Listing(s: Store, path: Rel): (r: map<Rel, Remote>)
    ensures r.Keys == FilesAt(s, path) && |r| == |FilesAt(s, path)|
    ensures forall rel <- r :: rel in s.files && r[rel] == s.files[rel]
  {
    var r := map rel | rel in FilesAt(s, path) :: s.files[rel];
    assert r.Keys == FilesAt(s, path);
    r
  }

  /** The copies among `done` are fresh unless there was an error, and fresh copies stay fresh. */
  ghost predicate Progress(local0: Copies, local1: Copies, s: Store, done: set<Rel>, sync: Sync) {
    && (sync.errors == 0 ==> forall rel <- done :: UpToDate(local1, s, rel))
    && forall rel :: UpToDate(local0, s, rel) ==> UpToDate(local1, s, rel)
  }

  /** A pull without errors leaves every file at or below the path fresh. */
  ghost predicate Brought(local0: Copies, local1: Copies, s: Store, path: Rel, sync: Sync) {
    && (sync.errors == 0 ==> forall rel <- s.files :: path <= rel ==> UpToDate(local1, s, rel))
    && forall rel :: UpToDate(local0, s, rel) ==> UpToDate(local1, s, rel)
  }

  /** A pull of fresh files transfers nothing. */
  ghost predicate Idle(local0: Copies, local1: Copies, s: Store, path: Rel, sync: Sync) {
    (forall rel <- s.files :: path <= rel ==> UpToDate(local0, s, rel)) ==> sync.transferred == 0 && local1 == local0
  }

  /** What the loop of a pull has done, if nothing changed meanwhile. */
  ghost predicate SoFar(h: History, t0: nat, t: nat, local0: Copies, local1: Copies, all: set<Rel>, done: set<Rel>,
                        s: Sync)
    requires t0 <= t
  {
    && (s.transferred == 0 ==> local1 == local0)
    && (h.Steady(t0, t - t0) ==>
      && Progress(local0, local1, h.at(t0), done, s)
      && ((forall rel <- all :: UpToDate(local0, h.at(t0), rel)) ==> s.transferred == 0))
  }

  lemma SoFarNothing(h: History, t0: nat, t: nat, local: Copies, all: set<Rel>)
    requires t0 <= t
    ensures SoFar(h, t0, t, local, local, all, {}, Sync(0, 0, 0))
  {
  }

  lemma SoFarNext(h: History, t0: nat, t: nat, t1: nat, local0: Copies, had: Copies, local1: Copies,
                  all: set<Rel>, done: set<Rel>, rel: Rel, s: Sync, one: Sync)
    requires t0 < t <= t1 && SoFar(h, t0, t, local0, had, all, done, s)
    requires rel in all && rel in h.at(t0).files && one.skipped + one.transferred + one.errors == 1
    requires one.skipped == 1 <==> UpToDate(had, h.at(t0), rel)
    requires one.transferred == 0 ==> local1 == had
    requires one.transferred == 1 ==> && t1 == t + 1 && rel in h.at(t).files
                                      && local1 == had[rel := Copy(h.at(t).files[rel].bytes, h.at(t0).files[rel].mtime)]
    ensures SoFar(h, t0, t1, local0, local1, all, done + {rel}, s.Plus(one))
  {
    var store := h.at(t0);
    if h.Steady(t0, t1 - t0) {
      assert h.Steady(t0, t - t0);
      if one.transferred == 1 {
        assert h.at(t) == store;
      }
      assert forall r :: UpToDate(had, store, r) ==> UpToDate(local1, store, r);
    }
  }

  /** Without a change or a failure there are no errors. */
  ghost predicate NoErrors(h: History, seen: nat, t: nat, s: Sync)
    requires seen <= t
  {
    h.Steady(seen, t - seen) ==> s.errors == 0
  }

  lemma NoErrorsYet(h: History, seen: nat, t: nat)
    requires seen <= t
    ensures NoErrors(h, seen, t, Sync(0, 0, 0))
  {
  }

  lemma NoErrorsNext(h: History, seen: nat, t: nat, t1: nat, rel: Rel, s: Sync, one: Sync)
    requires seen < t <= t1 && NoErrors(h, seen, t, s) && rel in h.at(seen).files && one.errors <= 1
    requires one.errors == 1 ==> t1 == t + 1 && !(h.answers(t) && rel in h.at(t).files)
    ensures NoErrors(h, seen, t1, s.Plus(one))
  {
    if h.Steady(seen, t1 - seen) {
      assert h.Steady(seen, t - seen) && (t1 == t + 1 ==> h.answers(t) && h.at(t) == h.at(seen));
    }
  }

  lemma PullDone(h: History, t0: nat, t: nat, local0: Copies, local1: Copies, path: Rel, all: set<Rel>, s: Sync)
    requires t0 <= t && SoFar(h, t0, t, local0, local1, all, all, s) && NoErrors(h, t0, t, s)
    requires all == FilesAt(h.at(t0), path)
    ensures s.transferred == 0 ==> local1 == local0
    ensures h.Steady(t0, t - t0) ==> s.errors == 0
    ensures h.Steady(t0, t - t0) ==> && Brought(local0, local1, h.at(t0), path, s)
                                     && Idle(local0, local1, h.at(t0), path, s)
  {
  }

  lemma SteadyAnswers(h: History, t0: nat, n: nat)
    requires h.Steady(t0, n) && n > 0
    ensures h.answers(t0)
  {
  }

  lemma MoveOne<T>(done: set<T>, todo: set<T>, x: T)
    requires x in todo
    ensures (done + {x}) + (todo - {x}) == done + todo
  {
  }

  lemma PullFailed(local: Copies, s: Store, path: Rel)
    ensures Brought(local, local, s, path, Sync(0, 0, 1)) && Idle(local, local, s, path, Sync(0, 0, 1))
  {
  }

  lemma KeptTwice(l0: Copies, s0: Store, l1: Copies, s1: Store, l2: Copies, s2: Store)
    requires CoherenceKept(l0, s0, l1, s1) && CoherenceKept(l1, s1, l2, s2)
    ensures CoherenceKept(l0, s0, l2, s2)
  {
  }

  lemma KeptAt(l0: Copies, s0: Store, l1: Copies, s1: Store, rel: Rel)
    requires CoherenceKept(l0, s0, l1, s1)
    ensures Coherent(l0, s0, rel) ==> Coherent(l1, s1, rel)
  {
  }

  /** At a contact between t0 and t1 the file was there with these bytes. */
  ghost predicate SeenBetween(h: History, t0: nat, t1: nat, rel: Rel, bytes: string) {
    exists t: nat :: t0 <= t < t1 && rel in h.at(t).files && h.at(t).files[rel].bytes == bytes
  }

  /** At a contact between t0 and t1 there was no answer, or no such file. */
  ghost predicate NotThere(h: History, t0: nat, t1: nat, rel: Rel) {
    exists t: nat :: t0 <= t < t1 && (!h.answers(t) || rel !in h.at(t).files)
  }

  lemma Onwards(h: History, t0: nat, t1: nat, local: Copies)
    requires h.Valid() && t0 <= t1
    ensures CoherenceKept(local, h.at(t0), local, h.at(t1))
  {
    LaterOn(h, t0, t1);
    forall x | Coherent(local, h.at(t0), x)
      ensures Coherent(local, h.at(t1), x)
    {
      CoherentLater(local, h.at(t0), h.at(t1), x);
    }
  }

  /** The times have to increase: a rewrite that keeps a file's size and time passes for no
      change. Such a pair of stores is no history this model admits. */
  lemma SameTimeIsMissed() returns (s0: Store, s1: Store, local: Copies, rel: Rel)
    ensures s0.Valid() && s1.Valid() && Coherent(local, s0, rel) && !Later(s0, s1)
    ensures UpToDate(local, s1, rel) && local[rel].bytes != s1.files[rel].bytes
  {
    rel := ["a.csv"];
    s0 := Store(map[rel := Remote("old", 5)], {}, map[rel := 5]);
    s1 := Store(map[rel := Remote("new", 5)], {}, map[rel := 5]);
    local := map[rel := Copy("old", 5)];
    assert local[rel].bytes[0] != s1.files[rel].bytes[0];
    assert rel in s1.files && s0.files[rel] != s1.files[rel];
  }

  /** And the reader then gets the old bytes: a mirror that holds "old", an OneLake that has
      answered nothing but "new" since. */
  method OldBytesAreServed() returns (r: Outcome, ghost current: string)
    ensures r == Data("old") && current == "new"
  {
    var rel := ["a.csv"];
    var store := Store(map[rel := Remote("new", 5)], {}, map[rel := 5]);
    var mirror := new FilesMirror(History(_ => store, _ => true));
    mirror.local := map[rel := Copy("old", 5)];
    r := mirror.OpenRead(rel);
    current := store.files[rel].bytes;
  }
}
