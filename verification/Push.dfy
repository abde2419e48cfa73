/** The Files mirror towards OneLake (files.py `push`, `push_file`; lazy_files.py `_open` for
    writing and `_PushOnClose`). Nobody else writes to OneLake meanwhile; any contact may fail. */
module Push {
  import opened Text
  import opened Mirror

  type Files = map<Rel, Remote>

  /** Whether a contact is answered, and the time OneLake's clock shows at it. */
  datatype Network = Network(answers: nat -> bool, clock: nat -> nat) {
    ghost predicate AllAnswered(t0: nat, t1: nat) {
      forall t: nat :: t0 <= t < t1 ==> answers(t)
    }
  }

  /** `props.size == st.st_size and last_modified >= st.st_mtime`: OneLake's file passes for the
      mirror's. */
  predicate HeldBack(remote: Files, local: Copies, rel: Rel) {
    rel in remote && rel in local && |remote[rel].bytes| == |local[rel].bytes| && remote[rel].mtime >= local[rel].mtime
  }

  predicate Holds(remote: Files, local: Copies, rel: Rel) {
    rel in remote && rel in local && remote[rel].bytes == local[rel].bytes
  }

  predicate SameAt(r0: Files, r1: Files, rel: Rel) {
    (rel in r0 <==> rel in r1) && (rel in r0 ==> r1[rel] == r0[rel])
  }

  /** What a push of the files in `done` makes of OneLake: nothing else differs, and what differs
      is the mirror's. Without an error each is there, or was held back; and when every contact
      is answered, held back is exactly what passes for the mirror's file. */
  ghost predicate Sent(answered: bool, local: Copies, r0: Files, r1: Files, done: set<Rel>, s: Sync) {
    && (forall rel :: SameAt(r0, r1, rel) || (rel in done && Holds(r1, local, rel)))
    && (s.errors == 0 ==>
          forall rel <- done :: Holds(r1, local, rel) || (HeldBack(r0, local, rel) && SameAt(r0, r1, rel)))
    && (answered ==>
          forall rel <- done :: if HeldBack(r0, local, rel) then SameAt(r0, r1, rel) else Holds(r1, local, rel))
    && (answered ==> (s.transferred == 0 <==> forall rel <- done :: HeldBack(r0, local, rel)))
  }

  /** What one file's turn makes of it. */
  ghost predicate SentOne(answered: bool, local: Copies, r0: Files, r1: Files, rel: Rel, one: Sync) {
    && one.transferred + one.skipped + one.errors == 1
    && (if one.transferred == 1 then Holds(r1, local, rel) && forall x :: x != rel ==> SameAt(r0, r1, x) else r1 == r0)
    && (one.skipped == 1 ==> HeldBack(r0, local, rel))
    && (answered ==> one.errors == 0 && (one.skipped == 1 <==> HeldBack(r0, local, rel)))
  }

  lemma SentNothing(answered: bool, local: Copies, r: Files)
    ensures Sent(answered, local, r, r, {}, Sync(0, 0, 0))
  {
  }

  lemma SentNext(ans0: bool, ans1: bool, ans: bool, local: Copies, r0: Files, r1: Files, r2: Files,
                 done: set<Rel>, rel: Rel, s: Sync, one: Sync)
    requires Sent(ans0, local, r0, r1, done, s) && SentOne(ans1, local, r1, r2, rel, one)
    requires ans ==> ans0 && ans1
    ensures Sent(ans, local, r0, r2, done + {rel}, s.Plus(one))
  {
    forall x
      ensures SameAt(r1, r2, x) || (x == rel && Holds(r2, local, rel))
      ensures SameAt(r0, r2, x) || (x in done + {rel} && Holds(r2, local, x))
      ensures s.errors + one.errors == 0 && x in done + {rel} ==>
                Holds(r2, local, x) || (HeldBack(r0, local, x) && SameAt(r0, r2, x))
      ensures ans && x in done + {rel} ==>
                if HeldBack(r0, local, x) then SameAt(r0, r2, x) else Holds(r2, local, x)
    {
      assert SameAt(r0, r1, x) || (x in done && Holds(r1, local, x));
    }
    if ans {
      assert s.transferred == 0 <==> forall x <- done :: HeldBack(r0, local, x);
      assert SameAt(r0, r1, rel) || (rel in done && Holds(r1, local, rel));
    }
  }

  /** The mirror's files at or below one of the first n paths. */
  function AtPaths(local: Copies, paths: seq<Rel>, n: nat): set<Rel>
    requires n <= |paths|
  {
    set rel | rel in local && exists k :: 0 <= k < n && paths[k] <= rel
  }

  predicate Present(local: Copies, dirs: set<Rel>, path: Rel) {
    path == [] || path in dirs || exists rel :: rel in local && path <= rel
  }

  datatype Upload = Uploaded | Failed | NotLocal | Refused

  datatype Op =
    | PushPaths(paths: seq<Rel>)
    | PushOne(rel: Rel)
    /** A lazily opened file is written and closed. */
    | WriteAndClose(rel: Rel, append: bool, data: string, mtime: nat)

  class Uploader {
    const writeMode: string
    const net: Network
    var now: nat              // how many contacts there have been
    var local: Copies
    var dirs: set<Rel>
    var remote: Files

    constructor (writeMode: string, net: Network, local: Copies, dirs: set<Rel>, remote: Files)
      ensures this.writeMode == writeMode && this.net == net && now == 0
      ensures this.local == local && this.dirs == dirs && this.remote == remote
    {
      this.writeMode, this.net, now, this.local, this.dirs, this.remote := writeMode, net, 0, local, dirs, remote;
    }

    predicate Writable() {
      writeMode == "writethrough"
    }

    /** `upload_data`. */
    method Put(rel: Rel) returns (ok: bool)
      requires rel in local
      modifies this`now, this`remote
      ensures now == old(now) + 1 && ok == net.answers(old(now))
      ensures remote == if ok then old(remote)[rel := Remote(local[rel].bytes, net.clock(old(now)))] else old(remote)
    {
      ok := net.answers(now);
      if ok {
        remote := remote[rel := Remote(local[rel].bytes, net.clock(now))];
      }
      now := now + 1;
    }

    /** One file's turn in `push`. Where its properties cannot be had, it is uploaded. */
    method PushEntry(rel: Rel) returns (one: Sync)
      requires rel in local
      modifies this`now, this`remote
      ensures old(now) < now
      ensures SentOne(net.AllAnswered(old(now), now), local, old(remote), remote, rel, one)
    {
      var seen := net.answers(now) && rel in remote;
      now := now + 1;
      if seen && |remote[rel].bytes| == |local[rel].bytes| && remote[rel].mtime >= local[rel].mtime {
        return Sync(0, 1, 0);
      }
      var ok := Put(rel);
      assert old(now) < now && !ok ==> !net.answers(now - 1);
      one := if ok then Sync(1, 0, 0) else Sync(0, 0, 1);
    }

    /** The files of one path. */
    method PushPath(path: Rel, ghost start: nat, ghost r0: Files, ghost before: set<Rel>, s0: Sync) returns (s: Sync)
      requires start <= now && Sent(net.AllAnswered(start, now), local, r0, remote, before, s0)
      modifies this`now, this`remote
      ensures old(now) <= now
      ensures Sent(net.AllAnswered(start, now), local, r0, remote, before + FilesUnder(local, path), s)
      ensures s.errors >= s0.errors
      ensures net.AllAnswered(start, now) ==> s.errors == s0.errors
    {
      hide Sent, SentOne;
      s := s0;
      ghost var done := before;
      var todo := FilesUnder(local, path);
      while todo != {}
        invariant old(now) <= now && s.errors >= s0.errors
        invariant Sent(net.AllAnswered(start, now), local, r0, remote, done, s)
        invariant done + todo == before + FilesUnder(local, path) && todo <= FilesUnder(local, path)
        invariant net.AllAnswered(start, now) ==> s.errors == s0.errors
        decreases todo
      {
        var rel :| rel in todo;
        ghost var t, had := now, remote;
        var one := PushEntry(rel);
        Answered(t, now, local, had, remote, rel, one);
        SentNext(net.AllAnswered(start, t), net.AllAnswered(t, now), net.AllAnswered(start, now),
                 local, r0, had, remote, done, rel, s, one);
        s := s.Plus(one);
        assert (done + {rel}) + (todo - {rel}) == done + todo;
        todo, done := todo - {rel}, done + {rel};
      }
      assert done == before + FilesUnder(local, path);
    }

    lemma Answered(t0: nat, t1: nat, local: Copies, r0: Files, r1: Files, rel: Rel, one: Sync)
      requires SentOne(net.AllAnswered(t0, t1), local, r0, r1, rel, one)
      ensures net.AllAnswered(t0, t1) ==> one.errors == 0
    {
    }

    /** `push`; a caller that names no path gives the root, [[]]. */
    method Push(paths: seq<Rel>) returns (r: Option<Sync>)
      modifies this`now, this`remote
      ensures old(now) <= now
      ensures r.None? <==> writeMode != "writethrough"
      ensures r.None? ==> remote == old(remote) && now == old(now)
      ensures r.Some? ==>
                && Sent(net.AllAnswered(old(now), now), local, old(remote), remote, AtPaths(local, paths, |paths|),
                        r.value)
                && (net.AllAnswered(old(now), now) ==>
                      (r.value.errors == 0
                       <==> forall p <- paths :: p == [] || p in dirs || exists rel <- local :: p <= rel))
    {
      hide Sent;
      if !Writable() {
        return None;
      }
      var s := Sync(0, 0, 0);
      SentNothing(net.AllAnswered(now, now), local, remote);
      assert AtPaths(local, paths, 0) == {};
      for i := 0 to |paths|
        invariant old(now) <= now
        invariant Sent(net.AllAnswered(old(now), now), local, old(remote), remote, AtPaths(local, paths, i), s)
        invariant net.AllAnswered(old(now), now) ==>
                    (s.errors == 0 <==> forall k :: 0 <= k < i ==> Present(local, dirs, paths[k]))
      {
        assert AtPaths(local, paths, i + 1) == AtPaths(local, paths, i) + FilesUnder(local, paths[i]);
        if !Present(local, dirs, paths[i]) {
          NothingToSend(net.AllAnswered(old(now), now), local, old(remote), remote, AtPaths(local, paths, i),
                        paths[i], s);
          s := s.Plus(Sync(0, 0, 1));
        } else {
          s := PushPath(paths[i], old(now), old(remote), AtPaths(local, paths, i), s);
        }
      }
      r := Some(s);
    }

    /** Pushing again sends nothing exactly when OneLake's times, as they are after the first
        push, are not behind the mirror's: where the mirror's clock is ahead, a file is uploaded
        again every time. Either way OneLake then has what it had after the first push. */
    method PushTwice(paths: seq<Rel>) returns (first: Option<Sync>, again: Option<Sync>, ghost between: Files)
      modifies this`now, this`remote
      ensures old(now) <= now
      ensures writeMode == "writethrough" && net.AllAnswered(old(now), now) ==>
                && first.Some? && again.Some?
                && (again.value.transferred == 0 <==>
                      forall rel <- AtPaths(local, paths, |paths|) ::
                        rel in between && between[rel].mtime >= local[rel].mtime)
                && (forall rel :: rel in between ==> rel in remote && remote[rel].bytes == between[rel].bytes)
                && (forall rel :: rel in remote ==> rel in between)
    {
      first := Push(paths);
      ghost var t, r0 := now, old(remote);
      between := remote;
      again := Push(paths);
      if Writable() && net.AllAnswered(old(now), now) {
        assert net.AllAnswered(old(now), t) && net.AllAnswered(t, now);
        SentIsSized(local, r0, between, AtPaths(local, paths, |paths|), first.value);
        SentAgain(local, r0, between, remote, AtPaths(local, paths, |paths|), first.value, again.value);
      }
    }

    /** `push_file`. */
    method PushFile(rel: Rel) returns (r: Upload)
      modifies this`now, this`remote
      ensures now == if writeMode == "writethrough" && rel in local then old(now) + 1 else old(now)
      ensures r == Refused <==> writeMode != "writethrough"
      ensures r == NotLocal <==> writeMode == "writethrough" && rel !in local
      ensures r == Uploaded <==> writeMode == "writethrough" && rel in local && net.answers(old(now))
      ensures r == Uploaded ==> Holds(remote, local, rel) && forall x :: x != rel ==> SameAt(old(remote), remote, x)
      ensures r != Uploaded ==> remote == old(remote)
    {
      if !Writable() {
        return Refused;
      }
      if rel !in local {
        return NotLocal;
      }
      var ok := Put(rel);
      r := if ok then Uploaded else Failed;
    }

    /** A lazily opened file is written and closed: it is appended to what the mirror has, or to
        what is fetched from OneLake for it, and pushed in writethrough. A push that fails is
        passed over; a second look that fails after the first found the file is not. */
    method WriteFile(rel: Rel, append: bool, data: string, mtime: nat) returns (ok: bool)
      modifies this`now, this`local, this`remote
      ensures old(now) <= now
      ensures ok <==> (append && rel !in old(local) && rel in old(remote) && net.answers(old(now)) ==>
                         net.AllAnswered(old(now), old(now) + 4))
      ensures ok ==>
                var base := Base(net, old(now), old(local), old(remote), rel, append);
                local == old(local)[rel := Copy(base + data, mtime)]
      ensures !ok ==> local == old(local) && remote == old(remote)
      ensures writeMode != "writethrough" ==> remote == old(remote)
      // the last contact is that of the push
      ensures ok && writeMode == "writethrough" ==> old(now) + (if append && rel !in old(local) then 1 else 0) < now
      ensures ok && writeMode == "writethrough" && net.answers(now - 1) ==>
                Holds(remote, local, rel) && forall x :: x != rel ==> SameAt(old(remote), remote, x)
      ensures ok && writeMode == "writethrough" && !net.answers(now - 1) ==> remote == old(remote)
      // what appending makes of a file that is on OneLake
      ensures ok && writeMode == "writethrough" && append && rel in old(remote) && net.answers(now - 1) ==>
                (remote[rel].bytes == old(remote)[rel].bytes + data
                 <==> if rel in old(local) then Holds(old(remote), old(local), rel)
                      else net.answers(old(now)) || old(remote)[rel].bytes == "")
    {
      if append && rel !in local && rel in remote && net.answers(now) {
        now := now + 1;
        // the second look, and `fetch_file`'s own and its download
        if !(net.answers(now) && net.answers(now + 1) && net.answers(now + 2)) {
          return false;
        }
        now := now + 3;
        local := local[rel := Copy(remote[rel].bytes, remote[rel].mtime)];
      } else if append && rel !in local {
        now := now + 1;
      }
      ghost var base := if append && rel in local then local[rel].bytes else "";
      local := local[rel := Copy((if append && rel in local then local[rel].bytes else "") + data, mtime)];
      ok := true;
      if Writable() {
        ghost var r0 := remote;
        var _ := PushFile(rel);
        assert forall x :: x != rel ==> SameAt(r0, remote, x);
        if rel in old(remote) {
          SameTail(base, old(remote)[rel].bytes, data);
        }
      }
    }

    /** Any pushes and writes one after another. Outside writethrough OneLake is what it was; in
        it, what has changed there is what the mirror held at some moment. */
    method Session(ops: seq<Op>) returns (ghost held: seq<Copies>)
      modifies this`now, this`local, this`remote
      ensures writeMode != "writethrough" ==> remote == old(remote)
      ensures AllHeld(old(remote), remote, held)
      ensures held != [] && held[0] == old(local) && held[|held| - 1] == local
    {
      hide Sent, Holds, SameAt;
      held := [local];
      OneHeld(local, remote, remote, []);
      for i := 0 to |ops|
        invariant !Writable() ==> remote == old(remote)
        invariant AllHeld(old(remote), remote, held)
        invariant held != [] && held[0] == old(local) && held[|held| - 1] == local
      {
        ghost var t, r1 := now, remote;
        match ops[i] {
          case PushPaths(paths) =>
            var r := Push(paths);
            OneHeldIfSame(local, r1, remote);
            if r.Some? {
              SentIsHeld(net.AllAnswered(t, now), local, r1, remote, AtPaths(local, paths, |paths|), r.value);
            }
          case PushOne(rel) =>
            var _ := PushFile(rel);
            OneHeld(local, r1, remote, rel);
          case WriteAndClose(rel, append, data, mtime) =>
            var _ := WriteFile(rel, append, data, mtime);
            OneHeld(local, r1, remote, rel);
        }
        HeldNext(old(remote), r1, remote, held, local);
        held := held + [local];
      }
    }
  }

  /** The mirror's files at or below a path. */
  function FilesUnder(local: Copies, path: Rel): set<Rel> {
    set rel | rel in local && path <= rel
  }

  /** After a push, what was to be sent has the mirror's size. */
  lemma SentIsSized(local: Copies, r0: Files, r1: Files, done: set<Rel>, s: Sync)
    requires Sent(true, local, r0, r1, done, s)
    ensures forall rel <- done | rel in local ::
              rel in r1 && |r1[rel].bytes| == |local[rel].bytes| &&
              (HeldBack(r1, local, rel) <==> r1[rel].mtime >= local[rel].mtime)
  {
  }

  /** A second push of the same files changes no bytes. */
  lemma SentAgain(local: Copies, r0: Files, r1: Files, r2: Files, done: set<Rel>, s1: Sync, s2: Sync)
    requires Sent(true, local, r0, r1, done, s1) && Sent(true, local, r1, r2, done, s2)
    ensures forall rel :: (rel in r1 <==> rel in r2) && (rel in r1 ==> r2[rel].bytes == r1[rel].bytes)
  {
    forall rel
      ensures (rel in r1 <==> rel in r2) && (rel in r1 ==> r2[rel].bytes == r1[rel].bytes)
    {
      assert SameAt(r1, r2, rel) || (rel in done && Holds(r2, local, rel));
    }
  }

  /** What an appending open starts from. */
  function Base(net: Network, now: nat, local: Copies, remote: Files, rel: Rel, append: bool): string {
    if !append then ""
    else if rel in local then local[rel].bytes
    else if rel in remote && net.answers(now) then remote[rel].bytes
    else ""
  }

  lemma SameTail(a: string, b: string, data: string)
    ensures a + data == b + data <==> a == b
  {
    if a + data == b + data {
      assert (a + data)[..|a|] == (b + data)[..|b|];
    }
  }

  /** What differs has the bytes of one of these mirrors. */
  ghost predicate AllHeld(r0: Files, r1: Files, held: seq<Copies>) {
    forall rel :: SameAt(r0, r1, rel) || exists l <- held :: Holds(r1, l, rel)
  }

  lemma SentIsHeld(answered: bool, local: Copies, r0: Files, r1: Files, done: set<Rel>, s: Sync)
    requires Sent(answered, local, r0, r1, done, s)
    ensures AllHeld(r0, r1, [local])
  {
    assert local in [local];
  }

  lemma OneHeldIfSame(local: Copies, r0: Files, r1: Files)
    ensures r1 == r0 ==> AllHeld(r0, r1, [local])
  {
  }

  lemma OneHeld(local: Copies, r0: Files, r1: Files, rel: Rel)
    requires r1 == r0 || (Holds(r1, local, rel) && forall x :: x != rel ==> SameAt(r0, r1, x))
    ensures AllHeld(r0, r1, [local])
  {
    assert local in [local];
  }

  lemma HeldNext(r0: Files, r1: Files, r2: Files, held: seq<Copies>, local: Copies)
    requires AllHeld(r0, r1, held) && AllHeld(r1, r2, [local])
    ensures AllHeld(r0, r2, held + [local])
  {
    forall rel | !SameAt(r0, r2, rel)
      ensures exists l <- held + [local] :: Holds(r2, l, rel)
    {
      if SameAt(r1, r2, rel) {
        assert !SameAt(r0, r1, rel);
        var l :| l in held && Holds(r1, l, rel);
        assert l in held + [local] && Holds(r2, l, rel);
      } else {
        assert local in held + [local] && Holds(r2, local, rel);
      }
    }
  }

  lemma NothingToSend(answered: bool, local: Copies, r0: Files, r1: Files, done: set<Rel>, path: Rel, s: Sync)
    requires Sent(answered, local, r0, r1, done, s) && forall rel <- local :: !(path <= rel)
    ensures Sent(answered, local, r0, r1, done + FilesUnder(local, path), s.Plus(Sync(0, 0, 1)))
  {
    assert done + FilesUnder(local, path) == done;
  }

  // ---- pushing and pulling ----

  /** What a pull that is answered leaves of a copy (`Mirror.FilesMirror.PullEntry`). */
  function Pulled(copy: Copy, file: Remote): Copy {
    if Matches(copy, |file.bytes|, file.mtime) then copy else Copy(file.bytes, file.mtime)
  }

  /** Pushing and then pulling leaves the mirror's bytes alone except where they were held back
      by a newer file of the same size that says something else: that edit is lost. */
  lemma EditSurvivesIff(local: Copies, r0: Files, r1: Files, done: set<Rel>, s: Sync, rel: Rel)
    requires Sent(true, local, r0, r1, done, s) && rel in done && rel in local
    ensures rel in r1
    ensures Pulled(local[rel], r1[rel]).bytes == local[rel].bytes
       <==> !(HeldBack(r0, local, rel) && r0[rel].mtime > local[rel].mtime && !Holds(r0, local, rel))
  {
  }

  /** One file's turn in a pull, while OneLake keeps still. */
  method PullOne(local: Copies, remote: Files, rel: Rel) returns (after: Copies)
    requires rel in local && rel in remote && forall x <- remote :: remote[x].mtime > 0
    ensures after == local[rel := Pulled(local[rel], remote[rel])]
  {
    var store := Store(remote, {}, map x | x in remote :: remote[x].mtime);
    assert store.Valid();
    var mirror := new FilesMirror(History(_ => store, _ => true));
    mirror.local := local;
    var st := mirror.RemoteStat(rel);
    hide CoherenceKept, KnownKept;
    var one := mirror.PullEntry(rel, st.size, st.mtime, 0);
    after := mirror.local;
  }

  /** The same of the methods: a push, and then the turn of one of its files in a pull. */
  method PushThenPull(up: Uploader, paths: seq<Rel>, rel: Rel) returns (after: Copies)
    requires up.Writable() && rel in AtPaths(up.local, paths, |paths|)
    modifies up
    ensures old(up.now) <= up.now && up.local == old(up.local)
    ensures up.net.AllAnswered(old(up.now), up.now) && (forall x <- up.remote :: up.remote[x].mtime > 0) ==>
              && rel in after
              && (after[rel].bytes == up.local[rel].bytes
                  <==> !(HeldBack(old(up.remote), up.local, rel) && !Holds(old(up.remote), up.local, rel)
                         && old(up.remote)[rel].mtime > up.local[rel].mtime))
  {
    hide Sent;
    var s := up.Push(paths);
    after := up.local;
    if up.net.AllAnswered(old(up.now), up.now) {
      EditSurvivesIff(up.local, old(up.remote), up.remote, AtPaths(up.local, paths, |paths|), s.value, rel);
    }
    if rel in up.remote && forall x <- up.remote :: up.remote[x].mtime > 0 {
      after := PullOne(up.local, up.remote, rel);
    }
  }

  /** An edit that keeps the size, made before OneLake's file was last written, is not pushed. */
  method HeldBackEdit() returns (s: Option<Sync>, bytes: string)
    ensures s.Some? && s.value.errors == 0 && s.value.transferred == 0 && bytes == "old"
  {
    var rel := ["a.csv"];
    var up := new Uploader("writethrough", Network(_ => true, t => t), map[rel := Copy("new", 5)], {},
                           map[rel := Remote("old", 7)]);
    s := up.Push([rel]);
    assert [rel][0] <= rel && rel in AtPaths(up.local, [rel], 1);
    bytes := up.remote[rel].bytes;
  }

  /** Appending to a file of OneLake, when the first look at it fails and the push does not,
      leaves only what was appended. */
  method AppendLosesFile() returns (ok: bool, bytes: string)
    ensures ok && bytes == "d"
  {
    var rel := ["a.csv"];
    var up := new Uploader("writethrough", Network(t => t != 0, t => t), map[], {}, map[rel := Remote("abc", 7)]);
    ok := up.WriteFile(rel, true, "d", 9);
    bytes := up.remote[rel].bytes;
  }
}
