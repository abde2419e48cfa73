/** Rewinding a shadow table to an earlier version by truncating its local Delta log
    (engine.py `_truncate_delta_log`, `_shadow_state`), against the meaning of a log
    given by "Action Reconciliation" in the Delta Transaction Log Protocol. */
module ShadowLog {
  import opened Text
  import Sets

  datatype Action =
    | Add(path: string, stats: string)
    | Remove(path: string)
    | Metadata(schema: string)
    | Protocol(features: string)
    | Txn(app: string, version: int)
    | CommitInfo(operation: string)

  /** One line of a commit file; `json.loads` refuses some. */
  datatype Line = Parsed(action: Action) | Unparsed

  type Commit = seq<Line>

  // ---- what a log means ----

  datatype Snapshot = Snapshot(
    live: map<string, string>, schema: Option<string>, features: Option<string>, txns: map<string, int>)

  const EMPTY := Snapshot(map[], None, None, map[])

  function Reconcile(s: Snapshot, line: Line): Snapshot {
    match line
    case Parsed(Add(path, stats)) => s.(live := s.live[path := stats])
    case Parsed(Remove(path)) => s.(live := s.live - {path})
    case Parsed(Metadata(schema)) => s.(schema := Some(schema))
    case Parsed(Protocol(features)) => s.(features := Some(features))
    case Parsed(Txn(app, version)) => s.(txns := s.txns[app := version])
    case Parsed(CommitInfo(_)) => s
    case Unparsed => s
  }

  function ReplayCommit(s: Snapshot, commit: Commit): Snapshot {
    if commit == [] then s else Reconcile(ReplayCommit(s, commit[..|commit| - 1]), commit[|commit| - 1])
  }

  /** The table after the commits 0..v of its whole history. */
  function StateAt(history: seq<Commit>, v: nat): Snapshot
    requires v < |history|
  {
    ReplayCommit(if v == 0 then EMPTY else StateAt(history, v - 1), history[v])
  }

  // ---- the directory ----

  /** `<table>/_delta_log` and the data files beside it. A checkpoint stands for all
      the parquet files of one version. */
  datatype Dir = Dir(
    commits: map<nat, Commit>, checkpoints: map<nat, Commit>, last: Option<nat>, crcs: set<nat>, data: set<string>)

  function NewestCheckpoint(d: Dir, v: nat): (r: Option<nat>)
    ensures r.Some? ==> r.value <= v && r.value in d.checkpoints
    ensures forall c <- d.checkpoints :: c <= v ==> r.Some? && c <= r.value
  {
    if v in d.checkpoints then Some(v) else if v == 0 then None else NewestCheckpoint(d, v - 1)
  }

  /** Replay the commits from..v on top of s; None when one is missing. */
  function ReplayFrom(d: Dir, s: Snapshot, from: nat, v: nat): Option<Snapshot>
    requires from <= v + 1
    decreases v + 1 - from
  {
    if from == v + 1 then Some(s)
    else if from !in d.commits then None
    else ReplayFrom(d, ReplayCommit(s, d.commits[from]), from + 1, v)
  }

  /** A reader at version v: the newest checkpoint not after v, then the commits. */
  function Read(d: Dir, v: nat): Option<Snapshot> {
    match NewestCheckpoint(d, v)
    case Some(c) => ReplayFrom(d, ReplayCommit(EMPTY, d.checkpoints[c]), c + 1, v)
    case None => ReplayFrom(d, EMPTY, 0, v)
  }

  /** The directory holds the commits lo..hi of `history`, and its checkpoints are correct. */
  ghost predicate Represents(d: Dir, history: seq<Commit>, lo: nat) {
    && lo < |history|
    && (forall v :: v in d.commits <==> lo <= v < |history|)
    && (forall v <- d.commits :: d.commits[v] == history[v])
    && (forall c <- d.checkpoints :: c < |history| && ReplayCommit(EMPTY, d.checkpoints[c]) == StateAt(history, c))
  }

  /** Version v can be read at all: nothing it needs was cleaned up. */
  ghost predicate Readable(d: Dir, lo: nat, v: nat) {
    lo == 0 || exists c <- d.checkpoints :: lo - 1 <= c <= v
  }

  lemma {:induction false} ReplayIsState(d: Dir, history: seq<Commit>, lo: nat, from: nat, v: nat)
    requires Represents(d, history, lo) && v < |history| && lo <= from <= v + 1 && from > 0
    ensures ReplayFrom(d, StateAt(history, from - 1), from, v) == Some(StateAt(history, v))
    decreases v + 1 - from
  {
    if from > v {
    } else {
      ReplayIsState(d, history, lo, from + 1, v);
    }
  }

  lemma {:induction false} MissingCommit(d: Dir, s: Snapshot, from: nat, v: nat, gap: nat)
    requires from <= gap <= v && gap !in d.commits
    ensures ReplayFrom(d, s, from, v) == None
    decreases v + 1 - from
  {
    if from !in d.commits {
    } else {
      MissingCommit(d, ReplayCommit(s, d.commits[from]), from + 1, v, gap);
    }
  }

  /** Reading a directory gives the history's own state, or nothing exactly when the
      commits it needs are gone. */
  lemma ReadIsState(d: Dir, history: seq<Commit>, lo: nat, v: nat)
    requires Represents(d, history, lo) && lo <= v < |history|
    ensures Read(d, v) == if Readable(d, lo, v) then Some(StateAt(history, v)) else None
  {
    match NewestCheckpoint(d, v)
    case Some(c) =>
      if c + 1 >= lo {
        ReplayIsState(d, history, lo, c + 1, v);
      } else {
        MissingCommit(d, ReplayCommit(EMPTY, d.checkpoints[c]), c + 1, v, c + 1);
      }
    case None =>
      if lo == 0 {
        assert StateAt(history, 0) == ReplayCommit(EMPTY, d.commits[0]);
        ReplayIsState(d, history, lo, 1, v);
      }
  }

  // ---- truncation ----

  /** A data file of this table's own directory: Delta names a shallow clone's source
      files by absolute URL. */
  predicate LocalAdd(line: Line) {
    line.Parsed? && line.action.Add? && line.action.path != "" && !Contains(line.action.path, "://")
  }

  function LocalAdds(commit: Commit): set<string> {
    if commit == [] then {}
    else
      var line := commit[|commit| - 1];
      LocalAdds(commit[..|commit| - 1]) + (if LocalAdd(line) then {line.action.path} else {})
  }

  /** They are the paths of the commit's add actions that are neither empty nor URLs. */
  lemma {:induction false} LocalAddsAre(commit: Commit, p: string)
    ensures p in LocalAdds(commit)
       <==> LocalPath(p) && exists i, stats :: 0 <= i < |commit| && commit[i] == Parsed(Add(p, stats))
  {
    if commit == [] {
    } else {
      var n := |commit| - 1;
      LocalAddsAre(commit[..n], p);
      if i, stats :| 0 <= i < |commit| && commit[i] == Parsed(Add(p, stats)) {
        assert i < n ==> commit[..n][i] == Parsed(Add(p, stats));
      }
      if p in LocalAdds(commit[..n]) {
        var i, stats :| 0 <= i < n && commit[..n][i] == Parsed(Add(p, stats));
        assert commit[i] == Parsed(Add(p, stats));
      } else if LocalAdd(commit[n]) && commit[n].action.path == p {
        assert commit[n] == Parsed(Add(p, commit[n].action.stats));
      }
    }
  }

  /** Some commit in vs adds the local file p. */
  predicate AddedIn(commits: map<nat, Commit>, vs: set<nat>, p: string) {
    exists v :: v in vs && v in commits && p in LocalAdds(commits[v])
  }

  /** The data files no commit in vs adds. */
  function Without(data: set<string>, commits: map<nat, Commit>, vs: set<nat>): set<string> {
    set p | p in data && !AddedIn(commits, vs, p)
  }

  function After(commits: map<nat, Commit>, version: nat): set<nat> {
    set v | v in commits && v > version
  }

  function Truncated(d: Dir, version: nat): Dir {
    Dir(map v | v in d.commits && v <= version :: d.commits[v],
        map c | c in d.checkpoints && c <= version :: d.checkpoints[c],
        None,
        (set c | c in d.crcs && c <= version),
        Without(d.data, d.commits, After(d.commits, version)))
  }

  datatype Removed = Removed(commits: nat, files: nat)

  ghost predicate IsLeast(m: nat, s: set<nat>) {
    m in s && forall n <- s :: m <= n
  }

  function Least(s: set<nat>): (m: nat)
    requires s != {}
    ensures IsLeast(m, s)
  {
    LeastExists(s);
    var m :| m in s && forall n <- s :: m <= n;
    m
  }

  lemma {:induction false} LeastExists(s: set<nat>)
    requires s != {}
    ensures exists m :: IsLeast(m, s)
  {
    var x :| x in s;
    if s == {x} {
      assert IsLeast(x, s);
    } else {
      LeastExists(s - {x});
      var k :| IsLeast(k, s - {x});
      assert forall n <- s :: n == x || n in s - {x};
      assert IsLeast(if k < x then k else x, s);
    }
  }

  ghost predicate IsNewest(m: nat, s: set<nat>) {
    m in s && forall n <- s :: n <= m
  }

  function Newest(s: set<nat>): (m: nat)
    requires s != {}
    ensures IsNewest(m, s)
  {
    NewestExists(s);
    var m :| m in s && forall n <- s :: n <= m;
    m
  }

  lemma {:induction false} NewestExists(s: set<nat>)
    requires s != {}
    ensures exists m :: IsNewest(m, s)
  {
    var x :| x in s;
    if s == {x} {
      assert IsNewest(x, s);
    } else {
      NewestExists(s - {x});
      var k :| IsNewest(k, s - {x});
      assert forall n <- s :: n == x || n in s - {x};
      assert IsNewest(if k < x then x else k, s);
    }
  }

  /** What a rewind makes of a log of some history: it is refused exactly outside the log, and what
      it leaves is a log of the history up to the version, which reads as it did before. */
  ghost predicate Rewound(before: Dir, after: Dir, version: nat, done: bool) {
    forall history: seq<Commit>, lo: nat :: Represents(before, history, lo) ==>
      && (done <==> lo <= version < |history|)
      && (done ==> Represents(after, history[..version + 1], lo) && Read(after, version) == Read(before, version))
  }

  lemma OutsideLog(d: Dir, version: nat)
    requires !((exists lo <- d.commits :: lo <= version) && (exists hi <- d.commits :: version <= hi))
    ensures Rewound(d, d, version, false)
  {
    forall history: seq<Commit>, lo: nat | Represents(d, history, lo)
      ensures !(lo <= version < |history|)
    {
      assert lo in d.commits && |history| - 1 in d.commits;
    }
  }

  lemma InsideLog(d: Dir, version: nat)
    requires (exists lo <- d.commits :: lo <= version) && (exists hi <- d.commits :: version <= hi)
    ensures Rewound(d, Truncated(d, version), version, true)
  {
    forall history: seq<Commit>, lo: nat | Represents(d, history, lo)
      ensures lo <= version < |history|
      ensures Represents(Truncated(d, version), history[..version + 1], lo)
      ensures Read(Truncated(d, version), version) == Read(d, version)
    {
      RestorePreservesSnapshot(d, history, lo, version);
    }
  }

  class Table {
    var commits: map<nat, Commit>
    var checkpoints: map<nat, Commit>
    var last: Option<nat>
    var crcs: set<nat>
    var data: set<string>

    function Model(): Dir
      reads this
    {
      Dir(commits, checkpoints, last, crcs, data)
    }

    constructor (d: Dir)
      ensures Model() == d
    {
      commits, checkpoints, last, crcs, data := d.commits, d.checkpoints, d.last, d.crcs, d.data;
    }

    /** Unlink the local files one commit adds; returns how many were there. */
    method UnlinkAdds(commit: Commit) returns (files: nat)
      modifies this`data
      ensures data == old(data) - LocalAdds(commit)
      ensures files == |old(data) - data|
    {
      hide LocalAdds;
      NoAdds(commit);
      files := 0;
      ghost var before, gone := data, {};
      var i := 0;
      while i < |commit|
        invariant 0 <= i <= |commit|
        invariant gone == LocalAdds(commit[..i])
        invariant data == before - gone
        invariant files == |before - data|
      {
        AddsOneMore(commit, i);
        if LocalAdd(commit[i]) {
          var path := commit[i].action.path;
          WithoutPath(before, gone, path);
          OneLoss(before, data, path);
          gone := gone + {path};
          if path in data {
            data := data - {path};
            files := files + 1;
          }
        }
        i := i + 1;
      }
      assert commit[..|commit|] == commit;
    }

    /** Unlink what one commit adds, then the commit file. */
    method DropCommit(v: nat) returns (files: nat)
      requires v in commits
      modifies this`commits, this`data
      ensures commits == old(commits) - {v}
      ensures data == old(data) - LocalAdds(old(commits)[v])
      ensures files == |old(data) - data|
    {
      files := UnlinkAdds(commits[v]);
      commits := commits - {v};
    }

    /** The loop over the later commits, oldest first. */
    method DropCommits(version: nat) returns (r: Removed)
      modifies this`commits, this`data
      ensures commits == Truncated(old(Model()), version).commits
      ensures data == Truncated(old(Model()), version).data
      ensures r.commits == |After(old(commits), version)| && r.files == |old(data) - data|
    {
      var removedCommits, removedFiles := 0, 0;
      var todo := After(commits, version);
      ghost var all, done := todo, {};
      WithoutNone(data, commits);
      while todo != {}
        invariant done !! todo && done + todo == all
        invariant commits == old(commits) - done
        invariant data == Without(old(data), old(commits), done)
        invariant removedCommits == |done| && removedFiles == |old(data) - data|
        decreases todo
      {
        var v := Least(todo);
        ghost var data0 := data;
        assert v in commits && commits[v] == old(commits)[v];
        var files := DropCommit(v);
        WithoutOneMore(old(data), old(commits), done, v);
        LossesAdd(old(data), data0, data);
        MinusOneMore(old(commits), done, v);
        todo, done := todo - {v}, done + {v};
        removedFiles := removedFiles + files;
        removedCommits := removedCommits + 1;
      }
      assert done == all;
      TruncatedCommits(old(Model()), version);
      r := Removed(removedCommits, removedFiles);
    }

    method DropCheckpoints(version: nat)
      modifies this`checkpoints
      ensures checkpoints == Truncated(old(Model()), version).checkpoints
    {
      var todo := checkpoints.Keys;
      while todo != {}
        invariant todo <= old(checkpoints).Keys
        invariant checkpoints == map c | c in old(checkpoints) && (c <= version || c in todo) :: old(checkpoints)[c]
        decreases todo
      {
        var c :| c in todo;
        if c > version {
          checkpoints := checkpoints - {c};
        }
        todo := todo - {c};
      }
    }

    method DropChecksums(version: nat)
      modifies this`crcs
      ensures crcs == Truncated(old(Model()), version).crcs
    {
      var todo := crcs;
      while todo != {}
        invariant todo <= old(crcs)
        invariant crcs == set c | c in old(crcs) && (c <= version || c in todo)
        decreases todo
      {
        var c :| c in todo;
        if c > version {
          crcs := crcs - {c};
        }
        todo := todo - {c};
      }
    }

    /** `_truncate_delta_log(table_dir, version)`; None is its ValueError. */
    method Truncate(version: nat) returns (r: Option<Removed>)
      modifies this
      ensures r.Some? <==> (exists lo <- old(commits) :: lo <= version) && (exists hi <- old(commits) :: version <= hi)
      ensures Rewound(old(Model()), Model(), version, r.Some?)
      ensures r.Some? ==> Model() == Truncated(old(Model()), version)
      ensures r.Some? ==> r.value.commits == |After(old(commits), version)| && r.value.files == |old(data) - data|
      ensures r.None? ==> Model() == old(Model())
    {
      ghost var before := Model();
      if commits == map[] || version < Least(commits.Keys) || version > Newest(commits.Keys) {
        OutsideLog(before, version);
        return None;
      }
      hide Represents, Read;
      var removed := DropCommits(version);
      DropCheckpoints(version);
      last := None;
      DropChecksums(version);
      r := Some(removed);
      InsideLog(before, version);
    }
  }

  lemma OneLoss(before: set<string>, data: set<string>, path: string)
    requires data <= before
    ensures path in data ==> |before - (data - {path})| == |before - data| + 1
  {
    if path in data {
      LossesAdd(before, data, data - {path});
      assert data - (data - {path}) == {path};
    }
  }

  lemma WithoutPath(data: set<string>, gone: set<string>, path: string)
    ensures data - (gone + {path}) == data - gone - {path}
    ensures path !in data - gone ==> data - (gone + {path}) == data - gone
  {
  }

  lemma NoAdds(commit: Commit)
    ensures LocalAdds(commit[..0]) == {}
  {
  }

  lemma AddsOneMore(commit: Commit, i: nat)
    requires i < |commit|
    ensures LocalAdds(commit[..i + 1]) ==
            LocalAdds(commit[..i]) + if LocalAdd(commit[i]) then {commit[i].action.path} else {}
  {
    assert commit[..i + 1][..i] == commit[..i];
  }

  lemma WithoutOneMore(data: set<string>, commits: map<nat, Commit>, vs: set<nat>, v: nat)
    requires v in commits
    ensures Without(data, commits, vs + {v}) == Without(data, commits, vs) - LocalAdds(commits[v])
  {
    forall p
      ensures AddedIn(commits, vs + {v}, p) <==> AddedIn(commits, vs, p) || p in LocalAdds(commits[v])
    {
      assert v in vs + {v};
    }
  }

  lemma WithoutNone(data: set<string>, commits: map<nat, Commit>)
    ensures Without(data, commits, {}) == data
  {
  }

  lemma TruncatedCommits(d: Dir, version: nat)
    ensures Truncated(d, version).commits == d.commits - After(d.commits, version)
  {
  }

  lemma LossesAdd(a: set<string>, b: set<string>, c: set<string>)
    requires c <= b <= a
    ensures |a - c| == |a - b| + |b - c|
  {
    assert a - c == (a - b) + (b - c);
  }

  lemma MinusOneMore(commits: map<nat, Commit>, vs: set<nat>, v: nat)
    ensures commits - vs - {v} == commits - (vs + {v})
  {
  }

  // ---- what truncation keeps ----

  /** Truncating to v leaves exactly the commits up to v, and a reader of what remains
      gets the original snapshot at v from the newest remaining checkpoint, whenever
      version v could be read before. */
  lemma RestorePreservesSnapshot(d: Dir, history: seq<Commit>, lo: nat, v: nat)
    requires Represents(d, history, lo) && lo <= v < |history|
    ensures Represents(Truncated(d, v), history[..v + 1], lo)
    ensures Truncated(d, v).commits.Keys == set w | w in d.commits && w <= v
    ensures NewestCheckpoint(Truncated(d, v), v) == NewestCheckpoint(d, v)
    ensures Read(Truncated(d, v), v) == Read(d, v)
    ensures Read(d, v) == if Readable(d, lo, v) then Some(StateAt(history, v)) else None
  {
    var t := Truncated(d, v);
    TruncatedRepresents(d, history, lo, v);
    TruncatedCheckpoints(d, lo, v);
    StateOfPrefix(history, v + 1, v);
    ReadIsState(d, history, lo, v);
    ReadIsState(t, history[..v + 1], lo, v);
  }

  lemma TruncatedCheckpoints(d: Dir, lo: nat, v: nat)
    ensures NewestCheckpoint(Truncated(d, v), v) == NewestCheckpoint(d, v)
    ensures Readable(Truncated(d, v), lo, v) <==> Readable(d, lo, v)
  {
    var cps := Truncated(d, v).checkpoints;
    assert forall c :: c in cps <==> c in d.checkpoints && c <= v;
    match NewestCheckpoint(d, v) {
      case Some(c) => assert c in cps;
      case None =>
    }
    if lo > 0 && Readable(d, lo, v) {
      var c :| c in d.checkpoints && lo - 1 <= c <= v;
      assert c in cps;
    }
  }

  lemma {:induction false} StateOfPrefix(history: seq<Commit>, n: nat, v: nat)
    requires v < n <= |history|
    ensures StateAt(history[..n], v) == StateAt(history, v)
  {
    if v == 0 {
    } else {
      StateOfPrefix(history, n, v - 1);
    }
  }

  lemma TruncatedRepresents(d: Dir, history: seq<Commit>, lo: nat, v: nat)
    requires Represents(d, history, lo) && lo <= v < |history|
    ensures Represents(Truncated(d, v), history[..v + 1], lo)
  {
    forall c <- Truncated(d, v).checkpoints
      ensures StateAt(history[..v + 1], c) == StateAt(history, c)
    {
      StateOfPrefix(history, v + 1, c);
    }
  }

  /** A live file on disk is kept exactly when no discarded commit adds it again. */
  lemma LiveFilesKeptIff(d: Dir, history: seq<Commit>, lo: nat, v: nat)
    requires Represents(d, history, lo) && lo <= v < |history|
    ensures (forall p <- StateAt(history, v).live :: p in d.data ==> p in Truncated(d, v).data)
       <==> (forall p <- StateAt(history, v).live :: p in d.data ==> !AddedIn(d.commits, After(d.commits, v), p))
  {
  }

  /** The local files that commits 0..v add. */
  function AddedUpTo(history: seq<Commit>, v: nat): set<string>
    requires v < |history|
  {
    LocalAdds(history[v]) + if v == 0 then {} else AddedUpTo(history, v - 1)
  }

  predicate LocalPath(p: string) {
    p != "" && !Contains(p, "://")
  }

  lemma {:induction false} LiveWasAddedIn(s: Snapshot, commit: Commit, p: string)
    requires p in ReplayCommit(s, commit).live && LocalPath(p)
    ensures p in s.live || p in LocalAdds(commit)
  {
    if commit == [] {
    } else {
      var front := commit[..|commit| - 1];
      if p in ReplayCommit(s, front).live {
        LiveWasAddedIn(s, front, p);
      }
    }
  }

  lemma {:induction false} LiveWasAdded(history: seq<Commit>, v: nat, p: string)
    requires v < |history| && p in StateAt(history, v).live && LocalPath(p)
    ensures p in AddedUpTo(history, v)
  {
    var before := if v == 0 then EMPTY else StateAt(history, v - 1);
    LiveWasAddedIn(before, history[v], p);
    if v == 0 || p !in before.live {
    } else {
      LiveWasAdded(history, v - 1, p);
    }
  }

  /** When the discarded commits add only paths no kept commit added, every local file
      live at v that existed is still there, and every file they added is gone. */
  lemma RestoreKeepsLiveFiles(d: Dir, history: seq<Commit>, lo: nat, v: nat)
    requires Represents(d, history, lo) && lo <= v < |history|
    requires forall p <- AddedUpTo(history, v) :: !AddedIn(d.commits, After(d.commits, v), p)
    ensures forall p <- StateAt(history, v).live :: LocalPath(p) && p in d.data ==> p in Truncated(d, v).data
    ensures forall p <- Truncated(d, v).data :: !AddedIn(d.commits, After(d.commits, v), p)
  {
    forall p <- StateAt(history, v).live | LocalPath(p)
      ensures !AddedIn(d.commits, After(d.commits, v), p)
    {
      LiveWasAdded(history, v, p);
    }
  }

  /** Without that condition a live file can be lost: a later commit that re-adds the
      same data file, as a deletion vector does, takes it along. */
  lemma ReAddedFileIsLost()
    ensures exists d: Dir, history: seq<Commit>, p: string ::
              Represents(d, history, 0) && |history| == 2 &&
              p in StateAt(history, 0).live && p in d.data && p !in Truncated(d, 0).data
  {
    var p := "f";
    var c0, c1 := [Parsed(Add(p, "x"))], [Parsed(Add(p, "y"))];
    var history := [c0, c1];
    var d := Dir(map[0 := c0, 1 := c1], map[], None, {}, {p});
    assert Represents(d, history, 0);
    assert c0[..0] == [];
    assert ReplayCommit(EMPTY, c0) == Reconcile(ReplayCommit(EMPTY, []), c0[0]);
    assert p in StateAt(history, 0).live;
    assert !Contains(p, "://");
    assert LocalAdd(c1[0]) && c1[..0] == [];
    assert p in LocalAdds(c1);
    assert 1 in After(d.commits, 0);
    assert AddedIn(d.commits, After(d.commits, 0), p);
  }

  /** Rewinding in two steps is rewinding once. */
  lemma TruncateTwice(d: Dir, v: nat, w: nat)
    requires w <= v
    ensures Truncated(Truncated(d, v), w) == Truncated(d, w)
  {
    var t := Truncated(d, v);
    assert After(d.commits, w) == After(t.commits, w) + After(d.commits, v);
    forall p
      ensures AddedIn(d.commits, After(d.commits, w), p) <==>
              AddedIn(t.commits, After(t.commits, w), p) || AddedIn(d.commits, After(d.commits, v), p)
    {
    }
  }

  // ---- _shadow_state ----

  datatype ShadowState = Unknown | ReadOnly(version: nat) | Written(version: nat)

  /** The operation of the first commitInfo line. */
  function Operation(commit: Commit): Option<string> {
    if commit == [] then None
    else if commit[0].Parsed? && commit[0].action.CommitInfo? then Some(commit[0].action.operation)
    else Operation(commit[1..])
  }

  function StateOf(commits: map<nat, Commit>): ShadowState {
    if commits == map[] then Unknown
    else
      var first := Least(commits.Keys);
      if Operation(commits[first]) == Some("CLONE") && |commits| == 1 then ReadOnly(first)
      else Written(Newest(commits.Keys))
  }

  /** That of the first line that has one. */
  lemma {:induction false} OperationIs(commit: Commit, operation: string)
    ensures Operation(commit) == Some(operation)
       <==> exists i :: && 0 <= i < |commit| && commit[i] == Parsed(CommitInfo(operation))
                        && forall j, op :: 0 <= j < i ==> commit[j] != Parsed(CommitInfo(op))
  {
    if commit == [] {
    } else if commit[0].Parsed? && commit[0].action.CommitInfo? {
      assert commit[0] == Parsed(CommitInfo(commit[0].action.operation));
    } else {
      OperationIs(commit[1..], operation);
      if Operation(commit) == Some(operation) {
        var i :| && 0 <= i < |commit[1..]| && commit[1..][i] == Parsed(CommitInfo(operation))
                 && forall j, op :: 0 <= j < i ==> commit[1..][j] != Parsed(CommitInfo(op));
        forall j, op | 0 <= j < i + 1
          ensures commit[j] != Parsed(CommitInfo(op))
        {
          assert j > 0 ==> commit[j] == commit[1..][j - 1];
        }
        assert commit[i + 1] == Parsed(CommitInfo(operation));
      }
    }
  }

  /** A shadow has only been read exactly while its log is one clone commit. */
  lemma StateOfLog(d: Dir, history: seq<Commit>, lo: nat)
    requires Represents(d, history, lo)
    ensures StateOf(d.commits) ==
            if |history| == lo + 1 && Operation(history[lo]) == Some("CLONE") then ReadOnly(lo)
            else Written(|history| - 1)
  {
    StateAfterRestore(d, history, lo, |history| - 1);
    assert Truncated(d, |history| - 1).commits == d.commits;
  }

  /** After a restore the shadow reports the version it was restored to, and counts as
      only read exactly when that is its clone commit. */
  lemma StateAfterRestore(d: Dir, history: seq<Commit>, lo: nat, v: nat)
    requires Represents(d, history, lo) && lo <= v < |history|
    ensures StateOf(Truncated(d, v).commits) ==
            if v == lo && Operation(history[lo]) == Some("CLONE") then ReadOnly(v) else Written(v)
  {
    var t := Truncated(d, v).commits;
    assert lo in t && v in t;
    assert Least(t.Keys) == lo;
    assert Newest(t.Keys) == v;
    if v == lo {
      assert t.Keys == {lo};
    } else {
      assert {lo, v} <= t.Keys;
      assert |t.Keys| >= |{lo, v}| by { Sets.SubsetSize({lo, v}, t.Keys); }
    }
  }
}
