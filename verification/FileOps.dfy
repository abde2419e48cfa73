/** `notebookutils.fs`: cp, rm, mv and the operations they are made of
    (notebookutils_shim.py `_FS`, engine.py `onelake_*`). Paths live on two sides: the
    local mirror, and OneLake, which is written only in writethrough. */
module FileOps {
  import Sets

  datatype Side = Local | OneLake

  datatype Path = Path(side: Side, segs: seq<string>) {
    function Child(name: string): Path {
      Path(side, segs + [name])
    }

    function Parent(): Path {
      if segs == [] then this else Path(side, segs[..|segs| - 1])
    }
  }

  datatype Entry = File(bytes: string) | Dir

  type Tree = map<Path, Entry>

  datatype Error = NotFound | Exists | IsADirectory | NotADirectory | Refused | BadRename | TooDeep

  datatype Result = Ok | Err(error: Error)

  // ---- paths ----

  /** q is p or inside it. */
  predicate Under(p: Path, q: Path) {
    p.side == q.side && p.segs <= q.segs
  }

  /** p is a directory on the way to q. */
  predicate Above(p: Path, q: Path) {
    Under(p, q) && p != q
  }

  predicate Disjoint(p: Path, q: Path) {
    !Under(p, q) && !Under(q, p)
  }

  /** q under `from`, carried over to `to`. */
  function Rebase(q: Path, from: Path, to: Path): Path
    requires Under(from, q)
  {
    Path(to.side, to.segs + q.segs[|from.segs|..])
  }

  /** Whatever exists has a directory for a parent, unless it is a side's root. */
  ghost predicate WellFormed(t: Tree) {
    forall q <- t :: q.segs != [] ==> q.Parent() in t && t[q.Parent()] == Dir
  }

  datatype Seen = Found(entry: Entry) | Absent

  function Look(t: Tree, q: Path): Seen {
    if q in t then Found(t[q]) else Absent
  }

  /** The paths at or under p. */
  function Subtree(t: Tree, p: Path): set<Path> {
    set q | q in t && Under(p, q)
  }

  // ---- what the operations do to a path ----

  /** `os.makedirs(p, exist_ok=True)`, seen at q. */
  function WithDirsAt(t: Tree, p: Path, q: Path): Seen {
    if q !in t && Under(q, p) then Found(Dir) else Look(t, q)
  }

  /** The directories on the way to p made, seen at q. */
  function WithParentsAt(t: Tree, p: Path, q: Path): Seen {
    if q !in t && Above(q, p) then Found(Dir) else Look(t, q)
  }

  ghost predicate MadeParents(t0: Tree, t1: Tree, p: Path) {
    forall q :: Look(t1, q) == WithParentsAt(t0, p, q)
  }

  ghost predicate MadeDirs(t0: Tree, t1: Tree, p: Path) {
    forall q :: Look(t1, q) == WithDirsAt(t0, p, q)
  }

  /** Removing p and everything inside it, seen at q. */
  function WithoutAt(t: Tree, p: Path, q: Path): Seen {
    if Under(p, q) then Absent else Look(t, q)
  }

  ghost predicate Removed(t0: Tree, t1: Tree, p: Path) {
    forall q :: Look(t1, q) == WithoutAt(t0, p, q)
  }

  /** Copying `from` over `to`, seen at q: the source's entry where the source has one,
      missing parents of the target as directories, anything else as it was. */
  function OverlaidAt(t: Tree, from: Path, to: Path, q: Path): Seen {
    if Under(to, q) && Rebase(q, to, from) in t then Found(t[Rebase(q, to, from)])
    else WithParentsAt(t, to, q)
  }

  ghost predicate Overlaid(t0: Tree, t1: Tree, from: Path, to: Path) {
    forall q :: Look(t1, q) == OverlaidAt(t0, from, to, q)
  }

  /** Nothing on the way to p is a file. */
  predicate ClearWay(t: Tree, p: Path) {
    forall q <- t :: Under(q, p) ==> t[q] == Dir
  }

  /** Nothing above p is a file. */
  predicate ClearAbove(t: Tree, p: Path) {
    forall q <- t :: Above(q, p) ==> t[q] == Dir
  }

  /** p is a side's root, or its parent is a directory. */
  predicate HasParent(t: Tree, p: Path) {
    p.segs == [] || Look(t, p.Parent()) == Found(Dir)
  }

  /** Where both the source and the target have something, it is of the same kind. */
  ghost predicate KindsAgree(t: Tree, from: Path, to: Path) {
    forall q <- t :: Under(from, q) && Rebase(q, from, to) in t ==> t[q].Dir? == t[Rebase(q, from, to)].Dir?
  }

  ghost predicate Compatible(t: Tree, from: Path, to: Path) {
    ClearAbove(t, to) && KindsAgree(t, from, to)
  }

  /** No path the copy writes lies inside the source, except onto itself. */
  ghost predicate Untangled(t: Tree, from: Path, to: Path) {
    forall q <- t :: Under(from, q) && Under(from, Rebase(q, from, to)) ==> Rebase(q, from, to) == q
  }

  /** Copying the tree at p takes at most this many nested calls. */
  ghost predicate Shallow(t: Tree, p: Path, frames: nat) {
    forall q <- t :: Under(p, q) ==> |q.segs| - |p.segs| < frames
  }

  /** Apart from parents made for p, only p and what is inside it may differ. */
  ghost predicate OnlyWithin(t0: Tree, t1: Tree, p: Path) {
    forall q :: Under(p, q) || Look(t1, q) == Look(t0, q) || (Under(q, p) && q !in t0 && Look(t1, q) == Found(Dir))
  }

  ghost predicate OneLakeKept(t0: Tree, t1: Tree) {
    forall q: Path :: q.side == OneLake ==> Look(t1, q) == Look(t0, q)
  }

  datatype Op =
    | MakeDir(p: Path)
    | Put(p: Path, bytes: string, overwrite: bool)
    | AppendTo(p: Path, bytes: string, create: bool)
    | Remove(p: Path, recurse: bool)
    | Copy(from: Path, to: Path, recurse: bool)
    | Move(from: Path, to: Path, createPath: bool, overwrite: bool)

  class FS {
    const writethrough: bool
    const limit: nat      // Python's recursion limit
    var t: Tree

    constructor (writethrough: bool, limit: nat, t: Tree)
      ensures this.writethrough == writethrough && this.limit == limit && this.t == t
    {
      this.writethrough, this.limit, this.t := writethrough, limit, t;
    }

    predicate Writable(p: Path)
    {
      p.side == Local || writethrough
    }

    /** `os.makedirs(p, exist_ok=True)` and ADLS's create_directory. */
    method MakeDirs(p: Path) returns (r: Result)
      requires WellFormed(t)
      modifies this
      ensures WellFormed(t)
      ensures r.Ok? <==> ClearWay(old(t), p)
      ensures if r.Ok? then MadeDirs(old(t), t, p) else t == old(t)
    {
      if !ClearWay(t, p) {
        return Err(NotADirectory);
      }
      t := AddDirs(t, p);
      AddDirsWellFormed(old(t), p);
      r := Ok;
    }

    /** `os.makedirs(os.path.dirname(p), exist_ok=True)`. */
    method MakeParents(p: Path) returns (r: Result)
      requires WellFormed(t)
      modifies this
      ensures WellFormed(t)
      ensures r.Ok? <==> ClearAbove(old(t), p)
      ensures if r.Ok? then MadeParents(old(t), t, p) && HasParent(t, p) else t == old(t)
    {
      if p.segs == [] {
        return Ok;
      }
      ParentAbove(p);
      r := MakeDirs(p.Parent());
      if r.Ok? {
        assert Look(t, p.Parent()) == WithDirsAt(old(t), p.Parent(), p.Parent());
      }
    }

    /** `mkdirs`. */
    method Mkdirs(p: Path) returns (r: Result)
      requires WellFormed(t)
      modifies this
      ensures WellFormed(t)
      ensures r.Ok? <==> (p.side == Local || writethrough) && ClearWay(old(t), p)
      ensures if r.Ok? then MadeDirs(old(t), t, p) else t == old(t)
      ensures !writethrough ==> OneLakeKept(old(t), t)
    {
      if !Writable(p) {
        return Err(Refused);
      }
      r := MakeDirs(p);
    }

    /** `_write`. */
    method Write(p: Path, bytes: string, overwrite: bool) returns (r: Result)
      requires WellFormed(t)
      modifies this
      ensures WellFormed(t)
      ensures r.Ok? <==> && (p.side == Local || writethrough) && (overwrite || p !in old(t))
                         && ClearAbove(old(t), p) && Look(old(t), p) != Found(Dir)
      ensures if r.Ok? then Written(old(t), t, p, bytes) else t == old(t)
      ensures !writethrough ==> OneLakeKept(old(t), t)
    {
      if !Writable(p) {
        return Err(Refused);
      }
      if p in t && !overwrite {
        return Err(Exists);
      }
      if p in t && t[p].Dir? {
        return Err(IsADirectory);
      }
      r := MakeParents(p);
      if r.Ok? {
        ghost var made := t;
        t := t[p := File(bytes)];
        WriteWellFormed(old(t), made, p, bytes);
      }
    }

    /** `append`. */
    method Append(p: Path, bytes: string, create: bool) returns (r: Result)
      requires WellFormed(t)
      modifies this
      ensures WellFormed(t)
      ensures r.Ok? <==> && (p.side == Local || writethrough) && (create || p in old(t))
                         && ClearAbove(old(t), p) && Look(old(t), p) != Found(Dir)
      ensures r.Ok? ==> Written(old(t), t, p, (if p in old(t) then old(t)[p].bytes else "") + bytes)
      ensures r.Err? ==> t == old(t)
      ensures !writethrough ==> OneLakeKept(old(t), t)
    {
      if p.side == OneLake && !writethrough {
        return Err(Refused);
      }
      if p !in t && !create {
        return Err(NotFound);
      }
      if p in t && t[p].Dir? {
        return Err(IsADirectory);
      }
      r := Write(p, (if p in t then t[p].bytes else "") + bytes, true);
    }

    /** `rm`. */
    method Rm(p: Path, recurse: bool) returns (r: Result)
      requires WellFormed(t)
      modifies this
      ensures WellFormed(t)
      ensures r.Ok? <==> && p in old(t) && (p.side == Local || writethrough)
                         && (recurse || old(t)[p].File? || Names(old(t), p) == {})
      ensures p !in old(t) ==> r == Err(NotFound)
      ensures if r.Ok? then Removed(old(t), t, p) else t == old(t)
      ensures !writethrough ==> OneLakeKept(old(t), t)
      decreases |Subtree(t, p)|, 1
    {
      if p !in t {
        return Err(NotFound);
      }
      if p.side == OneLake && !writethrough {
        return Err(Refused);
      }
      if t[p].Dir? {
        if !recurse && Names(t, p) != {} {
          return Err(IsADirectory);
        }
        if p.side == OneLake {
          t := Cut(t, p);                     // delete_directory is recursive on the server
          CutWellFormed(old(t), p);
          return Ok;
        }
        RmChildren(p);
      } else {
        FileHasNoChildren(t, p);
      }
      ghost var before := t;
      t := t - {p};
      OnlySelfLeft(old(t), before, t, p);
      r := Ok;
    }

    /** The loop of `rm` over a local directory's children. */
    method RmChildren(p: Path)
      requires WellFormed(t) && p in t && p.side == Local
      modifies this
      ensures WellFormed(t)
      ensures forall q :: Look(t, q) == if InChild(p, q) then Absent else Look(old(t), q)
      decreases |Subtree(t, p)|, 0
    {
      ghost var start, done := t, {};
      var todo := Names(t, p);
      while todo != {}
        invariant WellFormed(t)
        invariant done !! todo && done + todo == Names(start, p)
        invariant CutChildren(start, t, p, done)
        decreases todo
      {
        var n :| n in todo;
        ghost var before := t;
        ChildKept(start, t, p, done, n);
        SubtreeShrinks(start, t, p, n, done);
        var r := Rm(p.Child(n), true);
        CutOneMore(start, before, t, p, done, n);
        todo, done := todo - {n}, done + {n};
      }
      assert done == Names(start, p);
      AllChildrenCut(start, t, p);
    }

    /** `cp`. A directory copied into itself never gets to an end: the calls nest until
        Python gives up. Any other copy that does not write into its own source is exact. */
    method Cp(from: Path, to: Path, recurse: bool, frames: nat) returns (r: Result)
      requires WellFormed(t)
      modifies this
      ensures WellFormed(t)
      ensures Untangled(old(t), from, to) ==>
                (r.Ok? <==> && from in old(t) && (recurse || old(t)[from].File?) && (to.side == Local || writethrough)
                            && Compatible(old(t), from, to) && Shallow(old(t), from, frames))
      ensures Untangled(old(t), from, to) && r.Ok? ==> Overlaid(old(t), t, from, to)
      ensures Above(from, to) ==> r.Err?
      ensures OnlyWithin(old(t), t, to)
      ensures (to.side == OneLake && !writethrough) || (r.Err? && Look(old(t), from) != Found(Dir)) ==> t == old(t)
      decreases frames, 0
    {
      if frames == 0 {
        return Err(TooDeep);
      }
      if from !in t {
        return Err(NotFound);
      }
      ghost var t0 := t;
      if t[from].File? {
        r := Write(to, t[from].bytes, true);
        FileCopy(t0, t, from, to, r);
        return r;
      }
      if !recurse {
        return Err(IsADirectory);
      }
      r := Mkdirs(to);
      if r.Ok? {
        ghost var t1 := t;
        TargetMade(t0, t1, from, to);
        r := CpChildren(from, to, frames - 1);
        if Untangled(t0, from, to) {
          MadeUntangled(t0, t1, from, to);
          if r.Ok? {
            OverlaidAfterMade(t0, t1, t, from, to);
          }
        }
      } else {
        NoWayIn(t0, from, to);
      }
    }

    /** The loop of `cp` over a directory's children. */
    method CpChildren(from: Path, to: Path, frames: nat) returns (r: Result)
      requires WellFormed(t) && Writable(to) && Look(t, from) == Look(t, to) == Found(Dir)
      modifies this
      ensures WellFormed(t)
      ensures Untangled(old(t), from, to) ==>
                (r.Ok? <==> KindsAgree(old(t), from, to) && Shallow(old(t), from, frames + 1))
      ensures Untangled(old(t), from, to) && r.Ok? ==> Overlaid(old(t), t, from, to)
      ensures Above(from, to) ==> r.Err?
      ensures forall q :: Under(to, q) || Look(t, q) == Look(old(t), q)
      decreases frames, 1
    {
      hide ChildFits, PartOverlaid, Untangled, Compatible, KindsAgree, Shallow, Overlaid;
      ghost var start, done := t, {};
      ghost var fine := Untangled(t, from, to);
      var todo := Names(t, from);
      NothingCopied(start, from, to);
      r := Ok;
      while r.Ok? && todo != {}
        invariant WellFormed(t) && Look(t, to) == Found(Dir)
        invariant done !! todo && done + todo == Names(start, from)
        invariant forall q :: Under(to, q) || Look(t, q) == Look(start, q)
        invariant fine && r.Ok? ==> && PartOverlaid(start, t, from, to, done)
                                    && forall n <- done :: ChildFits(start, from, to, n, frames)
        invariant fine && r.Err? ==> exists n <- Names(start, from) :: !ChildFits(start, from, to, n, frames)
        invariant Above(from, to) && r.Ok? ==> to.segs[|from.segs|] !in done
        decreases todo
      {
        var n :| n in todo;
        ghost var before := t;
        if fine {
          ChildUntouched(start, t, from, to, done, n, frames);
        }
        r := Cp(from.Child(n), to.Child(n), true, frames);
        if fine && r.Ok? {
          CopiedOneMore(start, before, t, from, to, done, n);
        }
        ChildOutside(before, t, to, n);
        if Above(from, to) {
          IntoItself(from, to, n);
        }
        todo, done := todo - {n}, done + {n};
      }
      if Above(from, to) && r.Ok? {
        StepInside(start, from, to);
      }
      if fine && r.Ok? {
        AllChildrenCopied(start, t, from, to);
        AllChildrenFit(start, from, to, frames);
      } else if fine {
        ChildDoesNotFit(start, from, to, frames);
      }
    }

    /** `os.rename` and ADLS's rename, onto a path where nothing is. */
    method Rename(from: Path, to: Path) returns (r: Result)
      requires WellFormed(t) && to !in t && from.side == to.side
      modifies this
      ensures WellFormed(t)
      ensures r.Ok? <==> && (to.side == Local || writethrough) && from in old(t)
                         && HasParent(old(t), to) && !Under(from, to)
      ensures if r.Ok? then Renamed(old(t), t, from, to) else t == old(t)
      ensures !writethrough ==> OneLakeKept(old(t), t)
    {
      if !Writable(to) {
        return Err(Refused);
      }
      if from !in t {
        return Err(NotFound);
      }
      if !HasParent(t, to) || Under(from, to) {
        return Err(BadRename);
      }
      ghost var t0 := t;
      t := WithMove(t, from, to);
      RenameWellFormed(t0, t, from, to);
      r := Ok;
    }

    /** `mv` with both ends on one side. The target is removed, and its parents are made,
        before the rename is tried: when the rename then fails, the target is gone. */
    method MvWithin(from: Path, to: Path, createPath: bool, overwrite: bool) returns (r: Result)
      requires WellFormed(t) && from.side == to.side
      modifies this
      ensures WellFormed(t)
      ensures !overwrite && to in old(t) ==> r == Err(Exists) && t == old(t)
      ensures (to.side == OneLake && !writethrough) ==> r.Err? && t == old(t)
      ensures r.Ok? <==> && (overwrite || to !in old(t)) && (to.side == Local || writethrough) && from in old(t)
                         && !Under(from, to) && !Under(to, from)
                         && (HasParent(old(t), to) || (createPath && ClearAbove(old(t), to)))
      ensures r.Ok? ==> Moved(old(t), t, from, to)
      ensures (to.side == Local || writethrough) && (overwrite || to !in old(t)) && r.Err? ==> to !in t
      ensures r.Err? && from in old(t) ==>
                (from !in t <==> (to.side == Local || writethrough) && overwrite && Under(to, from))
      ensures r.Err? ==>
                forall q :: Under(to, q) || Look(t, q) in {WithParentsAt(old(t), to, q), Look(old(t), q)}
    {
      if to in t && !overwrite {
        return Err(Exists);
      }
      ghost var t0 := t;
      if to in t {
        r := Rm(to, true);
        if r.Err? {
          return r;
        }
      }
      ghost var t1 := t;
      TargetCleared(t0, t1, to);
      if createPath && !HasParent(t, to) {
        if !Writable(to) {
          return Err(Refused);
        }
        r := MakeParents(to);
        if r.Err? {
          return r;
        }
      } else if createPath {
        ParentsThere(t1, to);
        ParentIsClear(t1, to);
      }
      ghost var t2 := t;
      ParentsReady(t0, t1, t2, from, to, createPath);
      r := Rename(from, to);
      if r.Ok? {
        MovedWithin(t0, t2, t, from, to, createPath);
      }
    }

    /** `mv` from one side to the other: copy, then remove. */
    method MvAcross(from: Path, to: Path, overwrite: bool) returns (r: Result)
      requires WellFormed(t) && from.side != to.side
      modifies this
      ensures WellFormed(t)
      ensures !overwrite && to in old(t) ==> r == Err(Exists) && t == old(t)
      ensures (to.side == OneLake && !writethrough) ==> r.Err? && t == old(t)
      ensures r.Ok? <==> && (overwrite || to !in old(t)) && writethrough
                         && from in old(t) && Compatible(old(t), from, to) && Shallow(old(t), from, limit)
      ensures r.Ok? ==> Merged(old(t), t, from, to)
      ensures r.Ok? && to !in old(t) ==> Moved(old(t), t, from, to)
      ensures r.Err? ==> OnlyWithin(old(t), t, to)
    {
      if to in t && !overwrite {
        return Err(Exists);
      }
      ghost var t0 := t;
      r := Cp(from, to, true, limit);
      if r.Ok? {
        ghost var t1 := t;
        SourceStays(t0, t1, from, to);
        r := Rm(from, true);
        if r.Ok? {
          CopiedAndRemoved(t0, t1, t, from, to);
        }
      }
    }

    /** `mv`. */
    method Mv(from: Path, to: Path, createPath: bool, overwrite: bool) returns (r: Result)
      requires WellFormed(t)
      modifies this
      ensures WellFormed(t)
      ensures !overwrite && to in old(t) ==> r == Err(Exists) && t == old(t)
      ensures r.Ok? <==> && (overwrite || to !in old(t)) && from in old(t)
                         && if from.side == to.side then
                              && (to.side == Local || writethrough) && Disjoint(from, to)
                              && (HasParent(old(t), to) || (createPath && ClearAbove(old(t), to)))
                            else writethrough && Compatible(old(t), from, to) && Shallow(old(t), from, limit)
      ensures r.Ok? && to !in old(t) ==> Moved(old(t), t, from, to)
      ensures r.Ok? && from.side == to.side ==> Moved(old(t), t, from, to)
      ensures r.Ok? && from.side != to.side ==> Merged(old(t), t, from, to)
      ensures r.Err? && from in old(t) ==>
                (from !in t <==> (to.side == Local || writethrough) && overwrite && Under(to, from))
      ensures !writethrough ==> OneLakeKept(old(t), t)
    {
      if from.side == to.side {
        r := MvWithin(from, to, createPath, overwrite);
      } else {
        r := MvAcross(from, to, overwrite);
      }
    }

    /** Any operations one after another: outside writethrough OneLake is what it was. */
    method Session(ops: seq<Op>)
      requires WellFormed(t)
      modifies this
      ensures WellFormed(t)
      ensures !writethrough ==> OneLakeKept(old(t), t)
    {
      for i := 0 to |ops|
        invariant WellFormed(t)
        invariant !writethrough ==> OneLakeKept(old(t), t)
      {
        ghost var before := t;
        match ops[i] {
          case MakeDir(p) => var _ := Mkdirs(p);
          case Put(p, bytes, overwrite) => var _ := Write(p, bytes, overwrite);
          case AppendTo(p, bytes, create) => var _ := Append(p, bytes, create);
          case Remove(p, recurse) => var _ := Rm(p, recurse);
          case Copy(from, to, recurse) => var _ := Cp(from, to, recurse, limit);
          case Move(from, to, createPath, overwrite) => var _ := Mv(from, to, createPath, overwrite);
        }
        assert !writethrough ==> OneLakeKept(before, t);
      }
    }
  }

  /** `mv(p, p, overwrite=True)` removes p and fails. */
  method MoveOntoItself(p: Path, bytes: string) returns (r: Result, after: Tree)
    requires p.side == Local && |p.segs| == 1
    ensures r.Err? && p !in after
  {
    var fs := new FS(false, 1000, map[Path(Local, []) := Dir, p := File(bytes)]);
    r := fs.Mv(p, p, false, true);
    after := fs.t;
  }

  ghost predicate Written(t0: Tree, t1: Tree, p: Path, bytes: string) {
    forall q :: Look(t1, q) == if q == p then Found(File(bytes)) else WithParentsAt(t0, p, q)
  }

  lemma WriteWellFormed(t0: Tree, made: Tree, p: Path, bytes: string)
    requires WellFormed(made) && MadeParents(t0, made, p) && HasParent(made, p) && Look(t0, p) != Found(Dir)
    ensures WellFormed(made[p := File(bytes)]) && Written(t0, made[p := File(bytes)], p, bytes)
  {
    var r := made[p := File(bytes)];
    assert Look(made, p) == WithParentsAt(t0, p, p);
    NothingInside(made, p);
    forall q <- r | q.segs != []
      ensures q.Parent() in r && r[q.Parent()] == Dir
    {
      if q == p {
        assert Look(made, p.Parent()) == Found(Dir) && p.Parent() != p;
      } else {
        assert q.Parent() in made;
      }
    }
    assert forall q :: Look(r, q) == if q == p then Found(File(bytes)) else Look(made, q);
  }

  lemma ParentAbove(p: Path)
    requires p.segs != []
    ensures forall q :: Under(q, p.Parent()) <==> Above(q, p)
  {
    forall q | Above(q, p)
      ensures Under(q, p.Parent())
    {
      assert |q.segs| == |p.segs| ==> q.segs == p.segs;
    }
  }

  lemma NothingInside(t: Tree, p: Path)
    requires WellFormed(t) && Look(t, p) != Found(Dir)
    ensures forall q <- t :: q.segs != [] ==> q.Parent() != p
  {
  }

  /** The names in a directory, in no particular order. */
  function Names(t: Tree, p: Path): set<string> {
    set q | q in t && q.segs != [] && q.Parent() == p :: q.segs[|q.segs| - 1]
  }

  lemma NamesAre(t: Tree, p: Path, n: string)
    ensures n in Names(t, p) <==> p.Child(n) in t
  {
    var c := p.Child(n);
    assert c.segs != [] && c.Parent() == p && c.segs[|c.segs| - 1] == n;
    if n in Names(t, p) {
      var q :| q in t && q.segs != [] && q.Parent() == p && q.segs[|q.segs| - 1] == n;
      assert q == c;
    }
  }

  function Cut(t: Tree, p: Path): (r: Tree)
    ensures Removed(t, r, p)
  {
    map q | q in t && !Under(p, q) :: t[q]
  }

  lemma CutWellFormed(t: Tree, p: Path)
    requires WellFormed(t)
    ensures WellFormed(Cut(t, p))
  {
    var r := Cut(t, p);
    forall q <- r
      ensures q.segs != [] ==> q.Parent() in r && r[q.Parent()] == Dir
    {
      assert !Under(p, q) && !Under(p, q.Parent());
      assert Look(r, q.Parent()) == Look(t, q.Parent());
    }
  }

  /** The children of p named in done are gone with all they hold, the rest is as in t0. */
  ghost predicate CutChildren(t0: Tree, t1: Tree, p: Path, done: set<string>) {
    forall q :: Look(t1, q) == if InChild(p, q) && q.segs[|p.segs|] in done then Absent else Look(t0, q)
  }

  /** q is strictly inside p. */
  predicate InChild(p: Path, q: Path) {
    Under(p, q) && |q.segs| > |p.segs|
  }

  lemma UnderChild(p: Path, n: string, q: Path)
    ensures Under(p.Child(n), q) <==> InChild(p, q) && q.segs[|p.segs|] == n
  {
    if Under(p.Child(n), q) {
      assert q.segs[|p.segs|] == p.Child(n).segs[|p.segs|];
    }
    if InChild(p, q) && q.segs[|p.segs|] == n {
      assert q.segs[..|p.segs| + 1] == p.segs + [n];
    }
  }

  lemma {:induction false} AncestorExists(t: Tree, p: Path, q: Path)
    requires WellFormed(t) && q in t && Under(p, q)
    ensures p in t && (p != q ==> t[p] == Dir)
    decreases |q.segs|
  {
    if p == q {
    } else {
      assert Under(p, q.Parent());
      AncestorExists(t, p, q.Parent());
    }
  }

  lemma ChildKept(t0: Tree, t: Tree, p: Path, done: set<string>, n: string)
    requires CutChildren(t0, t, p, done) && n in Names(t0, p) && n !in done
    ensures p.Child(n) in t
  {
    NamesAre(t0, p, n);
    UnderChild(p, n, p.Child(n));
    assert Look(t, p.Child(n)) == Look(t0, p.Child(n));
  }

  lemma CutOneMore(t0: Tree, t1: Tree, t2: Tree, p: Path, done: set<string>, n: string)
    requires CutChildren(t0, t1, p, done) && Removed(t1, t2, p.Child(n))
    ensures CutChildren(t0, t2, p, done + {n})
  {
    forall q
      ensures Look(t2, q) == if InChild(p, q) && q.segs[|p.segs|] in done + {n} then Absent else Look(t0, q)
    {
      UnderChild(p, n, q);
      assert Look(t2, q) == WithoutAt(t1, p.Child(n), q);
    }
  }

  lemma SubtreeShrinks(t0: Tree, t: Tree, p: Path, n: string, done: set<string>)
    requires p in t0 && CutChildren(t0, t, p, done)
    ensures |Subtree(t, p.Child(n))| < |Subtree(t0, p)|
  {
    forall q <- Subtree(t, p.Child(n))
      ensures q in Subtree(t0, p) - {p}
    {
      UnderChild(p, n, q);
      assert Look(t, q).Found?;
    }
    Sets.SubsetSize(Subtree(t, p.Child(n)), Subtree(t0, p) - {p});
  }

  lemma AllChildrenCut(t0: Tree, t: Tree, p: Path)
    requires WellFormed(t0) && CutChildren(t0, t, p, Names(t0, p))
    ensures forall q :: Look(t, q) == if InChild(p, q) then Absent else Look(t0, q)
  {
    forall q
      ensures Look(t, q) == if InChild(p, q) then Absent else Look(t0, q)
    {
      if InChild(p, q) && q in t0 {
        UnderChild(p, q.segs[|p.segs|], q);
        AncestorExists(t0, p.Child(q.segs[|p.segs|]), q);
        NamesAre(t0, p, q.segs[|p.segs|]);
      }
    }
  }

  lemma FileHasNoChildren(t: Tree, p: Path)
    requires WellFormed(t) && p in t && t[p].File?
    ensures forall q :: Look(t, q) == if InChild(p, q) then Absent else Look(t, q)
  {
    forall q | InChild(p, q) && q in t
      ensures false
    {
      AncestorExists(t, p, q);
    }
  }

  lemma OnlySelfLeft(t0: Tree, t1: Tree, t2: Tree, p: Path)
    requires WellFormed(t0) && t2 == t1 - {p}
    requires forall q :: Look(t1, q) == if InChild(p, q) then Absent else Look(t0, q)
    ensures Removed(t0, t2, p) && WellFormed(t2)
  {
    forall q
      ensures Look(t2, q) == WithoutAt(t0, p, q)
    {
      assert Under(p, q) <==> q == p || InChild(p, q);
    }
    CutWellFormed(t0, p);
    SameLook(t2, Cut(t0, p));
  }

  lemma SameLook(a: Tree, b: Tree)
    requires forall q :: Look(a, q) == Look(b, q)
    ensures a == b
  {
    forall q
      ensures q in a <==> q in b
      ensures q in a ==> a[q] == b[q]
    {
      assert Look(a, q) == Look(b, q);
    }
  }

  function Prefixes(p: Path): (r: set<Path>)
    ensures forall q :: q in r <==> Under(q, p)
  {
    var r := set i | 0 <= i <= |p.segs| :: Path(p.side, p.segs[..i]);
    assert forall q :: Under(q, p) ==> q == Path(p.side, p.segs[..|q.segs|]);
    r
  }

  function AddDirs(t: Tree, p: Path): (r: Tree)
    ensures MadeDirs(t, r, p)
  {
    map q | q in t.Keys + Prefixes(p) :: if q in t then t[q] else Dir
  }

  lemma AddDirsWellFormed(t: Tree, p: Path)
    requires WellFormed(t) && ClearWay(t, p)
    ensures WellFormed(AddDirs(t, p))
  {
    var r := AddDirs(t, p);
    forall q <- r
      ensures q.segs != [] ==> q.Parent() in r && r[q.Parent()] == Dir
    {
      if q in t {
        assert q.Parent() in t && Look(r, q.Parent()) == Look(t, q.Parent());
      } else {
        assert Under(q, p) && Under(q.Parent(), p);
        assert Look(r, q.Parent()).Found?;
      }
    }
  }

  // ---- cp ----

  /** The children of `from` named in done are over those of `to`, the rest is as in t. */
  function PartAt(t: Tree, from: Path, to: Path, done: set<string>, q: Path): Seen {
    if InChild(to, q) && q.segs[|to.segs|] in done && Rebase(q, to, from) in t then Found(t[Rebase(q, to, from)])
    else Look(t, q)
  }

  ghost predicate PartOverlaid(t0: Tree, t1: Tree, from: Path, to: Path, done: set<string>) {
    forall q :: Look(t1, q) == PartAt(t0, from, to, done, q)
  }

  lemma NothingCopied(t: Tree, from: Path, to: Path)
    ensures PartOverlaid(t, t, from, to, {})
  {
  }

  lemma DirsPresent(t: Tree, p: Path)
    requires WellFormed(t) && p in t
    ensures forall q :: Under(q, p) ==> q in t && (q != p ==> t[q] == Dir)
    ensures forall q :: WithParentsAt(t, p, q) == Look(t, q)
  {
    forall q | Under(q, p)
      ensures q in t && (q != p ==> t[q] == Dir)
    {
      AncestorExists(t, q, p);
    }
  }

  lemma FileCopy(t0: Tree, t1: Tree, from: Path, to: Path, r: Result)
    requires WellFormed(t0) && from in t0 && t0[from].File?
    requires r.Ok? ==> ClearAbove(t0, to)
    requires if r.Ok? then Written(t0, t1, to, t0[from].bytes) else t1 == t0
    ensures r.Ok? ==> Overlaid(t0, t1, from, to) && !Above(from, to)
    ensures OnlyWithin(t0, t1, to)
    ensures ClearAbove(t0, to) && Look(t0, to) != Found(Dir) <==> Compatible(t0, from, to)
    ensures forall frames: nat | frames > 0 :: Shallow(t0, from, frames)
  {
    FileHasNoChildren(t0, from);
    forall q | Under(from, q) && q in t0
      ensures q == from
    {
      assert !InChild(from, q);
    }
    assert Rebase(from, from, to) == to && Rebase(to, to, from) == from;
    if r.Ok? {
      forall q
        ensures Look(t1, q) == OverlaidAt(t0, from, to, q)
      {
        if Under(to, q) && q != to {
          assert Rebase(q, to, from) != from && Under(from, Rebase(q, to, from));
        }
      }
    }
  }

  lemma TargetMade(t0: Tree, t1: Tree, from: Path, to: Path)
    requires Look(t0, from) == Found(Dir) && ClearWay(t0, to) && MadeDirs(t0, t1, to)
    ensures Look(t1, from) == Look(t1, to) == Found(Dir)
    ensures forall q :: InChild(to, q) ==> Look(t1, q) == Look(t0, q)
    ensures OnlyWithin(t0, t1, to)
  {
    assert Look(t1, to) == WithDirsAt(t0, to, to);
    assert Look(t1, from) == WithDirsAt(t0, to, from);
    assert forall q :: Look(t1, q) == WithDirsAt(t0, to, q);
  }

  /** Making the target leaves an untangled source as it was. */
  lemma MadeUntangled(t0: Tree, t1: Tree, from: Path, to: Path)
    requires WellFormed(t0) && Look(t0, from) == Found(Dir) && Untangled(t0, from, to)
    requires ClearWay(t0, to) && MadeDirs(t0, t1, to)
    ensures forall q :: Under(from, q) ==> Look(t1, q) == Look(t0, q)
    ensures Untangled(t1, from, to)
    ensures KindsAgree(t1, from, to) <==> Compatible(t0, from, to)
    ensures forall frames: nat :: Shallow(t1, from, frames) <==> Shallow(t0, from, frames)
  {
    assert Rebase(from, from, to) == to;
    forall q | Under(from, q)
      ensures Look(t1, q) == Look(t0, q) && (q in t1 <==> q in t0)
    {
      assert Look(t1, q) == WithDirsAt(t0, to, q);
      if Under(q, to) {
        assert q.segs == from.segs;
      }
    }
    TargetMade(t0, t1, from, to);
    StillAgree(t0, t1, from, to);
  }

  lemma StillAgree(t0: Tree, t1: Tree, from: Path, to: Path)
    requires Look(t0, from) == Look(t1, from) == Look(t1, to) == Found(Dir) && ClearWay(t0, to)
    requires forall q :: Under(from, q) ==> Look(t1, q) == Look(t0, q)
    requires forall q :: InChild(to, q) ==> Look(t1, q) == Look(t0, q)
    ensures KindsAgree(t1, from, to) <==> Compatible(t0, from, to)
  {
    assert Rebase(from, from, to) == to;
    forall q | Under(from, q) && q != from
      ensures q in t1 <==> q in t0
      ensures q in t1 ==> t1[q] == t0[q]
      ensures Rebase(q, from, to) in t1 <==> Rebase(q, from, to) in t0
      ensures Rebase(q, from, to) in t1 ==> t1[Rebase(q, from, to)] == t0[Rebase(q, from, to)]
    {
      assert InChild(to, Rebase(q, from, to));
      assert Look(t1, q) == Look(t0, q) && Look(t1, Rebase(q, from, to)) == Look(t0, Rebase(q, from, to));
    }
  }

  lemma Comparable(a: Path, b: Path, q: Path)
    ensures Under(a, q) && (Under(b, q) || Under(q, b)) ==> Under(a, b) || Under(b, a)
  {
    if Under(a, q) && Under(b, q) {
      assert a.segs == q.segs[..|a.segs|] && b.segs == q.segs[..|b.segs|];
    } else if Under(a, q) && Under(q, b) {
      assert a.segs == q.segs[..|a.segs|] == b.segs[..|a.segs|];
    }
  }

  /** Nothing lies under two places that do not overlap. */
  lemma NotBoth(a: Path, b: Path)
    requires Disjoint(a, b)
    ensures forall q :: Under(a, q) ==> !Under(b, q) && !Under(q, b)
  {
    forall q
      ensures !(Under(a, q) && (Under(b, q) || Under(q, b)))
    {
      Comparable(a, b, q);
    }
  }

  lemma OverlaidAfterMade(t0: Tree, t1: Tree, t2: Tree, from: Path, to: Path)
    requires WellFormed(t0) && WellFormed(t1) && Look(t0, from) == Found(Dir) && to in t1
    requires MadeDirs(t0, t1, to) && Overlaid(t1, t2, from, to)
    requires forall q :: Under(from, q) ==> Look(t1, q) == Look(t0, q)
    ensures Overlaid(t0, t2, from, to)
  {
    DirsPresent(t1, to);
    forall q
      ensures Look(t2, q) == OverlaidAt(t0, from, to, q)
    {
      assert Look(t2, q) == OverlaidAt(t1, from, to, q);
      if Under(to, q) {
        assert Look(t1, Rebase(q, to, from)) == Look(t0, Rebase(q, to, from));
        assert Rebase(to, to, from) == from;
      }
    }
  }

  lemma NoWayIn(t: Tree, from: Path, to: Path)
    requires Look(t, from) == Found(Dir)
    ensures Compatible(t, from, to) ==> ClearWay(t, to)
  {
    assert Rebase(from, from, to) == to;
  }

  /** What copying one child needs. */
  ghost predicate ChildFits(t: Tree, from: Path, to: Path, n: string, frames: nat) {
    KindsAgree(t, from.Child(n), to.Child(n)) && Shallow(t, from.Child(n), frames)
  }

  lemma ChildUntouched(t0: Tree, t: Tree, from: Path, to: Path, done: set<string>, n: string, frames: nat)
    requires WellFormed(t) && Look(t, to) == Found(Dir) && Untangled(t0, from, to)
    requires PartOverlaid(t0, t, from, to, done) && n in Names(t0, from) - done
    ensures from.Child(n) in t && Untangled(t, from.Child(n), to.Child(n))
    ensures forall q :: Under(from, q) ==> Look(t, q) == Look(t0, q)
    ensures Compatible(t, from.Child(n), to.Child(n)) && Shallow(t, from.Child(n), frames)
       <==> ChildFits(t0, from, to, n, frames)
  {
    NamesAre(t0, from, n);
    PartKeepsSource(t0, t, from, to, done);
    forall q | Under(from.Child(n), q)
      ensures Look(t, q) == Look(t0, q) && (q in t <==> q in t0)
      ensures Look(t, Rebase(q, from.Child(n), to.Child(n))) == Look(t0, Rebase(q, from.Child(n), to.Child(n)))
      ensures q in t && Under(from.Child(n), Rebase(q, from.Child(n), to.Child(n))) ==>
                Rebase(q, from.Child(n), to.Child(n)) == q
    {
      RebaseChild(q, from, to, n);
      var there := Rebase(q, from, to);
      UnderChild(to, n, there);
      UnderChild(from, n, there);
      assert Look(t, there) == PartAt(t0, from, to, done, there);
      assert Look(t, q) == Look(t0, q);
    }
    SameKinds(t0, t, from.Child(n), to.Child(n));
    DirsPresent(t, to);
    ChildAbove(to, n);
    assert Look(t, from.Child(n)) == Look(t0, from.Child(n));
  }

  lemma ChildAbove(p: Path, n: string)
    ensures forall q :: Above(q, p.Child(n)) <==> Under(q, p)
  {
    assert p.Child(n).Parent() == p;
    ParentAbove(p.Child(n));
  }

  /** Copying some of the children leaves an untangled source as it was. */
  lemma PartKeepsSource(t0: Tree, t: Tree, from: Path, to: Path, done: set<string>)
    requires PartOverlaid(t0, t, from, to, done) && Untangled(t0, from, to)
    ensures forall q :: Under(from, q) ==> Look(t, q) == Look(t0, q)
  {
    forall q | Under(from, q)
      ensures Look(t, q) == Look(t0, q)
    {
      assert Look(t, q) == PartAt(t0, from, to, done, q);
      if Under(to, q) {
        var origin := Rebase(q, to, from);
        assert Under(from, origin) && Rebase(origin, from, to) == q;
      }
    }
  }

  /** The child that holds the target is copied into itself again. */
  lemma IntoItself(from: Path, to: Path, n: string)
    requires Above(from, to)
    ensures |to.segs| > |from.segs|
    ensures n == to.segs[|from.segs|] ==> Above(from.Child(n), to.Child(n))
  {
    assert |to.segs| == |from.segs| ==> to.segs == from.segs;
    UnderChild(from, n, to.Child(n));
  }

  lemma StepInside(t: Tree, from: Path, to: Path)
    requires WellFormed(t) && to in t && Above(from, to)
    ensures |to.segs| > |from.segs| && to.segs[|from.segs|] in Names(t, from)
  {
    IntoItself(from, to, "");
    var n := NameOf(t, from, to);
  }

  lemma SameKinds(t0: Tree, t: Tree, from: Path, to: Path)
    requires forall q :: Under(from, q) ==> && Look(t, q) == Look(t0, q)
                                            && Look(t, Rebase(q, from, to)) == Look(t0, Rebase(q, from, to))
    ensures KindsAgree(t, from, to) <==> KindsAgree(t0, from, to)
  {
    forall q | Under(from, q)
      ensures q in t <==> q in t0
      ensures q in t ==> t[q] == t0[q]
      ensures Rebase(q, from, to) in t <==> Rebase(q, from, to) in t0
      ensures Rebase(q, from, to) in t ==> t[Rebase(q, from, to)] == t0[Rebase(q, from, to)]
    {
      assert Look(t, q) == Look(t0, q) && Look(t, Rebase(q, from, to)) == Look(t0, Rebase(q, from, to));
    }
  }

  lemma CopiedOneMore(t0: Tree, t1: Tree, t2: Tree, from: Path, to: Path, done: set<string>, n: string)
    requires WellFormed(t1) && Look(t1, to) == Found(Dir)
    requires PartOverlaid(t0, t1, from, to, done) && n !in done
    requires Overlaid(t1, t2, from.Child(n), to.Child(n))
    requires forall q :: Under(from, q) ==> Look(t1, q) == Look(t0, q)
    ensures PartOverlaid(t0, t2, from, to, done + {n})
  {
    DirsPresent(t1, to);
    ChildAbove(to, n);
    forall q
      ensures Look(t2, q) == PartAt(t0, from, to, done + {n}, q)
    {
      UnderChild(to, n, q);
      assert Look(t2, q) == OverlaidAt(t1, from.Child(n), to.Child(n), q);
      assert Look(t1, q) == PartAt(t0, from, to, done, q);
      if Under(to.Child(n), q) {
        RebaseChild(q, to, from, n);
        assert Look(t1, Rebase(q, to, from)) == Look(t0, Rebase(q, to, from));
      } else {
        assert Look(t2, q) == Look(t1, q);
      }
    }
  }

  lemma ChildOutside(t0: Tree, t1: Tree, to: Path, n: string)
    requires WellFormed(t0) && to in t0 && OnlyWithin(t0, t1, to.Child(n))
    ensures forall q :: Under(to, q) || Look(t1, q) == Look(t0, q)
  {
    DirsPresent(t0, to);
    forall q
      ensures Under(to, q) || Look(t1, q) == Look(t0, q)
    {
      UnderChild(to, n, q);
      assert Under(q, to.Child(n)) ==> Under(q, to) || q == to.Child(n);
    }
  }

  lemma AllChildrenCopied(t0: Tree, t: Tree, from: Path, to: Path)
    requires WellFormed(t0) && Look(t0, from) == Look(t0, to) == Found(Dir)
    requires PartOverlaid(t0, t, from, to, Names(t0, from))
    ensures Overlaid(t0, t, from, to)
  {
    DirsPresent(t0, to);
    forall q
      ensures Look(t, q) == OverlaidAt(t0, from, to, q)
    {
      assert Look(t, q) == PartAt(t0, from, to, Names(t0, from), q);
      if InChild(to, q) && Rebase(q, to, from) in t0 {
        var n := NameOf(t0, from, Rebase(q, to, from));
      }
      assert q == to ==> Rebase(q, to, from) == from;
    }
  }

  lemma AllChildrenFit(t: Tree, from: Path, to: Path, frames: nat)
    requires WellFormed(t) && Look(t, from) == Look(t, to) == Found(Dir)
    requires forall n <- Names(t, from) :: ChildFits(t, from, to, n, frames)
    ensures KindsAgree(t, from, to) && Shallow(t, from, frames + 1)
  {
    forall q <- t | Under(from, q)
      ensures Rebase(q, from, to) in t ==> t[q].Dir? == t[Rebase(q, from, to)].Dir?
      ensures |q.segs| - |from.segs| < frames + 1
    {
      if q == from {
        assert Rebase(from, from, to) == to;
      } else {
        assert InChild(from, q);
        var n := NameOf(t, from, q);
        RebaseChild(q, from, to, n);
        assert ChildFits(t, from, to, n, frames);
      }
    }
  }

  lemma RebaseChild(q: Path, from: Path, to: Path, n: string)
    requires Under(from.Child(n), q)
    ensures Under(from, q) && Rebase(q, from.Child(n), to.Child(n)) == Rebase(q, from, to)
  {
    UnderChild(from, n, q);
    assert [n] + q.segs[|from.segs| + 1..] == q.segs[|from.segs|..];
  }

  /** Whatever is strictly inside p is under one of p's children. */
  lemma NameOf(t: Tree, p: Path, q: Path) returns (n: string)
    requires WellFormed(t) && q in t && InChild(p, q)
    ensures n == q.segs[|p.segs|] && n in Names(t, p) && Under(p.Child(n), q)
  {
    n := q.segs[|p.segs|];
    UnderChild(p, n, q);
    AncestorExists(t, p.Child(n), q);
    NamesAre(t, p, n);
  }

  lemma ChildDoesNotFit(t: Tree, from: Path, to: Path, frames: nat)
    requires exists n <- Names(t, from) :: !ChildFits(t, from, to, n, frames)
    ensures !(KindsAgree(t, from, to) && Shallow(t, from, frames + 1))
  {
    var n :| n in Names(t, from) && !ChildFits(t, from, to, n, frames);
    var a, b := from.Child(n), to.Child(n);
    if !KindsAgree(t, a, b) {
      var q :| q in t && Under(a, q) && Rebase(q, a, b) in t && t[q].Dir? != t[Rebase(q, a, b)].Dir?;
      RebaseChild(q, from, to, n);
    } else {
      var q :| q in t && Under(a, q) && |q.segs| - |a.segs| >= frames;
      UnderChild(from, n, q);
    }
  }

  /** The places where `cp` writes into its own source: inside it, or above it where what is
      there is reached again. */
  lemma UntangledIff(t: Tree, from: Path, to: Path)
    requires WellFormed(t) && from in t
    ensures Untangled(t, from, to)
       <==> from == to || !(Under(from, to) || (Under(to, from) && Rebase(from, to, from) in t))
  {
    hide Untangled;
    if from == to {
      OntoItself(t, from);
    } else if Under(to, from) {
      CopiedAgain(t, from, to);
    } else if Under(from, to) {
      IntoItselfIsTangled(t, from, to);
    } else {
      ElsewhereIsUntangled(t, from, to);
    }
  }

  lemma OntoItself(t: Tree, p: Path)
    ensures Untangled(t, p, p)
  {
    forall q | Under(p, q)
      ensures Rebase(q, p, p) == q
    {
      assert q.segs == p.segs + q.segs[|p.segs|..];
    }
  }

  lemma IntoItselfIsTangled(t: Tree, from: Path, to: Path)
    requires from in t && Above(from, to)
    ensures !Untangled(t, from, to)
  {
    assert Rebase(from, from, to) == to;
  }

  lemma ElsewhereIsUntangled(t: Tree, from: Path, to: Path)
    requires Disjoint(from, to)
    ensures Untangled(t, from, to)
  {
    NotBoth(from, to);
    forall q | Under(from, q)
      ensures !Under(from, Rebase(q, from, to))
    {
      assert Under(to, Rebase(q, from, to));
    }
  }

  lemma CopiedAgain(t: Tree, from: Path, to: Path)
    requires WellFormed(t) && from in t && Above(to, from)
    ensures Untangled(t, from, to) <==> Rebase(from, to, from) !in t
  {
    var again := Rebase(from, to, from);
    var step := from.segs[|to.segs|..];
    assert from.segs == to.segs + step && again.segs == from.segs + step && step != [];
    forall q | Under(from, q)
      ensures Under(from, Rebase(q, from, to)) <==> Under(again, q)
      ensures Rebase(q, from, to) != q
    {
      var rest := q.segs[|from.segs|..];
      assert q.segs == from.segs + rest;
      assert Rebase(q, from, to).segs == to.segs + rest;
      PrefixAfter(to.segs, step, rest);
      PrefixAfter(from.segs, step, rest);
    }
    if Untangled(t, from, to) {
      assert Under(from, again) && Under(again, again);
    } else {
      var q :| q in t && Under(from, q) && Under(from, Rebase(q, from, to));
      AncestorExists(t, again, q);
    }
  }

  lemma PrefixAfter(s: seq<string>, a: seq<string>, b: seq<string>)
    ensures s + a <= s + b <==> a <= b
  {
    assert (s + a)[|s|..] == a && (s + b)[|s|..] == b;
    if s + a <= s + b {
      assert (s + b)[..|s + a|] == s + a;
      assert b[..|a|] == (s + b)[..|s + a|][|s|..];
    }
  }

  // ---- mv ----

  /** Everything under `from` is under `to`, which held nothing else, and nowhere else;
      missing parents of the target are directories. */
  function MovedAt(t: Tree, from: Path, to: Path, q: Path): Seen {
    if Under(to, q) then Look(t, Rebase(q, to, from))
    else if Under(from, q) then Absent
    else WithParentsAt(t, to, q)
  }

  ghost predicate Moved(t0: Tree, t1: Tree, from: Path, to: Path) {
    forall q :: Look(t1, q) == MovedAt(t0, from, to, q)
  }

  /** As Moved, but over what the target already holds. */
  function MergedAt(t: Tree, from: Path, to: Path, q: Path): Seen {
    if Under(from, q) then Absent else OverlaidAt(t, from, to, q)
  }

  ghost predicate Merged(t0: Tree, t1: Tree, from: Path, to: Path) {
    forall q :: Look(t1, q) == MergedAt(t0, from, to, q)
  }

  function RenamedAt(t: Tree, from: Path, to: Path, q: Path): Seen {
    if Under(to, q) then Look(t, Rebase(q, to, from))
    else if Under(from, q) then Absent
    else Look(t, q)
  }

  ghost predicate Renamed(t0: Tree, t1: Tree, from: Path, to: Path) {
    forall q :: Look(t1, q) == RenamedAt(t0, from, to, q)
  }

  function WithMove(t: Tree, from: Path, to: Path): (r: Tree)
    ensures Renamed(t, r, from, to)
  {
    var carried := set q | q in Subtree(t, from) :: Rebase(q, from, to);
    assert forall q :: Under(to, q) ==> Rebase(Rebase(q, to, from), from, to) == q;
    map q | q in t.Keys + carried && RenamedAt(t, from, to, q).Found? :: RenamedAt(t, from, to, q).entry
  }

  lemma NothingUnder(t: Tree, p: Path)
    requires WellFormed(t) && p !in t
    ensures forall q <- t :: !Under(p, q)
  {
    forall q <- t
      ensures !Under(p, q)
    {
      if Under(p, q) {
        AncestorExists(t, p, q);
      }
    }
  }

  lemma RenameWellFormed(t0: Tree, t1: Tree, from: Path, to: Path)
    requires WellFormed(t0) && from in t0 && to !in t0 && HasParent(t0, to) && !Under(from, to)
    requires Renamed(t0, t1, from, to)
    ensures WellFormed(t1)
  {
    NothingUnder(t0, to);
    forall q <- t1 | q.segs != []
      ensures q.Parent() in t1 && t1[q.Parent()] == Dir
    {
      assert Look(t1, q) == RenamedAt(t0, from, to, q);
      ParentRenamed(t0, t1, from, to, q);
    }
  }

  lemma ParentRenamed(t0: Tree, t1: Tree, from: Path, to: Path, q: Path)
    requires WellFormed(t0) && HasParent(t0, to) && !Under(from, to) && Renamed(t0, t1, from, to)
    requires RenamedAt(t0, from, to, q).Found? && q.segs != []
    requires forall x <- t0 :: !Under(to, x)
    ensures Look(t1, q.Parent()) == Found(Dir)
  {
    assert Look(t1, q.Parent()) == RenamedAt(t0, from, to, q.Parent());
    hide Renamed;
    if q == to {
      assert !Under(from, to.Parent()) && !Under(to, to.Parent());
    } else if Under(to, q) {
      assert Under(to, q.Parent());
      assert Rebase(q.Parent(), to, from) == Rebase(q, to, from).Parent();
    } else {
      assert q in t0 && q.Parent() in t0;
      assert !Under(from, q.Parent()) && !Under(to, q.Parent());
    }
  }

  lemma TargetCleared(t0: Tree, t1: Tree, to: Path)
    requires WellFormed(t0)
    requires if to in t0 then Removed(t0, t1, to) else t1 == t0
    ensures Removed(t0, t1, to)
    ensures forall q :: Under(to, q) ==> q !in t1
  {
    if to !in t0 {
      NothingUnder(t0, to);
    }
    forall q | Under(to, q)
      ensures q !in t1
    {
      assert Look(t1, q) == WithoutAt(t0, to, q);
    }
  }

  lemma ParentIsClear(t: Tree, p: Path)
    requires WellFormed(t)
    ensures HasParent(t, p) ==> ClearAbove(t, p)
  {
    if HasParent(t, p) && !ClearAbove(t, p) {
      var q :| q in t && Above(q, p) && t[q] != Dir;
      assert p.segs == [] ==> q == p;
      ParentAbove(p);
      DirsPresent(t, p.Parent());
    }
  }

  lemma ParentsReady(t0: Tree, t1: Tree, t2: Tree, from: Path, to: Path, createPath: bool)
    requires WellFormed(t0) && Removed(t0, t1, to)
    requires if createPath then ClearAbove(t1, to) && MadeParents(t1, t2, to) && HasParent(t2, to) else t2 == t1
    ensures forall q :: Look(t2, q) == ReadyAt(t0, to, createPath, q)
    ensures to !in t2
    ensures ClearAbove(t1, to) <==> ClearAbove(t0, to)
    ensures HasParent(t2, to) <==> HasParent(t0, to) || (createPath && ClearAbove(t0, to))
    ensures !Under(from, to) ==> (from in t2 <==> from in t0 && !Under(to, from))
    ensures Under(to, from) ==> from !in t2
    ensures from in t0 && !Under(to, from) ==> from in t2
  {
    assert forall q :: Above(q, to) ==> !Under(to, q);
    forall q
      ensures Look(t2, q) == ReadyAt(t0, to, createPath, q)
    {
      assert Look(t1, q) == WithoutAt(t0, to, q);
    }
    assert Look(t2, to) == ReadyAt(t0, to, createPath, to);
    assert Look(t2, from) == ReadyAt(t0, to, createPath, from);
    assert Look(t2, to.Parent()) == ReadyAt(t0, to, createPath, to.Parent());
    WayIsSame(t0, t1, to);
  }

  lemma WayIsSame(t0: Tree, t1: Tree, to: Path)
    requires Removed(t0, t1, to)
    ensures ClearAbove(t1, to) <==> ClearAbove(t0, to)
  {
    forall q | Above(q, to)
      ensures q in t1 <==> q in t0
      ensures q in t1 ==> t1[q] == t0[q]
    {
      assert !Under(to, q);
      assert Look(t1, q) == Look(t0, q);
    }
  }

  /** The tree just before the rename: the target removed, its parents made. */
  function ReadyAt(t: Tree, to: Path, createPath: bool, q: Path): Seen {
    if Under(to, q) then Absent
    else if createPath then WithParentsAt(t, to, q)
    else Look(t, q)
  }

  lemma MovedWithin(t0: Tree, t2: Tree, t3: Tree, from: Path, to: Path, createPath: bool)
    requires WellFormed(t0) && Renamed(t2, t3, from, to) && Disjoint(from, to)
    requires createPath || HasParent(t0, to)
    requires forall q :: Look(t2, q) == ReadyAt(t0, to, createPath, q)
    ensures Moved(t0, t3, from, to)
  {
    NotBoth(from, to);
    if !createPath {
      ParentsThere(t0, to);
    }
    forall q
      ensures Look(t3, q) == MovedAt(t0, from, to, q)
    {
      assert Look(t3, q) == RenamedAt(t2, from, to, q);
      assert Look(t2, q) == ReadyAt(t0, to, createPath, q);
      if Under(to, q) {
        var back := Rebase(q, to, from);
        assert Under(from, back) && !Under(back, to) && !Under(to, back);
        assert Look(t2, back) == Look(t0, back);
      }
    }
  }

  lemma ParentsThere(t: Tree, p: Path)
    requires WellFormed(t) && HasParent(t, p)
    ensures forall q :: WithParentsAt(t, p, q) == Look(t, q)
  {
    if p.segs == [] {
      assert forall q :: Under(q, p) ==> q == p;
    } else {
      ParentAbove(p);
      DirsPresent(t, p.Parent());
    }
  }

  lemma SourceStays(t0: Tree, t1: Tree, from: Path, to: Path)
    requires from in t0 && from.side != to.side && Overlaid(t0, t1, from, to)
    ensures from in t1
  {
    assert Look(t1, from) == OverlaidAt(t0, from, to, from);
  }

  lemma CopiedAndRemoved(t0: Tree, t1: Tree, t2: Tree, from: Path, to: Path)
    requires WellFormed(t0) && from.side != to.side && Overlaid(t0, t1, from, to) && Removed(t1, t2, from)
    ensures Merged(t0, t2, from, to)
    ensures to !in t0 ==> Moved(t0, t2, from, to)
  {
    forall q
      ensures Look(t2, q) == MergedAt(t0, from, to, q)
      ensures to !in t0 ==> Look(t2, q) == MovedAt(t0, from, to, q)
    {
      assert Look(t2, q) == WithoutAt(t1, from, q) && Look(t1, q) == OverlaidAt(t0, from, to, q);
      if to !in t0 {
        NothingUnder(t0, to);
      }
    }
  }

  // ---- what the conditions mean ----

  /** The way to p is clear exactly when some tree has a directory there and everything that this
      one has. */
  lemma ClearWayIff(t: Tree, p: Path)
    requires WellFormed(t)
    ensures ClearWay(t, p) <==> exists t1: Tree :: Keeps(t, t1) && Look(t1, p) == Found(Dir)
  {
    if ClearWay(t, p) {
      var t1 := AddDirs(t, p);
      AddDirsWellFormed(t, p);
      assert Look(t1, p) == WithDirsAt(t, p, p);
      forall q <- t
        ensures Look(t1, q) == Look(t, q)
      {
        assert Look(t1, q) == WithDirsAt(t, p, q);
      }
      assert Keeps(t, t1);
    }
    forall t1: Tree | Keeps(t, t1) && Look(t1, p) == Found(Dir)
      ensures ClearWay(t, p)
    {
      DirsPresent(t1, p);
      assert forall q <- t :: Look(t1, q) == Look(t, q);
    }
  }

  /** A well-formed tree with everything that t has. */
  ghost predicate Keeps(t: Tree, t1: Tree) {
    WellFormed(t1) && forall q <- t :: Look(t1, q) == Look(t, q)
  }

  /** A place has a parent exactly when everything above it is a directory. */
  lemma HasParentIff(t: Tree, p: Path)
    requires WellFormed(t)
    ensures HasParent(t, p) <==> forall q :: Above(q, p) ==> Look(t, q) == Found(Dir)
  {
    if p.segs == [] {
      assert forall q :: Under(q, p) ==> q == p;
    } else {
      ParentAbove(p);
      assert Above(p.Parent(), p);
      if HasParent(t, p) {
        DirsPresent(t, p.Parent());
      }
    }
  }

  /** And what is above it is clear exactly when the way to its parent is. */
  lemma ClearAboveIff(t: Tree, p: Path)
    ensures ClearAbove(t, p) <==> p.segs == [] || ClearWay(t, p.Parent())
  {
    if p.segs == [] {
      assert forall q :: Under(q, p) ==> q == p;
    } else {
      ParentAbove(p);
    }
  }

  // ---- what the contracts give ----

  /** Moving a tree to an absent place that has a parent, and back, restores every path. */
  lemma MoveBack(t0: Tree, t1: Tree, t2: Tree, from: Path, to: Path)
    requires WellFormed(t0) && Disjoint(from, to) && from in t0 && to !in t0 && HasParent(t0, to)
    requires Moved(t0, t1, from, to) && Moved(t1, t2, to, from)
    ensures t2 == t0
  {
    NotBoth(from, to);
    NotBoth(to, from);
    NothingUnder(t0, to);
    ParentsThere(t0, to);
    DirsPresent(t0, from);
    forall q
      ensures Look(t2, q) == Look(t0, q)
    {
      assert Look(t2, q) == MovedAt(t1, to, from, q);
      assert Look(t1, q) == MovedAt(t0, from, to, q);
      if Under(from, q) {
        var there := Rebase(q, from, to);
        assert Look(t1, there) == MovedAt(t0, from, to, there);
        assert Rebase(there, to, from) == q;
      }
    }
    SameLook(t2, t0);
  }

  lemma SourceUntouched(t0: Tree, t1: Tree, from: Path, to: Path)
    requires WellFormed(t0) && from in t0 && Untangled(t0, from, to) && Overlaid(t0, t1, from, to)
    ensures forall q :: Under(from, q) ==> Look(t1, q) == Look(t0, q)
  {
    assert Rebase(from, from, to) == to;
    forall q | Under(from, q)
      ensures Look(t1, q) == Look(t0, q)
    {
      assert Look(t1, q) == OverlaidAt(t0, from, to, q);
      if Under(to, q) {
        var origin := Rebase(q, to, from);
        assert Under(from, origin) && Rebase(origin, from, to) == q;
      }
    }
  }

  /** Copying twice is copying once. */
  lemma CopyTwice(t0: Tree, t1: Tree, t2: Tree, from: Path, to: Path)
    requires WellFormed(t0) && WellFormed(t1) && Untangled(t0, from, to) && from in t0
    requires Overlaid(t0, t1, from, to) && Overlaid(t1, t2, from, to)
    ensures t2 == t1
  {
    SourceUntouched(t0, t1, from, to);
    assert Rebase(to, to, from) == from;
    assert Look(t1, to) == OverlaidAt(t0, from, to, to);
    DirsPresent(t1, to);
    forall q
      ensures Look(t2, q) == Look(t1, q)
    {
      assert Look(t2, q) == OverlaidAt(t1, from, to, q) && Look(t1, q) == OverlaidAt(t0, from, to, q);
      if Under(to, q) {
        assert Look(t1, Rebase(q, to, from)) == Look(t0, Rebase(q, to, from));
      }
    }
    SameLook(t2, t1);
  }

  /** Removing a copy made at an absent place below an existing directory undoes it. */
  lemma RemoveCopy(t0: Tree, t1: Tree, t2: Tree, from: Path, to: Path)
    requires WellFormed(t0) && to !in t0 && HasParent(t0, to)
    requires Overlaid(t0, t1, from, to) && Removed(t1, t2, to)
    ensures t2 == t0
  {
    NothingUnder(t0, to);
    ParentsThere(t0, to);
    forall q
      ensures Look(t2, q) == Look(t0, q)
    {
      assert Look(t2, q) == WithoutAt(t1, to, q) && Look(t1, q) == OverlaidAt(t0, from, to, q);
    }
    SameLook(t2, t0);
  }
}
