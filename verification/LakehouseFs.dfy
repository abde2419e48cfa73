/** The lakehouse filesystem (LakehouseFileSystem.scala): a Hadoop filesystem whose root is one
    lakehouse, over the storage service's own. Contents and attributes are opaque. */
module LakehouseFs {

  // ---- paths ----

  /** A path as it is handed in: one of this filesystem, or one with a scheme and an authority of
      its own. Both have a path component, which for a relative path is that of the qualified one. */
  datatype FsPath = Ours(path: string) | Other(text: string, path: string) {
    predicate Valid() {
      path == "" || path[0] == '/'
    }
  }

  /** p is at or below root. */
  predicate IsInner(root: string, p: string) {
    p == root || root + "/" <= p
  }

  /** `toInner`: a path that is already inner is passed through. */
  function ToInner(root: string, f: FsPath): string {
    if f.Other? && IsInner(root, f.text) then f.text
    else if f.path == "" || f.path == "/" then root
    else root + f.path
  }

  /** `fromInner` of an inner path with this text and path component. */
  function FromInner(root: string, s: string, path: string): FsPath {
    if s == root then Ours("/")
    else if root + "/" <= s then Ours(s[|root|..])
    else Other(s, path)
  }

  /** The path of this filesystem that a caller's path means. */
  function Meant(root: string, f: FsPath): FsPath {
    if f.Other? && IsInner(root, f.text) then FromInner(root, f.text, f.path)
    else Ours(if f.path == "" then "/" else f.path)
  }

  /** Every path goes inside the lakehouse, and comes back as what it meant. A path of some
      other filesystem means ours of that name. */
  lemma ToInnerIsInside(root: string, f: FsPath, path: string)
    requires f.Valid()
    ensures IsInner(root, ToInner(root, f)) && FromInner(root, ToInner(root, f), path) == Meant(root, f)
  {
    var s := root + f.path;
    if f.path != "" {
      assert f.path == "/" + f.path[1..];
      assert s == root + "/" + f.path[1..];
      assert s[|root|..] == f.path;
      assert s[..|root| + 1] == root + "/";
    }
  }

  /** A path comes back from ours exactly when it is in the lakehouse, and not its root written
      with a trailing slash. */
  lemma ToInvertsFromIff(root: string, s: string, path: string)
    requires path == "" || path[0] == '/'
    ensures ToInner(root, FromInner(root, s, path)) == s <==> IsInner(root, s) && s != root + "/"
  {
    if s != root && root + "/" <= s {
      assert root + s[|root|..] == s;
      assert s[|root|] == (root + "/")[|root|];
      assert s[|root|..] == "/" <==> s == root + "/";
    } else if s != root {
      ToInnerIsInside(root, Other(s, path), path);
    }
  }

  /** `checkPath`, which refuses a foreign path but is called by none of the operations below. */
  predicate Accepted(root: string, f: FsPath) {
    f.Ours? || "lakehouse:" <= f.text || IsInner(root, f.text)
  }

  /** A path with a scheme is taken where it says exactly when it is in the lakehouse; so one that
      `checkPath` accepts is not exactly when it is some other lakehouse's. */
  lemma TakenElsewhereIff(root: string, f: FsPath)
    requires f.Valid() && f.Other?
    ensures ToInner(root, f) == f.text <==> IsInner(root, f.text)
    ensures Accepted(root, f) && ToInner(root, f) != f.text <==> "lakehouse:" <= f.text && !IsInner(root, f.text)
  {
    ToInnerIsInside(root, f, f.path);
  }

  // ---- the service ----

  /** The calls that change something. */
  datatype Call<P> =
    | Create(path: P, overwrite: bool)
    | Append(path: P)
    | Rename(path: P, target: P)
    | Delete(path: P, recursive: bool)
    | Mkdirs(path: P)
    | SetPermission(path: P, permission: nat)
    | SetOwner(path: P, user: string, group: string)
    | SetTimes(path: P, mtime: int, atime: int)

  datatype Answer = Done(value: bool) | Failed(error: string) | Refused

  type Store = map<string, string>

  /** Apart from what is at, below or above p or q, nothing differs. */
  ghost predicate OnlyAround(p: string, q: string, s0: Store, s1: Store) {
    forall x :: SameAt(s0, s1, x) || IsInner(p, x) || IsInner(x, p) || IsInner(q, x) || IsInner(x, q)
  }

  predicate SameAt(s0: Store, s1: Store, x: string) {
    (x in s0 <==> x in s1) && (x in s0 ==> s1[x] == s0[x])
  }

  /** The storage service: what it makes of a call is its own affair, as long as it stays around
      the paths it is given. */
  datatype Service = Service(answer: (Store, Call<string>) -> (Store, Answer)) {
    function After(s: Store, call: Call<string>): Store {
      answer(s, call).0
    }

    ghost predicate Valid() {
      forall s: Store, call: Call<string> ::
        && OnlyAround(call.path, if call.Rename? then call.target else call.path, s, After(s, call))
        && !answer(s, call).1.Refused?
    }
  }

  // ---- the filesystem ----

  /** p is the inner path of what f means. */
  ghost predicate Shows(root: string, p: string, f: FsPath) {
    IsInner(root, p) && FromInner(root, p, f.path) == Meant(root, f)
  }

  /** The same call, on the inner paths. */
  ghost predicate Asks(root: string, op: Call<FsPath>, call: Call<string>) {
    && Shows(root, call.path, op.path)
    && match op
       case Create(_, overwrite) => call == Create(call.path, overwrite)
       case Append(_) => call == Append(call.path)
       case Rename(_, target) => call.Rename? && Shows(root, call.target, target)
       case Delete(_, recursive) => call == Delete(call.path, recursive)
       case Mkdirs(_) => call == Mkdirs(call.path)
       case SetPermission(_, permission) => call == SetPermission(call.path, permission)
       case SetOwner(_, user, group) => call == SetOwner(call.path, user, group)
       case SetTimes(_, mtime, atime) => call == SetTimes(call.path, mtime, atime)
  }

  ghost predicate ValidOp(op: Call<FsPath>) {
    op.path.Valid() && (op.Rename? ==> op.target.Valid())
  }

  /** Nothing differs outside the lakehouse and the directories it is in. */
  ghost predicate OnlyInside(root: string, s0: Store, s1: Store) {
    forall x :: SameAt(s0, s1, x) || IsInner(root, x) || IsInner(x, root)
  }

  class Filesystem {
    const root: string
    const writeMode: string
    const service: Service
    var store: Store

    constructor (root: string, writeMode: string, service: Service, store: Store)
      requires service.Valid()
      ensures this.root == root && this.writeMode == writeMode && this.service == service && this.store == store
    {
      this.root, this.writeMode, this.service, this.store := root, writeMode, service, store;
    }

    predicate Writable() {
      writeMode == "writethrough"
    }

    /** An operation is refused outside writethrough, and is the service's own, on the inner
        paths, in it. */
    ghost predicate Does(op: Call<FsPath>, s0: Store, r: Answer, s1: Store) {
      if writeMode == "writethrough" then exists call :: Asks(root, op, call) && (s1, r) == service.answer(s0, call)
      else r == Refused && s1 == s0
    }

    /** And nothing outside the lakehouse differs. */
    ghost predicate Handles(op: Call<FsPath>, s0: Store, r: Answer, s1: Store) {
      Does(op, s0, r, s1) && OnlyInside(root, s0, s1)
    }

    /** A call to the service. */
    method Send(call: Call<string>, ghost op: Call<FsPath>) returns (r: Answer)
      requires service.Valid() && Writable() && Asks(root, op, call)
      modifies this
      ensures Handles(op, old(store), r, store)
    {
      StaysInside(root, call.path, if call.Rename? then call.target else call.path, store, service.After(store, call));
      var (after, answer) := service.answer(store, call);
      store, r := after, answer;
    }

    method CreateFile(f: FsPath, overwrite: bool) returns (r: Answer)
      requires service.Valid() && f.Valid()
      modifies this
      ensures Handles(Create(f, overwrite), old(store), r, store)
    {
      if !Writable() {
        return Refused;
      }
      ToInnerIsInside(root, f, f.path);
      r := Send(Create(ToInner(root, f), overwrite), Create(f, overwrite));
    }

    method AppendFile(f: FsPath) returns (r: Answer)
      requires service.Valid() && f.Valid()
      modifies this
      ensures Handles(Append(f), old(store), r, store)
    {
      if !Writable() {
        return Refused;
      }
      ToInnerIsInside(root, f, f.path);
      r := Send(Append(ToInner(root, f)), Append(f));
    }

    method RenameFile(src: FsPath, dst: FsPath) returns (r: Answer)
      requires service.Valid() && src.Valid() && dst.Valid()
      modifies this
      ensures Handles(Rename(src, dst), old(store), r, store)
    {
      if !Writable() {
        return Refused;
      }
      ToInnerIsInside(root, src, src.path);
      ToInnerIsInside(root, dst, dst.path);
      r := Send(Rename(ToInner(root, src), ToInner(root, dst)), Rename(src, dst));
    }

    method DeleteFile(f: FsPath, recursive: bool) returns (r: Answer)
      requires service.Valid() && f.Valid()
      modifies this
      ensures Handles(Delete(f, recursive), old(store), r, store)
    {
      if !Writable() {
        return Refused;
      }
      ToInnerIsInside(root, f, f.path);
      r := Send(Delete(ToInner(root, f), recursive), Delete(f, recursive));
    }

    method MakeDirs(f: FsPath) returns (r: Answer)
      requires service.Valid() && f.Valid()
      modifies this
      ensures Handles(Mkdirs(f), old(store), r, store)
    {
      if !Writable() {
        return Refused;
      }
      ToInnerIsInside(root, f, f.path);
      r := Send(Mkdirs(ToInner(root, f)), Mkdirs(f));
    }

    method ChangePermission(f: FsPath, permission: nat) returns (r: Answer)
      requires service.Valid() && f.Valid()
      modifies this
      ensures Handles(SetPermission(f, permission), old(store), r, store)
    {
      if !Writable() {
        return Refused;
      }
      ToInnerIsInside(root, f, f.path);
      r := Send(SetPermission(ToInner(root, f), permission), SetPermission(f, permission));
    }

    method ChangeOwner(f: FsPath, user: string, group: string) returns (r: Answer)
      requires service.Valid() && f.Valid()
      modifies this
      ensures Handles(SetOwner(f, user, group), old(store), r, store)
    {
      if !Writable() {
        return Refused;
      }
      ToInnerIsInside(root, f, f.path);
      r := Send(SetOwner(ToInner(root, f), user, group), SetOwner(f, user, group));
    }

    method ChangeTimes(f: FsPath, mtime: int, atime: int) returns (r: Answer)
      requires service.Valid() && f.Valid()
      modifies this
      ensures Handles(SetTimes(f, mtime, atime), old(store), r, store)
    {
      if !Writable() {
        return Refused;
      }
      ToInnerIsInside(root, f, f.path);
      r := Send(SetTimes(ToInner(root, f), mtime, atime), SetTimes(f, mtime, atime));
    }

    method Perform(op: Call<FsPath>) returns (r: Answer)
      requires service.Valid() && ValidOp(op)
      modifies this
      ensures Handles(op, old(store), r, store)
    {
      match op
      case Create(f, overwrite) => r := CreateFile(f, overwrite);
      case Append(f) => r := AppendFile(f);
      case Rename(src, dst) => r := RenameFile(src, dst);
      case Delete(f, recursive) => r := DeleteFile(f, recursive);
      case Mkdirs(f) => r := MakeDirs(f);
      case SetPermission(f, permission) => r := ChangePermission(f, permission);
      case SetOwner(f, user, group) => r := ChangeOwner(f, user, group);
      case SetTimes(f, mtime, atime) => r := ChangeTimes(f, mtime, atime);
    }

    /** Any operations one after another: outside writethrough all are refused and nothing
        changes; in it, each is the service's own, and never leaves the lakehouse. */
    method Session(ops: seq<Call<FsPath>>) returns (rs: seq<Answer>, ghost stores: seq<Store>)
      requires service.Valid() && forall op <- ops :: ValidOp(op)
      modifies this
      ensures |rs| == |ops| && |stores| == |ops| + 1 && stores[0] == old(store) && stores[|ops|] == store
      ensures forall i :: 0 <= i < |ops| ==> Does(ops[i], stores[i], rs[i], stores[i + 1])
      ensures writeMode != "writethrough" ==> store == old(store) && forall r <- rs :: r == Refused
      ensures writeMode == "writethrough" ==> forall r <- rs :: r != Refused
      ensures OnlyInside(root, old(store), store)
    {
      hide Service.Valid, Does, ValidOp, OnlyInside;
      rs, stores := [], [store];
      NothingDiffers(root, store);
      for i := 0 to |ops|
        invariant |rs| == i && |stores| == i + 1 && stores[0] == old(store) && stores[i] == store
        invariant forall k :: 0 <= k < i ==> Does(ops[k], stores[k], rs[k], stores[k + 1])
        invariant !Writable() ==> store == old(store) && forall r <- rs :: r == Refused
        invariant Writable() ==> forall r <- rs :: r != Refused
        invariant OnlyInside(root, old(store), store)
      {
        ghost var before := store;
        var r := Perform(ops[i]);
        RefusedOrNot(ops[i], before, r, store);
        InsideTwice(root, old(store), before, store);
        rs, stores := rs + [r], stores + [store];
      }
    }

    lemma RefusedOrNot(op: Call<FsPath>, s0: Store, r: Answer, s1: Store)
      requires service.Valid() && Does(op, s0, r, s1)
      ensures r == Refused <==> writeMode != "writethrough"
      ensures writeMode != "writethrough" ==> s1 == s0
    {
      if Writable() {
        var call :| Asks(root, op, call) && (s1, r) == service.answer(s0, call);
        assert service.After(s0, call) == s1;
      }
    }
  }

  // ---- one lakehouse ----

  lemma NothingDiffers(root: string, s: Store)
    ensures OnlyInside(root, s, s)
  {
  }

  lemma InsideTwice(root: string, s0: Store, s1: Store, s2: Store)
    requires OnlyInside(root, s0, s1) && OnlyInside(root, s1, s2)
    ensures OnlyInside(root, s0, s2)
  {
    hide IsInner;
    forall x
      ensures SameAt(s0, s2, x) || IsInner(root, x) || IsInner(x, root)
    {
      assert SameAt(s0, s1, x) || IsInner(root, x) || IsInner(x, root);
      assert SameAt(s1, s2, x) || IsInner(root, x) || IsInner(x, root);
    }
  }

  lemma StaysInside(root: string, p: string, q: string, s0: Store, s1: Store)
    requires IsInner(root, p) && IsInner(root, q) && OnlyAround(p, q, s0, s1)
    ensures OnlyInside(root, s0, s1)
  {
    forall x
      ensures SameAt(s0, s1, x) || IsInner(root, x) || IsInner(x, root)
    {
      Around(root, p, x);
      Around(root, q, x);
      assert SameAt(s0, s1, x) || IsInner(p, x) || IsInner(x, p) || IsInner(q, x) || IsInner(x, q);
    }
  }

  /** What is around an inner path is inside the lakehouse or above it. */
  lemma Around(root: string, p: string, x: string)
    requires IsInner(root, p)
    ensures IsInner(p, x) || IsInner(x, p) ==> IsInner(root, x) || IsInner(x, root)
  {
    if x != p && x != root && p != root {
      if IsInner(p, x) {
        assert x[..|root| + 1] == p[..|root| + 1] == root + "/";
      } else if IsInner(x, p) {
        if |x| > |root| {
          assert x[..|root| + 1] == p[..|root| + 1] == root + "/";
        } else {
          assert root[..|x|] == p[..|x|] == x;
          assert |x| < |root| ==> (x + "/") == p[..|x| + 1] == root[..|x| + 1];
        }
      }
    }
  }

  function RootOf(base: string, lakehouse: string): string {
    base + "/" + lakehouse
  }

  /** What stays in one lakehouse changes nothing of another. */
  lemma OtherLakehousesKept(base: string, a: string, b: string, s0: Store, s1: Store, x: string)
    requires '/' !in a && '/' !in b && a != b && OnlyInside(RootOf(base, a), s0, s1)
    requires IsInner(RootOf(base, b), x)
    ensures SameAt(s0, s1, x)
  {
    var ra, rb := RootOf(base, a), RootOf(base, b);
    if IsInner(ra, x) {
      FirstSegment(base + "/", a, x);
      FirstSegment(base + "/", b, x);
      assert false;
    } else if IsInner(x, ra) {
      InnerTwice(rb, x, ra);
      FirstSegment(base + "/", a, ra);
      FirstSegment(base + "/", b, ra);
      assert false;
    }
  }

  lemma InnerTwice(p: string, q: string, r: string)
    requires IsInner(p, q) && IsInner(q, r)
    ensures IsInner(p, r)
  {
    if p != q && q != r {
      assert r[..|p| + 1] == q[..|p| + 1] == p + "/";
    }
  }

  /** A path up to its first slash. */
  function Head(s: string): string {
    if s == "" || s[0] == '/' then "" else [s[0]] + Head(s[1..])
  }

  lemma {:induction false} HeadOf(a: string, rest: string)
    requires '/' !in a && (rest == "" || rest[0] == '/')
    ensures Head(a + rest) == a
  {
    if a == "" {
      assert a + rest == rest;
    } else {
      assert a[0] in a;
      HeadOf(a[1..], rest);
      assert (a + rest)[1..] == a[1..] + rest;
    }
  }

  lemma FirstSegment(base: string, a: string, x: string)
    requires '/' !in a && IsInner(base + a, x)
    ensures |x| >= |base| && Head(x[|base|..]) == a
  {
    var rest := x[|base + a|..];
    assert x == base + a + rest;
    assert rest != "" ==> rest[0] == (base + a + "/")[|base + a|];
    HeadOf(a, rest);
    assert x[|base|..] == a + rest;
  }
}
