/** Mounting the lakehouse tables that a statement finds missing, and trying again
    (engine.py `_resolve_lakehouse`, `_automount_missing`, `_sql_with_automount`). The SQL
    engine is whatever it answers, time after time. */
module Automount {
  import opened Text
  import Sets

  /** A database and a table, or a lakehouse and a table. */
  type Pair = (string, string)

  // ---- reading the error ----

  /** A backquoted name at the start of s, and its length with the quotes. */
  function NameAt(s: string): (r: Option<(string, nat)>)
    ensures r.Some? ==> 0 < r.value.1 <= |s|
  {
    if s == "" || s[0] != '`' then None
    else
      var i := FirstOf(s[1..], '`');
      if i == 0 || i == |s| - 1 then None else Some((s[1..1 + i], i + 2))
  }

  /** A match of `_MISSING_TABLE_RE` at the start of s, and its length: two names with a dot
      between. */
  function PairAt(s: string): (r: Option<(Pair, nat)>)
    ensures r.Some? ==> 0 < r.value.1 <= |s|
  {
    match NameAt(s)
    case None => None
    case Some(db) =>
      if db.1 == |s| || s[db.1] != '.' then None
      else
        match NameAt(s[db.1 + 1..])
        case None => None
        case Some(table) => Some(((db.0, table.0), db.1 + 1 + table.1))
  }

  /** `_MISSING_TABLE_RE.findall(s)`. */
  function FindPairs(s: string): seq<Pair>
    decreases |s|
  {
    if s == "" then []
    else
      match PairAt(s)
      case Some(found) => [found.0] + FindPairs(s[found.1..])
      case None => FindPairs(s[1..])
  }

  lemma NoMatch(s: string)
    requires s == "" || s[0] != '`'
    ensures PairAt(s) == None
  {
  }

  lemma {:induction false} SkipPlain(pre: string, s: string)
    requires '`' !in pre
    ensures FindPairs(pre + s) == FindPairs(s)
  {
    hide PairAt;
    if pre == "" {
      assert pre + s == s;
    } else {
      assert pre[0] in pre;
      SkipPlain(pre[1..], s);
      assert (pre + s)[1..] == pre[1..] + s;
      NoMatch(pre + s);
    }
  }

  lemma QuotedName(name: string, post: string)
    requires '`' !in name && name != ""
    ensures NameAt("`" + name + "`" + post) == Some((name, |name| + 2))
  {
    var s := "`" + name + "`" + post;
    FirstOfHead(name, '`', post);
    assert s[1..] == name + ['`'] + post;
    assert s[1..1 + |name|] == name;
  }

  lemma QuotedPair(db: string, table: string, post: string)
    requires '`' !in db && '`' !in table && db != "" && table != ""
    ensures PairAt("`" + db + "`.`" + table + "`" + post) == Some(((db, table), 5 + |db| + |table|))
  {
    hide NameAt;
    var s, second := "`" + db + "`.`" + table + "`" + post, "`" + table + "`" + post;
    QuotedName(db, "." + second);
    QuotedName(table, post);
    assert s == "`" + db + "`" + ("." + second);
    assert s[|db| + 3..] == second;
  }

  /** A message that quotes one table names that table and no other. */
  lemma MessageNamesTable(pre: string, db: string, table: string, post: string)
    requires '`' !in pre && '`' !in db && '`' !in table && '`' !in post && db != "" && table != ""
    ensures FindPairs(pre + ("`" + db + "`.`" + table + "`" + post)) == [(db, table)]
  {
    hide PairAt;
    var s := "`" + db + "`.`" + table + "`" + post;
    SkipPlain(pre, s);
    QuotedPair(db, table, post);
    assert s[5 + |db| + |table|..] == post;
    SkipPlain(post, "");
    assert post + "" == post;
  }

  /** And what follows is read on. */
  lemma MessageNamesNext(pre: string, db: string, table: string, post: string)
    requires '`' !in pre && '`' !in db && '`' !in table && db != "" && table != ""
    ensures FindPairs(pre + ("`" + db + "`.`" + table + "`" + post)) == [(db, table)] + FindPairs(post)
  {
    hide PairAt;
    var s := "`" + db + "`.`" + table + "`" + post;
    SkipPlain(pre, s);
    QuotedPair(db, table, post);
    assert s[5 + |db| + |table|..] == post;
  }

  predicate IsNotFound(message: string) {
    Contains(message, "TABLE_OR_VIEW_NOT_FOUND") || Contains(message, "cannot be found")
  }

  /** Either phrase anywhere in the message counts. */
  lemma NotFoundIff(message: string)
    ensures IsNotFound(message)
       <==> exists a, b :: message == a + "TABLE_OR_VIEW_NOT_FOUND" + b || message == a + "cannot be found" + b
  {
    ContainsIff(message, "TABLE_OR_VIEW_NOT_FOUND");
    ContainsIff(message, "cannot be found");
  }

  // ---- the engine ----

  /** The registered name: the name itself, or the first that differs in case only. */
  function Resolve(lakehouses: seq<string>, name: string): Option<string> {
    if name in lakehouses then Some(name) else FirstLike(lakehouses, name)
  }

  function FirstLike(lakehouses: seq<string>, name: string): (r: Option<string>)
    ensures r.Some? <==> exists k <- lakehouses :: Lower(k) == Lower(name)
    ensures r.Some? ==> r.value in lakehouses && Lower(r.value) == Lower(name)
  {
    if lakehouses == [] then None
    else if Lower(lakehouses[0]) == Lower(name) then Some(lakehouses[0])
    else FirstLike(lakehouses[1..], name)
  }

  /** A lakehouse is found by its name or, when there is none of that very name, as the first whose
      name differs in case only. */
  lemma {:induction false} ResolveIff(lakehouses: seq<string>, name: string, found: string)
    ensures Resolve(lakehouses, name) == Some(found)
       <==> if name in lakehouses then found == name
            else exists i :: && 0 <= i < |lakehouses| && lakehouses[i] == found && Lower(found) == Lower(name)
                             && forall j :: 0 <= j < i ==> Lower(lakehouses[j]) != Lower(name)
  {
    FirstLikeIff(lakehouses, name, found);
  }

  lemma {:induction false} FirstLikeIff(lakehouses: seq<string>, name: string, found: string)
    ensures FirstLike(lakehouses, name) == Some(found)
       <==> exists i :: && 0 <= i < |lakehouses| && lakehouses[i] == found && Lower(found) == Lower(name)
                        && forall j :: 0 <= j < i ==> Lower(lakehouses[j]) != Lower(name)
  {
    hide Lower;
    if lakehouses == [] {
    } else if Lower(lakehouses[0]) == Lower(name) {
    } else {
      var rest := lakehouses[1..];
      FirstLikeIff(rest, name, found);
      if FirstLike(lakehouses, name) == Some(found) {
        var i :| && 0 <= i < |rest| && rest[i] == found && Lower(found) == Lower(name)
                 && forall j :: 0 <= j < i ==> Lower(rest[j]) != Lower(name);
        assert lakehouses[i + 1] == found;
        assert forall j :: 0 < j < i + 1 ==> lakehouses[j] == rest[j - 1];
        assert forall j :: 0 <= j < i + 1 ==> Lower(lakehouses[j]) != Lower(name);
      }
      if i :| && 0 <= i < |lakehouses| && lakehouses[i] == found && Lower(found) == Lower(name)
              && forall j :: 0 <= j < i ==> Lower(lakehouses[j]) != Lower(name) {
        assert rest[i - 1] == found && forall j :: 0 <= j < i - 1 ==> rest[j] == lakehouses[j + 1];
      }
    }
  }

  datatype Answer = Rows(rows: string) | AnalysisError(message: string) | OtherError(message: string)

  /** What the SQL engine answers, and whether it finds a table to mount, time after time. */
  datatype Sql = Sql(answers: nat -> Answer, finds: (Pair, nat) -> bool) {
    function At(t: nat): Answer {
      answers(t)
    }

    predicate Finds(x: Pair, t: nat) {
      finds(x, t)
    }
  }

  datatype Automounted = Retry | GiveUp | MountFailed

  /** The pair of an error as a table of a registered lakehouse. */
  function Target(lakehouses: seq<string>, p: Pair): Option<Pair> {
    match Resolve(lakehouses, p.0)
    case Some(lh) => Some((lh, p.1))
    case None => None
  }

  /** A lakehouse table that the error names and that is not mounted. */
  predicate Mountable(lakehouses: seq<string>, mounted: set<Pair>, message: string, x: Pair) {
    IsNotFound(message) && x !in mounted && exists p <- FindPairs(message) :: Target(lakehouses, p) == Some(x)
  }

  /** That is: a pair of the error, with the registered name of its lakehouse. */
  lemma MountableIff(lakehouses: seq<string>, mounted: set<Pair>, message: string, x: Pair)
    ensures Mountable(lakehouses, mounted, message, x)
       <==> && IsNotFound(message) && x !in mounted
            && exists db <- Databases(message, x.1) :: Resolve(lakehouses, db) == Some(x.0)
  {
    hide FindPairs, IsNotFound, Resolve;
    if Mountable(lakehouses, mounted, message, x) {
      var p :| p in FindPairs(message) && Target(lakehouses, p) == Some(x);
      assert p == (p.0, x.1) && p.0 in Databases(message, x.1);
    }
    forall db <- Databases(message, x.1) | Resolve(lakehouses, db) == Some(x.0)
      ensures exists p <- FindPairs(message) :: Target(lakehouses, p) == Some(x)
    {
      assert (db, x.1) in FindPairs(message) && Target(lakehouses, (db, x.1)) == Some(x);
    }
  }

  /** The databases that the error names with this table. */
  function Databases(message: string, table: string): set<string> {
    set p | p in FindPairs(message) && p.1 == table :: p.0
  }

  /** The first pair that is a lakehouse table not yet mounted is the one at i. */
  predicate FirstAt(lakehouses: seq<string>, mounted: set<Pair>, pairs: seq<Pair>, i: int) {
    && 0 <= i < |pairs| && Target(lakehouses, pairs[i]).Some? && Target(lakehouses, pairs[i]).value !in mounted
    && forall k :: 0 <= k < i ==> Target(lakehouses, pairs[k]).None? || Target(lakehouses, pairs[k]).value in mounted
  }

  /** Every table of a registered lakehouse among the pairs that errors can name. */
  function Known(lakehouses: seq<string>, named: set<Pair>): set<Pair> {
    set p | p in named && Target(lakehouses, p).Some? :: Target(lakehouses, p).value
  }

  class SparkEngine {
    const lakehouses: seq<string>
    const sql: Sql
    var mounted: set<Pair>
    var clock: nat

    constructor (lakehouses: seq<string>, sql: Sql)
      ensures this.lakehouses == lakehouses && this.sql == sql && mounted == {} && clock == 0
    {
      this.lakehouses, this.sql, mounted, clock := lakehouses, sql, {}, 0;
    }

    /** `mount_table` of a table of a registered lakehouse. */
    method MountTable(x: Pair) returns (ok: bool)
      modifies this`mounted
      ensures ok == sql.Finds(x, clock) && mounted == if ok then old(mounted) + {x} else old(mounted)
    {
      ok := sql.Finds(x, clock);
      if ok {
        mounted := mounted + {x};
      }
    }

    /** `_automount_missing`: the first mountable pair of the error is mounted. */
    method AutomountMissing(message: string) returns (r: Automounted, ghost x: Pair)
      modifies this`mounted
      ensures r.GiveUp? ==> forall y :: !Mountable(lakehouses, old(mounted), message, y)
      ensures !r.GiveUp? ==> Mountable(lakehouses, old(mounted), message, x) && r.Retry? == sql.Finds(x, clock)
      ensures !r.GiveUp? ==> exists i :: FirstAt(lakehouses, old(mounted), FindPairs(message), i)
                                         && Target(lakehouses, FindPairs(message)[i]) == Some(x)
      ensures mounted == if r.Retry? then old(mounted) + {x} else old(mounted)
    {
      hide FindPairs, IsNotFound, Target;
      x := ("", "");
      if !IsNotFound(message) {
        return GiveUp, x;
      }
      var pairs := FindPairs(message);
      for i := 0 to |pairs|
        invariant mounted == old(mounted)
        invariant forall k :: 0 <= k < i ==>
                Target(lakehouses, pairs[k]).None? || Target(lakehouses, pairs[k]).value in mounted
      {
        var target := Target(lakehouses, pairs[i]);
        if target.Some? && target.value !in mounted {
          assert pairs[i] in FindPairs(message);
          x := target.value;
          assert Mountable(lakehouses, mounted, message, x);
          assert FirstAt(lakehouses, mounted, FindPairs(message), i);
          var ok := MountTable(target.value);
          return if ok then Retry else MountFailed, x;
        }
      }
      r := GiveUp;
    }

    /** `_sql_with_automount`; `named` are the pairs that its errors can name. */
    method SqlWithAutomount(ghost named: set<Pair>) returns (r: Answer, mountFailed: bool, ghost log: seq<Pair>)
      requires forall t: nat, p :: sql.At(t).AnalysisError? && p in FindPairs(sql.At(t).message) ==> p in named
      modifies this`mounted, this`clock
      // one answer more than there were mounts, and no more mounts than known tables were left
      ensures clock == old(clock) + |log| + 1
      ensures |log| <= |Known(lakehouses, named) - old(mounted)|
      // each table mounted once, when an error named it
      ensures Logged(old(clock), old(mounted), log) && mounted == old(mounted) + Elements(log)
      // the last answer is the result, unless a mount failed
      ensures r == sql.At(clock - 1)
      ensures mountFailed ==>
                r.AnalysisError? && exists x :: Mountable(lakehouses, mounted, r.message, x) && !sql.Finds(x, clock)
      ensures !mountFailed && r.AnalysisError? ==> forall x :: !Mountable(lakehouses, mounted, r.message, x)
    {
      hide Mountable, FindPairs, SoFar, Known, Elements, Logged;
      log, mountFailed := [], false;
      ghost var start, before := clock, mounted;
      r := sql.At(clock);
      clock := clock + 1;
      NothingYet(named, start, before);
      var retry := true;
      while retry && r.AnalysisError?
        invariant clock > 0 && r == sql.At(clock - 1) && SoFar(named, start, before, log, mounted, clock)
        invariant mountFailed ==>
                exists x :: r.AnalysisError? && Mountable(lakehouses, mounted, r.message, x) && !sql.Finds(x, clock)
        invariant !retry && !mountFailed ==>
                    r.AnalysisError? && forall x :: !Mountable(lakehouses, mounted, r.message, x)
        invariant mountFailed ==> !retry
        decreases |Known(lakehouses, named) - mounted|, retry
      {
        ghost var was := mounted;
        var step;
        ghost var x;
        step, x := AutomountMissing(r.message);
        if step.Retry? {
          OneMore(named, start, before, log, was, clock, x);
          log := log + [x];
          r := sql.At(clock);
          clock := clock + 1;
        } else {
          retry := false;
          mountFailed := step.MountFailed?;
        }
      }
      Bounded(named, start, before, log, mounted, clock);
    }

    /** The answer at time t was an error that named this lakehouse table. */
    ghost predicate NamedAt(t: nat, x: Pair) {
      && sql.At(t).AnalysisError? && IsNotFound(sql.At(t).message)
      && exists p <- FindPairs(sql.At(t).message) :: Target(lakehouses, p) == Some(x)
    }

    /** Each table once, none of them mounted before, each named by the answer before its mount. */
    ghost predicate Logged(start: nat, before: set<Pair>, log: seq<Pair>) {
      && (forall i, j :: 0 <= i < j < |log| ==> log[i] != log[j])
      && (forall i :: 0 <= i < |log| ==> log[i] !in before && NamedAt(start + i, log[i]))
    }

    /** What is mounted and logged after these mounts. */
    ghost predicate SoFar(named: set<Pair>, start: nat, before: set<Pair>, log: seq<Pair>, now: set<Pair>, t: nat) {
      && t == start + |log| + 1 && Logged(start, before, log) && now == before + Elements(log)
      && Elements(log) <= Known(lakehouses, named)
    }

    lemma NothingYet(named: set<Pair>, start: nat, before: set<Pair>)
      ensures SoFar(named, start, before, [], before, start + 1)
    {
      assert before + Elements([]) == before;
    }

    lemma OneMore(named: set<Pair>, start: nat, before: set<Pair>, log: seq<Pair>, was: set<Pair>, t: nat, x: Pair)
      requires SoFar(named, start, before, log, was, t) && sql.At(t - 1).AnalysisError?
      requires Mountable(lakehouses, was, sql.At(t - 1).message, x)
      requires forall p <- FindPairs(sql.At(t - 1).message) :: p in named
      ensures SoFar(named, start, before, log + [x], was + {x}, t + 1)
      ensures |Known(lakehouses, named) - (was + {x})| < |Known(lakehouses, named) - was|
    {
      hide Mountable, FindPairs, IsNotFound, Target, Known, NamedAt, Logged, Elements;
      NamedIsKnown(named, sql.At(t - 1).message, was, x);
      OneFewer(Known(lakehouses, named), was, x);
      LogOneMore(start, before, log, was, x);
      ElementsAppend(log, x);
    }

    lemma Bounded(named: set<Pair>, start: nat, before: set<Pair>, log: seq<Pair>, now: set<Pair>, t: nat)
      requires SoFar(named, start, before, log, now, t)
      ensures t == start + |log| + 1 && |log| <= |Known(lakehouses, named) - before|
      ensures Logged(start, before, log) && now == before + Elements(log)
    {
      hide Known, NamedAt;
      Sets.DistinctSize(log);
      Sets.SubsetSize(Elements(log), Known(lakehouses, named) - before);
    }

    lemma LogOneMore(start: nat, before: set<Pair>, log: seq<Pair>, was: set<Pair>, x: Pair)
      requires Logged(start, before, log) && was == before + Elements(log)
      requires sql.At(start + |log|).AnalysisError?
      requires Mountable(lakehouses, was, sql.At(start + |log|).message, x)
      ensures Logged(start, before, log + [x]) && was + {x} == before + Elements(log + [x])
    {
      hide Target, FindPairs, IsNotFound;
      ElementsAppend(log, x);
      assert NamedAt(start + |log|, x);
    }

    lemma NamedIsKnown(named: set<Pair>, message: string, was: set<Pair>, x: Pair)
      requires forall p <- FindPairs(message) :: p in named
      requires Mountable(lakehouses, was, message, x)
      ensures x in Known(lakehouses, named) && x !in was
    {
      var p :| p in FindPairs(message) && Target(lakehouses, p) == Some(x);
      assert p in named && Target(lakehouses, p).value == x;
    }
  }

  function Elements(log: seq<Pair>): set<Pair> {
    set x | x in log
  }

  lemma ElementsAppend(log: seq<Pair>, x: Pair)
    ensures Elements(log + [x]) == Elements(log) + {x}
  {
  }

  lemma OneFewer(known: set<Pair>, was: set<Pair>, x: Pair)
    requires x in known && x !in was
    ensures |known - (was + {x})| == |known - was| - 1
  {
    assert known - (was + {x}) == (known - was) - {x};
  }
}
