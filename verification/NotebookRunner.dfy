/** The cell loop of `run_notebook` (engine.py): which cells run, when it stops, and when
    the parameters are written. What a cell does is left to the interpreter. */
module NotebookRunner {
  import opened Text
  import opened NotebookFormat

  /** A namespace, as far as parameters matter: names and values. */
  type Vars = map<string, string>

  datatype Ran = Done | Failed(error: string) | Exit(value: string)

  datatype Effect = Effect(ran: Ran, vars: Vars)

  /** What running code does; `time` lets the same code end differently each time. */
  datatype Interpreter = Interpreter(python: (string, Vars, nat) -> Effect, sql: (string, Vars, nat) -> Option<string>)

  datatype Status = Skipped | Succeeded | Error | Exited | Unsupported

  datatype Entry = Entry(index: nat, kind: CellKind, status: Status, error: string, unsupported: seq<string>)

  /** One step of a run: a cell, with what was asked of the interpreter when, what is reported of
      it, and the value it exits with; or the parameters; and the namespace around it. */
  datatype Event =
    | Visit(cell: Cell, time: nat, entry: Entry, exit: Option<string>, before: Vars, after: Vars)
    | Write(before: Vars, after: Vars)

  // ---- strip_line_magics ----

  function Kept(lines: seq<string>): seq<string> {
    if lines == [] then []
    else (if IsLineMagic(lines[0]) then [] else [lines[0]]) + Kept(lines[1..])
  }

  /** `strip_line_magics`. */
  function CodeOf(x: Cell): string {
    if x.magics == [] then x.source else Join(Kept(Split(x.source)))
  }

  lemma {:induction false} KeptHasNone(lines: seq<string>)
    ensures LineMagics(Kept(lines)) == []
    ensures |LineMagics(lines)| + |Kept(lines)| == |lines|
    ensures forall l <- Kept(lines) :: l in lines
  {
    hide IsLineMagic;
    if lines == [] {
    } else {
      KeptHasNone(lines[1..]);
      if IsLineMagic(lines[0]) {
        assert Kept(lines) == Kept(lines[1..]);
      } else {
        assert Kept(lines)[1..] == Kept(lines[1..]);
      }
    }
  }

  /** Whatever is not a line magic is kept, in its order. */
  lemma {:induction false} KeptConcat(a: seq<string>, b: seq<string>)
    ensures Kept(a + b) == Kept(a) + Kept(b)
    ensures |a| == 1 ==> Kept(a) == if IsLineMagic(a[0]) then [] else a
  {
    hide IsLineMagic;
    if a == [] {
      assert a + b == b;
    } else {
      assert (a + b)[1..] == a[1..] + b;
      KeptConcat(a[1..], b);
    }
  }

  /** The code of a parsed python cell is its source without the line magics. */
  lemma CodeIs(x: Cell)
    requires x.magics == LineMagics(Split(x.source))
    ensures CodeOf(x) == Join(Kept(Split(x.source)))
  {
    if x.magics == [] {
      NoneIsKept(Split(x.source));
      JoinSplit(x.source);
    }
  }

  lemma {:induction false} NoneIsKept(lines: seq<string>)
    requires LineMagics(lines) == []
    ensures Kept(lines) == lines
  {
    hide IsLineMagic;
    if lines == [] {
    } else {
      NoneIsKept(lines[1..]);
    }
  }

  /** The code of a parsed python cell has no line magic left. */
  lemma NoMagicLeft(x: Cell)
    requires x.kind != Markdown && x.language == "python" && x.magics == LineMagics(Split(x.source))
    ensures LineMagics(Split(CodeOf(x))) == []
  {
    hide IsLineMagic;
    var lines := Split(x.source);
    if x.magics != [] {
      KeptHasNone(lines);
      if Kept(lines) == [] {
        assert Split("") == [""];
        EmptyIsNoMagic();
      } else {
        SplitJoin(Kept(lines));
      }
    }
  }

  lemma EmptyIsNoMagic()
    ensures LineMagics([""]) == []
  {
    assert [""][1..] == [];
  }

  // ---- the run ----

  /** The selected cells among the first n. */
  function Chosen(cells: seq<Cell>, selected: set<nat>, n: nat): seq<Cell>
    requires n <= |cells|
  {
    if n == 0 then []
    else Chosen(cells, selected, n - 1) + if cells[n - 1].index in selected then [cells[n - 1]] else []
  }

  lemma {:induction false} ChosenGrows(cells: seq<Cell>, selected: set<nat>, m: nat, n: nat)
    requires m <= n <= |cells|
    ensures Chosen(cells, selected, m) <= Chosen(cells, selected, n)
    decreases n
  {
    if m >= n {
    } else {
      ChosenGrows(cells, selected, m, n - 1);
    }
  }

  predicate Ends(s: Status, stopOnError: bool) {
    s == Exited || (stopOnError && (s == Error || s == Unsupported))
  }

  predicate Reports(e: Entry, x: Cell) {
    && e.index == x.index && e.kind == x.kind
    && (e.status == Skipped <==> x.kind == Markdown) && (e.status == Skipped ==> e.error == "")
    && (e.status == Unsupported <==> x.kind != Markdown && x.language != "sparksql" && x.language != "python")
    && (e.status == Exited ==> x.language == "python")
    && (x.kind != Markdown ==> e.unsupported == if x.magics == [] then [] else x.magics)
  }

  /** The results are for the first of these cells, in order, one each. */
  predicate ReportsFirst(results: seq<Entry>, chosen: seq<Cell>) {
    |results| <= |chosen| && forall k :: 0 <= k < |results| ==> Reports(results[k], chosen[k])
  }

  /** A visit reports what the interpreter answered to the cell's code, and changes the namespace
      as that does. */
  predicate AsRun(e: Event, interpreter: Interpreter) {
    e.Visit? ==>
      if e.cell.language == "python" then
        var f := interpreter.python(CodeOf(e.cell), e.before, e.time);
        && e.after == f.vars
        && match f.ran
           case Done => e.entry.status == Succeeded && e.entry.error == "" && e.exit == None
           case Failed(error) => e.entry.status == Error && e.entry.error == error && e.exit == None
           case Exit(value) => e.entry.status == Exited && e.entry.error == "" && e.exit == Some(value)
      else if e.cell.language == "sparksql" then
        var f := interpreter.sql(CodeOf(e.cell), e.before, e.time);
        && e.after == e.before && e.exit == None
        && match f
           case None => e.entry.status == Succeeded && e.entry.error == ""
           case Some(error) => e.entry.status == Error && e.entry.error == error
      else
        && e.after == e.before && e.exit == None && e.entry.status == Unsupported
        && e.entry.error == "cell magic %%" + e.cell.cellMagic.GetOr("None") + " is not supported locally"
  }

  /** The namespace goes from v0 to v1 through these events, each as the interpreter, or
      the parameters, have it. */
  ghost predicate Chained(events: seq<Event>, v0: Vars, v1: Vars, params: Vars, interpreter: Interpreter) {
    if events == [] then v1 == v0
    else
      var e := events[|events| - 1];
      && e.after == v1 && (e.Write? ==> e.after == e.before + params) && AsRun(e, interpreter)
      && Chained(events[..|events| - 1], v0, e.before, params, interpreter)
  }

  /** The visits, without the write. */
  function Visits(events: seq<Event>): seq<Event> {
    if events == [] then []
    else Visits(events[..|events| - 1]) + if events[|events| - 1].Visit? then [events[|events| - 1]] else []
  }

  function Writes(events: seq<Event>): nat {
    if events == [] then 0
    else Writes(events[..|events| - 1]) + if events[|events| - 1].Write? then 1 else 0
  }

  /** A parameters cell that ran without exiting. */
  predicate TakesParameters(e: Event) {
    e.Visit? && e.cell.kind == Parameters && e.entry.status != Exited
  }

  /** Parameters go right after the first parameters cell that does not exit or, in a notebook
      without one, before everything. */
  predicate WellPlaced(events: seq<Event>, p: nat, hasParameters: bool)
    requires p < |events|
  {
    if hasParameters then p > 0 && TakesParameters(events[p - 1]) && forall q :: 0 <= q < p - 1 ==>
        !TakesParameters(events[q])
    else p == 0 && |events| > 1
  }

  predicate HasParameters(cells: seq<Cell>) {
    exists i :: 0 <= i < |cells| && cells[i].kind == Parameters
  }

  /** When the parameters should have been written by now. */
  predicate Due(events: seq<Event>, hasParameters: bool) {
    if hasParameters then exists q :: 0 <= q < |events| && TakesParameters(events[q]) else Visits(events) != []
  }

  /** The value of the visit that ended the run, if it exited. */
  function ExitOf(visits: seq<Event>): Option<string> {
    if visits == [] || !visits[|visits| - 1].Visit? then None else visits[|visits| - 1].exit
  }

  /** The visits are what the results that are not skipped report. */
  predicate VisitsMatch(visits: seq<Event>, results: seq<Entry>)
    decreases results
  {
    if results == [] then visits == []
    else
      var e, rest := results[|results| - 1], results[..|results| - 1];
      if e.status == Skipped then VisitsMatch(visits, rest)
      else
        && visits != [] && visits[|visits| - 1].Visit?
        && visits[|visits| - 1].cell.index == e.index && visits[|visits| - 1].entry == e
        && VisitsMatch(visits[..|visits| - 1], rest)
  }

  /** `first_error or error`: "" is no error. */
  function Or(a: string, b: string): string {
    if a == "" then b else a
  }

  function FirstError(results: seq<Entry>): string {
    if results == [] then "" else Or(FirstError(results[..|results| - 1]), results[|results| - 1].error)
  }

  /** It is the first that is not "". */
  lemma {:induction false} FirstErrorIs(results: seq<Entry>)
    ensures FirstError(results) == "" <==> forall k :: 0 <= k < |results| ==> results[k].error == ""
    ensures FirstError(results) != "" ==> exists k :: && 0 <= k < |results| && results[k].error == FirstError(results)
                                                      && forall j :: 0 <= j < k ==> results[j].error == ""
  {
    if results == [] {
    } else {
      var n := |results| - 1;
      FirstErrorIs(results[..n]);
      if FirstError(results[..n]) != "" {
        var k :| && 0 <= k < n && results[..n][k].error == FirstError(results[..n])
                 && forall j :: 0 <= j < k ==> results[..n][j].error == "";
        assert results[k].error == FirstError(results) && forall j :: 0 <= j < k ==> results[j].error == "";
      } else {
        assert forall j :: 0 <= j < n ==> results[..n][j] == results[j];
      }
    }
  }

  lemma HasParametersIff(cells: seq<Cell>)
    ensures HasParameters(cells) <==> exists i :: 0 <= i < |cells| && cells[i].kind == Parameters
  {
  }

  class Shell {
    var userNs: Vars
    var clock: nat

    constructor (vars: Vars)
      ensures userNs == vars
    {
      userNs, clock := vars, 0;
    }

    /** One runnable cell: the three branches of the loop. */
    method RunCell(x: Cell, interpreter: Interpreter) returns (e: Entry, exit: Option<string>)
      requires x.kind != Markdown
      modifies this
      ensures Reports(e, x) && e.status != Skipped
      ensures exit.Some? <==> e.status == Exited
      ensures clock == old(clock) + 1
      ensures AsRun(Visit(x, old(clock), e, exit, old(userNs), userNs), interpreter)
    {
      var unsupported, time := x.magics, clock;
      clock := clock + 1;
      exit := None;
      if x.language == "sparksql" {
        var f := interpreter.sql(CodeOf(x), userNs, time);
        e := if f.Some? then Entry(x.index, x.kind, Error, f.value, unsupported)
             else Entry(x.index, x.kind, Succeeded, "", unsupported);
      } else if x.language == "python" {
        var f := interpreter.python(CodeOf(x), userNs, time);
        userNs := f.vars;
        match f.ran
        case Exit(value) =>
          exit := Some(value);
          e := Entry(x.index, x.kind, Exited, "", unsupported);
        case Done =>
          e := Entry(x.index, x.kind, Succeeded, "", unsupported);
        case Failed(error) =>
          e := Entry(x.index, x.kind, Error, error, unsupported);
      } else {
        var error := "cell magic %%" + x.cellMagic.GetOr("None") + " is not supported locally";
        e := Entry(x.index, x.kind, Unsupported, error, unsupported);
      }
    }

    /** `user_ns.update(params)`. */
    method Update(params: Vars, ghost interpreter: Interpreter, ghost events: seq<Event>, ghost v0: Vars)
      returns (ghost next: seq<Event>)
      requires Chained(events, v0, userNs, params, interpreter)
      modifies this`userNs
      ensures userNs == old(userNs) + params && next == events + [Write(old(userNs), userNs)]
      ensures Chained(next, v0, userNs, params, interpreter)
    {
      next := events + [Write(userNs, userNs + params)];
      Extend(events, Write(userNs, userNs + params), v0, params, interpreter);
      userNs := userNs + params;
    }

    /** One turn of the loop for a runnable cell; `injected` says that nothing is left to write. */
    method VisitCell(x: Cell, params: Vars, injected: bool, hasParameters: bool, interpreter: Interpreter,
                     ghost events: seq<Event>, ghost v0: Vars)
      returns (e: Entry, exit: Option<string>, done: bool, ghost next: seq<Event>)
      requires x.kind != Markdown && (x.kind == Parameters ==> hasParameters)
      requires Chained(events, v0, userNs, params, interpreter) && Placed(events, params, hasParameters, injected)
      modifies this
      ensures Reports(e, x) && e.status != Skipped && (exit.Some? <==> e.status == Exited)
      ensures Chained(next, v0, userNs, params, interpreter) && Placed(next, params, hasParameters, done)
      ensures exists v: Event :: && v.Visit? && v.cell == x && v.entry == e && v.exit == exit && AsRun(v, interpreter)
                                 && Visits(next) == Visits(events) + [v]
    {
      hide AsRun, CodeOf, Chained, Placed, Visits, Reports;
      next, done := events, injected;
      if !injected && x.kind != Parameters && !hasParameters {
        next := Update(params, interpreter, next, v0);
        done := true;
      }
      ghost var before, given, time := userNs, next, clock;
      e, exit := RunCell(x, interpreter);
      ghost var v := Visit(x, time, e, exit, before, userNs);
      next := next + [v];
      Extend(given, v, v0, params, interpreter);
      if e.status != Exited && x.kind == Parameters && !done {
        next := Update(params, interpreter, next, v0);
        done := true;
        AppendVisitWrite(events, v, next[|next| - 1], params);
      } else if done && !injected {
        AppendWriteVisit(events, given[|given| - 1], v, params);
      } else {
        AppendVisit(events, v, params, hasParameters, injected);
      }
    }

    /** The loop of `run_notebook`; `events` is its history. */
    method RunCells(cells: seq<Cell>, selected: set<nat>, params: Vars, stopOnError: bool, interpreter: Interpreter)
      returns (results: seq<Entry>, firstError: string, exitValue: Option<string>, ok: bool, ghost events: seq<Event>)
      modifies this
      // a prefix of the selected cells, cut right after the first that stops the run
      ensures ReportsFirst(results, Chosen(cells, selected, |cells|))
      ensures forall k :: 0 <= k < |results| - 1 ==>
                results[k].status != Exited && (stopOnError ==> results[k].status !in {Error, Unsupported})
      ensures |results| == |Chosen(cells, selected, |cells|)|
           || (results != [] && (results[|results| - 1].status == Exited
                                 || (stopOnError && results[|results| - 1].status in {Error, Unsupported})))
      // what is reported about it
      ensures ok <==> forall k :: 0 <= k < |results| ==> results[k].status != Error && results[k].status != Unsupported
      ensures firstError == "" ==> forall k :: 0 <= k < |results| ==> results[k].error == ""
      ensures firstError != "" ==> exists k ::
                && 0 <= k < |results| && results[k].error == firstError
                && forall j :: 0 <= j < k ==> results[j].error == ""
      ensures exitValue == ExitOf(Visits(events))
      ensures exitValue.Some? <==> results != [] && results[|results| - 1].status == Exited
      // what happened, and when the parameters were written
      ensures Chained(events, old(userNs), userNs, params, interpreter) && VisitsMatch(Visits(events), results)
      ensures Writes(events) <= 1
      ensures var has := exists i :: 0 <= i < |cells| && cells[i].kind == Parameters;
              && (Writes(events) == 1 <==> params != map[] && Due(events, has))
              && forall p :: 0 <= p < |events| && events[p].Write? ==> WellPlaced(events, p, has)
    {
      hide Chained, VisitsMatch, Visits, Placed, Unbroken, Reports, ReportsFirst, FirstError, HasParameters, Chosen;
      var hasParameters := HasParameters(cells);
      NothingRead(cells, selected, params, hasParameters, userNs, stopOnError, interpreter);
      var injected, stopped, i := params == map[], false, 0;
      results, events, firstError, exitValue := [], [], "", None;
      while i < |cells| && !stopped
        invariant i <= |cells|
        invariant ReportsFirst(results, Chosen(cells, selected, i)) && |results| == |Chosen(cells, selected, i)|
        invariant Unbroken(results, stopOnError, stopped)
        invariant firstError == FirstError(results)
        invariant exitValue.Some? <==> results != [] && results[|results| - 1].status == Exited
        invariant exitValue.Some? ==> stopped
        invariant exitValue == ExitOf(Visits(events))
        invariant Chained(events, old(userNs), userNs, params, interpreter) && VisitsMatch(Visits(events), results)
        invariant Placed(events, params, hasParameters, injected)
      {
        var x := cells[i];
        if x.kind == Parameters {
          IsParameters(cells, i);
        }
        ghost var was, seen := results, events;
        if x.index in selected {
          var e;
          if x.kind == Markdown {
            e := Entry(x.index, x.kind, Skipped, "", []);
            MarkdownReports(x);
          } else {
            e, exitValue, injected, events :=
              VisitCell(x, params, injected, hasParameters, interpreter, events, old(userNs));
            firstError := Or(firstError, e.error);
            stopped := Ends(e.status, stopOnError);
          }
          results := results + [e];
          OneMore(was, e, x, Visits(seen), Visits(events), stopOnError);
          ChosenNext(cells, selected, i, was, e);
        } else {
          ChosenSkips(cells, selected, i);
        }
        i := i + 1;
      }
      Closing(cells, selected, i, results, stopOnError, stopped, events, params, hasParameters, injected);
      FirstErrorIs(results);
      HasParametersIff(cells);
      ok := forall k :: 0 <= k < |results| ==> results[k].status != Error && results[k].status != Unsupported;
    }
  }

  lemma Extend(events: seq<Event>, e: Event, v0: Vars, params: Vars, interpreter: Interpreter)
    requires Chained(events, v0, e.before, params, interpreter) && AsRun(e, interpreter)
    requires e.Write? ==> e.after == e.before + params
    ensures Chained(events + [e], v0, e.after, params, interpreter)
  {
    assert (events + [e])[..|events|] == events;
  }

  lemma NothingRead(cells: seq<Cell>, selected: set<nat>, params: Vars, hasParameters: bool, v0: Vars,
                    stopOnError: bool, interpreter: Interpreter)
    ensures Chosen(cells, selected, 0) == [] && ReportsFirst([], []) && Unbroken([], stopOnError, false)
    ensures FirstError([]) == "" && Visits([]) == [] && VisitsMatch([], []) && ExitOf([]) == None
    ensures Chained([], v0, v0, params, interpreter) && Placed([], params, hasParameters, params == map[])
  {
  }

  lemma IsParameters(cells: seq<Cell>, i: nat)
    requires i < |cells| && cells[i].kind == Parameters
    ensures HasParameters(cells)
  {
  }

  lemma MarkdownReports(x: Cell)
    requires x.kind == Markdown
    ensures Reports(Entry(x.index, x.kind, Skipped, "", []), x)
  {
  }

  lemma ChosenSkips(cells: seq<Cell>, selected: set<nat>, n: nat)
    requires n < |cells| && cells[n].index !in selected
    ensures Chosen(cells, selected, n + 1) == Chosen(cells, selected, n)
  {
  }

  lemma ChosenNext(cells: seq<Cell>, selected: set<nat>, n: nat, was: seq<Entry>, e: Entry)
    requires n < |cells| && cells[n].index in selected && Reports(e, cells[n])
    requires ReportsFirst(was, Chosen(cells, selected, n)) && |was| == |Chosen(cells, selected, n)|
    ensures ReportsFirst(was + [e], Chosen(cells, selected, n + 1)) && |was + [e]| == |Chosen(cells, selected, n + 1)|
  {
    hide Reports;
  }

  lemma Closing(cells: seq<Cell>, selected: set<nat>, i: nat, results: seq<Entry>, stopOnError: bool, stopped: bool,
                events: seq<Event>, params: Vars, hasParameters: bool, injected: bool)
    requires i <= |cells| && (i == |cells| || stopped)
    requires ReportsFirst(results, Chosen(cells, selected, i)) && |results| == |Chosen(cells, selected, i)|
    requires Unbroken(results, stopOnError, stopped) && Placed(events, params, hasParameters, injected)
    ensures ReportsFirst(results, Chosen(cells, selected, |cells|))
    ensures forall k :: 0 <= k < |results| - 1 ==> !Ends(results[k].status, stopOnError)
    ensures |results| == |Chosen(cells, selected, |cells|)|
         || (results != [] && Ends(results[|results| - 1].status, stopOnError))
    ensures Writes(events) <= 1
    ensures Writes(events) == 1 <==> params != map[] && Due(events, hasParameters)
    ensures forall p :: 0 <= p < |events| && events[p].Write? ==> WellPlaced(events, p, hasParameters)
  {
    hide Reports, WellPlaced, Due, Writes;
    ChosenGrows(cells, selected, i, |cells|);
  }

  /** Only the last result stops the run, and it does when `stopped`. */
  predicate Unbroken(results: seq<Entry>, stopOnError: bool, stopped: bool) {
    && (forall k :: 0 <= k < |results| - 1 ==> !Ends(results[k].status, stopOnError))
    && (stopped <==> results != [] && Ends(results[|results| - 1].status, stopOnError))
  }

  lemma OneMore(was: seq<Entry>, e: Entry, x: Cell, visits: seq<Event>, next: seq<Event>, stopOnError: bool)
    requires Unbroken(was, stopOnError, false) && VisitsMatch(visits, was) && Reports(e, x)
    requires if e.status == Skipped then next == visits
             else exists v: Event :: v.Visit? && v.cell == x && v.entry == e && next == visits + [v]
    ensures Unbroken(was + [e], stopOnError, Ends(e.status, stopOnError))
    ensures VisitsMatch(next, was + [e])
    ensures FirstError(was + [e]) == Or(FirstError(was), e.error)
  {
    assert (was + [e])[..|was|] == was;
    assert next[..|visits|] == visits;
  }

  // ---- where the parameters go ----

  /** The parameters were written when due and in their place; `injected` says that nothing
      is left to write. */
  predicate Placed(events: seq<Event>, params: Vars, hasParameters: bool, injected: bool) {
    && Writes(events) == (if injected && params != map[] then 1 else 0)
    && (injected <==> params == map[] || Due(events, hasParameters))
    && forall p :: 0 <= p < |events| && events[p].Write? ==> WellPlaced(events, p, hasParameters)
  }

  lemma {:induction false} NothingYet(events: seq<Event>)
    ensures Visits(events) == [] && Writes(events) == 0 ==> events == []
  {
  }

  lemma {:induction false} WriteCounts(events: seq<Event>, p: nat)
    requires p < |events| && events[p].Write?
    ensures Writes(events) > 0
  {
    if p == |events| - 1 {
    } else {
      WriteCounts(events[..|events| - 1], p);
    }
  }

  lemma Appended(events: seq<Event>, e: Event)
    ensures Visits(events + [e]) == Visits(events) + if e.Visit? then [e] else []
    ensures Writes(events + [e]) == Writes(events) + if e.Write? then 1 else 0
    ensures Due(events + [e], true) <==> Due(events, true) || TakesParameters(e)
    ensures Due(events + [e], false) <==> Due(events, false) || e.Visit?
  {
    hide TakesParameters;
    assert (events + [e])[..|events|] == events;
    DueAppended(events, e);
  }

  lemma DueAppended(events: seq<Event>, e: Event)
    ensures Due(events + [e], true) <==> Due(events, true) || TakesParameters(e)
  {
    hide TakesParameters;
    var all := events + [e];
    if Due(events, true) {
      var q :| 0 <= q < |events| && TakesParameters(events[q]);
      assert TakesParameters(all[q]);
    } else if TakesParameters(e) {
      assert TakesParameters(all[|events|]);
    } else {
      assert forall q :: 0 <= q < |events| ==> all[q] == events[q];
    }
  }

  lemma StillPlaced(events: seq<Event>, e: Event, hasParameters: bool)
    requires forall p :: 0 <= p < |events| && events[p].Write? ==> WellPlaced(events, p, hasParameters)
    requires e.Visit?
    ensures forall p :: 0 <= p < |events + [e]| && (events + [e])[p].Write? ==>
              WellPlaced(events + [e], p, hasParameters)
  {
    assert forall q :: 0 <= q < |events| ==> (events + [e])[q] == events[q];
  }

  lemma AppendVisit(events: seq<Event>, v: Event, params: Vars, hasParameters: bool, injected: bool)
    requires v.Visit? && Placed(events, params, hasParameters, injected)
    requires injected || (hasParameters && !TakesParameters(v))
    ensures Placed(events + [v], params, hasParameters, injected)
    ensures Visits(events + [v]) == Visits(events) + [v]
  {
    Appended(events, v);
    StillPlaced(events, v, hasParameters);
  }

  lemma AppendWriteVisit(events: seq<Event>, w: Event, v: Event, params: Vars)
    requires v.Visit? && w.Write? && Placed(events, params, false, false)
    ensures Placed(events + [w] + [v], params, false, true)
    ensures Visits(events + [w] + [v]) == Visits(events) + [v]
  {
    NothingYet(events);
    Appended(events, w);
    Appended(events + [w], v);
  }

  lemma AppendVisitWrite(events: seq<Event>, v: Event, w: Event, params: Vars)
    requires TakesParameters(v) && w.Write? && Placed(events, params, true, false)
    ensures Placed(events + [v] + [w], params, true, true)
    ensures Visits(events + [v] + [w]) == Visits(events) + [v]
  {
    Appended(events, v);
    Appended(events + [v], w);
    forall p | 0 <= p < |events| && events[p].Write?
      ensures false
    {
      WriteCounts(events, p);
    }
    var all := events + [v] + [w];
    assert forall q :: 0 <= q < |events| ==> all[q] == events[q];
    assert all[|events|] == v && all[|events| + 1] == w;
  }

  // ---- what the history says ----

  /** A cell visited right after the write sees the parameters. */
  lemma {:induction false} SeesParameters(events: seq<Event>, v0: Vars, v1: Vars, params: Vars, p: nat,
      interpreter: Interpreter)
    requires Chained(events, v0, v1, params, interpreter) && p + 1 < |events| && events[p].Write?
    ensures forall n <- params :: n in events[p + 1].before && events[p + 1].before[n] == params[n]
  {
    var last := events[|events| - 1];
    if p + 1 == |events| - 1 {
      assert events[..|events| - 1][|events| - 2] == events[p];
    } else {
      SeesParameters(events[..|events| - 1], v0, last.before, params, p, interpreter);
    }
  }
}
