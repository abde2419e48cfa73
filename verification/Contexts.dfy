/** Contexts, interrupts, forced drops and notebook runs (engine.py). Several REPLs share one
    IPython shell: running a cell, or a notebook, swaps the context's namespace into it. A cell
    can run a notebook, whose cells run inside it. The control thread can interrupt the running
    cell or force-drop its context; each request, cell start, cell end and watchdog tick is one
    atomic step. */
module Contexts {
  import opened Text

  type Vars = map<string, int>

  const DEFAULT := "default"

  /** What a fresh namespace is seeded with. */
  const SEED: Vars := map["spark" := 0, "sc" := 0, "F" := 0, "T" := 0, "Window" := 0, "display" := 0,
                          "notebookutils" := 0, "mssparkutils" := 0]

  /** How a cell ended: `Keyboard` is a KeyboardInterrupt. */
  datatype Exc = NoExc | Keyboard | OtherExc

  /** What `_exec` reports of the cell that began as generation `cell`, when `gen` is current. */
  datatype Report = Report(cell: nat, gen: nat, exc: Exc, interrupted: bool)

  /** A cancelAllJobs: the generation it was meant for, and the one running. */
  datatype Cancel = Cancel(meant: nat, running: nat)

  datatype Outcome =
    | Done
    | Dropped
    | Scheduled
    | Interrupting
    | Idle                       // interrupt: nothing to stop
    | BadId | AlreadyExists | Unknown | IsDefault | Busy | KeyError

  datatype Event =
    | Create(id: string)
    | Start(id: string)          // a cell or query begins in a context
    | Run(id: string, vars: Vars) // the cell leaves a context's namespace like this
    | End(exc: Exc)
    | Open(id: string)           // `run_notebook` begins in a context
    | Write(params: Vars)        // and writes its parameters,
    | Close                      // and ends
    | Drop(id: string, force: bool)
    | Interrupt(only: Option<string>)
    | Tick(gen: nat)             // a watchdog wakes up, checks and cancels

  /** What the thread of the data socket is in: cells, and notebooks with the context that they
      pass to their cells. */
  datatype Frame = Cell(id: string, gen: nat) | Book(id: string)

  // ---- the engine as a value ----

  datatype Model = Model(
    spaces: map<string, Vars>,   // each registered context's namespace
    active: string,
    dropping: set<string>,       // contexts with pending_drop
    owner: Option<string>,       // _cell_context; None when _cell_running is false
    stack: seq<Frame>,           // the innermost is last
    gen: nat,
    requested: bool,
    dogs: set<nat>,              // generations that have a watchdog
    accepted: set<nat>,          // generations an interrupt was accepted in
    reports: seq<Report>,
    cancels: seq<Cancel>)
  {
    predicate InCell() {
      stack != [] && stack[|stack| - 1].Cell?
    }

    predicate InBook() {
      stack != [] && stack[|stack| - 1].Book?
    }

    function Top(): Frame
      requires stack != []
    {
      stack[|stack| - 1]
    }

    function Pop(): seq<Frame>
      requires stack != []
    {
      stack[..|stack| - 1]
    }
  }

  /** The data socket waits for what it is in; the control socket does not. A notebook passes its
      own context to its cells; one that a cell runs gets the default context. A cell's code writes
      to the shell's namespace, and the statement it is in to the one it began with. */
  predicate Possible(m: Model, e: Event) {
    match e
    case Create(_) => m.stack == []
    case Start(id) => m.stack == [] || (m.InBook() && Resolve(id) == m.Top().id)
    case Run(id, _) => m.InCell() && id in m.spaces && (id == m.active || id == m.Top().id)
    case End(_) => m.InCell()
    case Open(id) => m.stack == [] || (m.InCell() && id == "")
    case Write(_) => m.InBook() && m.active in m.spaces
    case Close => m.InBook()
    case Tick(gen) => gen in m.dogs
    case _ => true
  }

  predicate Blank(id: string) {
    forall c <- id :: IsSpace(c)
  }

  /** `_resolve_context`: no name means the default context. */
  function Resolve(id: string): string {
    if id == "" then DEFAULT else id
  }

  function InterruptStep(m: Model, only: Option<string>): (Model, Outcome) {
    if m.owner == None || (only.Some? && only != m.owner) then (m, Idle)
    else
      (m.(requested := true, dogs := m.dogs + {m.gen}, accepted := m.accepted + {m.gen},
          cancels := m.cancels + [Cancel(m.gen, m.gen)]), Interrupting)
  }

  function DropStep(m: Model, id: string, force: bool): (Model, Outcome) {
    if id == DEFAULT then (m, IsDefault)
    else if Resolve(id) !in m.spaces then (m, Unknown)
    else if m.owner == Some(id) then
      if !force then (m, Busy)
      else (InterruptStep(m.(dropping := m.dropping + {id}), Some(id)).0, Scheduled)
    else if id !in m.spaces then (m, KeyError)
    else
      (m.(spaces := m.spaces - {id}, dropping := m.dropping - {id},
          active := if m.active == id then DEFAULT else m.active), Dropped)
  }

  function EndStep(m: Model, exc: Exc): Model
    requires m.InCell()
  {
    var m1 := m.(owner := None, stack := m.Pop());
    var m2 := if m.active in m.dropping then DropStep(m1, m.active, false).0 else m1;
    var interrupted := exc != NoExc && (exc == Keyboard || m.requested);
    m2.(reports := m2.reports + [Report(m.Top().gen, m.gen, exc, interrupted)])
  }

  function CreateStep(m: Model, id: string): (Model, Outcome) {
    if Blank(id) then (m, BadId)
    else if id in m.spaces then (m, AlreadyExists)
    else (m.(spaces := m.spaces[id := SEED]), Done)
  }

  function StartStep(m: Model, id: string): (Model, Outcome) {
    if Resolve(id) !in m.spaces then (m, Unknown)
    else
      (m.(active := Resolve(id), owner := Some(Resolve(id)), requested := false, gen := m.gen + 1,
          stack := m.stack + [Cell(Resolve(id), m.gen + 1)]), Done)
  }

  function RunStep(m: Model, id: string, vars: Vars): Model {
    m.(spaces := m.spaces[id := vars])
  }

  function OpenStep(m: Model, id: string): (Model, Outcome) {
    if Resolve(id) !in m.spaces then (m, Unknown)
    else (m.(active := Resolve(id), stack := m.stack + [Book(Resolve(id))]), Done)
  }

  function WriteStep(m: Model, params: Vars): Model
    requires m.active in m.spaces
  {
    m.(spaces := m.spaces[m.active := m.spaces[m.active] + params])
  }

  function TickStep(m: Model, gen: nat): Model {
    if m.owner.Some? && m.gen == gen then m.(cancels := m.cancels + [Cancel(gen, m.gen)])
    else m.(dogs := m.dogs - {gen})
  }

  function Step(m: Model, e: Event): (Model, Outcome)
    requires Possible(m, e)
  {
    match e
    case Create(id) => CreateStep(m, id)
    case Start(id) => StartStep(m, id)
    case Run(id, vars) => (RunStep(m, id, vars), Done)
    case End(exc) => (EndStep(m, exc), Done)
    case Open(id) => OpenStep(m, id)
    case Write(params) => (WriteStep(m, params), Done)
    case Close => (m.(stack := m.Pop()), Done)
    case Drop(id, force) => DropStep(m, id, force)
    case Interrupt(only) => InterruptStep(m, only)
    case Tick(gen) => (TickStep(m, gen), Done)
  }

  // ---- what the requests answer ----

  /** An interrupt is accepted exactly while a cell is marked as running and, if it names a context,
      that is the cell's. */
  lemma InterruptIff(m: Model, only: Option<string>)
    ensures var (m', r) := InterruptStep(m, only);
            if m.owner.Some? && (only.Some? ==> only.value == m.owner.value)
            then r == Interrupting && m'.requested && m.gen in m'.accepted && m.gen in m'.dogs
            else r == Idle && m' == m
  {
  }

  lemma DropAnswers(m: Model, id: string, force: bool)
    requires "default" in m.spaces && id != ""
    ensures var (m', r) := DropStep(m, id, force);
            && (r == IsDefault <==> id == "default")
            && (r == Unknown <==> id !in m.spaces)
            && (r == Busy <==> id in m.spaces && id != "default" && m.owner == Some(id) && !force)
            && (r == Scheduled <==> id in m.spaces && id != "default" && m.owner == Some(id) && force)
            && (r == Dropped <==> id in m.spaces && id != "default" && m.owner != Some(id))
            && m'.spaces.Keys == m.spaces.Keys - (if r == Dropped then {id} else {})
            && (r == Scheduled ==> id in m'.dropping && m'.requested)
            && (r in {IsDefault, Unknown, Busy} ==> m' == m)
  {
  }

  /** A new context starts with these names. */
  lemma CreateAnswers(m: Model, id: string)
    ensures var (m', r) := CreateStep(m, id);
            && (r == BadId <==> forall c <- id :: IsSpace(c))
            && (r == AlreadyExists <==> id in m.spaces && exists c <- id :: !IsSpace(c))
            && (r == Done <==> id !in m.spaces && exists c <- id :: !IsSpace(c))
            && (r == Done ==> m' == m.(spaces := m'.spaces)) && (r != Done ==> m' == m)
            && (r == Done ==> && m'.spaces - {id} == m.spaces && id in m'.spaces
                              && m'.spaces[id].Keys == {"spark", "sc", "F", "T", "Window", "display", "notebookutils",
                                                        "mssparkutils"})
  {
  }

  /** No name means the default context; one that is not registered is refused. */
  lemma StartAnswers(m: Model, id: string)
    ensures var name := if id == "" then "default" else id;
            && (StartStep(m, id).1 == Done <==> name in m.spaces) && (OpenStep(m, id).1 == Done <==> name in m.spaces)
            && (name in m.spaces ==> && StartStep(m, id).0.active == OpenStep(m, id).0.active == name
                                     && StartStep(m, id).0.owner == Some(name) && !StartStep(m, id).0.requested
                                     && StartStep(m, id).0.gen == m.gen + 1)
            && (name !in m.spaces ==> StartStep(m, id) == OpenStep(m, id) == (m, Unknown))
  {
  }

  /** A watchdog cancels while its cell runs, and is gone at its first turn after that. */
  lemma TickAnswers(m: Model, gen: nat)
    ensures if m.owner.Some? && m.gen == gen
            then TickStep(m, gen) == m.(cancels := m.cancels + [Cancel(gen, gen)])
            else TickStep(m, gen) == m.(dogs := m.dogs - {gen})
  {
  }

  // ---- the engine as it is built ----

  /** A module's __dict__. */
  class Namespace {
    ghost const owner: string    // the context it was made for
    var vars: Vars

    constructor (ghost owner: string)
      ensures vars == SEED && this.owner == owner
    {
      this.owner := owner;
      vars := SEED;
    }
  }

  class Context {
    const id: string
    const ns: Namespace
    var pendingDrop: bool

    constructor (id: string, ns: Namespace)
      ensures this.id == id && this.ns == ns && !pendingDrop
    {
      this.id, this.ns, pendingDrop := id, ns, false;
    }
  }

  ghost function VarsOf(contexts: map<string, Context>): map<string, Vars>
    reads set c <- contexts.Values :: c.ns
  {
    map i | i in contexts :: contexts[i].ns.vars
  }

  ghost function Dropping(contexts: map<string, Context>): set<string>
    reads contexts.Values
  {
    set i | i in contexts && contexts[i].pendingDrop
  }

  class Engine {
    var contexts: map<string, Context>
    var active: Context
    var shellNs: Namespace           // what IPython runs cells in
    var cellRunning: bool
    var cellContext: Option<string>
    var cellGen: nat
    var interruptRequested: bool
    var watchdogs: set<nat>
    ghost var stack: seq<Frame>      // the call stack of the data socket's thread
    ghost var accepted: set<nat>
    ghost var reports: seq<Report>
    ghost var cancels: seq<Cancel>

    ghost predicate Valid()
      reads this, contexts.Values
    {
      && DEFAULT in contexts
      && (forall i <- contexts :: contexts[i].id == i && contexts[i].ns.owner == i)
      && active.id in contexts && contexts[active.id] == active
      && shellNs == active.ns
      && (cellRunning <==> cellContext.Some?)
      && (cellRunning ==> cellContext.value in contexts)
    }

    ghost function Spaces(): set<object>
      reads this
    {
      set c <- contexts.Values :: c.ns
    }

    ghost function State(): Model
      reads this, contexts.Values, Spaces()
    {
      Model(VarsOf(contexts), active.id, Dropping(contexts),
            cellContext, stack, cellGen, interruptRequested, watchdogs, accepted, reports, cancels)
    }

    constructor ()
      ensures Valid() && fresh(contexts.Values) && fresh(Spaces())
      ensures State() == Init()
    {
      var ns := new Namespace(DEFAULT);
      var ctx := new Context(DEFAULT, ns);
      contexts := map[DEFAULT := ctx];
      active, shellNs := ctx, ns;
      cellRunning, cellContext, cellGen, interruptRequested := false, None, 0, false;
      watchdogs, stack, accepted, reports, cancels := {}, [], {}, [], [];
    }

    /** `_activate`: swap a context's namespace into the shell. */
    method Activate(ctx: Context)
      requires Valid() && ctx.id in contexts && contexts[ctx.id] == ctx
      modifies this`active, this`shellNs
      ensures Valid() && State() == old(State()).(active := ctx.id)
    {
      if active != ctx {
        shellNs := ctx.ns;
        active := ctx;
      }
    }

    method CreateContext(id: string) returns (r: Outcome)
      requires Valid() && stack == []
      modifies this
      ensures Valid() && (State(), r) == CreateStep(old(State()), id)
    {
      if Blank(id) {
        return BadId;
      }
      if id in contexts {
        return AlreadyExists;
      }
      var ns := new Namespace(id);
      var ctx := new Context(id, ns);
      contexts := contexts[id := ctx];
      r := Done;
      assert VarsOf(contexts) == old(VarsOf(contexts))[id := SEED];
      assert Dropping(contexts) == old(Dropping(contexts));
    }

    /** `_running.__enter__`. */
    method EnterCell()
      requires Valid()
      modifies this`interruptRequested, this`cellGen, this`cellContext, this`cellRunning, this`stack
      ensures Valid()
      ensures State() == old(State()).(owner := Some(old(active.id)), requested := false, gen := old(cellGen) + 1,
                                       stack := old(stack) + [Cell(old(active.id), old(cellGen) + 1)])
    {
      hide Resolve, Blank;
      interruptRequested := false;
      cellGen := cellGen + 1;
      cellContext := Some(active.id);
      cellRunning := true;
      stack := stack + [Cell(active.id, cellGen)];
      assert VarsOf(contexts) == old(VarsOf(contexts)) && Dropping(contexts) == old(Dropping(contexts));
    }

    /** `_exec` / `run_sql` up to and including `_running.__enter__`. */
    method StartCell(id: string) returns (r: Outcome)
      requires Valid() && Possible(State(), Start(id))
      modifies this
      ensures Valid() && (State(), r) == StartStep(old(State()), id)
    {
      var name := Resolve(id);
      if name !in contexts {
        return Unknown;
      }
      Activate(contexts[name]);
      EnterCell();
      r := Done;
    }

    /** The cell's code: it writes to the shell's namespace, or to the one it began with. */
    method RunCell(id: string, vars: Vars)
      requires Valid() && Possible(State(), Run(id, vars))
      modifies contexts[id].ns
      ensures Valid() && State() == RunStep(old(State()), id, vars)
    {
      hide Blank;
      contexts[id].ns.vars := vars;
      assert VarsOf(contexts) == old(VarsOf(contexts))[id := vars];
    }

    /** `run_notebook` up to its first cell. */
    method OpenNotebook(id: string) returns (r: Outcome)
      requires Valid() && Possible(State(), Open(id))
      modifies this
      ensures Valid() && (State(), r) == OpenStep(old(State()), id)
    {
      var name := Resolve(id);
      if name !in contexts {
        return Unknown;
      }
      Activate(contexts[name]);
      stack := stack + [Book(name)];
      r := Done;
    }

    /** `user_ns.update(params)`, before the first code cell or after the parameters cell. */
    method WriteParameters(params: Vars)
      requires Valid() && Possible(State(), Write(params))
      modifies shellNs
      ensures Valid() && State() == WriteStep(old(State()), params)
    {
      shellNs.vars := shellNs.vars + params;
    }

    ghost method CloseNotebook()
      requires Valid() && Possible(State(), Close)
      modifies this`stack
      ensures Valid() && State() == old(State()).(stack := old(State()).Pop())
    {
      stack := stack[..|stack| - 1];
    }

    method StopRunning()
      requires Valid() && State().InCell()
      modifies this`cellRunning, this`cellContext, this`stack
      ensures Valid() && State() == old(State()).(owner := None, stack := old(State()).Pop())
    {
      cellRunning := false;
      cellContext := None;
      stack := stack[..|stack| - 1];
    }

    /** `_running.__exit__` and the report `_exec` builds right after it. */
    method EndCell(exc: Exc) returns (interrupted: bool)
      requires Valid() && State().InCell()
      modifies this, contexts.Values, Spaces()
      ensures Valid() && State() == EndStep(old(State()), exc)
      ensures interrupted == State().reports[|State().reports| - 1].interrupted
    {
      hide State, VarsOf, Dropping, Resolve, InterruptStep;
      StateIs();
      ghost var cell := State().Top().gen;
      StopRunning();
      if active.pendingDrop {
        var _ := DropContext(active.id, false);
      }
      StateIs();
      interrupted := exc != NoExc && (exc == Keyboard || interruptRequested);
      Append(Report(cell, cellGen, exc, interrupted));
    }

    lemma StateIs()
      requires Valid()
      ensures var m := State();
              && m.active == active.id && m.requested == interruptRequested && m.gen == cellGen
              && m.reports == reports
              && (active.id in m.dropping <==> active.pendingDrop)
    {
    }

    ghost method Append(r: Report)
      requires Valid()
      modifies this`reports
      ensures Valid() && State() == old(State()).(reports := old(reports) + [r])
    {
      reports := reports + [r];
    }

    /** The end of `drop_context`: forget the context, fall back to the default one. */
    method Unregister(id: string)
      requires Valid() && id in contexts && id != DEFAULT && cellContext != Some(id)
      modifies this`contexts, this`active, this`shellNs, contexts[id].ns
      ensures Valid()
      ensures State() == old(State()).(spaces := old(State()).spaces - {id}, dropping := old(State()).dropping - {id},
                                       active := if old(active.id) == id then DEFAULT else old(active.id))
    {
      hide State;
      var ns := contexts[id].ns;
      Forget(id);
      Clear(ns);
    }

    method Forget(id: string)
      requires Valid() && id in contexts && id != DEFAULT && cellContext != Some(id)
      modifies this`contexts, this`active, this`shellNs
      ensures Valid() && old(contexts[id].ns) !in Spaces()
      ensures State() == old(State()).(spaces := old(State()).spaces - {id}, dropping := old(State()).dropping - {id},
                                       active := if old(active.id) == id then DEFAULT else old(active.id))
    {
      var ctx := contexts[id];
      contexts := contexts - {id};
      if active == ctx {
        active, shellNs := contexts[DEFAULT], contexts[DEFAULT].ns;
      }
      assert VarsOf(contexts) == old(VarsOf(contexts)) - {id};
      assert Dropping(contexts) == old(Dropping(contexts)) - {id};
    }

    /** `__dict__.clear()` of what belongs to no registered context. */
    method Clear(ns: Namespace)
      requires Valid() && ns !in Spaces()
      modifies ns
      ensures Valid() && State() == old(State())
    {
      ns.vars := map[];
      assert VarsOf(contexts) == old(VarsOf(contexts));
    }

    method MarkDropping(id: string)
      requires Valid() && id in contexts
      modifies contexts[id]
      ensures Valid() && State() == old(State()).(dropping := old(State()).dropping + {id})
    {
      contexts[id].pendingDrop := true;
    }

    method DropContext(id: string, force: bool) returns (r: Outcome)
      requires Valid()
      modifies this, contexts.Values, Spaces()
      ensures Valid() && (State(), r) == DropStep(old(State()), id, force)
    {
      if id == DEFAULT {
        return IsDefault;
      }
      if Resolve(id) !in contexts {
        return Unknown;
      }
      if cellRunning && cellContext == Some(id) {
        if !force {
          return Busy;
        }
        MarkDropping(id);
        var _ := InterruptCell(Some(id));
        return Scheduled;
      }
      if id !in contexts {
        return KeyError;
      }
      Unregister(id);
      r := Dropped;
    }

    method InterruptCell(only: Option<string>) returns (r: Outcome)
      requires Valid()
      modifies this`interruptRequested, this`watchdogs, this`accepted, this`cancels
      ensures Valid() && (State(), r) == InterruptStep(old(State()), only)
    {
      if !cellRunning {
        return Idle;
      }
      if only.Some? && only != cellContext {
        return Idle;
      }
      interruptRequested := true;
      accepted := accepted + {cellGen};
      cancels := cancels + [Cancel(cellGen, cellGen)];
      watchdogs := watchdogs + {cellGen};
      r := Interrupting;
    }

    /** One turn of `_cancel_until_idle(gen)`. */
    method WatchdogTick(gen: nat)
      requires Valid() && gen in watchdogs
      modifies this`watchdogs, this`cancels
      ensures Valid() && State() == TickStep(old(State()), gen)
    {
      if !(cellRunning && cellGen == gen) {
        watchdogs := watchdogs - {gen};
      } else {
        cancels := cancels + [Cancel(gen, cellGen)];
      }
    }
  }

  function Init(): Model {
    Model(map[DEFAULT := SEED], DEFAULT, {}, None, [], 0, false, {}, {}, [], [])
  }

  // ---- every run ----

  ghost predicate IsRun(trace: seq<Model>, events: seq<Event>) {
    && |trace| == |events| + 1
    && trace[0] == Init()
    && forall i :: 0 <= i < |events| ==> Possible(trace[i], events[i]) && trace[i + 1] == Step(trace[i], events[i]).0
  }

  /** A notebook is run by a request or, in the default context, by a cell; a cell of a notebook
      is in the notebook's context. */
  predicate Nested(stack: seq<Frame>) {
    |stack| <= 1 ||
      var outer, inner := stack[|stack| - 2], stack[|stack| - 1];
      && Nested(stack[..|stack| - 1])
      && if inner.Book? then outer.Cell? && inner.id == DEFAULT else outer.Book? && inner.id == outer.id
  }

  /** What is active, running or being dropped is registered, and so is the default context. */
  predicate Registered(m: Model) {
    && DEFAULT in m.spaces && m.active in m.spaces && "" !in m.spaces
    && DEFAULT !in m.dropping && m.dropping <= m.spaces.Keys
    && (m.owner.Some? ==> m.owner.value in m.spaces)
  }

  predicate FramesOk(stack: seq<Frame>, active: string, gen: nat) {
    Nested(stack) && forall f <- stack :: active in {f.id, DEFAULT} && (f.Cell? ==> f.gen <= gen)
  }

  predicate StackOk(m: Model) {
    FramesOk(m.stack, m.active, m.gen)
  }

  predicate InterruptsOk(m: Model) {
    && (m.requested <==> m.gen in m.accepted)
    && (forall g <- m.accepted :: g <= m.gen)
    && (forall r <- m.reports :: r.cell <= r.gen <= m.gen && (m.owner.Some? ==> r.gen < m.gen))
    && (forall r <- m.reports :: r.interrupted <==> r.exc == Keyboard || (r.exc == OtherExc && r.gen in m.accepted))
    && (forall c <- m.cancels :: c.meant == c.running && c.meant in m.accepted)
    && m.dogs <= m.accepted
  }

  predicate Inv(m: Model) {
    Registered(m) && StackOk(m) && InterruptsOk(m)
  }

  lemma RegisteredStep(m: Model, e: Event)
    requires Registered(m) && Possible(m, e)
    ensures Registered(Step(m, e).0)
  {
  }

  /** What becomes of the stack. */
  lemma StackOf(m: Model, e: Event)
    requires Possible(m, e)
    ensures var m' := Step(m, e).0;
            && m.gen <= m'.gen
            && if e.End? || e.Close? then m'.stack == m.Pop()
               else if (e.Start? || e.Open?) && Resolve(e.id) in m.spaces then
                 var f := if e.Start? then Cell(Resolve(e.id), m.gen + 1) else Book(Resolve(e.id));
                 m'.stack == m.stack + [f] && m'.active == f.id && m'.gen == if e.Start? then m.gen + 1 else m.gen
               else m'.stack == m.stack
  {
  }

  lemma ActiveOf(m: Model, e: Event)
    requires Possible(m, e) && !((e.Start? || e.Open?) && Resolve(e.id) in m.spaces)
    ensures Step(m, e).0.active in {m.active, DEFAULT}
  {
  }

  /** Whatever a frame is put on is in its context, unless that is the default one. */
  lemma FramesPush(stack: seq<Frame>, active: string, gen0: nat, f: Frame, gen1: nat)
    requires FramesOk(stack, active, gen0) && gen0 <= gen1 && (f.Cell? ==> f.gen <= gen1)
    requires stack == [] || var outer := stack[|stack| - 1];
                            if f.Book? then outer.Cell? && f.id == DEFAULT else outer.Book? && f.id == outer.id
    ensures FramesOk(stack + [f], f.id, gen1)
  {
    var pushed := stack + [f];
    assert pushed[..|pushed| - 1] == stack;
    forall x <- pushed
      ensures f.id in {x.id, DEFAULT} && (x.Cell? ==> x.gen <= gen1)
    {
      assert x in stack || x == f;
    }
  }

  lemma FramesPop(stack: seq<Frame>, active: string, gen: nat)
    requires FramesOk(stack, active, gen) && stack != []
    ensures FramesOk(stack[..|stack| - 1], active, gen)
  {
  }

  lemma FramesReset(stack: seq<Frame>, active: string, gen0: nat, gen1: nat)
    requires FramesOk(stack, active, gen0) && gen0 <= gen1
    ensures FramesOk(stack, active, gen1) && FramesOk(stack, DEFAULT, gen1)
  {
  }

  lemma StackStep(m: Model, e: Event)
    requires Registered(m) && StackOk(m) && Possible(m, e)
    ensures StackOk(Step(m, e).0)
  {
    hide Step, Registered, FramesOk;
    StackOf(m, e);
    var m' := Step(m, e).0;
    if (e.Start? || e.Open?) && Resolve(e.id) in m.spaces {
      FramesPush(m.stack, m.active, m.gen, m'.stack[|m.stack|], m'.gen);
    } else {
      ActiveOf(m, e);
      if e.End? || e.Close? {
        FramesPop(m.stack, m.active, m.gen);
      }
      FramesReset(m'.stack, m.active, m.gen, m'.gen);
    }
  }

  lemma InterruptsStep(m: Model, e: Event)
    requires StackOk(m) && InterruptsOk(m) && Possible(m, e)
    ensures InterruptsOk(Step(m, e).0)
  {
    hide InterruptsOk, InterruptStep, DropStep, EndStep, StartStep, TickStep, FramesOk;
    match e
    case Start(id) => StartInterrupts(m, id);
    case End(exc) => EndReports(m, exc);
    case Drop(id, force) => DropInterrupts(m, id, force);
    case Interrupt(only) => InterruptInterrupts(m, only);
    case Tick(gen) => TickInterrupts(m, gen);
    case _ => SameInterrupts(m, Step(m, e).0);
  }

  lemma SameInterrupts(m: Model, m': Model)
    requires InterruptsOk(m) && m'.requested == m.requested && m'.gen == m.gen && m'.accepted == m.accepted
    requires m'.reports == m.reports && m'.cancels == m.cancels && m'.dogs == m.dogs && m'.owner == m.owner
    ensures InterruptsOk(m')
  {
  }

  lemma StartInterrupts(m: Model, id: string)
    requires InterruptsOk(m)
    ensures InterruptsOk(StartStep(m, id).0)
  {
  }

  lemma InterruptInterrupts(m: Model, only: Option<string>)
    requires InterruptsOk(m)
    ensures InterruptsOk(InterruptStep(m, only).0)
  {
  }

  lemma DropInterrupts(m: Model, id: string, force: bool)
    requires InterruptsOk(m)
    ensures InterruptsOk(DropStep(m, id, force).0)
  {
    hide InterruptsOk, InterruptStep;
    var marked := m.(dropping := m.dropping + {id});
    SameInterrupts(m, marked);
    InterruptInterrupts(marked, Some(id));
    if DropStep(m, id, force).1 == Dropped {
      SameInterrupts(m, DropStep(m, id, force).0);
    }
  }

  lemma TickInterrupts(m: Model, gen: nat)
    requires InterruptsOk(m) && gen in m.dogs
    ensures InterruptsOk(TickStep(m, gen))
  {
  }

  lemma EndReports(m: Model, exc: Exc)
    requires StackOk(m) && InterruptsOk(m) && m.InCell()
    ensures InterruptsOk(EndStep(m, exc))
  {
    assert m.Top() in m.stack;
  }

  lemma InvStep(m: Model, e: Event)
    requires Inv(m) && Possible(m, e)
    ensures Inv(Step(m, e).0)
  {
    hide Registered, StackOk, InterruptsOk, Step, Possible;
    RegisteredStep(m, e);
    StackStep(m, e);
    InterruptsStep(m, e);
  }

  lemma {:induction false} InvRun(trace: seq<Model>, events: seq<Event>, n: nat)
    requires IsRun(trace, events) && n <= |events|
    ensures Inv(trace[n])
  {
    if n == 0 {
    } else {
      InvRun(trace, events, n - 1);
      InvStep(trace[n - 1], events[n - 1]);
    }
  }

  /** Over all runs the default context stays registered and so does the active one. */
  lemma ContextsSafe(trace: seq<Model>, events: seq<Event>, n: nat)
    requires IsRun(trace, events) && n <= |events|
    ensures DEFAULT in trace[n].spaces && trace[n].active in trace[n].spaces
  {
    InvRun(trace, events, n);
  }

  /** A registered context's variables change only by the code of a cell or by the parameters of
      a notebook; and, unless it is the default context, only by a cell that began in it or by a
      notebook that was started in it. */
  lemma OnlyItsOwnCell(trace: seq<Model>, events: seq<Event>, n: nat, id: string)
    requires IsRun(trace, events) && n < |events|
    requires id in trace[n].spaces && id in trace[n + 1].spaces && trace[n].spaces[id] != trace[n + 1].spaces[id]
    ensures if events[n].Run? then trace[n].InCell() else events[n].Write? && trace[n].InBook()
    ensures trace[n].Top().id == id || (id == DEFAULT && trace[n].active == id)
  {
    hide Step, Possible, Registered, InterruptsOk;
    InvRun(trace, events, n);
    SpacesOf(trace[n], events[n], id);
    assert trace[n].Top() in trace[n].stack;
  }

  lemma SpacesOf(m: Model, e: Event, id: string)
    requires Possible(m, e) && id in m.spaces && id in Step(m, e).0.spaces && m.spaces[id] != Step(m, e).0.spaces[id]
    ensures if e.Run? then m.InCell() && id in {m.active, m.Top().id} else e.Write? && m.InBook() && id == m.active
  {
  }

  // ---- where a notebook's parameters go ----

  /** A drop of the context takes effect. */
  predicate Removes(m: Model, e: Event, id: string)
    requires Possible(m, e)
  {
    id in m.spaces && id !in Step(m, e).0.spaces
  }

  /** That is a drop while no cell of it runs, or the end of a cell while it is the active one
      and a forced drop is pending. */
  lemma RemovesIff(m: Model, e: Event, id: string)
    requires Inv(m) && Possible(m, e)
    ensures Removes(m, e, id) <==> && id in m.spaces && id != DEFAULT
                                   && ((e.Drop? && e.id == id && m.owner != Some(id))
                                       || (e.End? && m.active == id && id in m.dropping))
  {
  }

  /** A notebook, or one of its cells, begins in the context. */
  predicate Activates(m: Model, e: Event, id: string) {
    (e.Open? || e.Start?) && Resolve(e.id) == id && id in m.spaces
  }

  /** From `a`, where the notebook or a cell of it began, to n the notebook has begun no other
      cell. */
  ghost predicate SinceActivated(trace: seq<Model>, events: seq<Event>, a: nat, n: nat, id: string)
    requires IsRun(trace, events)
  {
    && a < n <= |events| && Activates(trace[a], events[a], id)
    && forall i :: a < i < n ==>
         trace[i].stack != [] && trace[i].stack[0] == Book(id) && !Activates(trace[i], events[i], id)
  }

  /** Nothing takes the context away in between: no drop of it takes effect, and the cell that
      runs then, if any, runs no notebook. */
  ghost predicate Undisturbed(trace: seq<Model>, events: seq<Event>, a: nat, n: nat, id: string)
    requires IsRun(trace, events) && n <= |events|
  {
    forall i :: a < i < n ==> !Removes(trace[i], events[i], id) && !events[i].Open?
  }

  lemma ActiveStep(m: Model, e: Event, id: string)
    requires Inv(m) && Possible(m, e) && id != DEFAULT && m.stack != [] && m.stack[0] == Book(id)
    requires !Activates(m, e, id)
    ensures var m' := Step(m, e).0;
            && (m.active == id ==> m'.active == if !Removes(m, e, id) && !e.Open? then id else DEFAULT)
            && (m.active == DEFAULT ==> m'.active == DEFAULT)
  {
  }

  lemma ActivatesIt(m: Model, e: Event, id: string)
    requires Possible(m, e) && Activates(m, e, id)
    ensures Step(m, e).0.active == id
  {
    StackOf(m, e);
  }

  lemma {:induction false} ActiveIff(trace: seq<Model>, events: seq<Event>, a: nat, n: nat, id: string)
    requires IsRun(trace, events) && SinceActivated(trace, events, a, n, id) && id != DEFAULT
    ensures trace[n].active == if Undisturbed(trace, events, a, n, id) then id else DEFAULT
    decreases n
  {
    hide Removes, Activates, Inv, Step, Possible;
    if n == a + 1 {
      ActivatesIt(trace[a], events[a], id);
    } else {
      assert SinceActivated(trace, events, a, n - 1, id);
      ActiveIff(trace, events, a, n - 1, id);
      InvRun(trace, events, n - 1);
      assert trace[n - 1].stack[0] == Book(id) && !Activates(trace[n - 1], events[n - 1], id);
      ActiveStep(trace[n - 1], events[n - 1], id);
      UndisturbedMore(trace, events, a, n, id);
    }
  }

  lemma UndisturbedMore(trace: seq<Model>, events: seq<Event>, a: nat, n: nat, id: string)
    requires IsRun(trace, events) && a + 1 < n <= |events|
    ensures Undisturbed(trace, events, a, n, id)
       <==> && Undisturbed(trace, events, a, n - 1, id)
            && !Removes(trace[n - 1], events[n - 1], id) && !events[n - 1].Open?
  {
    hide Removes, Possible, Step;
  }

  /** The parameters of a notebook go to its own context exactly when, since it or its last cell
      began, no drop of the context took effect and that cell ran no notebook itself. Otherwise
      they go to the default context. */
  lemma ParametersLandIff(trace: seq<Model>, events: seq<Event>, a: nat, n: nat, id: string)
    requires IsRun(trace, events) && n < |events| && events[n].Write? && id != DEFAULT
    requires SinceActivated(trace, events, a, n, id)
    ensures var to := if Undisturbed(trace, events, a, n, id) then id else DEFAULT;
            && to in trace[n].spaces
            && trace[n + 1].spaces == trace[n].spaces[to := trace[n].spaces[to] + events[n].params]
  {
    ActiveIff(trace, events, a, n, id);
    InvRun(trace, events, n);
  }

  /** Those of a notebook in the default context always do. */
  lemma DefaultParametersLand(trace: seq<Model>, events: seq<Event>, n: nat)
    requires IsRun(trace, events) && n < |events| && events[n].Write? && trace[n].Top().id == DEFAULT
    ensures DEFAULT in trace[n].spaces && trace[n].active == DEFAULT
    ensures trace[n + 1].spaces == trace[n].spaces[DEFAULT := trace[n].spaces[DEFAULT] + events[n].params]
  {
    InvRun(trace, events, n);
    assert trace[n].Top() in trace[n].stack;
  }

  lemma RunMore(trace: seq<Model>, events: seq<Event>, e: Event) returns (trace': seq<Model>, events': seq<Event>)
    requires IsRun(trace, events) && Possible(trace[|events|], e)
    ensures IsRun(trace', events') && events' == events + [e] && trace' == trace + [Step(trace[|events|], e).0]
  {
    hide Step, Possible;
    trace', events' := trace + [Step(trace[|events|], e).0], events + [e];
  }

  /** A notebook in context X has begun its first cell. */
  function XStarted(): Model {
    Init().(spaces := map[DEFAULT := SEED, "X" := SEED], active := "X", owner := Some("X"), gen := 1,
            stack := [Book("X"), Cell("X", 1)])
  }

  lemma StartsX() returns (trace: seq<Model>, events: seq<Event>)
    ensures IsRun(trace, events) && events == [Create("X"), Open("X"), Start("X")] && trace[3] == XStarted()
  {
    assert !Blank("X") by {
      assert "X"[0] in "X";
    }
    trace, events := [Init()], [];
    trace, events := RunMore(trace, events, Create("X"));
    trace, events := RunMore(trace, events, Open("X"));
    trace, events := RunMore(trace, events, Start("X"));
  }

  lemma WritesDefault(trace: seq<Model>, events: seq<Event>) returns (trace': seq<Model>, events': seq<Event>)
    requires IsRun(trace, events) && trace[|events|].InBook() && trace[|events|].active == DEFAULT
    requires DEFAULT in trace[|events|].spaces && trace[|events|].spaces[DEFAULT] == SEED
    ensures IsRun(trace', events') && events' == events + [Write(map["p" := 1])]
    ensures trace'[..|trace|] == trace
    ensures trace'[|trace|].spaces == trace[|events|].spaces[DEFAULT := SEED["p" := 1]]
  {
    trace', events' := RunMore(trace, events, Write(map["p" := 1]));
    assert SEED + map["p" := 1] == SEED["p" := 1];
  }

  lemma DropsX() returns (trace: seq<Model>, events: seq<Event>)
    ensures IsRun(trace, events) && events == [Create("X"), Open("X"), Start("X"), Drop("X", true)]
    ensures trace[4] == XStarted().(requested := true, dogs := {1}, accepted := {1}, cancels := [Cancel(1, 1)],
                                    dropping := {"X"})
  {
    hide CreateStep, StartStep, OpenStep, WriteStep, EndStep, TickStep, Blank;
    trace, events := StartsX();
    trace, events := RunMore(trace, events, Drop("X", true));
  }

  /** A forced drop that arrives during the parameters cell: the parameters end up in the default
      context. */
  lemma ForcedDropMisplaces() returns (trace: seq<Model>, events: seq<Event>)
    ensures IsRun(trace, events) && |events| == 6
    ensures events[3..] == [Drop("X", true), End(Keyboard), Write(map["p" := 1])]
    ensures trace[5].stack == [Book("X")]
    ensures trace[6].spaces == map[DEFAULT := SEED["p" := 1]]
  {
    hide CreateStep, StartStep, OpenStep, WriteStep, TickStep, InterruptStep, Blank;
    trace, events := DropsX();
    trace, events := RunMore(trace, events, End(Keyboard));
    assert trace[5].spaces == map[DEFAULT := SEED] && trace[5].active == DEFAULT;
    trace, events := WritesDefault(trace, events);
  }

  /** So they do when the parameters cell runs a notebook, without any drop. */
  lemma NestedRunMisplaces() returns (trace: seq<Model>, events: seq<Event>)
    ensures IsRun(trace, events) && |events| == 7
    ensures events[3..] == [Open(""), Close, End(NoExc), Write(map["p" := 1])]
    ensures trace[6].stack == [Book("X")]
    ensures trace[7].spaces == map[DEFAULT := SEED["p" := 1], "X" := SEED]
  {
    hide CreateStep, StartStep, InterruptStep, WriteStep, TickStep, DropStep, Blank;
    trace, events := StartsX();
    trace, events := RunMore(trace, events, Open(""));
    trace, events := RunMore(trace, events, Close);
    assert trace[5].stack == XStarted().stack && trace[5].active == DEFAULT && trace[5].dropping == {};
    hide OpenStep;
    trace, events := RunMore(trace, events, End(NoExc));
    assert trace[6].spaces == XStarted().spaces && trace[6].active == DEFAULT;
    trace, events := WritesDefault(trace, events);
  }

  // ---- forced drops ----

  /** From s, where a cell began in the context, to k that cell has not ended. */
  ghost predicate SameCell(trace: seq<Model>, events: seq<Event>, s: nat, k: nat, id: string)
    requires IsRun(trace, events)
  {
    && s < k <= |events| && events[s].Start? && Activates(trace[s], events[s], id)
    && forall i :: s < i <= k ==> |trace[i].stack| > |trace[s].stack|
  }

  ghost predicate RunsNotebook(events: seq<Event>, s: nat, k: nat)
    requires k <= |events|
  {
    exists i :: s < i < k && events[i].Open?
  }

  /** One step inside a cell of the context: `frames` are the stack up to that cell. */
  lemma CellStep(m: Model, e: Event, id: string, frames: seq<Frame>)
    requires Inv(m) && Possible(m, e) && id != DEFAULT && frames != [] && frames[|frames| - 1].Cell?
    requires frames <= m.stack && |Step(m, e).0.stack| >= |frames|
    ensures frames <= Step(m, e).0.stack
    ensures m.active == DEFAULT || e.Open? ==> Step(m, e).0.active == DEFAULT
    ensures m.stack == frames && m.active == id && m.owner == Some(id) && !e.Open? ==>
              Step(m, e).0.stack == frames && OwnCell(Step(m, e).0, id)
  {
    hide InterruptsOk;
    StackOf(m, e);
    if e.Start? {
      assert |m.stack| > |frames|;
    }
    if m.stack == frames && m.active == id && m.owner == Some(id) && !e.Open? {
      KeepsOwner(m, e);
    }
  }

  predicate OwnCell(m: Model, id: string) {
    m.active == id && m.owner == Some(id) && id in m.spaces
  }

  /** The running cell's context is not removed while it runs. */
  lemma KeepsOwner(m: Model, e: Event)
    requires Registered(m) && Possible(m, e) && m.owner == Some(m.active)
    requires !e.Start? && !e.Open? && !e.End?
    ensures OwnCell(Step(m, e).0, m.active)
  {
  }

  lemma {:induction false} InSameCell(trace: seq<Model>, events: seq<Event>, s: nat, k: nat, id: string)
    requires IsRun(trace, events) && SameCell(trace, events, s, k, id) && id != DEFAULT
    ensures trace[s + 1].stack <= trace[k].stack && trace[s + 1].InCell()
    ensures RunsNotebook(events, s, k) ==> trace[k].active == DEFAULT
    ensures !RunsNotebook(events, s, k) ==> trace[k].stack == trace[s + 1].stack && OwnCell(trace[k], id)
    decreases k
  {
    hide Inv, Possible, OwnCell;
    if k == s + 1 {
      BeginsCell(trace[s], events[s], id);
    } else {
      hide Step, Activates;
      assert |trace[k].stack| > |trace[s].stack|;
      assert SameCell(trace, events, s, k - 1, id);
      InSameCell(trace, events, s, k - 1, id);
      InvRun(trace, events, k - 1);
      StackOf(trace[s], events[s]);
      CellStep(trace[k - 1], events[k - 1], id, trace[s + 1].stack);
      OwnCellIs(trace[k - 1], id);
      MoreRun(events, s, k);
    }
  }

  lemma MoreRun(events: seq<Event>, s: nat, k: nat)
    requires s + 1 < k <= |events|
    ensures RunsNotebook(events, s, k) <==> RunsNotebook(events, s, k - 1) || events[k - 1].Open?
  {
  }

  lemma OwnCellIs(m: Model, id: string)
    ensures OwnCell(m, id) ==> m.active == id && m.owner == Some(id)
  {
  }

  lemma BeginsCell(m: Model, e: Event, id: string)
    requires Possible(m, e) && e.Start? && Activates(m, e, id)
    ensures OwnCell(Step(m, e).0, id) && Step(m, e).0.InCell() && |Step(m, e).0.stack| == |m.stack| + 1
  {
  }

  lemma PendingStep(m: Model, e: Event, id: string)
    requires Registered(m) && Possible(m, e) && m.stack != []
    requires id in m.spaces ==> id in m.dropping
    ensures id in Step(m, e).0.spaces ==> id in Step(m, e).0.dropping
  {
  }

  lemma {:induction false} DropPending(trace: seq<Model>, events: seq<Event>, s: nat, n: nat, k: nat, id: string)
    requires IsRun(trace, events) && SameCell(trace, events, s, k, id) && s < n <= k && id != DEFAULT
    requires id in trace[n].dropping
    ensures id in trace[k].spaces ==> id in trace[k].dropping
    decreases k
  {
    hide Step, Possible, Activates, StackOk, InterruptsOk, Registered;
    if n == k {
    } else {
      assert |trace[k - 1].stack| > |trace[s].stack|;
      DropPending(trace, events, s, n, k - 1, id);
      InvRun(trace, events, k - 1);
      PendingStep(trace[k - 1], events[k - 1], id);
    }
  }

  /** A forced drop accepted while the context's cell runs. If the cell runs no notebook, the
      context stays until the cell ends, and that end removes exactly it and leaves the default
      one active. If it does, the end of the cell drops nothing: the drop stays pending. */
  lemma ForcedDropAtCellEnd(trace: seq<Model>, events: seq<Event>, s: nat, n: nat, k: nat, id: string)
    requires IsRun(trace, events) && SameCell(trace, events, s, k, id) && s < n < k < |events|
    requires events[n] == Drop(id, true) && Step(trace[n], events[n]).1 == Scheduled
    requires events[k].End? && |trace[k].stack| == |trace[s].stack| + 1
    ensures !RunsNotebook(events, s, k) ==>
              && id in trace[k].spaces && trace[k + 1].spaces == trace[k].spaces - {id}
              && trace[k + 1].active == DEFAULT && trace[k + 1].owner == None
    ensures RunsNotebook(events, s, k) ==>
              && trace[k + 1].spaces == trace[k].spaces
              && (id in trace[k].spaces ==> id in trace[k + 1].dropping)
  {
    InvRun(trace, events, n);
    InvRun(trace, events, k);
    InSameCell(trace, events, s, k, id);
    DropPending(trace, events, s, n + 1, k, id);
  }

  /** The generation only grows, by one at each cell. */
  lemma {:induction false} GenerationGrows(trace: seq<Model>, events: seq<Event>, n: nat, k: nat)
    requires IsRun(trace, events) && n <= k <= |events|
    ensures trace[n].gen <= trace[k].gen
    ensures trace[n].gen == trace[k].gen ==> trace[n].accepted <= trace[k].accepted
    decreases k
  {
    hide Step, Possible;
    if n >= k {
    } else {
      GenerationGrows(trace, events, n, k - 1);
      GenerationStep(trace[k - 1], events[k - 1]);
    }
  }

  lemma GenerationStep(m: Model, e: Event)
    requires Possible(m, e)
    ensures m.gen <= Step(m, e).0.gen
    ensures m.gen == Step(m, e).0.gen ==> m.accepted <= Step(m, e).0.accepted
  {
  }

  /** A cell is reported interrupted exactly when it ended with a KeyboardInterrupt, or with another
      exception and an interrupt was accepted while it, or the last cell that began inside it, was
      the running one; and a watchdog cancels jobs only of the cell it was started for. */
  lemma InterruptBelongsToItsCell(trace: seq<Model>, events: seq<Event>, n: nat)
    requires IsRun(trace, events) && n <= |events|
    ensures forall r <- trace[n].reports :: r.cell <= r.gen &&
              (r.interrupted <==> r.exc == Keyboard || (r.exc == OtherExc && AcceptedDuring(trace, events, n, r.gen)))
    ensures forall c <- trace[n].cancels :: c.meant == c.running
  {
    InvRun(trace, events, n);
    forall r <- trace[n].reports
      ensures r.gen in trace[n].accepted <==> AcceptedDuring(trace, events, n, r.gen)
    {
      if r.gen in trace[n].accepted {
        AcceptedSomewhere(trace, events, n, r.gen);
      } else if AcceptedDuring(trace, events, n, r.gen) {
        var i :| && 0 <= i < n && (events[i].Interrupt? || events[i].Drop?) && trace[i].owner.Some?
                 && trace[i].gen == r.gen && r.gen in trace[i + 1].accepted;
        AcceptedGrows(trace, events, i + 1, n);
      }
    }
  }

  lemma {:induction false} AcceptedGrows(trace: seq<Model>, events: seq<Event>, n: nat, k: nat)
    requires IsRun(trace, events) && n <= k <= |events|
    ensures trace[n].accepted <= trace[k].accepted
    decreases k
  {
    hide Step, Possible;
    if n == k {
    } else {
      AcceptedGrows(trace, events, n, k - 1);
      AcceptedStep(trace[k - 1], events[k - 1]);
    }
  }

  lemma AcceptedStep(m: Model, e: Event)
    requires Possible(m, e)
    ensures m.accepted <= Step(m, e).0.accepted
  {
  }

  /** Some step before n accepted an interrupt while cell g was running. */
  ghost predicate AcceptedDuring(trace: seq<Model>, events: seq<Event>, n: nat, g: nat)
    requires IsRun(trace, events) && n <= |events|
  {
    exists i :: 0 <= i < n && (events[i].Interrupt? || events[i].Drop?) && trace[i].owner.Some? && trace[i].gen == g
                && g in trace[i + 1].accepted
  }

  lemma AcceptedNow(m: Model, e: Event, g: nat)
    requires Possible(m, e) && g !in m.accepted && g in Step(m, e).0.accepted
    ensures (e.Interrupt? || e.Drop?) && m.owner.Some? && m.gen == g
  {
  }

  lemma {:induction false} AcceptedSomewhere(trace: seq<Model>, events: seq<Event>, n: nat, g: nat)
    requires IsRun(trace, events) && n <= |events| && g in trace[n].accepted
    ensures AcceptedDuring(trace, events, n, g)
  {
    if n == 0 {
    } else {
      if g in trace[n - 1].accepted {
        AcceptedSomewhere(trace, events, n - 1, g);
      } else {
        AcceptedNow(trace[n - 1], events[n - 1], g);
        assert trace[n - 1].owner.Some? && trace[n - 1].gen == g && g in trace[n - 1 + 1].accepted;
      }
    }
  }
}
