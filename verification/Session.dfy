/** The request/reply session on the worker socket, frame by frame: the tees that turn
    a cell's output into event frames (engine.py `_Tee`, `_exec`), the worker's request
    loop (worker.py `run_worker`) and the parent's `_call` (worker_client.py). */
module Session {
  import opened Text

  /** A reply's `result`, error text and blobs are one opaque payload. */
  datatype Frame =
    | Event(id: nat, stream: string, text: string)
    | Terminal(id: nat, ok: bool, fatal: bool, interrupted: bool, payload: string)

  /** What the event frames of one stream say, put together. */
  function TextOf(frames: seq<Frame>, stream: string): string {
    if frames == [] then ""
    else
      var f := frames[|frames| - 1];
      TextOf(frames[..|frames| - 1], stream) + (if f.Event? && f.stream == stream then f.text else "")
  }

  predicate EventsOf(frames: seq<Frame>, id: nat) {
    forall i | 0 <= i < |frames| :: frames[i].Event? && frames[i].id == id
  }

  // ---- the worker's side ----

  /** What the worker has sent. */
  class Channel {
    var frames: seq<Frame>

    constructor ()
      ensures frames == []
    {
      frames := [];
    }

    method Send(f: Frame)
      modifies this
      ensures frames == old(frames) + [f]
    {
      frames := frames + [f];
    }
  }

  /** `_Tee`: keeps everything written and forwards it by lines or 4 KB chunks. */
  class Tee {
    const name: string
    const id: nat
    const out: Channel
    ghost const base: nat        // where this tee's frames start
    var all: string
    var pending: string

    ghost predicate Valid()
      reads this, out
    {
      && base <= |out.frames|
      && TextOf(out.frames[base..], name) + pending == all
      && '\n' !in pending && |pending| < 4096
    }

    constructor (name: string, id: nat, out: Channel)
      ensures Valid() && all == "" && pending == ""
      ensures this.name == name && this.id == id && this.out == out && base == |out.frames|
    {
      this.name, this.id, this.out, base := name, id, out, |out.frames|;
      all, pending := "", "";
    }

    /** `_emit`: what it sends is one event of its own stream. */
    method Emit()
      requires base <= |out.frames| && TextOf(out.frames[base..], name) + pending == all
      modifies this`pending, out
      ensures Valid() && pending == ""
      ensures Extends(old(out.frames), out.frames, id, name)
    {
      if pending != "" {
        var chunk := pending;
        pending := "";
        ghost var before := out.frames;
        out.Send(Event(id, name, chunk));
        assert out.frames[base..][..|out.frames[base..]| - 1] == before[base..];
      }
    }

    method Write(text: string)
      requires Valid()
      modifies this`all, this`pending, out
      ensures Valid() && all == old(all) + text
      ensures Extends(old(out.frames), out.frames, id, name)
    {
      if text == "" {
        return;
      }
      all := all + text;
      pending := pending + text;
      assert TextOf(out.frames[base..], name) + pending == all;
      if '\n' in pending || |pending| >= 4096 {
        Emit();
      }
    }

    /** `flush` and `close` only emit. */
    method Close()
      requires Valid()
      modifies this`pending, out
      ensures Valid() && pending == "" && TextOf(out.frames[base..], name) == all
      ensures Extends(old(out.frames), out.frames, id, name)
    {
      Emit();
    }
  }

  /** `after` is `before` and some events of one stream. */
  ghost predicate Extends(before: seq<Frame>, after: seq<Frame>, id: nat, stream: string) {
    && before <= after
    && forall i :: |before| <= i < |after| ==> after[i].Event? && after[i].id == id && after[i].stream == stream
  }

  lemma {:induction false} OtherStream(before: seq<Frame>, after: seq<Frame>, id: nat, stream: string, base: nat,
      other: string)
    requires Extends(before, after, id, stream) && other != stream && base <= |before|
    ensures TextOf(after[base..], other) == TextOf(before[base..], other)
    decreases |after|
  {
    if |after| > |before| {
      var shorter := after[..|after| - 1];
      assert after[base..][..|after[base..]| - 1] == shorter[base..];
      OtherStream(before, shorter, id, stream, base, other);
    } else {
      assert after == before;
    }
  }

  /** A write of the running cell to one of the two streams. */
  datatype Output = Output(toErr: bool, text: string)

  function Written(outputs: seq<Output>, toErr: bool): string {
    if outputs == [] then ""
    else
      var o := outputs[|outputs| - 1];
      Written(outputs[..|outputs| - 1], toErr) + (if o.toErr == toErr then o.text else "")
  }

  const STDOUT := "stdout"
  const STDERR := "stderr"

  /** The two tees of a cell agree on where its frames start. */
  ghost predicate Pair(outTee: Tee, errTee: Tee)
    reads outTee, errTee, outTee.out, errTee.out
  {
    && outTee.Valid() && errTee.Valid() && outTee != errTee
    && outTee.out == errTee.out && outTee.base == errTee.base && outTee.id == errTee.id
    && outTee.name == STDOUT && errTee.name == STDERR
    && EventsOf(outTee.out.frames[outTee.base..], outTee.id)
  }

  method WriteOne(o: Output, outTee: Tee, errTee: Tee)
    requires Pair(outTee, errTee)
    modifies outTee`all, outTee`pending, errTee`all, errTee`pending, outTee.out
    ensures Pair(outTee, errTee) && old(outTee.out.frames) <= outTee.out.frames
    ensures outTee.all == old(outTee.all) + if o.toErr then "" else o.text
    ensures errTee.all == old(errTee.all) + if o.toErr then o.text else ""
  {
    ghost var before := outTee.out.frames;
    if o.toErr {
      errTee.Write(o.text);
      OtherStream(before, outTee.out.frames, errTee.id, STDERR, outTee.base, STDOUT);
    } else {
      outTee.Write(o.text);
      OtherStream(before, outTee.out.frames, outTee.id, STDOUT, errTee.base, STDERR);
    }
  }

  method ClosePair(outTee: Tee, errTee: Tee)
    requires Pair(outTee, errTee)
    modifies outTee`pending, errTee`pending, outTee.out
    ensures Pair(outTee, errTee) && old(outTee.out.frames) <= outTee.out.frames
    ensures outTee.pending == "" && errTee.pending == ""
  {
    ghost var before := outTee.out.frames;
    outTee.Close();
    OtherStream(before, outTee.out.frames, outTee.id, STDOUT, errTee.base, STDERR);
    ghost var between := outTee.out.frames;
    errTee.Close();
    OtherStream(between, outTee.out.frames, errTee.id, STDERR, outTee.base, STDOUT);
  }

  /** The streaming branch of `_exec`: two tees on one channel. */
  method RunCell(outputs: seq<Output>, id: nat, out: Channel) returns (stdout: string, stderr: string)
    modifies out
    ensures stdout == Written(outputs, false) && stderr == Written(outputs, true)
    ensures old(out.frames) <= out.frames && EventsOf(out.frames[|old(out.frames)|..], id)
    ensures TextOf(out.frames[|old(out.frames)|..], STDOUT) == stdout
    ensures TextOf(out.frames[|old(out.frames)|..], STDERR) == stderr
  {
    var outTee := new Tee(STDOUT, id, out);
    var errTee := new Tee(STDERR, id, out);
    var i := 0;
    while i < |outputs|
      invariant 0 <= i <= |outputs|
      invariant Pair(outTee, errTee)
      invariant outTee.all == Written(outputs[..i], false) && errTee.all == Written(outputs[..i], true)
      invariant old(out.frames) <= out.frames
    {
      assert outputs[..i + 1][..i] == outputs[..i];
      WriteOne(outputs[i], outTee, errTee);
      i := i + 1;
    }
    assert outputs[..|outputs|] == outputs;
    ClosePair(outTee, errTee);
    stdout, stderr := outTee.all, errTee.all;
  }

  datatype Request = Request(id: nat, name: string, stream: bool)

  /** What handling a request comes to. */
  datatype Outcome =
    | Value(payload: string, fatal: bool)
    | Interrupted                             // KeyboardInterrupt outside a cell
    | InterruptedQuery(message: string)
    | Raised(message: string, fatal: bool)

  datatype Work = Work(outputs: seq<Output>, outcome: Outcome)

  function Answer(id: nat, outcome: Outcome): Frame {
    match outcome
    case Value(payload, fatal) => Terminal(id, true, fatal, false, payload)
    case Interrupted => Terminal(id, false, false, false, "KeyboardInterrupt: interrupted")
    case InterruptedQuery(message) => Terminal(id, false, false, true, message)
    case Raised(message, fatal) => Terminal(id, false, fatal, false, message)
  }

  predicate Streams(req: Request) {
    req.stream && req.name == "run_code"
  }

  const SHUTDOWN := "shutdown"

  function Expected(req: Request, work: Work): Frame {
    if req.name == SHUTDOWN then Terminal(req.id, true, false, false, "") else Answer(req.id, work.outcome)
  }

  /** The frames that serve one request. */
  datatype Segment = Segment(events: seq<Frame>, reply: Frame) {
    function Frames(): seq<Frame> {
      events + [reply]
    }
  }

  /** A request is served by its own events, then one terminal reply. */
  predicate Serves(segment: Segment, req: Request, work: Work) {
    && segment.reply == Expected(req, work)
    && EventsOf(segment.events, req.id)
    && (if Streams(req) then
          TextOf(segment.events, STDOUT) == Written(work.outputs, false)
          && TextOf(segment.events, STDERR) == Written(work.outputs, true)
        else segment.events == [])
  }

  function Flatten(segments: seq<Segment>): seq<Frame> {
    if segments == [] then [] else Flatten(segments[..|segments| - 1]) + segments[|segments| - 1].Frames()
  }

  /** How many requests the loop reads: it stops after a shutdown. */
  function Read(inbox: seq<Request>): nat {
    if inbox == [] then 0 else if inbox[0].name == SHUTDOWN then 1 else 1 + Read(inbox[1..])
  }

  lemma {:induction false} ReadStops(inbox: seq<Request>, i: nat)
    requires i < |inbox| && forall j :: 0 <= j < i ==> inbox[j].name != SHUTDOWN
    ensures inbox[i].name == SHUTDOWN ==> Read(inbox) == i + 1
    ensures inbox[i].name != SHUTDOWN && i + 1 == |inbox| ==> Read(inbox) == |inbox|
  {
    if i == 0 {
    } else {
      assert forall j :: 0 <= j < i - 1 ==> inbox[1..][j] == inbox[j + 1];
      ReadStops(inbox[1..], i - 1);
    }
  }

  /** The segments serve the first requests of the inbox, in order. */
  predicate ServesAll(segments: seq<Segment>, inbox: seq<Request>, engine: Request -> Work) {
    |segments| <= |inbox| &&
    (segments == [] ||
     var last := |segments| - 1;
     ServesAll(segments[..last], inbox, engine) && Serves(segments[last], inbox[last], engine(inbox[last])))
  }

  lemma ServesOneMore(segments: seq<Segment>, inbox: seq<Request>, engine: Request -> Work, segment: Segment)
    requires ServesAll(segments, inbox, engine) && |segments| < |inbox|
    requires Serves(segment, inbox[|segments|], engine(inbox[|segments|]))
    ensures ServesAll(segments + [segment], inbox, engine)
    ensures Flatten(segments + [segment]) == Flatten(segments) + segment.Frames()
  {
    assert (segments + [segment])[..|segments|] == segments;
  }

  lemma {:induction false} ServesAllAt(segments: seq<Segment>, inbox: seq<Request>, engine: Request -> Work, i: nat)
    requires ServesAll(segments, inbox, engine) && i < |segments|
    ensures Serves(segments[i], inbox[i], engine(inbox[i]))
  {
    var last := |segments| - 1;
    if i >= last {
    } else {
      ServesAllAt(segments[..last], inbox, engine, i);
    }
  }

  method ServeOne(req: Request, work: Work, out: Channel) returns (ghost segment: Segment)
    modifies out
    ensures out.frames == old(out.frames) + segment.Frames() && Serves(segment, req, work)
  {
    if req.name == SHUTDOWN {
      out.Send(Terminal(req.id, true, false, false, ""));
      return Segment([], Expected(req, work));
    }
    ghost var start := out.frames;
    if Streams(req) {
      var stdout, stderr := RunCell(work.outputs, req.id, out);
    }
    ghost var events := out.frames[|start|..];
    out.Send(Answer(req.id, work.outcome));
    segment := Segment(events, Expected(req, work));
  }

  /** The worker has served the first |segments| requests of the inbox. */
  ghost predicate Progress(start: seq<Frame>, frames: seq<Frame>, segments: seq<Segment>, inbox: seq<Request>,
                           engine: Request -> Work) {
    frames == start + Flatten(segments) && ServesAll(segments, inbox, engine)
  }

  method ServeNext(inbox: seq<Request>, i: nat, engine: Request -> Work, out: Channel,
                   ghost start: seq<Frame>, ghost segments: seq<Segment>) returns (ghost more: seq<Segment>)
    requires i == |segments| < |inbox| && Progress(start, out.frames, segments, inbox, engine)
    modifies out
    ensures |more| == i + 1 && Progress(start, out.frames, more, inbox, engine)
  {
    ghost var segment := ServeOne(inbox[i], engine(inbox[i]), out);
    ServesOneMore(segments, inbox, engine, segment);
    more := segments + [segment];
  }

  /** `run_worker` until shutdown or until the parent closes: one segment a request. */
  method RunWorker(inbox: seq<Request>, engine: Request -> Work, out: Channel) returns (ghost segments: seq<Segment>)
    modifies out
    ensures |segments| == Read(inbox) && Progress(old(out.frames), out.frames, segments, inbox, engine)
  {
    segments := [];
    ghost var start := out.frames;
    var i, stopped := 0, false;
    while i < |inbox| && !stopped
      invariant 0 <= i <= |inbox| && |segments| == i
      invariant Progress(start, out.frames, segments, inbox, engine)
      invariant if stopped then Read(inbox) == i else forall j :: 0 <= j < i ==> inbox[j].name != SHUTDOWN
      invariant i == |inbox| ==> Read(inbox) == i
    {
      segments := ServeNext(inbox, i, engine, out, start, segments);
      ReadStops(inbox, i);
      stopped := inbox[i].name == SHUTDOWN;
      i := i + 1;
    }
  }

  // ---- the parent's side ----

  datatype Ending = TimedOut | PeerClosed | Got(reply: Frame)

  /** The loop of `_call` over what the connection delivers. `patience` is the number of
      frames that arrive before the socket times out, None when it does not. */
  function Receive(conn: seq<Frame>, patience: Option<nat>): (Ending, seq<Frame>, seq<Frame>) {
    if patience == Some(0) then (TimedOut, [], conn)
    else if conn == [] then (PeerClosed, [], [])
    else if conn[0].Terminal? then (Got(conn[0]), [], conn[1..])
    else
      var (ending, events, rest) := Receive(conn[1..], Less(patience));
      (ending, [conn[0]] + events, rest)
  }

  datatype Result =
    | Returned(payload: string)
    | RemoteError(payload: string, fatal: bool, interrupted: bool)
    | CallTimedOut
    | ConnectionClosed
    | Mismatch(got: nat)      // the reply's id is not the request's

  /** What `_call` makes of the frame it stopped at. */
  function Judge(id: nat, ending: Ending): Result {
    match ending
    case TimedOut => CallTimedOut
    case PeerClosed => ConnectionClosed
    case Got(reply) =>
      if reply.id != id || reply.Event? then Mismatch(reply.id)
      else if !reply.ok then RemoteError(reply.payload, reply.fatal, reply.interrupted)
      else if reply.fatal then RemoteError(reply.payload, true, false)
      else Returned(reply.payload)
  }

  /** The parent's handle: its request counter, and the frames the worker has sent or
      will send before it waits for the next request. */
  class WorkerProcess {
    var id: nat
    var conn: seq<Frame>

    constructor ()
      ensures id == 0 && conn == []
    {
      id, conn := 0, [];
    }

    /** One `_call`. The worker answers requests in order, so `answer` comes behind
        whatever is still unread. `seen` is what on_event was given. */
    method Call(answer: Segment, patience: Option<nat>) returns (r: Result, seen: seq<Frame>)
      modifies this
      ensures id == old(id) + 1
      ensures var (ending, events, rest) := Receive(old(conn) + answer.Frames(), patience);
              && r == Judge(id, ending) && seen == events && conn == rest
              && (ending.TimedOut? <==> r == CallTimedOut) && (ending.PeerClosed? <==> r == ConnectionClosed)
              && (ending.Got? && ending.reply.id != id <==> r.Mismatch?)
              && (r.Mismatch? ==> r.got == ending.reply.id)
    {
      id := id + 1;
      conn := conn + answer.Frames();
      ghost var sent := conn;
      seen := [];
      var left := patience;
      var ending := PeerClosed;
      PrependNothing(Receive(conn, left));
      while true
        invariant Receive(sent, patience) == Prepend(seen, Receive(conn, left))
        invariant id == old(id) + 1
        decreases |conn|
      {
        if left == Some(0) {
          ending := TimedOut;
          break;
        }
        if conn == [] {
          ending := PeerClosed;
          break;
        }
        var f := conn[0];
        PrependOne(seen, f, Receive(conn[1..], Less(left)));
        conn := conn[1..];
        if f.Terminal? {
          ending := Got(f);
          break;
        }
        seen := seen + [f];
        left := Less(left);
      }
      assert seen + [] == seen;
      r := Judge(id, ending);
    }
  }

  function Prepend(seen: seq<Frame>, t: (Ending, seq<Frame>, seq<Frame>)): (Ending, seq<Frame>, seq<Frame>) {
    (t.0, seen + t.1, t.2)
  }

  lemma PrependNothing(t: (Ending, seq<Frame>, seq<Frame>))
    ensures Prepend([], t) == t
  {
    assert [] + t.1 == t.1;
  }

  lemma PrependOne(seen: seq<Frame>, f: Frame, t: (Ending, seq<Frame>, seq<Frame>))
    ensures Prepend(seen + [f], t) == Prepend(seen, (t.0, [f] + t.1, t.2))
  {
    assert seen + [f] + t.1 == seen + ([f] + t.1);
  }

  // ---- whole sessions ----

  /** One call of a session: how the worker serves it, and when the parent gives up. */
  datatype Exchange = Exchange(answer: Segment, patience: Option<nat>)

  datatype Report = Report(result: Result, events: seq<Frame>)

  /** What `segment` must look like to answer request `id`. */
  predicate AnswersId(segment: Segment, id: nat) {
    segment.reply.Terminal? && segment.reply.id == id && EventsOf(segment.events, id)
  }

  /** Every segment the worker's loop produces is such an answer. */
  lemma ServesAnswersId(segment: Segment, req: Request, work: Work)
    requires Serves(segment, req, work)
    ensures AnswersId(segment, req.id)
  {
  }

  /** Consecutive `_call`s on one connection. */
  function Play(conn: seq<Frame>, id: nat, xs: seq<Exchange>): (seq<Report>, seq<Frame>)
    decreases xs
  {
    if xs == [] then ([], conn)
    else
      var (ending, events, rest) := Receive(conn + xs[0].answer.Frames(), xs[0].patience);
      var (reports, left) := Play(rest, id + 1, xs[1..]);
      ([Report(Judge(id + 1, ending), events)] + reports, left)
  }

  lemma {:induction false} PlayLength(conn: seq<Frame>, id: nat, xs: seq<Exchange>)
    ensures |Play(conn, id, xs).0| == |xs|
    decreases xs
  {
    if xs == [] {
    } else {
      PlayLength(Receive(conn + xs[0].answer.Frames(), xs[0].patience).2, id + 1, xs[1..]);
    }
  }

  ghost predicate WellServed(id: nat, xs: seq<Exchange>) {
    forall k :: 0 <= k < |xs| ==> AnswersId(xs[k].answer, id + 1 + k)
  }

  lemma WellServedTail(id: nat, xs: seq<Exchange>)
    requires WellServed(id, xs) && xs != []
    ensures AnswersId(xs[0].answer, id + 1) && WellServed(id + 1, xs[1..])
  {
    assert AnswersId(xs[0].answer, id + 1 + 0);
    forall k | 0 <= k < |xs[1..]|
      ensures AnswersId(xs[1..][k].answer, id + 1 + 1 + k)
    {
      assert AnswersId(xs[k + 1].answer, id + 1 + (k + 1));
    }
  }

  function Less(patience: Option<nat>): Option<nat>
    requires patience != Some(0)
  {
    if patience.Some? then Some(patience.value - 1) else None
  }

  /** An event at the front of the connection is handed on. */
  lemma ReceiveEvent(conn: seq<Frame>, more: seq<Frame>, patience: Option<nat>)
    requires patience != Some(0) && conn != [] && conn[0].Event?
    ensures var (ending, events, rest) := Receive(conn[1..] + more, Less(patience));
            Receive(conn + more, patience) == (ending, [conn[0]] + events, rest)
  {
    assert (conn + more)[1..] == conn[1..] + more;
  }

  lemma {:induction false} ReceiveOwn(events: seq<Frame>, reply: Frame, id: nat)
    requires EventsOf(events, id) && reply.Terminal?
    ensures Receive(events + [reply], None) == (Got(reply), events, [])
  {
    if events == [] {
      assert events + [reply] == [reply] && [reply][1..] == [];
    } else {
      ReceiveEvent(events, [reply], None);
      ReceiveOwn(events[1..], reply, id);
      assert [events[0]] + events[1..] == events;
    }
  }

  /** A call whose patience is for n frames gives up after exactly n events. */
  lemma {:induction false} PatienceRunsOut(events: seq<Frame>, more: seq<Frame>)
    requires forall i :: 0 <= i < |events| ==> events[i].Event?
    ensures Receive(events + more, Some(|events|)) == (TimedOut, events, more)
  {
    if events == [] {
      assert events + more == more;
    } else {
      ReceiveEvent(events, more, Some(|events|));
      PatienceRunsOut(events[1..], more);
      assert [events[0]] + events[1..] == events;
    }
  }

  /** With no timeout, each call gets exactly its own events and its own terminal reply,
      the id check never fires, and nothing is left on the connection. */
  lemma {:induction false} SessionInStep(id: nat, xs: seq<Exchange>)
    requires WellServed(id, xs) && forall x <- xs :: x.patience == None
    ensures |Play([], id, xs).0| == |xs| && Play([], id, xs).1 == []
    ensures forall k :: 0 <= k < |xs| ==>
              var report := Play([], id, xs).0[k];
              report.events == xs[k].answer.events
              && report.result == Judge(id + 1 + k, Got(xs[k].answer.reply)) && !report.result.Mismatch?
    decreases xs
  {
    if xs == [] {
    } else {
      WellServedTail(id, xs);
      ReceiveOwn(xs[0].answer.events, xs[0].answer.reply, id + 1);
      assert [] + xs[0].answer.Frames() == xs[0].answer.Frames();
      SessionInStep(id + 1, xs[1..]);
    }
  }

  /** What `_call` sends: requests numbered one after the other. */
  predicate Numbered(inbox: seq<Request>, id: nat) {
    forall k :: 0 <= k < |inbox| ==> inbox[k].id == id + 1 + k
  }

  /** The session in which the parent waits for each of these answers. */
  function Patiently(segments: seq<Segment>): (xs: seq<Exchange>)
    ensures |xs| == |segments|
    ensures forall k :: 0 <= k < |segments| ==> xs[k] == Exchange(segments[k], None)
  {
    seq(|segments|, k requires 0 <= k < |segments| => Exchange(segments[k], None))
  }

  /** How a call ends when its request comes to this. */
  predicate EndsAs(outcome: Outcome, r: Result) {
    match outcome
    case Value(payload, false) => r == Returned(payload)
    case Value(payload, true) => r == RemoteError(payload, true, false)
    case Interrupted => r == RemoteError("KeyboardInterrupt: interrupted", false, false)
    case InterruptedQuery(message) => r == RemoteError(message, false, true)
    case Raised(message, fatal) => r == RemoteError(message, fatal, false)
  }

  /** What a call gives of what its request came to, and of what the cell wrote. */
  predicate Arrived(req: Request, work: Work, report: Report) {
    && (if req.name == "shutdown" then report.result == Returned("") else EndsAs(work.outcome, report.result))
    && if req.stream && req.name == "run_code" then
         && TextOf(report.events, "stdout") == Written(work.outputs, false)
         && TextOf(report.events, "stderr") == Written(work.outputs, true)
       else report.events == []
  }

  /** From end to end: when the worker's loop serves the parent's requests and no call times out,
      the call of each streamed cell is given events that put together are exactly what the cell
      wrote to each stream, every call gets the outcome of its own request, and nothing is left
      on the connection. */
  lemma OutputArrives(id: nat, inbox: seq<Request>, engine: Request -> Work, segments: seq<Segment>)
    requires Numbered(inbox, id) && ServesAll(segments, inbox, engine)
    ensures |Play([], id, Patiently(segments)).0| == |segments| && Play([], id, Patiently(segments)).1 == []
    ensures forall k :: 0 <= k < |segments| ==>
              Arrived(inbox[k], engine(inbox[k]), Play([], id, Patiently(segments)).0[k])
  {
    hide Judge, Expected, EndsAs, Written, TextOf, Serves, AnswersId, Play;
    var xs := Patiently(segments);
    forall k | 0 <= k < |segments|
      ensures AnswersId(xs[k].answer, id + 1 + k)
    {
      ServesAllAt(segments, inbox, engine, k);
      ServesAnswersId(segments[k], inbox[k], engine(inbox[k]));
    }
    SessionInStep(id, xs);
    forall k | 0 <= k < |segments|
      ensures Arrived(inbox[k], engine(inbox[k]), Play([], id, xs).0[k])
    {
      ServesAllAt(segments, inbox, engine, k);
      ServedArrives(segments[k], inbox[k], engine(inbox[k]));
    }
  }

  lemma ServedArrives(segment: Segment, req: Request, work: Work)
    requires Serves(segment, req, work)
    ensures Arrived(req, work, Report(Judge(req.id, Got(segment.reply)), segment.events))
  {
  }

  /** Every frame on the connection belongs to a request up to id. */
  predicate Older(conn: seq<Frame>, id: nat) {
    forall i | 0 <= i < |conn| :: conn[i].id <= id
  }

  /** A result or a remote error is the call's own: it comes from its own reply. */
  predicate Own(result: Result, id: nat, answer: Segment) {
    result.Returned? || result.RemoteError? ==> result == Judge(id, Got(answer.reply))
  }

  lemma {:induction false} ReceiveNeverForeign(conn: seq<Frame>, events: seq<Frame>, reply: Frame, id: nat,
                                               patience: Option<nat>)
    requires Older(conn, id) && AnswersId(Segment(events, reply), id + 1)
    ensures var (ending, seen, rest) := Receive(conn + (events + [reply]), patience);
            Own(Judge(id + 1, ending), id + 1, Segment(events, reply)) && Older(rest, id + 1)
    decreases |conn| + |events|
  {
    var answer := events + [reply];
    assert Older(answer, id + 1);
    if patience == Some(0) {
    } else {
      if conn == [] {
        assert conn + answer == answer;
        if events == [] {
        } else {
          ReceiveEvent(events, [reply], patience);
          assert [] + (events[1..] + [reply]) == events[1..] + [reply];
          ReceiveNeverForeign([], events[1..], reply, id, Less(patience));
        }
      } else if conn[0].Event? {
        ReceiveEvent(conn, answer, patience);
        ReceiveNeverForeign(conn[1..], events, reply, id, Less(patience));
      }
    }
  }

  /** Whatever calls time out between frames, no call reports a result or an error of
      another request. */
  lemma {:induction false} NeverForeign(conn: seq<Frame>, id: nat, xs: seq<Exchange>)
    requires Older(conn, id) && WellServed(id, xs)
    ensures |Play(conn, id, xs).0| == |xs|
    ensures forall k :: 0 <= k < |xs| ==> Own(Play(conn, id, xs).0[k].result, id + 1 + k, xs[k].answer)
    decreases xs
  {
    PlayLength(conn, id, xs);
    if xs == [] {
    } else {
      WellServedTail(id, xs);
      ReceiveNeverForeign(conn, xs[0].answer.events, xs[0].answer.reply, id, xs[0].patience);
      NeverForeign(Receive(conn + xs[0].answer.Frames(), xs[0].patience).2, id + 1, xs[1..]);
    }
  }

  /** A terminal reply nobody waits for any more is on the connection. */
  predicate Behind(conn: seq<Frame>) {
    exists i | 0 <= i < |conn| :: conn[i].Terminal?
  }

  lemma {:induction false} ReceiveBehind(conn: seq<Frame>, answer: seq<Frame>, id: nat, patience: Option<nat>)
    requires Older(conn, id) && Behind(conn) && answer != [] && answer[|answer| - 1].Terminal?
    ensures var (ending, events, rest) := Receive(conn + answer, patience);
            var r := Judge(id + 1, ending);
            (r.CallTimedOut? || r.Mismatch?) && Behind(rest)
    decreases |conn|
  {
    assert (conn + answer)[|conn + answer| - 1].Terminal?;
    if patience == Some(0) {
    } else {
      if conn[0].Event? {
        var i :| 0 <= i < |conn| && conn[i].Terminal?;
        assert conn[1..][i - 1].Terminal?;
        ReceiveEvent(conn, answer, patience);
        ReceiveBehind(conn[1..], answer, id, Less(patience));
      } else {
        var rest := (conn + answer)[1..];
        assert rest[|rest| - 1].Terminal?;
      }
    }
  }

  lemma {:induction false} BehindForever(conn: seq<Frame>, id: nat, xs: seq<Exchange>)
    requires Older(conn, id) && Behind(conn) && WellServed(id, xs)
    ensures |Play(conn, id, xs).0| == |xs|
    ensures forall k :: 0 <= k < |xs| ==>
              var r := Play(conn, id, xs).0[k].result; r.CallTimedOut? || r.Mismatch?
    decreases xs
  {
    PlayLength(conn, id, xs);
    if xs == [] {
    } else {
      WellServedTail(id, xs);
      ReceiveBehind(conn, xs[0].answer.Frames(), id, xs[0].patience);
      ReceiveNeverForeign(conn, xs[0].answer.events, xs[0].answer.reply, id, xs[0].patience);
      BehindForever(Receive(conn + xs[0].answer.Frames(), xs[0].patience).2, id + 1, xs[1..]);
    }
  }

  lemma {:induction false} TimedOutLeavesTerminal(conn: seq<Frame>, patience: Option<nat>)
    requires conn != [] && conn[|conn| - 1].Terminal? && Receive(conn, patience).0.TimedOut?
    ensures var rest := Receive(conn, patience).2; rest != [] && rest[|rest| - 1].Terminal?
  {
    if patience == Some(0) {
    } else {
      TimedOutLeavesTerminal(conn[1..], Less(patience));
    }
  }

  /** The first timeout is final: no later call on the connection returns anything. */
  lemma {:induction false} TimeoutIsFinal(conn: seq<Frame>, id: nat, xs: seq<Exchange>, k: nat, j: nat)
    requires Older(conn, id) && WellServed(id, xs) && k < j < |xs|
    requires |Play(conn, id, xs).0| == |xs| && Play(conn, id, xs).0[k].result.CallTimedOut?
    ensures var r := Play(conn, id, xs).0[j].result; r.CallTimedOut? || r.Mismatch?
    decreases xs
  {
    var rest := Receive(conn + xs[0].answer.Frames(), xs[0].patience).2;
    WellServedTail(id, xs);
    ReceiveNeverForeign(conn, xs[0].answer.events, xs[0].answer.reply, id, xs[0].patience);
    PlayLength(rest, id + 1, xs[1..]);
    if k == 0 {
      TimedOutLeavesTerminal(conn + xs[0].answer.Frames(), xs[0].patience);
      assert Behind(rest);
      BehindForever(rest, id + 1, xs[1..]);
    } else {
      TimeoutIsFinal(rest, id + 1, xs[1..], k - 1, j - 1);
    }
  }
}
