/** Length-prefixed frames and raw blobs over a byte stream (protocol.py). A frame is
    a 4-byte big-endian length and that many bytes of JSON; a reply whose object has a
    "binary" key is followed by blobs of the announced sizes. JSON itself is a pair of
    functions that invert each other. */
module Framing {
  import opened Text

  newtype Byte = x: int | 0 <= x < 256

  /** A JSON object: its "binary" key, and everything else. */
  datatype Message = Message(body: string, binary: Option<seq<nat>>)

  datatype Codec = Codec(dumps: Message -> seq<Byte>, loads: seq<Byte> -> Option<Message>) {
    ghost predicate Lawful() {
      forall m :: loads(dumps(m)) == Some(m)
    }
  }

  datatype Reply = Reply(msg: Message, blobs: seq<seq<Byte>>)

  const LIMIT := 0x1_0000_0000

  // ---- what is written ----

  /** `struct.pack(">I", n)`. */
  function Pack(n: nat): seq<Byte>
    requires n < LIMIT
  {
    [(n / 0x100_0000) as Byte, (n / 0x1_0000 % 0x100) as Byte, (n / 0x100 % 0x100) as Byte, (n % 0x100) as Byte]
  }

  function Unpack(h: seq<Byte>): nat
    requires |h| == 4
  {
    ((h[0] as nat * 0x100 + h[1] as nat) * 0x100 + h[2] as nat) * 0x100 + h[3] as nat
  }

  lemma UnpackPack(n: nat)
    requires n < LIMIT
    ensures Unpack(Pack(n)) == n
  {
    assert n / 0x1_0000 == n / 0x100 / 0x100;
    assert n / 0x100_0000 == n / 0x1_0000 / 0x100;
  }

  /** The most significant byte comes first. */
  lemma PackIsBigEndian()
    ensures Pack(0x0102_0304) == [1, 2, 3, 4] && Pack(0xFFFF_FFFF) == [255, 255, 255, 255]
    ensures Unpack([1, 2, 3, 4]) == 0x0102_0304
  {
  }

  function Sizes(blobs: seq<seq<Byte>>): (r: seq<nat>)
    ensures |r| == |blobs|
  {
    seq(|blobs|, i requires 0 <= i < |blobs| => |blobs[i]|)
  }

  function Concat(blobs: seq<seq<Byte>>): seq<Byte> {
    if blobs == [] then [] else blobs[0] + Concat(blobs[1..])
  }

  /** The object `send_reply` puts in the frame: blobs are announced. */
  function Announced(r: Reply): Message {
    if r.blobs == [] then r.msg else r.msg.(binary := Some(Sizes(r.blobs)))
  }

  predicate Fits(codec: Codec, m: Message) {
    |codec.dumps(m)| < LIMIT
  }

  function Frame(codec: Codec, m: Message): seq<Byte>
    requires Fits(codec, m)
  {
    Pack(|codec.dumps(m)|) + codec.dumps(m)
  }

  function Encode(codec: Codec, r: Reply): seq<Byte>
    requires Fits(codec, Announced(r))
  {
    Frame(codec, Announced(r)) + Concat(r.blobs)
  }

  // ---- what is read ----

  /** Closed: the peer went away before the item was complete. */
  datatype Received<+T> = Got(value: T) | Closed | Malformed

  function TakeBytes(s: seq<Byte>, n: nat): (Received<seq<Byte>>, seq<Byte>) {
    if n <= |s| then (Got(s[..n]), s[n..]) else (Closed, [])
  }

  function TakeMsg(codec: Codec, s: seq<Byte>): (Received<Message>, seq<Byte>) {
    var (header, s1) := TakeBytes(s, 4);
    if !header.Got? then (Closed, s1)
    else
      var (body, s2) := TakeBytes(s1, Unpack(header.value));
      if !body.Got? then (Closed, s2)
      else match codec.loads(body.value)
        case Some(m) => (Got(m), s2)
        case None => (Malformed, s2)
  }

  function TakeBlobs(s: seq<Byte>, sizes: seq<nat>): (Received<seq<seq<Byte>>>, seq<Byte>) {
    if sizes == [] then (Got([]), s)
    else
      var (first, s1) := TakeBytes(s, sizes[0]);
      if !first.Got? then (Closed, s1)
      else
        var (others, s2) := TakeBlobs(s1, sizes[1..]);
        (if others.Got? then Got([first.value] + others.value) else Closed, s2)
  }

  function TakeReply(codec: Codec, s: seq<Byte>): (Received<Reply>, seq<Byte>) {
    var (msg, s1) := TakeMsg(codec, s);
    match msg
    case Closed => (Closed, s1)
    case Malformed => (Malformed, s1)
    case Got(m) =>
      var (blobs, s2) := TakeBlobs(s1, if m.binary.Some? then m.binary.value else []);
      (if blobs.Got? then Got(Reply(m, blobs.value)) else Closed, s2)
  }

  // ---- the socket ----

  /** One direction of a connection: what has been sent and not yet received. `recv`
      may cut the stream anywhere. */
  class Pipe {
    var bytes: seq<Byte>

    constructor ()
      ensures bytes == []
    {
      bytes := [];
    }

    method SendAll(data: seq<Byte>)
      modifies this
      ensures bytes == old(bytes) + data
    {
      bytes := bytes + data;
    }

    method Recv(n: nat) returns (chunk: seq<Byte>)
      modifies this
      ensures chunk + bytes == old(bytes) && |chunk| <= n
      ensures n > 0 && old(bytes) != [] ==> chunk != []
    {
      var k: nat :| k <= n && k <= |bytes| && (n > 0 && bytes != [] ==> k > 0);
      chunk, bytes := bytes[..k], bytes[k..];
    }

    /** `_recv_exactly`: loop until n bytes are there or the peer closes. */
    method RecvExactly(n: nat) returns (r: Received<seq<Byte>>)
      modifies this
      ensures (r, bytes) == TakeBytes(old(bytes), n)
    {
      var chunks, remaining := [], n;
      while remaining > 0
        invariant 0 <= remaining <= n && |chunks| == n - remaining
        invariant chunks + bytes == old(bytes)
      {
        var chunk := Recv(remaining);
        if chunk == [] {
          return Closed;
        }
        chunks := chunks + chunk;
        remaining := remaining - |chunk|;
      }
      r := Got(chunks);
    }

    method RecvMsg(codec: Codec) returns (r: Received<Message>)
      modifies this
      ensures (r, bytes) == TakeMsg(codec, old(bytes))
    {
      var header := RecvExactly(4);
      if !header.Got? {
        return Closed;
      }
      var body := RecvExactly(Unpack(header.value));
      if !body.Got? {
        return Closed;
      }
      match codec.loads(body.value)
      case Some(m) => r := Got(m);
      case None => r := Malformed;
    }

    /** `recv_reply`: a frame, then the blobs it announces. */
    method RecvReply(codec: Codec) returns (r: Received<Reply>)
      modifies this
      ensures (r, bytes) == TakeReply(codec, old(bytes))
    {
      var msg := RecvMsg(codec);
      if !msg.Got? {
        return if msg.Closed? then Closed else Malformed;
      }
      var sizes := if msg.value.binary.Some? then msg.value.binary.value else [];
      ghost var s1 := bytes;
      var blobs := [];
      var i := 0;
      assert sizes[0..] == sizes;
      PrependNone(TakeBlobs(bytes, sizes));
      while i < |sizes|
        invariant 0 <= i <= |sizes| && |blobs| == i
        invariant TakeBlobs(s1, sizes) == Prepend(blobs, TakeBlobs(bytes, sizes[i..]))
      {
        ghost var before := bytes;
        assert sizes[i..][0] == sizes[i] && sizes[i..][1..] == sizes[i + 1..];
        var data := RecvExactly(sizes[i]);
        if !data.Got? {
          assert TakeBlobs(before, sizes[i..]) == (Closed, bytes);
          return Closed;
        }
        PrependOne(blobs, data.value, TakeBlobs(bytes, sizes[i + 1..]));
        blobs := blobs + [data.value];
        i := i + 1;
      }
      assert sizes[|sizes|..] == [] && blobs + [] == blobs;
      r := Got(Reply(msg.value, blobs));
    }

    /** `send_reply`; false is the struct.error of an object too long for its header,
        raised before anything is sent. */
    method SendReply(codec: Codec, r: Reply) returns (ok: bool)
      modifies this
      ensures ok <==> |codec.dumps(if r.blobs == [] then r.msg else r.msg.(binary := Some(Sizes(r.blobs))))|
                      < 0x1_0000_0000
      ensures bytes == if ok then old(bytes) + Encode(codec, r) else old(bytes)
    {
      ok := Fits(codec, Announced(r));
      if ok {
        SendAll(Frame(codec, Announced(r)));
        var i := 0;
        while i < |r.blobs|
          invariant 0 <= i <= |r.blobs|
          invariant bytes + Concat(r.blobs[i..]) == old(bytes) + Encode(codec, r)
        {
          assert r.blobs[i..][0] == r.blobs[i] && r.blobs[i..][1..] == r.blobs[i + 1..];
          SendAll(r.blobs[i]);
          i := i + 1;
        }
        assert Concat(r.blobs[|r.blobs|..]) == [];
      }
    }

    /** `recv_reply` again and again until it reports the end of the stream. */
    method ReceiveAll(codec: Codec) returns (replies: seq<Reply>, end: Received<()>)
      modifies this
      ensures (replies, end) == ReadAll(codec, old(bytes))
    {
      replies := [];
      ghost var whole := ReadAll(codec, bytes);
      assert [] + whole.0 == whole.0;
      while true
        invariant whole == After(replies, ReadAll(codec, bytes))
        decreases |bytes|
      {
        ReadAllUnfold(codec, bytes, replies);
        var r := RecvReply(codec);
        if !r.Got? {
          return replies, if r.Closed? then Closed else Malformed;
        }
        replies := replies + [r.value];
      }
    }
  }

  function After(replies: seq<Reply>, t: (seq<Reply>, Received<()>)): (seq<Reply>, Received<()>) {
    (replies + t.0, t.1)
  }

  lemma ReadAllUnfold(codec: Codec, s: seq<Byte>, before: seq<Reply>)
    ensures var (r, rest) := TakeReply(codec, s);
            if r.Got? then
              |rest| < |s| && After(before, ReadAll(codec, s)) == After(before + [r.value], ReadAll(codec, rest))
            else After(before, ReadAll(codec, s)) == (before, if r.Closed? then Closed else Malformed)
  {
    TakeReplyShrinks(codec, s);
    var (r, rest) := TakeReply(codec, s);
    if r.Got? {
      assert before + ([r.value] + ReadAll(codec, rest).0) == before + [r.value] + ReadAll(codec, rest).0;
    } else {
      assert before + [] == before;
    }
  }

  function Prepend(blobs: seq<seq<Byte>>, t: (Received<seq<seq<Byte>>>, seq<Byte>))
    : (Received<seq<seq<Byte>>>, seq<Byte>)
  {
    (if t.0.Got? then Got(blobs + t.0.value) else t.0, t.1)
  }

  lemma PrependNone(t: (Received<seq<seq<Byte>>>, seq<Byte>))
    ensures Prepend([], t) == t
  {
    if t.0.Got? {
      assert [] + t.0.value == t.0.value;
    }
  }

  lemma PrependOne(blobs: seq<seq<Byte>>, b: seq<Byte>, t: (Received<seq<seq<Byte>>>, seq<Byte>))
    ensures Prepend(blobs + [b], t) == Prepend(blobs, Prepend([b], t))
  {
    if t.0.Got? {
      assert blobs + [b] + t.0.value == blobs + ([b] + t.0.value);
    }
  }

  /** Every reply takes bytes off the stream. */
  lemma TakeReplyShrinks(codec: Codec, s: seq<Byte>)
    ensures TakeReply(codec, s).0.Got? ==> |TakeReply(codec, s).1| < |s|
  {
    var (msg, s1) := TakeMsg(codec, s);
    if msg.Got? {
      TakeBlobsShrinks(s1, if msg.value.binary.Some? then msg.value.binary.value else []);
    }
  }

  lemma {:induction false} TakeBlobsShrinks(s: seq<Byte>, sizes: seq<nat>)
    ensures |TakeBlobs(s, sizes).1| <= |s|
  {
    if sizes == [] || sizes[0] > |s| {
    } else {
      TakeBlobsShrinks(s[sizes[0]..], sizes[1..]);
    }
  }

  /** The replies a stream holds, and how it ends. */
  function ReadAll(codec: Codec, s: seq<Byte>): (seq<Reply>, Received<()>)
    decreases |s|
  {
    TakeReplyShrinks(codec, s);
    var (r, rest) := TakeReply(codec, s);
    match r
    case Closed => ([], Closed)
    case Malformed => ([], Malformed)
    case Got(reply) =>
      var (others, end) := ReadAll(codec, rest);
      ([reply] + others, end)
  }

  // ---- inversion ----

  /** A reply that announces no blobs must not carry a "binary" list of its own. */
  predicate Plain(r: Reply) {
    r.blobs == [] ==> r.msg.binary.None? || r.msg.binary.value == []
  }

  function Delivered(r: Reply): Reply {
    Reply(Announced(r), r.blobs)
  }

  /** What arrives is what was sent, with the lengths of the blobs if there are any. */
  lemma DeliveredIs(r: Reply)
    ensures Delivered(r).msg.body == r.msg.body && Delivered(r).blobs == r.blobs
    ensures r.blobs == [] ==> Delivered(r) == r
    ensures r.blobs != [] ==>
              && Delivered(r).msg.binary.Some? && |Delivered(r).msg.binary.value| == |r.blobs|
              && forall i :: 0 <= i < |r.blobs| ==> Delivered(r).msg.binary.value[i] == |r.blobs[i]|
  {
  }

  lemma {:induction false} BlobsInvert(blobs: seq<seq<Byte>>, rest: seq<Byte>)
    ensures TakeBlobs(Concat(blobs) + rest, Sizes(blobs)) == (Got(blobs), rest)
  {
    if blobs == [] {
      assert Concat(blobs) + rest == rest;
    } else {
      var s := Concat(blobs) + rest;
      assert s[..|blobs[0]|] == blobs[0];
      assert s[|blobs[0]|..] == Concat(blobs[1..]) + rest;
      assert Sizes(blobs)[1..] == Sizes(blobs[1..]);
      BlobsInvert(blobs[1..], rest);
      assert [blobs[0]] + blobs[1..] == blobs;
    }
  }

  lemma FrameInverts(codec: Codec, m: Message, rest: seq<Byte>)
    requires codec.Lawful() && Fits(codec, m)
    ensures TakeMsg(codec, Frame(codec, m) + rest) == (Got(m), rest)
  {
    var data := codec.dumps(m);
    var s := Frame(codec, m) + rest;
    UnpackPack(|data|);
    assert s[..4] == Pack(|data|);
    assert s[4..] == data + rest;
    assert (data + rest)[..|data|] == data;
    assert (data + rest)[|data|..] == rest;
  }

  /** One reply comes back as it was sent, whatever follows it, exactly when it is plain. */
  lemma ReplyInvertsIff(codec: Codec, r: Reply, rest: seq<Byte>)
    requires codec.Lawful() && Fits(codec, Announced(r))
    ensures TakeReply(codec, Encode(codec, r) + rest) == (Got(Delivered(r)), rest) <==> Plain(r)
  {
    var m := Announced(r);
    var after := Concat(r.blobs) + rest;
    assert Encode(codec, r) + rest == Frame(codec, m) + after;
    FrameInverts(codec, m, after);
    if r.blobs != [] {
      BlobsInvert(r.blobs, rest);
    }
  }

  /** One that is not: a list of its own, [1], without blobs takes a byte of what follows. */
  lemma OwnListTakesMore(codec: Codec, body: string, next: Byte)
    requires codec.Lawful() && Fits(codec, Message(body, Some([1])))
    ensures var r := Reply(Message(body, Some([1])), []);
            TakeReply(codec, Encode(codec, r) + [next]) == (Got(Reply(r.msg, [[next]])), [])
  {
    var r := Reply(Message(body, Some([1])), []);
    assert Encode(codec, r) + [next] == Frame(codec, r.msg) + [next];
    FrameInverts(codec, r.msg, [next]);
    BlobsInvert([[next]], []);
    assert Concat([[next]]) + [] == [next] && Sizes([[next]]) == [1];
  }

  ghost predicate Sendable(codec: Codec, r: Reply) {
    Fits(codec, Announced(r)) && Plain(r)
  }

  ghost predicate AllSendable(codec: Codec, replies: seq<Reply>) {
    forall i :: 0 <= i < |replies| ==> Sendable(codec, replies[i])
  }

  ghost function Wire(codec: Codec, replies: seq<Reply>): seq<Byte>
    requires AllSendable(codec, replies)
  {
    if replies == [] then [] else Encode(codec, replies[0]) + Wire(codec, replies[1..])
  }

  function DeliveredAll(replies: seq<Reply>): (r: seq<Reply>)
    ensures |r| == |replies|
    ensures forall i :: 0 <= i < |r| ==> r[i] == Delivered(replies[i])
  {
    seq(|replies|, i requires 0 <= i < |replies| => Delivered(replies[i]))
  }

  /** How many whole replies fit in the first n bytes. */
  ghost function Whole(codec: Codec, replies: seq<Reply>, n: nat): (k: nat)
    requires AllSendable(codec, replies)
    ensures k <= |replies|
    ensures |Wire(codec, replies)| <= n ==> k == |replies|
  {
    if replies == [] || |Encode(codec, replies[0])| > n then 0
    else 1 + Whole(codec, replies[1..], n - |Encode(codec, replies[0])|)
  }

  /** A strict prefix of one reply reads as the end of the stream, never as a message. */
  lemma CutReplyCloses(codec: Codec, r: Reply, n: nat)
    requires codec.Lawful() && Sendable(codec, r) && n < |Encode(codec, r)|
    ensures TakeReply(codec, Encode(codec, r)[..n]).0 == Closed
  {
    var m := Announced(r);
    var data := codec.dumps(m);
    var s := Encode(codec, r)[..n];
    UnpackPack(|data|);
    assert Encode(codec, r) == Pack(|data|) + (data + Concat(r.blobs));
    if n >= 4 {
      TakeConcat(Pack(|data|), data + Concat(r.blobs), n);
      assert s[..4] == Pack(|data|);
      assert s[4..] == (data + Concat(r.blobs))[..n - 4];
      if n - 4 >= |data| {
        var k := n - 4 - |data|;
        TakeConcat(data, Concat(r.blobs), n - 4);
        assert (data + Concat(r.blobs)[..k])[..|data|] == data;
        assert (data + Concat(r.blobs)[..k])[|data|..] == Concat(r.blobs)[..k];
        if r.blobs != [] {
          CutBlobsClose(r.blobs, k);
        }
      }
    }
  }

  lemma {:induction false} CutBlobsClose(blobs: seq<seq<Byte>>, n: nat)
    requires n < |Concat(blobs)|
    ensures TakeBlobs(Concat(blobs)[..n], Sizes(blobs)).0 == Closed
  {
    var s := Concat(blobs)[..n];
    if n < |blobs[0]| {
    } else {
      assert s[|blobs[0]|..] == Concat(blobs[1..])[..n - |blobs[0]|];
      assert Sizes(blobs)[1..] == Sizes(blobs[1..]);
      CutBlobsClose(blobs[1..], n - |blobs[0]|);
    }
  }

  lemma ReadAllStep(codec: Codec, r: Reply, others: seq<Byte>, n: nat)
    requires codec.Lawful() && Sendable(codec, r) && n <= |Encode(codec, r)| + |others|
    ensures var size := |Encode(codec, r)|;
            ReadAll(codec, (Encode(codec, r) + others)[..n]) ==
            if n < size then ([], Closed)
            else ([Delivered(r)] + ReadAll(codec, others[..n - size]).0, ReadAll(codec, others[..n - size]).1)
  {
    TakeConcat(Encode(codec, r), others, n);
    if n < |Encode(codec, r)| {
      CutReplyCloses(codec, r, n);
    } else {
      ReplyInvertsIff(codec, r, others[..n - |Encode(codec, r)|]);
    }
  }

  /** Reading the first n bytes of a stream of replies gives exactly the replies that
      are whole in them, in order, and then the end. */
  lemma {:induction false} StreamInverts(codec: Codec, replies: seq<Reply>, n: nat)
    requires codec.Lawful() && AllSendable(codec, replies) && n <= |Wire(codec, replies)|
    ensures ReadAll(codec, Wire(codec, replies)[..n]) == (DeliveredAll(replies)[..Whole(codec, replies, n)], Closed)
    decreases |replies|
  {
    if replies == [] {
    } else {
      ReadAllStep(codec, replies[0], Wire(codec, replies[1..]), n);
      if |Encode(codec, replies[0])| <= n {
        var m := n - |Encode(codec, replies[0])|;
        StreamInverts(codec, replies[1..], m);
        TakeOneMore(replies, Whole(codec, replies[1..], m));
      }
    }
  }

  /** A whole stream gives every reply back, and nothing is left over. */
  lemma WholeStreamInverts(codec: Codec, replies: seq<Reply>)
    requires codec.Lawful() && AllSendable(codec, replies)
    ensures ReadAll(codec, Wire(codec, replies)) == (DeliveredAll(replies), Closed)
  {
    StreamInverts(codec, replies, |Wire(codec, replies)|);
    TakeAll(Wire(codec, replies));
    TakeAll(DeliveredAll(replies));
  }

  lemma TakeConcat(a: seq<Byte>, b: seq<Byte>, n: nat)
    requires n <= |a| + |b|
    ensures (a + b)[..n] == if n < |a| then a[..n] else a + b[..n - |a|]
  {
  }

  lemma TakeAll<T>(s: seq<T>)
    ensures s[..|s|] == s
  {
  }

  lemma TakeOneMore(replies: seq<Reply>, k: nat)
    requires k < |replies|
    ensures DeliveredAll(replies)[..k + 1] == [Delivered(replies[0])] + DeliveredAll(replies[1..])[..k]
  {
  }
}
