/**
 * The binary frames between gate and client: length, command, action and payload, all numbers
 * big-endian; the gate's read loop with its reused buffer; and the pooled write buffer. The
 * length counts the whole frame, its own two bytes included.
 */
module FrameCodec {
  import opened Base

  type byte = x: int | 0 <= x < 256
  type u16 = x: int | 0 <= x < 65536

  datatype Frame = Frame(cmd: u16, act: u16, body: seq<byte>)

  datatype FrameError = TooLarge | TooShort

  const HEADER_SIZE := 6
  const MAX_FRAME_SIZE := 65535

  function High(n: u16): byte { n / 256 }

  function Low(n: u16): byte { n % 256 }

  function Join(high: byte, low: byte): u16 { high * 256 + low }

  lemma JoinInverts(n: u16, h: byte, l: byte)
    ensures Join(High(n), Low(n)) == n && High(Join(h, l)) == h && Low(Join(h, l)) == l
  {
  }

  predicate Fits(f: Frame) { HEADER_SIZE + |f.body| <= MAX_FRAME_SIZE }

  /** The bytes of one frame. */
  function Wire(f: Frame): (w: seq<byte>)
    requires Fits(f)
    ensures |w| == HEADER_SIZE + |f.body|
  {
    var n: u16 := HEADER_SIZE + |f.body|;
    [High(n), Low(n), High(f.cmd), Low(f.cmd), High(f.act), Low(f.act)] + f.body
  }

  predicate AllFit(fs: seq<Frame>) { forall i :: 0 <= i < |fs| ==> Fits(fs[i]) }

  function WireAll(fs: seq<Frame>): seq<byte>
    requires AllFit(fs)
  {
    if fs == [] then [] else Wire(fs[0]) + WireAll(fs[1..])
  }

  /** Decode works on the frame without its length. */
  function Decode(buf: seq<byte>): Result<Frame, FrameError> {
    if |buf| < HEADER_SIZE - 2 then Err(TooShort)
    else Ok(Frame(Join(buf[0], buf[1]), Join(buf[2], buf[3]), buf[4..]))
  }

  lemma DecodeInvertsWire(f: Frame)
    requires Fits(f)
    ensures Decode(Wire(f)[2..]) == Ok(f)
  {
    JoinInverts(f.cmd, 0, 0);
    JoinInverts(f.act, 0, 0);
    assert Wire(f)[2..][4..] == f.body;
  }

  /** The longest payload that fits. */
  lemma PayloadLimit(f: Frame)
    ensures Fits(f) <==> |f.body| <= 65529
  {
  }

  /** On the wire the frame's whole length, its command and its action come first, in this order, each with
      its higher byte first; the payload follows. */
  lemma WireLayout(f: Frame)
    requires Fits(f)
    ensures var w := Wire(f);
            && (w[0] as int) * 256 + w[1] as int == |w| == 6 + |f.body|
            && (w[2] as int) * 256 + w[3] as int == f.cmd && (w[4] as int) * 256 + w[5] as int == f.act
            && w[6..] == f.body
  {
  }

  /* ---------- a byte stream as frames ---------- */

  /** The size announced at the front. */
  function Announced(s: seq<byte>): u16
    requires |s| >= 2
  {
    Join(s[0], s[1])
  }

  /** A complete frame of legal size is at the front. */
  predicate Complete(s: seq<byte>) {
    |s| >= 2 && HEADER_SIZE <= Announced(s) <= |s|
  }

  function FirstFrame(s: seq<byte>): (f: Frame)
    requires Complete(s)
    ensures |f.body| == Announced(s) - HEADER_SIZE && Fits(f)
  {
    Decode(s[2..Announced(s)]).value
  }

  /** The frames of a stream, and what is left when no complete frame follows. */
  function Parse(s: seq<byte>): (seq<Frame>, seq<byte>)
    decreases |s|
  {
    if !Complete(s) then ([], s)
    else
      var (fs, rest) := Parse(s[Announced(s)..]);
      ([FirstFrame(s)] + fs, rest)
  }

  lemma Split(n: u16, h: byte, l: byte)
    requires n == Join(h, l)
    ensures High(n) == h && Low(n) == l
  {
    JoinInverts(0, h, l);
  }

  /** A header determines the frame it starts. */
  lemma WireFromHeader(f: Frame, n: u16, h: seq<byte>)
    requires |h| == HEADER_SIZE && n == HEADER_SIZE + |f.body|
    requires n == Join(h[0], h[1]) && f.cmd == Join(h[2], h[3]) && f.act == Join(h[4], h[5])
    ensures Fits(f) && Wire(f) == h + f.body
  {
    Split(n, h[0], h[1]);
    Split(f.cmd, h[2], h[3]);
    Split(f.act, h[4], h[5]);
    SixBytes(h, High(n), Low(n), High(f.cmd), Low(f.cmd), High(f.act), Low(f.act));
  }

  lemma SixBytes(h: seq<byte>, a: byte, b: byte, c: byte, d: byte, e: byte, f: byte)
    requires |h| == HEADER_SIZE && h[0] == a && h[1] == b && h[2] == c && h[3] == d && h[4] == e && h[5] == f
    ensures h == [a, b, c, d, e, f]
  {
  }

  lemma FirstFrameParts(s: seq<byte>)
    requires Complete(s)
    ensures var f := FirstFrame(s);
            f.cmd == Join(s[2], s[3]) && f.act == Join(s[4], s[5]) && f.body == s[HEADER_SIZE..Announced(s)]
  {
  }

  /** The first frame is exactly the bytes it was read from. */
  lemma FirstFrameIsWire(s: seq<byte>)
    requires Complete(s)
    ensures Wire(FirstFrame(s)) == s[..Announced(s)]
  {
    FirstFrameParts(s);
    WireFromHeader(FirstFrame(s), Announced(s), s[..HEADER_SIZE]);
    assert s[..Announced(s)] == s[..HEADER_SIZE] + s[HEADER_SIZE..Announced(s)];
  }

  /** A frame followed by anything is read back first. */
  lemma WireIsFirstFrame(f: Frame, tail: seq<byte>)
    requires Fits(f)
    ensures var s := Wire(f) + tail;
            Complete(s) && Announced(s) == |Wire(f)| && FirstFrame(s) == f && s[Announced(s)..] == tail
  {
    var s := Wire(f) + tail;
    JoinInverts(HEADER_SIZE + |f.body|, 0, 0);
    assert s[2..|Wire(f)|] == Wire(f)[2..];
    DecodeInvertsWire(f);
  }

  /** Reading a sent list of frames followed by anything gives the list, then what follows. */
  lemma {:induction false} ParseInvertsWire(fs: seq<Frame>, tail: seq<byte>)
    requires AllFit(fs)
    ensures Parse(WireAll(fs) + tail) == (fs + Parse(tail).0, Parse(tail).1)
  {
    if fs == [] {
      assert WireAll(fs) + tail == tail;
      assert fs + Parse(tail).0 == Parse(tail).0;
    } else {
      var more := WireAll(fs[1..]) + tail;
      assert WireAll(fs) + tail == Wire(fs[0]) + more;
      WireIsFirstFrame(fs[0], more);
      ParseInvertsWire(fs[1..], tail);
      assert [fs[0]] + (fs[1..] + Parse(tail).0) == fs + Parse(tail).0;
    }
  }

  /** The round trip: exactly the frames, and no byte left. */
  lemma FrameStreamRoundTrip(fs: seq<Frame>)
    requires AllFit(fs)
    ensures Parse(WireAll(fs)) == (fs, [])
  {
    ParseInvertsWire(fs, []);
    assert WireAll(fs) + [] == WireAll(fs);
    assert fs + [] == fs;
  }

  /** For any stream: the frames read encode to exactly the bytes consumed. */
  lemma {:induction false} ParsedIsConsumed(s: seq<byte>)
    ensures var (fs, rest) := Parse(s); AllFit(fs) && WireAll(fs) + rest == s && !Complete(rest)
    decreases |s|
  {
    if Complete(s) {
      var tail := s[Announced(s)..];
      ParsedIsConsumed(tail);
      FirstFrameIsWire(s);
      var (fs, rest) := Parse(tail);
      var all := [FirstFrame(s)] + fs;
      assert all[1..] == fs;
      assert s == s[..Announced(s)] + tail;
    }
  }

  /** A stream splits into frames and an incomplete rest in one way only. */
  lemma FramingIsUnique(s: seq<byte>, fs: seq<Frame>, rest: seq<byte>)
    requires AllFit(fs) && WireAll(fs) + rest == s && !Complete(rest)
    ensures Parse(s) == (fs, rest)
  {
    ParseInvertsWire(fs, rest);
    assert fs + [] == fs;
  }

  /* ---------- writing into a reused buffer ---------- */

  method CopyInto(dst: array<byte>, at: nat, src: seq<byte>)
    requires at + |src| <= dst.Length
    modifies dst
    ensures dst[..] == old(dst[..at]) + src + old(dst[at + |src|..])
  {
    var i := 0;
    while i < |src|
      invariant i <= |src|
      invariant forall k :: 0 <= k < i ==> dst[at + k] == src[k]
      invariant forall k :: 0 <= k < dst.Length && !(at <= k < at + i) ==> dst[k] == old(dst[k])
    {
      dst[at + i] := src[i];
      i := i + 1;
    }
  }

  /** The first bytes of the result are the frame, whatever the reused buffer held before; a payload
      that does not fit is refused and nothing is written. */
  method EncodeInto(dst: array<byte>, f: Frame) returns (r: Result<array<byte>, FrameError>)
    modifies dst
    ensures r.Ok? <==> Fits(f)
    ensures r.Ok? ==> r.value.Length >= HEADER_SIZE + |f.body| && r.value[..HEADER_SIZE + |f.body|] == Wire(f)
    ensures r.Ok? ==> (r.value == dst || fresh(r.value))
    ensures r.Err? ==> r.error == TooLarge && dst[..] == old(dst[..])
  {
    var n := HEADER_SIZE + |f.body|;
    if n > MAX_FRAME_SIZE { return Err(TooLarge); }
    var buf := dst;
    if dst.Length < n {
      buf := new byte[n](_ => 0);
    }
    PutHeader(buf, n, f);
    CopyInto(buf, HEADER_SIZE, f.body);
    assert buf[..n] == buf[..][..n];
    return Ok(buf);
  }

  method PutHeader(buf: array<byte>, n: u16, f: Frame)
    requires buf.Length >= HEADER_SIZE
    modifies buf
    ensures buf[..HEADER_SIZE] == [High(n), Low(n), High(f.cmd), Low(f.cmd), High(f.act), Low(f.act)]
  {
    buf[0], buf[1] := High(n), Low(n);
    buf[2], buf[3] := High(f.cmd), Low(f.cmd);
    buf[4], buf[5] := High(f.act), Low(f.act);
  }

  /** One write: the network takes some bytes of the frame, all of them unless the write fails. */
  datatype Written = Written(frame: Frame, taken: nat)

  predicate Whole(w: Written) { Fits(w.frame) && w.taken >= |Wire(w.frame)| }

  /** Some bytes of the frame went out, but not all. */
  predicate Torn(w: Written) { Fits(w.frame) && 0 < w.taken < |Wire(w.frame)| }

  function Sent(w: Written): seq<byte> {
    if !Fits(w.frame) then [] else if Whole(w) then Wire(w.frame) else Wire(w.frame)[..w.taken]
  }

  /** What a sequence of writes has put on the wire. */
  function Out(ws: seq<Written>): seq<byte> {
    if ws == [] then [] else Out(ws[..|ws| - 1]) + Sent(ws[|ws| - 1])
  }

  /** The frames that were reported as written. */
  function Reported(ws: seq<Written>): (fs: seq<Frame>)
    ensures AllFit(fs)
  {
    if ws == [] then []
    else Reported(ws[..|ws| - 1]) + if Whole(ws[|ws| - 1]) then [ws[|ws| - 1].frame] else []
  }

  predicate NoneTorn(ws: seq<Written>) { forall i :: 0 <= i < |ws| ==> !Torn(ws[i]) }

  lemma {:induction false} WireAllSnoc(fs: seq<Frame>, f: Frame)
    requires AllFit(fs) && Fits(f)
    ensures AllFit(fs + [f]) && WireAll(fs + [f]) == WireAll(fs) + Wire(f)
  {
    if fs == [] {
      assert [f][1..] == [];
    } else {
      WireAllSnoc(fs[1..], f);
      assert (fs + [f])[1..] == fs[1..] + [f];
    }
  }

  /** The bytes of torn frames. */
  function Spilled(ws: seq<Written>): nat {
    if ws == [] then 0 else Spilled(ws[..|ws| - 1]) + if Torn(ws[|ws| - 1]) then |Sent(ws[|ws| - 1])| else 0
  }

  lemma {:induction false} SpilledIffTorn(ws: seq<Written>)
    ensures Spilled(ws) == 0 <==> NoneTorn(ws)
  {
    if ws != [] {
      assert forall i :: 0 <= i < |ws| - 1 ==> ws[..|ws| - 1][i] == ws[i];
      SpilledIffTorn(ws[..|ws| - 1]);
    }
  }

  /** What is on the wire beyond the reported frames. */
  lemma {:induction false} SpilledBytes(ws: seq<Written>)
    ensures |Out(ws)| == |WireAll(Reported(ws))| + Spilled(ws)
  {
    if ws != [] {
      var front, w := ws[..|ws| - 1], ws[|ws| - 1];
      SpilledBytes(front);
      if Whole(w) {
        WireAllSnoc(Reported(front), w.frame);
      } else {
        assert Reported(ws) == Reported(front);
      }
    }
  }

  lemma {:induction false} UntornIsWire(ws: seq<Written>)
    requires NoneTorn(ws)
    ensures Out(ws) == WireAll(Reported(ws))
  {
    if ws != [] {
      var front, w := ws[..|ws| - 1], ws[|ws| - 1];
      assert forall i :: 0 <= i < |front| ==> front[i] == ws[i];
      UntornIsWire(front);
      assert !Torn(w);
      if Whole(w) {
        WireAllSnoc(Reported(front), w.frame);
      } else {
        assert Sent(w) == [] && Reported(ws) == Reported(front);
      }
    }
  }

  /** Whatever frames are written whole from now on, the client reads the reported ones and then those. */
  ghost predicate InSync(ws: seq<Written>) {
    forall gs :: AllFit(gs) ==> Parse(Out(ws) + WireAll(gs)) == (Reported(ws) + gs, [])
  }

  lemma UntornIsInSync(ws: seq<Written>)
    requires NoneTorn(ws)
    ensures InSync(ws)
  {
    UntornIsWire(ws);
    forall gs | AllFit(gs) ensures Parse(Out(ws) + WireAll(gs)) == (Reported(ws) + gs, []) {
      FrameStreamRoundTrip(gs);
      ParseInvertsWire(Reported(ws), WireAll(gs));
    }
  }

  /** If the client reads exactly the reported frames, nothing else is on the wire. */
  lemma ReadAsReportedIsUntorn(ws: seq<Written>)
    requires Parse(Out(ws)) == (Reported(ws), [])
    ensures NoneTorn(ws)
  {
    ParsedIsConsumed(Out(ws));
    SpilledBytes(ws);
    SpilledIffTorn(ws);
  }

  /** The client's stream stays in step if and only if no write so far was torn. A connection that is
      left open after a torn write is therefore out of step for good. */
  lemma InSyncIffNoneTorn(ws: seq<Written>)
    ensures InSync(ws) <==> NoneTorn(ws)
  {
    if NoneTorn(ws) {
      UntornIsInSync(ws);
    } else if InSync(ws) {
      NothingMore(ws);
      ReadAsReportedIsUntorn(ws);
    }
  }

  lemma NothingMore(ws: seq<Written>)
    requires InSync(ws)
    ensures Parse(Out(ws)) == (Reported(ws), [])
  {
    assert AllFit([]) && Out(ws) + WireAll([]) == Out(ws);
    assert Reported(ws) + [] == Reported(ws);
  }

  /** The frames reported before the first torn write always arrive, whatever follows. */
  lemma FramesBeforeTearArrive(before: seq<Written>, tail: seq<byte>)
    requires NoneTorn(before)
    ensures Reported(before) <= Parse(Out(before) + tail).0
  {
    UntornIsWire(before);
    ParseInvertsWire(Reported(before), tail);
  }

  /** A connection with its pooled buffer; `out` is what has gone onto the wire. */
  class ClientConn {
    var pooled: array<byte>
    var out: seq<byte>
    ghost var writes: seq<Written>

    ghost predicate Valid() reads this { out == Out(writes) }

    constructor (pooled: array<byte>)
      ensures Valid() && this.pooled == pooled && writes == []
    {
      this.pooled := pooled;
      out, writes := [], [];
    }

    /** The network takes `taken` bytes before its deadline: a prefix of the frame goes out, and success
        means all of it. */
    method Write(f: Frame, taken: nat) returns (ok: bool)
      requires Valid()
      modifies this, pooled
      ensures Valid() && writes == old(writes) + [Written(f, taken)]
      ensures ok == Whole(Written(f, taken))
      ensures old(out) <= out && out == old(out) + Sent(Written(f, taken))
      ensures pooled == old(pooled) || fresh(pooled)
    {
      writes := writes + [Written(f, taken)];
      assert writes[..|writes| - 1] == old(writes);
      var r := EncodeInto(pooled, f);
      if r.Err? { return false; }
      var n := HEADER_SIZE + |f.body|;
      var sent := if taken < n then taken else n;
      assert r.value[..sent] == r.value[..n][..sent];
      out := out + r.value[..sent];
      pooled := r.value;
      return sent == n;
    }
  }

  /* ---------- the read loop ---------- */

  /** A frame waiting in the channel, its payload in memory of its own. */
  datatype Queued = Queued(cmd: u16, act: u16, payload: array<byte>)

  predicate Holds(q: Queued, f: Frame)
    reads q.payload
  {
    q.cmd == f.cmd && q.act == f.act && q.payload[..] == f.body
  }

  /** The payload is copied out of the reused buffer before it is queued. */
  method TakeFrame(body: array<byte>, size: nat) returns (q: Queued)
    requires HEADER_SIZE <= size <= body.Length && size <= MAX_FRAME_SIZE
    ensures fresh(q.payload) && q.payload != body
    ensures Holds(q, Frame(Join(body[2], body[3]), Join(body[4], body[5]), body[HEADER_SIZE..size]))
  {
    var payload := new byte[size - HEADER_SIZE](_ => 0);
    CopyInto(payload, 0, body[HEADER_SIZE..size]);
    return Queued(Join(body[2], body[3]), Join(body[4], body[5]), payload);
  }

  /** Read header and body into the reused buffer, which grows when it is too small; a stream that
      ends inside the body leaves the buffer half written. */
  method FillBody(body: array<byte>, input: seq<byte>) returns (b: array<byte>, whole: bool)
    requires |input| >= 2 && Announced(input) >= HEADER_SIZE
    modifies body
    ensures b == body || fresh(b)
    ensures whole == Complete(input)
    ensures whole ==> b.Length >= Announced(input) && b[..Announced(input)] == input[..Announced(input)]
  {
    var size := Announced(input);
    b := body;
    if body.Length < size {
      b := new byte[size](_ => 0);
    }
    CopyInto(b, 0, input[..2]);
    if |input| < size {
      CopyInto(b, 2, input[2..]);
      return b, false;
    }
    CopyInto(b, 2, input[2..size]);
    assert b[..size] == b[..][..size] == input[..size];
    return b, true;
  }

  /** The next frame of the stream, if it is whole, in memory of its own. */
  method NextFrame(body: array<byte>, input: seq<byte>) returns (b: array<byte>, q: Option<Queued>)
    requires |input| >= 2 && Announced(input) >= HEADER_SIZE
    modifies body
    ensures b == body || fresh(b)
    ensures q.Some? <==> Complete(input)
    ensures q.Some? ==> fresh(q.value.payload) && q.value.payload != b && Holds(q.value, FirstFrame(input))
  {
    var whole;
    b, whole := FillBody(body, input);
    if !whole { return b, None; }
    var taken := TakeFrame(b, Announced(input));
    FirstFrameParts(input);
    return b, Some(taken);
  }

  /** What the queue holds, frame by frame. */
  predicate HoldsAll(queue: seq<Queued>, fs: seq<Frame>)
    reads set q | q in queue :: q.payload
  {
    |queue| == |fs| && forall i :: 0 <= i < |queue| ==> Holds(queue[i], fs[i])
  }

  lemma ParseStep(input: seq<byte>, done: seq<Frame>, consumed: nat)
    requires consumed <= |input| && Complete(input[consumed..])
    requires Parse(input) == (done + Parse(input[consumed..]).0, Parse(input[consumed..]).1)
    ensures var rest := input[consumed..];
            var next := consumed + Announced(rest);
            next <= |input| && rest[Announced(rest)..] == input[next..]
            && Parse(input) == (done + [FirstFrame(rest)] + Parse(input[next..]).0, Parse(input[next..]).1)
  {
    var rest := input[consumed..];
    SliceOfSlice(input, consumed, Announced(rest));
    Regroup(done, FirstFrame(rest), Parse(rest[Announced(rest)..]).0);
  }

  lemma SliceOfSlice(s: seq<byte>, i: nat, n: nat)
    requires i + n <= |s|
    ensures s[i..][n..] == s[i + n..]
  {
  }

  lemma Regroup(done: seq<Frame>, f: Frame, fs: seq<Frame>)
    ensures done + ([f] + fs) == done + [f] + fs
  {
  }

  /** The gate's read loop without rate limit: over any input it queues exactly the frames of the
      stream, and reusing the buffer changes none of those already queued. */
  method ReadLoop(input: seq<byte>) returns (queue: seq<Queued>, consumed: nat)
    ensures HoldsAll(queue, Parse(input).0)
    ensures consumed <= |input| && input[consumed..] == Parse(input).1
  {
    var body := new byte[0](_ => 0);
    queue, consumed := [], 0;
    ghost var done: seq<Frame> := [];
    assert input[0..] == input && done + Parse(input).0 == Parse(input).0;
    while |input| - consumed >= 2
      invariant consumed <= |input| && fresh(body)
      invariant forall q :: q in queue ==> fresh(q.payload) && q.payload != body
      invariant HoldsAll(queue, done)
      invariant Parse(input) == (done + Parse(input[consumed..]).0, Parse(input[consumed..]).1)
      decreases |input| - consumed
    {
      var rest := input[consumed..];
      var size := Announced(rest);
      if size < HEADER_SIZE { break; }
      var q;
      body, q := NextFrame(body, rest);
      if q.None? { break; }
      ParseStep(input, done, consumed);
      queue, done := queue + [q.value], done + [FirstFrame(rest)];
      consumed := consumed + size;
    }
    assert !Complete(input[consumed..]);
    assert done + [] == done;
  }
}
