/** The byte stream from the server to a subscriber: length-prefixed frames as the server
    writes them (server.cpp:140-141, 238-239) and as the subscriber takes them apart
    (subscriber.cpp:22-64). */
module Frames {
  import opened Bytes

  /** sizeof(tcp_request_t): an 11-byte id, padding to 12, a 52-byte union and a 4-byte type. */
  const REQUEST_SIZE := 68
  const MESSAGE_OFFSET := 12
  const SHUTDOWN := 1
  const MESSAGE := 3

  ghost predicate Sendable(m: Text) {
    0 < |m| < TWO_31
  }

  ghost predicate AllSendable(ms: seq<Text>) {
    forall i | 0 <= i < |ms| :: Sendable(ms[i])
  }

  function Frame(m: Text): Text
    requires |m| < TWO_31
  {
    EncodeInt(|m|) + m
  }

  ghost function EncodeAll(ms: seq<Text>): Text
    requires AllSendable(ms)
  {
    if ms == [] then [] else Frame(ms[0]) + EncodeAll(ms[1..])
  }

  lemma {:induction false} EncodeAllAppend(ms: seq<Text>, more: seq<Text>)
    requires AllSendable(ms) && AllSendable(more)
    ensures AllSendable(ms + more)
    ensures EncodeAll(ms + more) == EncodeAll(ms) + EncodeAll(more)
    decreases |ms|
  {
    if ms == [] {
      assert ms + more == more;
    } else {
      EncodeAllAppend(ms[1..], more);
      assert (ms + more)[1..] == ms[1..] + more;
      hide Frame;
    }
  }

  // ---------------------------------------------------------------- taking one frame

  datatype Why =
    | NoMoreBytes   // the peer closed between two frames
    | CutShort      // the peer closed inside a frame
    | ShutdownSeen  // a control message said SHUTDOWN
    | BadLength     // a negative length: std::string throws
    | EmptyFrame    // length 0 reads as a closed connection

  /** What one call of handle_server_message does with the bytes that will ever arrive. */
  datatype Outcome = Data(buff: Text, rest: Text) | Stop(why: Why)

  function Clip(peek: nat): (r: nat)
    ensures 1 <= r <= 4
    ensures 1 <= peek <= 4 ==> r == peek
  {
    if peek < 1 then 1 else if peek > 4 then 4 else peek
  }

  /** The length the peek at the socket shows when it returns `peek` bytes. */
  function Peeked(stream: Text, peek: nat): int
    requires stream != []
  {
    var n := if Clip(peek) <= |stream| then Clip(peek) else |stream|;
    SignedInt(LowBytes(stream[..n]))
  }

  function TakeControl(stream: Text): Outcome {
    if |stream| < REQUEST_SIZE then Stop(CutShort)
    else if SignedInt(LowBytes(stream[MESSAGE_OFFSET..MESSAGE_OFFSET + 4])) == SHUTDOWN then Stop(ShutdownSeen)
    else Data(stream[..REQUEST_SIZE], stream[REQUEST_SIZE..])
  }

  function TakeData(stream: Text): Outcome {
    if |stream| < 4 then Stop(CutShort)
    else
      var len := SignedInt(LowBytes(stream[..4]));
      if len < 0 then Stop(BadLength)
      else if len == 0 then Stop(EmptyFrame)
      else if |stream| - 4 < len then Stop(CutShort)
      else Data(stream[4..4 + len], stream[4 + len..])
  }

  function Take(stream: Text, peek: nat): (r: Outcome)
    ensures r.Data? ==> |r.rest| < |stream| && r.buff != []
  {
    if stream == [] then Stop(NoMoreBytes)
    else if Peeked(stream, peek) == REQUEST_SIZE then TakeControl(stream)
    else TakeData(stream)
  }

  /** The number the peek shows, byte by byte: only as many as it returned, and negative from the
      middle of the range on. */
  lemma PeekedIs(stream: Text, peek: nat)
    requires |stream| >= 4 && 1 <= peek <= 4
    ensures
      var n := stream[0] as int
        + (if peek > 1 then 256 * stream[1] as int else 0)
        + (if peek > 2 then 65536 * stream[2] as int else 0)
        + (if peek > 3 then 16777216 * stream[3] as int else 0);
      Peeked(stream, peek) == if n < 2147483648 then n else n - 4294967296
  {
    var shown := stream[..peek];
    assert forall i | 0 <= i < peek :: shown[i] == stream[i];
  }

  /** Four bytes hold the number 1 in one way only. */
  lemma WordIsOne(b: Text)
    requires |b| == 4
    ensures SignedInt(LowBytes(b)) == 1 <==> b == [1, 0, 0, 0]
  {
    var b0, b1, b2, b3 := b[0] as nat, b[1] as nat, b[2] as nat, b[3] as nat;
    assert LowBytes(b) == b0 + 256 * b1 + 65536 * b2 + 16777216 * b3;
    if SignedInt(LowBytes(b)) == 1 {
      assert b3 == 0 && b2 == 0 && b1 == 0;
    }
  }

  /** One call of handle_server_message on any bytes at all. A peek that shows 68 takes 68 bytes off, and
      the word 1 at byte 12 stops the subscriber; any other takes a length and that many bytes. */
  lemma TakeIs(stream: Text, peek: nat)
    ensures Take(stream, peek) ==
      if stream == [] then Stop(NoMoreBytes)
      else if Peeked(stream, peek) == 68 then
        if |stream| < 68 then Stop(CutShort)
        else if stream[12..16] == [1, 0, 0, 0] then Stop(ShutdownSeen)
        else Data(stream[..68], stream[68..])
      else if |stream| < 4 then Stop(CutShort)
      else if stream[3] >= 128 then Stop(BadLength)
      else
        var n := stream[0] as int + 256 * stream[1] as int + 65536 * stream[2] as int + 16777216 * stream[3] as int;
        if n == 0 then Stop(EmptyFrame)
        else if |stream| < 4 + n then Stop(CutShort)
        else Data(stream[4..4 + n], stream[4 + n..])
  {
    if |stream| >= 4 {
      var head := stream[..4];
      assert head[0] == stream[0] && head[1] == stream[1] && head[2] == stream[2] && head[3] == stream[3];
    }
    if |stream| >= 68 {
      WordIsOne(stream[12..16]);
    }
  }

  /** The control branch, for every frame that a peek shows as one: it stops the subscriber if and
      only if bytes 8 to 11 of the message are those of the number 1; otherwise the message is given
      out with the four bytes of its length in front and without its end, which is left over. */
  lemma ControlIs(m: Text, tail: Text, peek: nat)
    requires Sendable(m) && Peeked(Frame(m) + tail, peek) == 68
    ensures |m| >= 68
    ensures Take(Frame(m) + tail, peek) ==
      if m[8..12] == [1, 0, 0, 0] then Stop(ShutdownSeen)
      else Data(EncodeInt(|m|) + m[..64], m[64..] + tail)
  {
    TakeFrame(m, tail, peek);
    RemainderIsLess(|m|, Clip(peek));
    var s := Frame(m) + tail;
    TakeIs(s, peek);
    assert s[12..16] == m[8..12];
    assert s[..68] == EncodeInt(|m|) + m[..64];
    assert s[68..] == m[64..] + tail;
  }

  // ---------------------------------------------------------------- taking all of them

  datatype Decoded = Decoded(buffs: seq<Text>, why: Why)

  /** How many bytes the i-th peek returns; four when nothing else is said. */
  function PeekAt(peeks: seq<nat>, i: nat): nat {
    if i < |peeks| then peeks[i] else 4
  }

  function PeeksAfter(peeks: seq<nat>, n: nat): seq<nat> {
    if n <= |peeks| then peeks[n..] else []
  }

  lemma PeeksAfterTwice(peeks: seq<nat>, n: nat)
    ensures PeeksAfter(PeeksAfter(peeks, 1), n) == PeeksAfter(peeks, n + 1)
    ensures PeekAt(PeeksAfter(peeks, 1), n) == PeekAt(peeks, n + 1)
  {
  }

  /** Everything the subscriber hands to parse_input until it stops. */
  function Decode(stream: Text, peeks: seq<nat>): Decoded
    decreases |stream|
  {
    match Take(stream, PeekAt(peeks, 0))
    case Stop(why) => Decoded([], why)
    case Data(buff, rest) =>
      var d := Decode(rest, PeeksAfter(peeks, 1));
      Decoded([buff] + d.buffs, d.why)
  }

  /** Call after call: a buffer is given out and the decoding goes on behind it, until a call stops. */
  lemma DecodeIs(stream: Text, peek: nat, peeks: seq<nat>)
    ensures
      var o := Take(stream, peek);
      Decode(stream, [peek] + peeks) ==
        if o.Stop? then Decoded([], o.why)
        else Decoded([o.buff] + Decode(o.rest, peeks).buffs, Decode(o.rest, peeks).why)
  {
    assert PeeksAfter([peek] + peeks, 1) == peeks;
  }

  /** What becomes of a frame that is mistaken: unless it happens to hold the shutdown word, a wrong
      buffer is given out, and its last bytes are read as the next frame. */
  lemma MistakenFrame(m: Text, tail: Text, peek: nat, peeks: seq<nat>)
    requires Sendable(m) && Mistaken(m, peek)
    ensures |m| >= 68
    ensures Decode(Frame(m) + tail, [peek] + peeks) ==
      if m[8..12] == [1, 0, 0, 0] then Decoded([], ShutdownSeen)
      else
        var later := Decode(m[64..] + tail, peeks);
        Decoded([EncodeInt(|m|) + m[..64]] + later.buffs, later.why)
  {
    TakeFrame(m, tail, peek);
    ControlIs(m, tail, peek);
    hide Take, Frame, Decode;
    DecodeIs(Frame(m) + tail, peek, peeks);
  }

  /** No peek at any of these frames shows the size of a control message. */
  ghost predicate Unmistaken(ms: seq<Text>, peeks: seq<nat>) {
    forall i | 0 <= i < |ms| :: !Mistaken(ms[i], PeekAt(peeks, i))
  }

  predicate Mistaken(m: Text, peek: nat) {
    |m| % Window(Clip(peek)) == REQUEST_SIZE
  }

  lemma TakeFrame(m: Text, tail: Text, peek: nat)
    requires Sendable(m)
    ensures Peeked(Frame(m) + tail, peek) == |m| % Window(Clip(peek))
    ensures !Mistaken(m, peek) ==> Take(Frame(m) + tail, peek) == Data(m, tail)
  {
    var s, w := Frame(m) + tail, Clip(peek);
    var head := EncodeInt(|m|);
    assert s[..4] == head;
    assert s[..w] == head[..w];
    PrefixOfInt(head, w);
    IntRoundTrip(|m|);
    assert s[4..4 + |m|] == m;
    assert s[4 + |m|..] == tail;
  }

  lemma UnmistakenTail(ms: seq<Text>, peeks: seq<nat>)
    requires ms != [] && Unmistaken(ms, peeks)
    ensures !Mistaken(ms[0], PeekAt(peeks, 0))
    ensures Unmistaken(ms[1..], PeeksAfter(peeks, 1))
  {
    forall i | 0 <= i < |ms[1..]| ensures !Mistaken(ms[1..][i], PeekAt(PeeksAfter(peeks, 1), i)) {
      PeeksAfterTwice(peeks, i);
      assert !Mistaken(ms[i + 1], PeekAt(peeks, i + 1));
    }
  }

  lemma HeadFirst(a: seq<Text>, b: seq<Text>)
    requires a != []
    ensures [a[0]] + (a[1..] + b) == a + b
  {
  }

  lemma DecodeFirst(m: Text, after: Text, peeks: seq<nat>, later: Decoded)
    requires Sendable(m) && !Mistaken(m, PeekAt(peeks, 0))
    requires Decode(after, PeeksAfter(peeks, 1)) == later
    ensures Decode(Frame(m) + after, peeks) == Decoded([m] + later.buffs, later.why)
  {
    TakeFrame(m, after, PeekAt(peeks, 0));
  }

  lemma EncodeFirst(ms: seq<Text>, tail: Text)
    requires AllSendable(ms) && ms != []
    ensures AllSendable(ms[1..])
    ensures EncodeAll(ms) + tail == Frame(ms[0]) + (EncodeAll(ms[1..]) + tail)
  {
    var head, rest := Frame(ms[0]), EncodeAll(ms[1..]);
    hide Frame;
    assert (head + rest) + tail == head + (rest + tail);
  }

  /** Frames that no peek mistakes are handed over one by one, whatever follows them. */
  lemma {:induction false} DecodeFrames(ms: seq<Text>, tail: Text, peeks: seq<nat>, later: Decoded)
    requires AllSendable(ms)
    requires Unmistaken(ms, peeks)
    requires later == Decode(tail, PeeksAfter(peeks, |ms|))
    ensures Decode(EncodeAll(ms) + tail, peeks) == Decoded(ms + later.buffs, later.why)
    decreases |ms|
  {
    if ms == [] {
      assert EncodeAll(ms) + tail == tail;
      assert PeeksAfter(peeks, 0) == peeks;
      assert ms + later.buffs == later.buffs;
    } else {
      var m, rest := ms[0], ms[1..];
      UnmistakenTail(ms, peeks);
      PeeksAfterTwice(peeks, |rest|);
      EncodeFirst(ms, tail);
      hide EncodeAll, Frame, Decode, Unmistaken, PeeksAfter;
      DecodeFrames(rest, tail, PeeksAfter(peeks, 1), later);
      DecodeFirst(m, EncodeAll(rest) + tail, peeks, Decoded(rest + later.buffs, later.why));
      HeadFirst(ms, later.buffs);
    }
  }

  // ---------------------------------------------------------------- conservation

  /** The bytes one delivered buffer used up when every peek returns w bytes. */
  ghost function Spent(buff: Text, w: nat): nat
    requires 1 <= w <= 4
  {
    if |buff| % Window(w) == REQUEST_SIZE then REQUEST_SIZE else 4 + |buff|
  }

  ghost function SpentAll(buffs: seq<Text>, w: nat): nat
    requires 1 <= w <= 4
  {
    if buffs == [] then 0 else Spent(buffs[0], w) + SpentAll(buffs[1..], w)
  }

  ghost predicate Steady(peeks: seq<nat>, w: nat, n: nat) {
    |peeks| >= n && forall i | 0 <= i < |peeks| :: peeks[i] == w
  }

  lemma TakeSpends(stream: Text, w: nat)
    requires 1 <= w <= 4
    requires Take(stream, w).Data?
    ensures |stream| == Spent(Take(stream, w).buff, w) + |Take(stream, w).rest|
  {
    if Peeked(stream, w) == REQUEST_SIZE {
      assert REQUEST_SIZE % Window(w) == REQUEST_SIZE;
    } else {
      var head := stream[..4];
      PrefixOfInt(head, w);
      assert stream[..w] == head[..w];
      var n := LowBytes(head);
      assert n == |Take(stream, w).buff|;
      assert n % Window(w) == LowBytes(stream[..w]);
      if w == 4 {
        assert stream[..w] == head;
      }
    }
  }

  /** Whatever the bytes mean, a stream that is read to a clean end was used up by the
      buffers it gave. */
  lemma {:induction false} CleanEndSpendsAll(stream: Text, peeks: seq<nat>, w: nat)
    requires 1 <= w <= 4
    requires Steady(peeks, w, |stream|)
    requires Decode(stream, peeks).why == NoMoreBytes
    ensures |stream| == SpentAll(Decode(stream, peeks).buffs, w)
    decreases |stream|
  {
    if stream != [] {
      TakeSpends(stream, w);
      var t := Take(stream, w);
      CleanEndSpendsAll(t.rest, peeks[1..], w);
      var d := Decode(t.rest, peeks[1..]);
      assert ([t.buff] + d.buffs)[1..] == d.buffs;
    }
  }

  lemma RemainderIsLess(n: nat, w: nat)
    requires 1 <= w <= 4
    ensures n % Window(w) <= n
  {
  }

  lemma {:induction false} MistakenFramesSpendLess(ms: seq<Text>, w: nat)
    requires AllSendable(ms)
    requires 1 <= w <= 4
    ensures SpentAll(ms, w) <= |EncodeAll(ms)|
    ensures SpentAll(ms, w) == |EncodeAll(ms)| ==>
      forall i | 0 <= i < |ms| :: |ms[i]| % Window(w) != REQUEST_SIZE
    decreases |ms|
  {
    if ms != [] {
      MistakenFramesSpendLess(ms[1..], w);
      var n := |ms[0]|;
      if n % Window(w) == REQUEST_SIZE {
        RemainderIsLess(n, w);
      }
      if SpentAll(ms, w) == |EncodeAll(ms)| {
        forall i | 0 <= i < |ms| ensures |ms[i]| % Window(w) != REQUEST_SIZE {
          if i > 0 {
            assert ms[i] == ms[1..][i - 1];
          }
        }
      }
    }
  }

  // ---------------------------------------------------------------- the round trip

  /** When every peek returns w bytes, the subscriber recovers exactly the messages sent if
      and only if no length is congruent to the size of a control message modulo 256^w. */
  lemma RoundTripAtWidth(ms: seq<Text>, w: nat, peeks: seq<nat>)
    requires AllSendable(ms)
    requires 1 <= w <= 4
    requires Steady(peeks, w, |EncodeAll(ms)|)
    ensures Decode(EncodeAll(ms), peeks) == Decoded(ms, NoMoreBytes)
      <==> (forall i | 0 <= i < |ms| :: |ms[i]| % Window(w) != REQUEST_SIZE)
  {
    if forall i | 0 <= i < |ms| :: |ms[i]| % Window(w) != REQUEST_SIZE {
      FewerFramesThanBytes(ms);
      forall i | 0 <= i < |ms| ensures !Mistaken(ms[i], PeekAt(peeks, i)) {
        assert peeks[i] == w;
      }
      DecodeFrames(ms, [], peeks, Decoded([], NoMoreBytes));
      assert EncodeAll(ms) + [] == EncodeAll(ms);
      assert ms + [] == ms;
    }
    if Decode(EncodeAll(ms), peeks) == Decoded(ms, NoMoreBytes) {
      CleanEndSpendsAll(EncodeAll(ms), peeks, w);
      MistakenFramesSpendLess(ms, w);
    }
  }

  lemma {:induction false} FewerFramesThanBytes(ms: seq<Text>)
    requires AllSendable(ms)
    ensures |ms| <= |EncodeAll(ms)|
    decreases |ms|
  {
    if ms != [] {
      FewerFramesThanBytes(ms[1..]);
    }
  }

  /** With peeks that return all four bytes: exact if and only if no message is 68 bytes long. */
  lemma RoundTripFullPeeks(ms: seq<Text>)
    requires AllSendable(ms)
    ensures Decode(EncodeAll(ms), []) == Decoded(ms, NoMoreBytes)
      <==> (forall i | 0 <= i < |ms| :: |ms[i]| != REQUEST_SIZE)
  {
    var stream := EncodeAll(ms);
    var peeks: seq<nat> := seq(|stream|, _ => 4);
    SamePeeks(stream, peeks);
    RoundTripAtWidth(ms, 4, peeks);
    forall i | 0 <= i < |ms| ensures |ms[i]| % Window(4) == |ms[i]| {
      RemainderOf(|ms[i]|, 0, Window(4));
    }
  }

  lemma {:induction false} SamePeeks(stream: Text, peeks: seq<nat>)
    requires forall i | 0 <= i < |peeks| :: peeks[i] == 4
    ensures Decode(stream, peeks) == Decode(stream, [])
    decreases |stream|
  {
    match Take(stream, 4)
    case Stop(_) =>
    case Data(_, rest) => SamePeeks(rest, PeeksAfter(peeks, 1));
  }

  /** However few bytes each peek happens to return: exact for all of them if and only if no
      length is 68 modulo 256. */
  lemma RoundTripAnyPeeks(ms: seq<Text>)
    requires AllSendable(ms)
    ensures (forall peeks :: Decode(EncodeAll(ms), peeks) == Decoded(ms, NoMoreBytes))
      <==> (forall i | 0 <= i < |ms| :: |ms[i]| % 256 != REQUEST_SIZE)
  {
    if forall i | 0 <= i < |ms| :: |ms[i]| % 256 != REQUEST_SIZE {
      forall peeks ensures Decode(EncodeAll(ms), peeks) == Decoded(ms, NoMoreBytes) {
        ClearOfAnyPeek(ms, peeks);
        DecodeFrames(ms, [], peeks, Decoded([], NoMoreBytes));
        assert EncodeAll(ms) + [] == EncodeAll(ms);
        assert ms + [] == ms;
      }
    } else {
      var peeks := seq(|EncodeAll(ms)|, _ => 1);
      RoundTripAtWidth(ms, 1, peeks);
      assert Decode(EncodeAll(ms), peeks) != Decoded(ms, NoMoreBytes);
    }
  }

  lemma ClearOfAnyPeek(ms: seq<Text>, peeks: seq<nat>)
    requires forall i | 0 <= i < |ms| :: |ms[i]| % 256 != REQUEST_SIZE
    ensures Unmistaken(ms, peeks)
  {
    forall i | 0 <= i < |ms|
      ensures !Mistaken(ms[i], PeekAt(peeks, i))
    {
      NarrowWindow(|ms[i]|, Clip(PeekAt(peeks, i)));
    }
  }

  lemma NarrowWindow(n: nat, w: nat)
    requires 1 <= w <= 4
    ensures n % Window(w) == REQUEST_SIZE ==> n % 256 == REQUEST_SIZE
  {
    var q := n / Window(w);
    assert n == Window(w) * q + n % Window(w);
    if n % Window(w) == REQUEST_SIZE {
      var scale := Window(w) / 256;
      assert Window(w) == 256 * scale;
      assert Window(w) * q == 256 * (scale * q) by {
        assert (256 * scale) * q == 256 * (scale * q);
      }
      RemainderOf(REQUEST_SIZE, scale * q, 256);
    }
  }

  /** 68 bytes that repeat the four bytes of their own length. */
  function Echo(): (r: Text)
    ensures |r| == REQUEST_SIZE
  {
    seq(REQUEST_SIZE, i => if i % 4 == 0 then 68 else 0)
  }

  lemma ShowsItsLength(s: Text, peek: nat)
    requires |s| >= 4 && s[..4] == [68, 0, 0, 0]
    ensures Peeked(s, peek) == REQUEST_SIZE
  {
    var w := Clip(peek);
    assert s[..w] == [68, 0, 0, 0][..w];
  }

  /** Why the exact conditions speak of the end of the stream as well: this frame is mistaken for
      a control message, its buffer comes out right by chance, and four bytes are left over. */
  lemma RightByChance(peeks: seq<nat>)
    ensures Sendable(Echo()) && AllSendable([Echo()])
    ensures Decode(EncodeAll([Echo()]), peeks) == Decoded([Echo()], CutShort)
  {
    var m := Echo();
    var s := [68, 0, 0, 0] + m;
    assert EncodeInt(REQUEST_SIZE) == [68, 0, 0, 0];
    assert [m][1..] == [];
    assert EncodeAll([m]) == Frame(m) == s;
    ShowsItsLength(s, PeekAt(peeks, 0));
    assert s[..REQUEST_SIZE] == m;
    var rest := s[REQUEST_SIZE..];
    assert rest == [68, 0, 0, 0];
    ShowsItsLength(rest, PeekAt(PeeksAfter(peeks, 1), 0));
    assert Take(s, PeekAt(peeks, 0)) == Data(m, rest);
    assert Take(rest, PeekAt(PeeksAfter(peeks, 1), 0)) == Stop(CutShort);
    assert [m] + [] == [m];
  }

  // ---------------------------------------------------------------- the shutdown notice

  /** The 68 bytes handle_server_command sends to each connected client. */
  function Notice(): (r: Text)
    ensures |r| == REQUEST_SIZE
  {
    [83, 69, 82, 86, 69, 82] + seq(6, _ => NUL) + EncodeInt(SHUTDOWN) + seq(48, _ => NUL) + EncodeInt(MESSAGE)
  }

  /** Its bytes: the id "SERVER", the message SHUTDOWN and the type MESSAGE, and zeros. */
  lemma NoticeIs(i: nat)
    requires i < 68
    ensures |Notice()| == 68
    ensures Notice()[i] ==
      if i < 6 then [83, 69, 82, 86, 69, 82][i] else if i == 12 then 1 else if i == 64 then 3 else 0
  {
    assert EncodeInt(1) == [1, 0, 0, 0] && EncodeInt(3) == [3, 0, 0, 0];
  }

  /** The notice starts with the letters of "SERVER", which read as a length of more than a
      thousand million: it loses no message and stops the subscriber, but by the end of the
      connection and not through the control branch that looks for SHUTDOWN. */
  lemma NoticeEndsTheStream(ms: seq<Text>, peeks: seq<nat>)
    requires AllSendable(ms)
    requires Unmistaken(ms, peeks)
    ensures Decode(EncodeAll(ms) + Notice(), peeks) == Decoded(ms, CutShort)
  {
    var n := Notice();
    var later := PeeksAfter(peeks, |ms|);
    assert n[..4] == [83, 69, 82, 86];
    var w := Clip(PeekAt(later, 0));
    assert n[..w] == n[..4][..w];
    assert Peeked(n, PeekAt(later, 0)) != REQUEST_SIZE;
    assert Take(n, PeekAt(later, 0)) == Stop(CutShort);
    DecodeFrames(ms, n, peeks, Decoded([], CutShort));
    assert ms + [] == ms;
  }
}
