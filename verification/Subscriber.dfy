/** The subscriber's end of the connection (subscriber.cpp:3-64, common.cpp:3-18). */
module Subscriber {
  import opened Bytes
  import opened Frames

  /** A connected socket: the bytes that are still to arrive before the peer closes. */
  class Socket {
    var incoming: Text

    constructor (bytes: Text)
      ensures incoming == bytes
    {
      incoming := bytes;
    }

    /** recv: some non-empty prefix of what is left, or nothing once the peer has closed. */
    method Recv(max: nat) returns (chunk: Text)
      requires max > 0
      modifies this
      ensures |chunk| <= max
      ensures chunk == [] <==> old(incoming) == []
      ensures old(incoming) == chunk + incoming
    {
      if incoming == [] {
        return [];
      }
      var rc :| 1 <= rc <= max && rc <= |incoming|;
      chunk := incoming[..rc];
      incoming := incoming[rc..];
    }

    /** recv with MSG_PEEK for up to four bytes; `wanted` is how many the kernel had ready. */
    method Peek() returns (chunk: Text, wanted: nat)
      ensures chunk == incoming[..if Clip(wanted) <= |incoming| then Clip(wanted) else |incoming|]
    {
      wanted :| 1 <= wanted <= 4;
      chunk := incoming[..if wanted <= |incoming| then wanted else |incoming|];
    }

    /** recv_all: the loop gathers the chunks into the buffer, and its result does not depend
        on how the bytes were cut into chunks. A connection that ends too early reads as 0. */
    method RecvAll(buffer: array<Byte>, len: nat) returns (total: nat)
      requires buffer.Length >= len
      modifies this, buffer
      ensures |old(incoming)| >= len ==>
        total == len && buffer[..len] == old(incoming)[..len] && incoming == old(incoming)[len..]
      ensures |old(incoming)| < len ==> total == 0 && incoming == []
    {
      total := 0;
      while total < len
        invariant total <= len && total <= |old(incoming)|
        invariant incoming == old(incoming)[total..]
        invariant buffer[..total] == old(incoming)[..total]
      {
        var chunk := Recv(len - total);
        if chunk == [] {
          return 0;
        }
        forall i | 0 <= i < |chunk| {
          buffer[total + i] := chunk[i];
        }
        var next := total + |chunk|;
        assert old(incoming)[total..] == chunk + incoming;
        assert old(incoming)[total..next] == chunk;
        assert buffer[..next] == buffer[..total] + chunk;
        assert old(incoming)[..next] == old(incoming)[..total] + chunk;
        total := next;
      }
    }

    /** recv_string: the whole string, or the empty one when the connection ends early. */
    method RecvString(len: nat) returns (s: Text)
      modifies this
      ensures |old(incoming)| >= len ==> s == old(incoming)[..len] && incoming == old(incoming)[len..]
      ensures |old(incoming)| < len ==> s == [] && incoming == []
    {
      var result := new Byte[len];
      var got := RecvAll(result, len);
      if got == 0 {
        return [];
      }
      s := result[..];
    }

    /** handle_server_message: one frame is taken off the stream as Take describes, however
        the bytes are chunked and however many of them the peek happens to see. */
    method HandleServerMessage() returns (o: Outcome, ghost peek: nat)
      modifies this
      ensures o == Take(old(incoming), peek)
      ensures o.Data? ==> incoming == o.rest
    {
      var head, wanted := Peek();
      peek := wanted;
      if head == [] {
        return Stop(NoMoreBytes), peek;
      }
      var msgLen := SignedInt(LowBytes(head));
      if msgLen == REQUEST_SIZE {
        var control := RecvString(REQUEST_SIZE);
        if control == [] {
          return Stop(CutShort), peek;
        }
        if SignedInt(LowBytes(control[MESSAGE_OFFSET..MESSAGE_OFFSET + 4])) == SHUTDOWN {
          return Stop(ShutdownSeen), peek;
        }
        return Data(control, incoming), peek;
      }
      var prefix := RecvString(4);
      if prefix == [] {
        return Stop(CutShort), peek;
      }
      msgLen := SignedInt(LowBytes(prefix));
      if msgLen < 0 {
        return Stop(BadLength), peek;
      }
      var data := RecvString(msgLen);
      if data == [] {
        return Stop(if msgLen == 0 then EmptyFrame else CutShort), peek;
      }
      return Data(data, incoming), peek;
    }

    /** The message branch of the subscriber's loop (subscriber.cpp:142-179), until `running`
        is cleared. */
    method Listen() returns (parsed: seq<Text>, why: Why, ghost peeks: seq<nat>)
      modifies this
      ensures Decoded(parsed, why) == Decode(old(incoming), peeks)
    {
      ghost var whole := incoming;
      parsed, why, peeks := [], NoMoreBytes, [];
      var running := true;
      assert ReadSoFar(whole, [], [], whole) by {
        forall later: seq<nat> ensures AfterPeeking(whole, [] + later, [], whole, later) {
          assert [] + later == later;
        }
      }
      while running
        invariant running ==> ReadSoFar(whole, peeks, parsed, incoming)
        invariant !running ==> Decoded(parsed, why) == Decode(whole, peeks)
        decreases running, |incoming|
      {
        ghost var before := incoming;
        var o, peek := HandleServerMessage();
        match o
        case Stop(reason) =>
          assert AfterPeeking(whole, peeks + [peek], parsed, before, [peek]);
          running, why, peeks := false, reason, peeks + [peek];
          assert parsed + [] == parsed;
        case Data(buff, rest) =>
          OneMore(whole, peeks, parsed, before, peek);
          parsed, peeks := parsed + [buff], peeks + [peek];
      }
    }
  }

  /** With these peeks the subscriber has handed over `parsed` and has `rest` still to read,
      whatever the later peeks will be. */
  ghost predicate ReadSoFar(whole: Text, peeks: seq<nat>, parsed: seq<Text>, rest: Text) {
    forall later: seq<nat> :: AfterPeeking(whole, peeks + later, parsed, rest, later)
  }

  ghost predicate AfterPeeking(whole: Text, peeks: seq<nat>, parsed: seq<Text>, rest: Text, later: seq<nat>) {
    var d := Decode(rest, later);
    Decode(whole, peeks) == Decoded(parsed + d.buffs, d.why)
  }

  lemma OneMore(whole: Text, peeks: seq<nat>, parsed: seq<Text>, rest: Text, peek: nat)
    requires ReadSoFar(whole, peeks, parsed, rest)
    requires Take(rest, peek).Data?
    ensures
      var o := Take(rest, peek);
      ReadSoFar(whole, peeks + [peek], parsed + [o.buff], o.rest)
  {
    var o := Take(rest, peek);
    forall later: seq<nat> ensures AfterPeeking(whole, peeks + [peek] + later, parsed + [o.buff], o.rest, later) {
      assert peeks + [peek] + later == peeks + ([peek] + later);
      assert AfterPeeking(whole, peeks + ([peek] + later), parsed, rest, [peek] + later);
      assert PeeksAfter([peek] + later, 1) == later;
      var d := Decode(o.rest, later);
      assert parsed + ([o.buff] + d.buffs) == parsed + [o.buff] + d.buffs;
    }
  }
}
