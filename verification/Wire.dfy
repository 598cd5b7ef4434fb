/** The bytes that messages become on a descriptor. */
module Wire {
  import opened Bytes
  import opened Broker
  import Frames

  ghost function Buffs(ms: seq<Msg>): (r: seq<Text>)
    ensures |r| == |ms|
  {
    seq(|ms|, i requires 0 <= i < |ms| => ms[i].buff)
  }

  ghost predicate AllFit(ms: seq<Msg>) {
    Frames.AllSendable(Buffs(ms))
  }

  ghost function Stream(ms: seq<Msg>): Text
    requires AllFit(ms)
  {
    Frames.EncodeAll(Buffs(ms))
  }

  /** Every stream of bytes is that of its messages. */
  ghost predicate Matched(wire: map<int, Text>, frames: map<int, seq<Msg>>) {
    && wire.Keys == frames.Keys
    && forall f | f in frames :: AllFit(frames[f]) && wire[f] == Stream(frames[f])
  }

  ghost predicate AllMatched(wires: seq<Text>, streams: seq<seq<Msg>>) {
    && |wires| == |streams|
    && forall i | 0 <= i < |streams| :: AllFit(streams[i]) && wires[i] == Stream(streams[i])
  }

  ghost predicate MatchedPast(past: map<int, seq<Text>>, streams: map<int, seq<seq<Msg>>>) {
    && past.Keys == streams.Keys
    && forall f | f in streams :: AllMatched(past[f], streams[f])
  }

  lemma EmptyStream()
    ensures AllFit([]) && Stream([]) == []
  {
    assert Buffs([]) == [];
  }

  lemma MatchedOneMore(wires: seq<Text>, streams: seq<seq<Msg>>, bytes: Text, ms: seq<Msg>)
    requires AllMatched(wires, streams) && AllFit(ms) && bytes == Stream(ms)
    ensures AllMatched(wires + [bytes], streams + [ms])
  {
    hide Stream, AllFit;
  }

  lemma BuffsAppend(a: seq<Msg>, b: seq<Msg>)
    ensures Buffs(a + b) == Buffs(a) + Buffs(b)
  {
  }

  /** Writing one more message appends its length and its bytes to the stream. */
  lemma StreamGrows(ms: seq<Msg>, m: Msg)
    requires AllFit(ms) && Frames.Sendable(m.buff)
    ensures AllFit(ms + [m])
    ensures Stream(ms + [m]) == Stream(ms) + EncodeInt(|m.buff|) + m.buff
  {
    BuffsAppend(ms, [m]);
    assert Buffs([m]) == [m.buff];
    Frames.EncodeAllAppend(Buffs(ms), [m.buff]);
    assert [m.buff][1..] == [];
    assert Frames.EncodeAll([m.buff]) == Frames.Frame(m.buff);
  }

  /** The shutdown notice, repeated. */
  ghost function Notices(n: nat): Text {
    if n == 0 then [] else Notices(n - 1) + Frames.Notice()
  }

  lemma NoticeMore(bytes: Text, n: nat)
    ensures bytes + Notices(n) + Frames.Notice() == bytes + Notices(n + 1)
  {
    hide Frames.Notice;
    assert Notices(n + 1) == Notices(n) + Frames.Notice();
  }
}
