/** The envelope around a datagram: built by the server (server.cpp:110-126), taken apart by
    the subscriber (common.cpp:50-83). */
module Envelope {
  import opened Bytes

  const IP_SIZE := 4
  const PORT_SIZE := 2
  const TOPIC_SIZE := 50

  /** sizeof(buff) - 1 in process_udp_message: the longest datagram recvfrom can return. */
  const MAX_DATAGRAM := 2999

  function Build(ip: Text, port: Text, datagram: Text): Text {
    ip + port + datagram
  }

  /** The topic used for routing. The receive buffer is an uninitialised local, so a datagram
      shorter than the topic field is completed by whatever the stack held (`residue`). */
  function RoutedTopic(datagram: Text, residue: Text): Text
    requires |datagram| + |residue| >= TOPIC_SIZE
  {
    CutAtNul((datagram + residue)[..TOPIC_SIZE])
  }

  datatype Display =
    | Nothing
    | Shown(ip: Text, port: Text, topic: Text, kind: Byte, payload: Text)

  /** What parse_input reads from a buffer, up to the decoding of the payload. */
  function Parse(buff: Text): Display
    requires |buff| >= IP_SIZE + PORT_SIZE
  {
    var field := buff[6..];
    if |buff| <= 56 then Nothing
    else Shown(buff[..4], buff[4..6], CutAtNul(field[..TOPIC_SIZE]), buff[56], buff[57..])
  }

  /** The subscriber shows a message exactly when its datagram is longer than the topic field,
      and then with the sender, type and payload that were sent and the very topic by which
      the server routed it. */
  lemma RoutingAndDisplayAgree(ip: Text, port: Text, datagram: Text, residue: Text)
    requires |ip| == IP_SIZE && |port| == PORT_SIZE
    requires |datagram| + |residue| >= TOPIC_SIZE
    ensures
      var buff := Build(ip, port, datagram);
      |buff| == 6 + |datagram| && buff[..4] == ip && buff[4..6] == port && buff[6..] == datagram
    ensures Parse(Build(ip, port, datagram)) ==
      if |datagram| <= 50 then Nothing
      else Shown(ip, port, RoutedTopic(datagram, residue), datagram[50], datagram[51..])
  {
    var buff := Build(ip, port, datagram);
    assert buff[..4] == ip && buff[4..6] == port && buff[6..] == datagram;
    if |datagram| > TOPIC_SIZE {
      assert buff[57..] == datagram[51..];
      assert (datagram + residue)[..TOPIC_SIZE] == datagram[..TOPIC_SIZE];
    }
  }

  /** The routed topic is the text the first 50 bytes begin with: up to the first 0, or all 50. */
  lemma RoutedTopicIs(datagram: Text, residue: Text, topic: Text)
    requires |datagram| + |residue| >= 50
    requires |topic| <= 50 && 0 !in topic && topic <= datagram + residue
    requires |topic| == 50 || (datagram + residue)[|topic|] == 0
    ensures RoutedTopic(datagram, residue) == topic
  {
    var field := (datagram + residue)[..50];
    assert field[..|topic|] == topic;
    CutAtNulUnique(field, topic);
  }

  /** Two senders or two datagrams never share an envelope. */
  lemma EnvelopeInjective(ip: Text, port: Text, d: Text, ip': Text, port': Text, d': Text)
    requires |ip| == |ip'| == IP_SIZE && |port| == |port'| == PORT_SIZE
    requires Build(ip, port, d) == Build(ip', port', d')
    ensures ip == ip' && port == port' && d == d'
  {
    var b, b' := Build(ip, port, d), Build(ip', port', d');
    assert ip == b[..4] && ip' == b'[..4];
    assert port == b[4..6] && port' == b'[4..6];
    assert d == b[6..] && d' == b'[6..];
  }

  /** std::string::find('\0', 0) on the topic field. */
  method FindNul(s: Text) returns (at: nat)
    ensures at == |CutAtNul(s)| && s[..at] == CutAtNul(s)
  {
    at := 0;
    while at < |s| && s[at] != NUL
      invariant at <= |s|
      invariant NUL !in s[..at]
    {
      assert s[..at + 1] == s[..at] + [s[at]];
      at := at + 1;
    }
    CutAtNulUnique(s, s[..at]);
  }

  /** parse_input up to the type switch (common.cpp:50-87), reading field after field. */
  method ParseInput(buff: Text) returns (r: Display)
    requires |buff| >= IP_SIZE + PORT_SIZE
    ensures r == Parse(buff)
  {
    hide CutAtNul;
    var pos := 0;
    var ip := buff[pos..pos + IP_SIZE];
    pos := pos + IP_SIZE;
    var port := buff[pos..pos + PORT_SIZE];
    pos := pos + PORT_SIZE;
    var topic := if pos + TOPIC_SIZE <= |buff| then buff[pos..pos + TOPIC_SIZE] else buff[pos..];
    ghost var field := topic;
    var nulPos := FindNul(topic);
    assert field[..|field|] == field;
    if nulPos < |topic| {
      topic := topic[..nulPos];
    }
    assert topic == CutAtNul(field);
    pos := pos + TOPIC_SIZE;
    if pos >= |buff| {
      return Nothing;
    }
    var kind := buff[pos];
    pos := pos + 1;
    assert buff[6..][..TOPIC_SIZE] == field;
    r := Shown(ip, port, topic, kind, buff[pos..]);
  }
}
