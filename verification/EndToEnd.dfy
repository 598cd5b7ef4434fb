/** From the datagram to the subscriber's parser: what a client reads from its successive
    connections, and what the server still stores for it, is what it was due. */
module EndToEnd {
  import opened Bytes
  import opened Broker
  import opened Machine
  import opened Conduct
  import opened OneClient
  import opened Connections
  import opened Guarantees
  import opened Rounds
  import opened Server
  import opened ServerLoop
  import opened Wire
  import Envelope
  import Frames
  import Matcher

  /** The bytes written to the connections: the latest on each number, and the earlier ones. */
  datatype Cables = Cables(now: map<int, Text>, past: map<int, seq<Text>>)

  function CablesOf(s: ServerState): Cables
    reads s`wire, s`pastWire
  {
    Cables(s.wire, s.pastWire)
  }

  function BytesOn(w: Cables, l: Link): Text {
    if l.turn < |PastOf(w.past, l.fd)| then w.past[l.fd][l.turn]
    else if l.turn == |PastOf(w.past, l.fd)| && l.fd in w.now then w.now[l.fd]
    else []
  }

  /** What handle_server_message hands to parse_input on each connection in turn, when the peeks
      on a connection return as many bytes as `peeks` says. */
  function Heard(w: Cables, links: seq<Link>, peeks: Link -> seq<nat>): seq<Text> {
    if links == [] then []
    else
      var n := |links| - 1;
      Heard(w, links[..n], peeks) + Frames.Decode(BytesOn(w, links[n]), peeks(links[n])).buffs
  }

  /** No peek on any of the connections mistakes a frame for a control message. */
  ghost predicate NeverMistaken(s: State, links: seq<Link>, peeks: Link -> seq<nat>) {
    forall l | l in links :: Frames.Unmistaken(Buffs(StreamOf(s, l)), peeks(l))
  }

  /** The bytes are those of the messages, perhaps with one shutdown notice behind them. */
  ghost predicate Encodes(bytes: Text, ms: seq<Msg>) {
    AllFit(ms) && (bytes == Stream(ms) || bytes == Stream(ms) + Frames.Notice())
  }

  ghost predicate Carries(w: Cables, s: State, links: seq<Link>) {
    forall l | l in links :: Encodes(BytesOn(w, l), StreamOf(s, l))
  }

  lemma OneConnection(bytes: Text, ms: seq<Msg>, peeks: seq<nat>)
    requires Encodes(bytes, ms) && Frames.Unmistaken(Buffs(ms), peeks)
    ensures Frames.Decode(bytes, peeks).buffs == Buffs(ms)
  {
    var buffs := Buffs(ms);
    if bytes == Stream(ms) {
      Frames.DecodeFrames(buffs, [], peeks, Frames.Decoded([], Frames.NoMoreBytes));
      assert Stream(ms) + [] == Stream(ms);
      assert buffs + [] == buffs;
    } else {
      Frames.NoticeEndsTheStream(buffs, peeks);
    }
  }

  lemma {:induction false} HeardIsWritten(w: Cables, s: State, links: seq<Link>, peeks: Link -> seq<nat>)
    requires Carries(w, s, links) && NeverMistaken(s, links, peeks)
    ensures Heard(w, links, peeks) == Buffs(Written(s, links))
    decreases |links|
  {
    if links != [] {
      var n := |links| - 1;
      var l := links[n];
      HeardIsWritten(w, s, links[..n], peeks);
      hide Encodes, BytesOn, StreamOf, Frames.Unmistaken, Frames.Decode;
      OneConnection(BytesOn(w, l), StreamOf(s, l), peeks(l));
      BuffsAppend(Written(s, links[..n]), StreamOf(s, l));
    }
  }

  // ---------------------------------------------------------------- the running server

  lemma RunStreams(s: ServerState, io: Sockets, es: seq<Event>)
    requires HasRun(s, io, es)
    ensures s.Wired() && s.Archived()
    ensures
      var st := After(Start(io), es);
      st.frames == s.frames && st.past == s.past && st.sessions == s.Sessions()
  {
  }

  /** While the server runs, the bytes on every connection are those of its messages. */
  lemma WireCarries(s: ServerState, st: State, l: Link)
    requires s.Wired() && s.Archived() && st.frames == s.frames && st.past == s.past
    ensures AllFit(StreamOf(st, l)) && BytesOn(CablesOf(s), l) == Stream(StreamOf(st, l))
  {
    EmptyStream();
    hide Stream, AllFit;
    assert PastOf(s.past, l.fd) != [] ==> l.fd in s.past;
    assert |PastOf(s.pastWire, l.fd)| == |PastOf(s.past, l.fd)|;
  }

  lemma StartIsFresh(io: Sockets)
    requires ThreeApart(io)
    ensures Fresh(Start(io))
  {
    assert io.udp != io.listen && io.udp != STDIN && io.listen != STDIN
      && Start(io) == Initial(io.udp, io.listen, STDIN);
  }

  lemma WrittenAndStored(io: Sockets, es: seq<Event>, id: Text)
    requires ThreeApart(io) && Legal(Start(io), es) && Undisturbed(Start(io), es, id)
    ensures
      var s, ops := After(Start(io), es), Operations(io, es);
      && Written(s, Links(Start(io), es, id)) == Sent(map[], ops, id)
      && Sent(map[], ops, id) + Queue(s.sessions, id) == Due(map[], ops, id)
  {
    StartIsFresh(io);
    WrittenIsSent(Start(io), es, id);
    RunIsBrokerRun(Start(io), es);
    hide Legal, After, Undisturbed, Written, Links, Sent, Due, Run;
    var ops := Operations(io, es);
    Delivery(map[], ops, id);
    assert Queue(map[], id) + Due(map[], ops, id) == Due(map[], ops, id);
  }

  /** What is heard and what is stored, once the bytes are known to carry the messages. */
  lemma HeardAndStored(w: Cables, io: Sockets, es: seq<Event>, id: Text, peeks: Link -> seq<nat>)
    requires ThreeApart(io) && Legal(Start(io), es) && Undisturbed(Start(io), es, id)
    requires Carries(w, After(Start(io), es), Links(Start(io), es, id))
    requires NeverMistaken(After(Start(io), es), Links(Start(io), es, id), peeks)
    ensures
      Heard(w, Links(Start(io), es, id), peeks) + Buffs(Queue(After(Start(io), es).sessions, id))
        == Buffs(Due(map[], Operations(io, es), id))
  {
    var st, links := After(Start(io), es), Links(Start(io), es, id);
    WrittenAndStored(io, es, id);
    hide Legal, After, Undisturbed, Written, Links, Sent, Due, Heard, Carries, NeverMistaken;
    HeardIsWritten(w, st, links, peeks);
    BuffsAppend(Written(st, links), Queue(st.sessions, id));
  }

  /** In every state of the running server, for every client that the run leaves undisturbed,
      with descriptor numbers reused as it happens: the buffers its parser is given, connection
      after connection, followed by those the server's record of the client points to, are the
      envelopes of the publications the client was due, each once and in order. The hypothesis on
      the peeks is that none of them shows 68. In a well-behaved run this holds for all clients. */
  lemma EndToEndDelivery(s: ServerState, io: Sockets, es: seq<Event>, id: Text, peeks: Link -> seq<nat>)
    requires ThreeApart(io) && HasRun(s, io, es) && Undisturbed(Start(io), es, id)
    requires NeverMistaken(After(Start(io), es), Links(Start(io), es, id), peeks)
    ensures
      Heard(CablesOf(s), Links(Start(io), es, id), peeks) + Buffs(Queue(s.Sessions(), id))
        == Buffs(Due(map[], Operations(io, es), id))
  {
    var st, links := After(Start(io), es), Links(Start(io), es, id);
    RunStreams(s, io, es);
    hide HasRun, ServerState.Wired, ServerState.Archived, Undisturbed, NeverMistaken, After, BytesOn, StreamOf;
    forall l | l in links ensures Encodes(BytesOn(CablesOf(s), l), StreamOf(st, l)) {
      WireCarries(s, st, l);
    }
    hide Encodes, CablesOf;
    HeardAndStored(CablesOf(s), io, es, id, peeks);
  }

  // ---------------------------------------------------------------- after the shutdown

  ghost function Connected(s: State): set<Text> {
    set k | k in s.sessions && s.sessions[k].online
  }

  /** Connected at the end, and this is the client's last connection. */
  ghost predicate ToldOn(s: State, links: seq<Link>, id: Text, l: Link) {
    IsOnline(s, id) && links != [] && l == links[|links| - 1]
  }

  lemma OneNotice(s: State, claims: map<int, Text>, links: seq<Link>, id: Text, l: Link)
    requires LinksBound(s, claims, id, links)
    requires l in links && l == Latest(s, l.fd)
    ensures Notices(|At(s.fds, Connected(s), l.fd)|) == if ToldOn(s, links, id, l) then Frames.Notice() else []
  {
    var at := At(s.fds, Connected(s), l.fd);
    assert Known(s, claims, id, l);
    assert forall k :: k in Connected(s) <==> IsOnline(s, k);
    hide Frames.Notice, Connected, IsOnline;
    assert forall k | k in at :: k == id;
    if id in at {
      assert at == {id};
      assert Notices(1) == Notices(0) + Frames.Notice() == Frames.Notice();
    } else {
      assert at == {};
    }
  }

  /** A connection that is not the latest on its number is not where a client is. */
  lemma PastIsNotTold(s: State, claims: map<int, Text>, links: seq<Link>, id: Text, l: Link)
    requires LinksBound(s, claims, id, links) && l != Latest(s, l.fd)
    ensures !ToldOn(s, links, id, l)
  {
  }

  lemma ShutDownStreams(s: ServerState, io: Sockets, es: seq<Event>)
    requires ShutDown(s, io, es)
    ensures
      var st := After(Start(io), es);
      && st.frames == s.frames && st.past == s.past && st.sessions == s.Sessions() && st.fds == s.Fds()
      && s.OnlineIds() == Connected(st)
    ensures s.Notified(s.OnlineIds()) && s.Archived()
  {
    hide Legal, After;
    assert forall k :: k in s.Sessions() <==> k in s.clients;
    assert s.OnlineIds() == Connected(s.View());
  }

  lemma ShutDownBytes(s: ServerState, st: State, claims: map<int, Text>, links: seq<Link>, id: Text, l: Link)
    requires LinksBound(st, claims, id, links) && l in links
    requires st.frames == s.frames && st.past == s.past && st.fds == s.Fds()
    requires s.Notified(Connected(st)) && s.Archived()
    ensures AllFit(StreamOf(st, l))
    ensures BytesOn(CablesOf(s), l) ==
      Stream(StreamOf(st, l)) + if ToldOn(st, links, id, l) then Frames.Notice() else []
  {
    assert Known(st, claims, id, l);
    if l == Latest(st, l.fd) {
      OneNotice(st, claims, links, id, l);
    } else {
      PastIsNotTold(st, claims, links, id, l);
    }
    EmptyStream();
    hide Stream, AllFit, LinksBound, Connected, IsOpen, Frames.Notice, At, Notices, ToldOn;
    assert PastOf(s.past, l.fd) != [] ==> l.fd in s.past;
    assert |PastOf(s.pastWire, l.fd)| == |PastOf(s.past, l.fd)|;
    assert Stream(StreamOf(st, l)) + [] == Stream(StreamOf(st, l));
  }

  /** The shutdown, for a client that the run left undisturbed: if it is connected at the end, one
      notice goes out behind the frames of its last connection, and none anywhere else. */
  lemma NoticeReaches(s: ServerState, io: Sockets, es: seq<Event>, id: Text, l: Link)
    requires ThreeApart(io) && ShutDown(s, io, es) && Undisturbed(Start(io), es, id)
    requires l in Links(Start(io), es, id)
    ensures
      var st, links := After(Start(io), es), Links(Start(io), es, id);
      && AllFit(StreamOf(st, l))
      && BytesOn(CablesOf(s), l) == Stream(StreamOf(st, l))
          + if IsOnline(st, id) && l == links[|links| - 1] then Frames.Notice() else []
  {
    var st, links := After(Start(io), es), Links(Start(io), es, id);
    ShutDownStreams(s, io, es);
    StartIsFresh(io);
    WrittenIsSent(Start(io), es, id);
    hide ShutDown, ServerState.Notified, ServerState.Archived, Undisturbed, After, Legal, BytesOn, StreamOf;
    hide LinksBound, Claims, Connected, ServerState.OnlineIds, CablesOf, Links, Stream, AllFit, IsOnline;
    ShutDownBytes(s, st, Claims(Start(io), es), links, id, l);
  }

  /** The same holds after the shutdown, although a notice was written behind the frames. What was
      stored then is lost with the process: it is named by the last state, for the records that
      held it are freed. */
  lemma EndToEndShutdown(s: ServerState, io: Sockets, es: seq<Event>, id: Text, peeks: Link -> seq<nat>)
    requires ThreeApart(io) && ShutDown(s, io, es) && Undisturbed(Start(io), es, id)
    requires NeverMistaken(After(Start(io), es), Links(Start(io), es, id), peeks)
    ensures
      Heard(CablesOf(s), Links(Start(io), es, id), peeks) + Buffs(Queue(After(Start(io), es).sessions, id))
        == Buffs(Due(map[], Operations(io, es), id))
  {
    var st, links := After(Start(io), es), Links(Start(io), es, id);
    hide ShutDown, Undisturbed, NeverMistaken, After, BytesOn, StreamOf, CablesOf, Stream, AllFit, IsOnline;
    forall l | l in links ensures Encodes(BytesOn(CablesOf(s), l), StreamOf(st, l)) {
      NoticeReaches(s, io, es, id, l);
      assert Stream(StreamOf(st, l)) + [] == Stream(StreamOf(st, l));
    }
    hide Encodes;
    HeardAndStored(CablesOf(s), io, es, id, peeks);
  }

  // ---------------------------------------------------------------- by the documented rules

  /** No datagram of the run has a topic with a level "*". */
  ghost predicate TopicsPlain(es: seq<Event>) {
    forall i | 0 <= i < |es| && es[i].Datagram? && |es[i].data| + |es[i].residue| >= Envelope.TOPIC_SIZE ::
      !Matcher.HasStarLevel(Envelope.RoutedTopic(es[i].data, es[i].residue))
  }

  lemma PublishedTopic(s: State, e: Event)
    requires Enabled(s, e) && OpOf(s, e).Publish?
    ensures e.Datagram? && |e.data| + |e.residue| >= Envelope.TOPIC_SIZE
    ensures OpOf(s, e).topic == Envelope.RoutedTopic(e.data, e.residue)
    ensures |OpOf(s, e).msg.buff| == Envelope.IP_SIZE + Envelope.PORT_SIZE + |e.data|
  {
  }

  lemma OpsPlain(io: Sockets, es: seq<Event>)
    requires Legal(Start(io), es) && TopicsPlain(es)
    ensures NoStarTopics(Operations(io, es))
  {
    var ops := Operations(io, es);
    RunIsBrokerRun(Start(io), es);
    hide Legal, After, Ops, Enabled, OpOf, Step, Run, Initial, Envelope.RoutedTopic, Matcher.HasStarLevel;
    forall i | 0 <= i < |ops| && ops[i].Publish? ensures !Matcher.HasStarLevel(ops[i].topic) {
      PrefixLegal(Start(io), es, i);
      OpsAt(Start(io), es, i);
      PublishedTopic(After(Start(io), es[..i]), es[i]);
    }
  }

  /** When no topic of the run has a level "*", what arrives and what is stored are exactly the
      publications that the documented rules for patterns assign to the client. */
  lemma EndToEndByTheRules(s: ServerState, io: Sockets, es: seq<Event>, id: Text, peeks: Link -> seq<nat>)
    requires ThreeApart(io) && HasRun(s, io, es) && Undisturbed(Start(io), es, id) && TopicsPlain(es)
    requires NeverMistaken(After(Start(io), es), Links(Start(io), es, id), peeks)
    ensures
      Heard(CablesOf(s), Links(Start(io), es, id), peeks) + Buffs(Queue(s.Sessions(), id))
        == Buffs(DueByRules(map[], Operations(io, es), id))
  {
    EndToEndDelivery(s, io, es, id, peeks);
    OpsPlain(io, es);
    DueByTheRules(map[], Operations(io, es), id);
  }

  // ---------------------------------------------------------------- which datagrams are safe

  /** No envelope built in the run has a length that can look like a control message's. */
  ghost predicate LengthsClear(es: seq<Event>) {
    forall i | 0 <= i < |es| && es[i].Datagram? ::
      (Envelope.IP_SIZE + Envelope.PORT_SIZE + |es[i].data|) % 256 != Frames.REQUEST_SIZE
  }

  ghost predicate Clear(ms: seq<Msg>) {
    forall m | m in ms :: |m.buff| % 256 != Frames.REQUEST_SIZE
  }

  /** What was written to the connections is clear exactly if each connection's stream is. */
  lemma {:induction false} WrittenClear(s: State, links: seq<Link>)
    ensures Clear(Written(s, links)) <==> forall l | l in links :: Clear(StreamOf(s, l))
    decreases |links|
  {
    hide StreamOf;
    if links != [] {
      var n := |links| - 1;
      WrittenClear(s, links[..n]);
      assert forall l | l in links :: l in links[..n] || l == links[n];
      assert Clear(Written(s, links)) <==> Clear(Written(s, links[..n])) && Clear(StreamOf(s, links[n])) by {
        ClearBoth(Written(s, links[..n]), StreamOf(s, links[n]));
      }
    }
  }

  lemma ClearBoth(a: seq<Msg>, b: seq<Msg>)
    ensures Clear(a + b) <==> Clear(a) && Clear(b)
  {
    if Clear(a + b) {
      forall m | m in a ensures |m.buff| % 256 != Frames.REQUEST_SIZE {
        assert m in a + b;
      }
      forall m | m in b ensures |m.buff| % 256 != Frames.REQUEST_SIZE {
        assert m in a + b;
      }
    }
  }

  lemma ClearBuffs(ms: seq<Msg>)
    ensures Clear(ms) <==> forall i | 0 <= i < |Buffs(ms)| :: |Buffs(ms)[i]| % 256 != Frames.REQUEST_SIZE
  {
    var buffs := Buffs(ms);
    assert forall i | 0 <= i < |ms| :: buffs[i] == ms[i].buff;
    if forall i | 0 <= i < |buffs| :: |buffs[i]| % 256 != Frames.REQUEST_SIZE {
      forall m | m in ms ensures |m.buff| % 256 != Frames.REQUEST_SIZE {
        var i :| 0 <= i < |ms| && ms[i] == m;
        assert buffs[i] == m.buff;
      }
    }
  }

  lemma OpsStep(s: State, es: seq<Event>)
    requires Legal(s, es) && es != []
    ensures
      var n := |es| - 1;
      && Legal(s, es[..n]) && Enabled(After(s, es[..n]), es[n])
      && Ops(s, es) == Ops(s, es[..n]) + [OpOf(After(s, es[..n]), es[n])]
      && |Ops(s, es[..n])| == n
  {
    RunIsBrokerRun(s, es[..|es| - 1]);
  }

  lemma {:induction false} OpsAt(s: State, es: seq<Event>, n: nat)
    requires n < |es| && Legal(s, es) && Legal(s, es[..n])
    requires Enabled(After(s, es[..n]), es[n])
    ensures |Ops(s, es)| == |es| && Ops(s, es)[n] == OpOf(After(s, es[..n]), es[n])
    decreases |es|
  {
    hide Enabled, OpOf, Step, After, Legal, Ops, Run;
    OpsStep(s, es);
    var last := |es| - 1;
    if n < last {
      assert es[..last][..n] == es[..n];
      OpsAt(s, es[..last], n);
    }
  }

  lemma DueIsClear(io: Sockets, es: seq<Event>, id: Text)
    requires Legal(Start(io), es) && LengthsClear(es)
    ensures Clear(Due(map[], Operations(io, es), id))
  {
    var ops := Operations(io, es);
    RunIsBrokerRun(Start(io), es);
    hide Legal, After, Ops, Due, Enabled, OpOf, Step, Run, Initial;
    forall m | m in Due(map[], ops, id) ensures |m.buff| % 256 != Frames.REQUEST_SIZE {
      var i :| 0 <= i < |Due(map[], ops, id)| && Due(map[], ops, id)[i] == m;
      var n := DueComesFrom(map[], ops, id, i);
      PrefixLegal(Start(io), es, n);
      OpsAt(Start(io), es, n);
      PublishedTopic(After(Start(io), es[..n]), es[n]);
    }
  }

  /** If no envelope of the run is 68 bytes long modulo 256, the hypothesis on the peeks holds
      for every client, however few bytes each peek happens to return. */
  lemma LengthsDecide(io: Sockets, es: seq<Event>, id: Text, peeks: Link -> seq<nat>)
    requires ThreeApart(io) && Legal(Start(io), es) && Undisturbed(Start(io), es, id) && LengthsClear(es)
    ensures NeverMistaken(After(Start(io), es), Links(Start(io), es, id), peeks)
  {
    var links, s := Links(Start(io), es, id), After(Start(io), es);
    WrittenAndStored(io, es, id);
    DueIsClear(io, es, id);
    hide Undisturbed, LengthsClear, Legal, After, Due, Written, Sent, Links, StreamOf;
    ClearBoth(Sent(map[], Operations(io, es), id), Queue(s.sessions, id));
    WrittenClear(s, links);
    forall l | l in links ensures Frames.Unmistaken(Buffs(StreamOf(s, l)), peeks(l)) {
      ClearBuffs(StreamOf(s, l));
      Frames.ClearOfAnyPeek(Buffs(StreamOf(s, l)), peeks(l));
    }
  }

  // ---------------------------------------------------------------- the exact condition

  /** Every connection is read to its clean end: the buffers are its messages, and the decoder
      stops because there are no more bytes. */
  ghost predicate ReadsWell(w: Cables, s: State, links: seq<Link>, peeks: Link -> seq<nat>) {
    forall l | l in links ::
      Frames.Decode(BytesOn(w, l), peeks(l)) == Frames.Decoded(Buffs(StreamOf(s, l)), Frames.NoMoreBytes)
  }

  lemma ConnectionExactlyIff(bytes: Text, ms: seq<Msg>)
    requires AllFit(ms) && bytes == Stream(ms)
    ensures (forall peeks :: Frames.Decode(bytes, peeks) == Frames.Decoded(Buffs(ms), Frames.NoMoreBytes))
      <==> Clear(ms)
  {
    var buffs := Buffs(ms);
    assert bytes == Frames.EncodeAll(buffs);
    Frames.RoundTripAnyPeeks(buffs);
    ClearBuffs(ms);
    hide Frames.Decode, Frames.EncodeAll, Buffs, Stream, Clear;
    if Clear(ms) {
      forall peeks ensures Frames.Decode(bytes, peeks) == Frames.Decoded(buffs, Frames.NoMoreBytes) {
        assert Frames.Decode(Frames.EncodeAll(buffs), peeks) == Frames.Decoded(buffs, Frames.NoMoreBytes);
      }
    } else {
      var few :| Frames.Decode(Frames.EncodeAll(buffs), few) != Frames.Decoded(buffs, Frames.NoMoreBytes);
      assert Frames.Decode(bytes, few) != Frames.Decoded(buffs, Frames.NoMoreBytes);
    }
  }

  lemma LinksExactlyIff(w: Cables, s: State, links: seq<Link>)
    requires forall l | l in links :: AllFit(StreamOf(s, l)) && BytesOn(w, l) == Stream(StreamOf(s, l))
    ensures (forall peeks :: ReadsWell(w, s, links, peeks)) <==> Clear(Written(s, links))
  {
    hide StreamOf, BytesOn, Clear, Written, AllFit, Stream;
    WrittenClear(s, links);
    if Clear(Written(s, links)) {
      forall peeks: Link -> seq<nat>, l | l in links
        ensures Frames.Decode(BytesOn(w, l), peeks(l)) == Frames.Decoded(Buffs(StreamOf(s, l)), Frames.NoMoreBytes)
      {
        ConnectionExactlyIff(BytesOn(w, l), StreamOf(s, l));
      }
    } else {
      var l :| l in links && !Clear(StreamOf(s, l));
      ConnectionExactlyIff(BytesOn(w, l), StreamOf(s, l));
      var few :| Frames.Decode(BytesOn(w, l), few)
        != Frames.Decoded(Buffs(StreamOf(s, l)), Frames.NoMoreBytes);
      assert !ReadsWell(w, s, links, (x: Link) => few);
    }
  }

  /** Exact at the level of a client: while the server runs, all connections of an undisturbed
      client are read to their clean ends whatever the peeks return if and only if no message
      sent to the client has a length that is 68 modulo 256. */
  lemma ClientReadsExactlyIff(s: ServerState, io: Sockets, es: seq<Event>, id: Text)
    requires ThreeApart(io) && HasRun(s, io, es) && Undisturbed(Start(io), es, id)
    ensures
      (forall peeks :: ReadsWell(CablesOf(s), After(Start(io), es), Links(Start(io), es, id), peeks))
        <==> Clear(Sent(map[], Operations(io, es), id))
  {
    var st, links := After(Start(io), es), Links(Start(io), es, id);
    RunStreams(s, io, es);
    WrittenAndStored(io, es, id);
    hide HasRun, ServerState.Wired, ServerState.Archived, Undisturbed, After, BytesOn, StreamOf, Clear, Written;
    forall l | l in links ensures AllFit(StreamOf(st, l)) && BytesOn(CablesOf(s), l) == Stream(StreamOf(st, l)) {
      WireCarries(s, st, l);
    }
    hide CablesOf;
    LinksExactlyIff(CablesOf(s), st, links);
  }

  /** The same for any single connection, whatever the clients do. */
  lemma ReadBackExactlyIff(s: ServerState, io: Sockets, es: seq<Event>, l: Link)
    requires HasRun(s, io, es)
    ensures
      var ms := StreamOf(After(Start(io), es), l);
      (forall peeks :: Frames.Decode(BytesOn(CablesOf(s), l), peeks) == Frames.Decoded(Buffs(ms), Frames.NoMoreBytes))
        <==> Clear(ms)
  {
    RunStreams(s, io, es);
    hide HasRun, ServerState.Wired, ServerState.Archived, After, BytesOn, StreamOf, Clear;
    WireCarries(s, After(Start(io), es), l);
    hide CablesOf;
    ConnectionExactlyIff(BytesOn(CablesOf(s), l), StreamOf(After(Start(io), es), l));
  }
}
