/** What each event does to the whole state, spelt out with the numbers and bytes of the wire: ten
    bytes of an id, fifty of a topic, 0 EXIT, 1 SUBSCRIBE, 2 UNSUBSCRIBE, 3 CONNECT. */
module Effects {
  import opened Bytes
  import opened Broker
  import opened Machine
  import Envelope
  import Matcher
  import Order

  // ---------------------------------------------------------------- texts in fields

  /** The text that the first bytes of a field spell: a 0 ends it, or it fills them all. */
  predicate Spells(field: Text, size: nat, text: Text)
    requires size <= |field|
  {
    |text| <= size && 0 !in text && text <= field && (|text| < size ==> field[|text|] == 0)
  }

  /** Every field spells exactly one text. */
  lemma SpellsOne(field: Text, size: nat, text: Text)
    requires size <= |field|
    ensures Spells(field, size, CutAtNul(field[..size]))
    ensures Spells(field, size, text) <==> text == CutAtNul(field[..size])
  {
    if Spells(field, size, text) {
      assert text == field[..|text|] == field[..size][..|text|];
      CutAtNulUnique(field[..size], text);
    }
  }

  /** What strcpy leaves in a zeroed field is the text it was given. */
  lemma PaddedSpells(text: Text, size: nat, field: Text)
    requires |text| <= size <= |field| && 0 !in text
    requires field == text + seq(|field| - |text|, _ => 0)
    ensures Spells(field, size, text)
  {
  }

  /** A request that names a client. */
  predicate Names(r: Request, id: Text) {
    Spells(r.id, 10, id)
  }

  lemma NamesOne(r: Request, id: Text)
    ensures Names(r, id) <==> ClientId(r) == id
  {
    SpellsOne(r.id, 10, id);
  }

  // ---------------------------------------------------------------- requests

  ghost predicate FromClient(s: State, index: nat) {
    3 <= index < |s.polls|
  }

  /** SUBSCRIBE: a known client holds exactly that pattern with that flag, and nothing else changes. */
  lemma SubscribeAdds(s: State, index: nat, r: Request, id: Text, p: Text)
    requires FromClient(s, index) && r.kind == 1 && Names(r, id) && Spells(r.topic, 50, p)
    ensures Enabled(s, Ask(index, r))
    ensures Step(s, Ask(index, r)) == s.(sessions := map k | k in s.sessions ::
      if k == id then s.sessions[k].(topics := s.sessions[k].topics[p := r.sf]) else s.sessions[k])
  {
    NamesOne(r, id);
    SpellsOne(r.topic, 50, p);
  }

  /** UNSUBSCRIBE: a known client does not hold the pattern afterwards. */
  lemma UnsubscribeRemoves(s: State, index: nat, r: Request, id: Text, p: Text)
    requires FromClient(s, index) && r.kind == 2 && Names(r, id) && Spells(r.topic, 50, p)
    ensures Enabled(s, Ask(index, r))
    ensures Step(s, Ask(index, r)) == s.(sessions := map k | k in s.sessions ::
      if k == id then s.sessions[k].(topics := s.sessions[k].topics - {p}) else s.sessions[k])
  {
    NamesOne(r, id);
    SpellsOne(r.topic, 50, p);
  }

  /** EXIT: a known client is marked as gone, whoever asks, and the connection asked on is closed. */
  lemma ExitLeaves(s: State, index: nat, r: Request, id: Text)
    requires FromClient(s, index) && r.kind == 0 && Names(r, id)
    ensures Enabled(s, Ask(index, r))
    ensures Step(s, Ask(index, r)) == s.(
      sessions := map k | k in s.sessions ::
        if k == id then s.sessions[k].(online := false) else s.sessions[k],
      addresses := s.addresses - {s.polls[index]},
      polls := s.polls[..index] + s.polls[index + 1..])
  {
    NamesOne(r, id);
  }

  /** CONNECT of a client that is connected: only the connection it came on is closed. */
  lemma ConnectRejected(s: State, index: nat, r: Request, id: Text)
    requires FromClient(s, index) && r.kind == 3 && Names(r, id)
    requires id in s.sessions && s.sessions[id].online
    ensures Enabled(s, Ask(index, r))
    ensures Step(s, Ask(index, r)) == s.(
      addresses := s.addresses - {s.polls[index]},
      polls := s.polls[..index] + s.polls[index + 1..])
  {
    NamesOne(r, id);
  }

  /** CONNECT of a client that comes back: it keeps its patterns, and what was stored for it is
      written to the new connection behind whatever was written there. */
  lemma ConnectReturns(s: State, index: nat, r: Request, id: Text)
    requires FromClient(s, index) && r.kind == 3 && Names(r, id) && TablesAgree(s)
    requires id in s.sessions && !s.sessions[id].online
    ensures Enabled(s, Ask(index, r)) && s.polls[index] in s.frames
    ensures
      var fd, session := s.polls[index], s.sessions[id];
      Step(s, Ask(index, r)) == s.(
        sessions := s.sessions[id := Session(true, session.topics, [])],
        fds := s.fds[id := fd],
        frames := s.frames[fd := s.frames[fd] + session.queue])
  {
    NamesOne(r, id);
    LookUpFinds(s, index);
    assert s.polls[index] == s.polls[3..][index - 3];
  }

  /** CONNECT of a client never seen: connected, without patterns, with nothing stored. */
  lemma ConnectRecords(s: State, index: nat, r: Request, id: Text)
    requires FromClient(s, index) && r.kind == 3 && Names(r, id) && TablesAgree(s)
    requires id !in s.sessions
    ensures Enabled(s, Ask(index, r))
    ensures Step(s, Ask(index, r)) == s.(
      sessions := s.sessions[id := Session(true, map[], [])],
      fds := s.fds[id := s.polls[index]])
  {
    NamesOne(r, id);
    LookUpFinds(s, index);
    var fd := s.polls[index];
    assert fd == s.polls[3..][index - 3];
    assert s.frames[fd] + [] == s.frames[fd];
    assert s.frames[fd := s.frames[fd]] == s.frames;
  }

  /** Any other request is ignored. */
  lemma OtherIgnored(s: State, index: nat, r: Request)
    requires FromClient(s, index) && r.kind !in {0, 1, 2, 3}
    ensures Enabled(s, Ask(index, r)) && Step(s, Ask(index, r)) == s
  {
  }

  // ---------------------------------------------------------------- the other events

  /** A new connection: its address, its entry at the end, and an empty stream; the stream that an
      earlier connection on the number had joins the earlier ones. */
  lemma AcceptOpens(s: State, fd: int, address: Address)
    requires 3 <= |s.polls| && fd !in s.polls
    ensures Enabled(s, Accept(fd, address))
    ensures
      var s' := Step(s, Accept(fd, address));
      && s'.addresses == s.addresses[fd := address] && s'.polls == s.polls + [fd]
      && s'.sessions == s.sessions && s'.fds == s.fds && s'.published == s.published
      && s'.frames == s.frames[fd := []]
      && (fd !in s.frames ==> s'.past == s.past)
      && (fd in s.frames ==>
          s'.past == s.past[fd := (if fd in s.past then s.past[fd] else []) + [s.frames[fd]]])
  {
  }

  /** A hang-up: the connection is closed, and the session marked as gone is that of the first id, byte
      by byte, among the records with its number, unless that id is empty. */
  lemma HangupCloses(s: State, index: nat)
    requires FromClient(s, index)
    ensures Enabled(s, Hangup(index))
    ensures
      var fd, s' := s.polls[index], Step(s, Hangup(index));
      && s'.addresses == s.addresses - {fd} && s'.polls == s.polls[..index] + s.polls[index + 1..]
      && s'.fds == s.fds && s'.frames == s.frames && s'.past == s.past && s'.published == s.published
      && s'.sessions.Keys == s.sessions.Keys
      && forall k | k in s.sessions :: s'.sessions[k] ==
          if Marked(s, k, fd) then s.sessions[k].(online := false) else s.sessions[k]
  {
    var fd := s.polls[index];
    forall k ensures Marked(s, k, fd) <==> OwnerOf(s.fds, fd) == Some(k) && k != [] {
      MarkedIsOwner(s, k, fd);
    }
    hide Marked;
  }

  /** The id is not empty, its record has the number, and every other record that has it belongs to
      an id that the id is a prefix of, or is below at the first byte that differs. */
  ghost predicate Marked(s: State, id: Text, fd: int) {
    && id != [] && id in s.fds && s.fds[id] == fd
    && forall k | k in s.fds && s.fds[k] == fd ::
        id <= k || exists n :: 0 <= n < |id| && n < |k| && id[..n] == k[..n] && id[n] < k[n]
  }

  lemma MarkedIsOwner(s: State, id: Text, fd: int)
    ensures Marked(s, id, fd) <==> OwnerOf(s.fds, fd) == Some(id) && id != []
  {
    var c := Bound(s.fds, fd);
    forall k ensures Order.AtMost(id, k) <==>
      id <= k || exists n :: 0 <= n < |id| && n < |k| && id[..n] == k[..n] && id[n] < k[n]
    {
      Order.AtMostIs(id, k);
    }
    if Marked(s, id, fd) {
      assert id in c && Order.IsLeast(id, c);
      Order.LeastUnique(OwnerOf(s.fds, fd).value, id, c);
    }
  }

  /** The client is away, and a matching pattern it holds has the flag. */
  ghost predicate StoredFor(c: Session, topic: Text) {
    !c.online && exists p :: p in c.topics && c.topics[p] && Matcher.Routes(topic, p)
  }

  /** The connected clients with a matching pattern on one descriptor. */
  ghost function ReachedOn(s: State, topic: Text, fd: int): set<Text> {
    set k | k in s.fds && k in s.sessions && s.fds[k] == fd && s.sessions[k].online
      && exists p :: p in s.sessions[k].topics && Matcher.Routes(topic, p)
  }

  /** A datagram whose topic field begins with the topic: a client that holds a matching pattern gets
      the envelope at once, on its descriptor, if it is connected; otherwise the envelope is stored if one
      of its matching patterns has the flag. Nobody else is concerned. */
  lemma DatagramSpreads(s: State, ip: Text, port: Text, data: Text, residue: Text, topic: Text)
    requires 3 <= |s.polls| && |ip| == 4 && |port| == 2 && |data| <= 2999 && |data| + |residue| >= 50
    requires Spells(data + residue, 50, topic)
    ensures Enabled(s, Datagram(ip, port, data, residue))
    ensures
      var s', msg := Step(s, Datagram(ip, port, data, residue)), Msg(s.published, ip + port + data);
      && s'.published == s.published + 1
      && s'.addresses == s.addresses && s'.polls == s.polls && s'.fds == s.fds && s'.past == s.past
      && s'.sessions.Keys == s.sessions.Keys && s'.frames.Keys == s.frames.Keys
      && (forall k | k in s.sessions ::
            s'.sessions[k] == if StoredFor(s.sessions[k], topic)
              then s.sessions[k].(queue := s.sessions[k].queue + [msg]) else s.sessions[k])
      && (forall f | f in s.frames :: s'.frames[f] == s.frames[f] + seq(|ReachedOn(s, topic, f)|, _ => msg))
  {
    SpellsOne(data + residue, 50, topic);
    assert Envelope.RoutedTopic(data, residue) == topic;
    var e := Datagram(ip, port, data, residue);
    DatagramStep(s, ip, port, data, residue);
    hide Step, Matcher.Routes;
    forall f ensures At(s.fds, Recipients(s.sessions, topic), f) == ReachedOn(s, topic, f) {}
  }

  lemma AddressStep(s: State, e: Event, fd: int)
    requires TablesAgree(s) && Enabled(s, e) && fd in Step(s, e).addresses
    ensures
      if e.Accept? && e.fd == fd then Step(s, e).addresses[fd] == e.address
      else fd in s.addresses && Step(s, e).addresses[fd] == s.addresses[fd]
  {
    if e.Ask? {
      LookUpFinds(s, e.index);
    }
    hide TablesAgree, Apply, Broadcast, OpOf;
  }

  /** In every run the address kept for an open connection, which the server prints when the client
      says CONNECT, is the one the latest accept on that number returned. */
  lemma AddressIsLatest(udp: int, listen: int, stdin: int, es: seq<Event>, fd: int)
    returns (n: nat)
    requires udp != listen && udp != stdin && listen != stdin
    requires Legal(Initial(udp, listen, stdin), es)
    requires fd in After(Initial(udp, listen, stdin), es).polls[3..]
    ensures
      var addresses := After(Initial(udp, listen, stdin), es).addresses;
      fd in addresses && n < |es| && es[n] == Accept(fd, addresses[fd])
    ensures forall m | n < m < |es| && es[m].Accept? :: es[m].fd != fd
    decreases |es|
  {
    TablesAlwaysAgree(udp, listen, stdin, es);
    assert fd in After(Initial(udp, listen, stdin), es).addresses;
    n := LatestAccept(udp, listen, stdin, es, fd);
  }

  lemma LastAddress(udp: int, listen: int, stdin: int, es: seq<Event>, fd: int)
    requires udp != listen && udp != stdin && listen != stdin
    requires Legal(Initial(udp, listen, stdin), es) && fd in After(Initial(udp, listen, stdin), es).addresses
    ensures es != []
    ensures
      var s, earlier, e := Initial(udp, listen, stdin), es[..|es| - 1], es[|es| - 1];
      && Legal(s, earlier)
      && if e.Accept? && e.fd == fd then After(s, es).addresses[fd] == e.address
         else fd in After(s, earlier).addresses && After(s, es).addresses[fd] == After(s, earlier).addresses[fd]
  {
    assert es != [];
    var n := |es| - 1;
    hide TablesAgree, Step, Enabled, Initial;
    TablesAlwaysAgree(udp, listen, stdin, es[..n]);
    AddressStep(After(Initial(udp, listen, stdin), es[..n]), es[n], fd);
  }

  lemma {:induction false} LatestAccept(udp: int, listen: int, stdin: int, es: seq<Event>, fd: int)
    returns (n: nat)
    requires udp != listen && udp != stdin && listen != stdin
    requires Legal(Initial(udp, listen, stdin), es) && fd in After(Initial(udp, listen, stdin), es).addresses
    ensures n < |es| && es[n] == Accept(fd, After(Initial(udp, listen, stdin), es).addresses[fd])
    ensures forall m | n < m < |es| && es[m].Accept? :: es[m].fd != fd
    decreases |es|
  {
    hide TablesAgree, Legal, After, Initial;
    LastAddress(udp, listen, stdin, es, fd);
    n := |es| - 1;
    if !(es[n].Accept? && es[n].fd == fd) {
      n := LatestAccept(udp, listen, stdin, es[..n], fd);
    }
  }

  /** What can happen at all. */
  lemma EnabledExactlyIff(s: State, e: Event)
    ensures Enabled(s, e) <==>
      && 3 <= |s.polls|
      && (e.Accept? ==> e.fd !in s.polls)
      && (e.Datagram? ==> |e.ip| == 4 && |e.port| == 2 && |e.data| <= 2999 && |e.data| + |e.residue| >= 50)
      && (e.Ask? || e.Hangup? ==> 3 <= e.index < |s.polls|)
  {
  }
}
