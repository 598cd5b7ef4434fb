/** The connections of a client, one after the other, also when several of them had the same
    descriptor number, and what was written to them. */
module Connections {
  import opened Bytes
  import opened Broker
  import opened Machine
  import opened Conduct
  import opened OneClient

  /** The turn-th connection on a descriptor number. */
  datatype Link = Link(fd: int, turn: nat)

  /** The connection that has the number now, or had it last. */
  ghost function Latest(s: State, fd: int): Link {
    Link(fd, |PastOf(s.past, fd)|)
  }

  /** What was written to a connection. */
  ghost function StreamOf(s: State, l: Link): seq<Msg> {
    if l.turn < |PastOf(s.past, l.fd)| then s.past[l.fd][l.turn]
    else if l == Latest(s, l.fd) then FramesOf(s.frames, l.fd)
    else []
  }

  /** The connections on which a client's CONNECT was accepted, in order. */
  ghost function Links(s: State, es: seq<Event>, id: Text): seq<Link>
    requires Legal(s, es)
  {
    if es == [] then []
    else
      var n := |es| - 1;
      var before := After(s, es[..n]);
      Links(s, es[..n], id) + NewLink(before, es[n], id)
  }

  ghost function NewLink(s: State, e: Event, id: Text): seq<Link>
    requires Enabled(s, e)
  {
    if e.Ask? && e.request.kind == MESSAGE && ClientId(e.request) == id && !IsOnline(s, id)
    then [Latest(s, s.polls[e.index])] else []
  }

  /** What was written to a list of connections, one after the other. */
  ghost function Written(s: State, links: seq<Link>): seq<Msg> {
    if links == [] then []
    else Written(s, links[..|links| - 1]) + StreamOf(s, links[|links| - 1])
  }

  // ---------------------------------------------------------------- invariants

  ghost predicate Apart(links: seq<Link>) {
    forall i, j | 0 <= i < j < |links| :: links[i] != links[j]
  }

  /** A client's connections are different ones; one that is the latest on its number is claimed
      by the client if it is open, and no other connected record has the number; a connected
      client is on its last one. */
  ghost predicate LinksBound(s: State, claims: map<int, Text>, id: Text, links: seq<Link>) {
    && Apart(links)
    && (forall l | l in links :: Known(s, claims, id, l))
    && (IsOnline(s, id) ==> links != [] && id in s.fds && links[|links| - 1] == Latest(s, s.fds[id]))
  }

  ghost predicate Known(s: State, claims: map<int, Text>, id: Text, l: Link) {
    && l.fd in s.frames
    && l.turn <= |PastOf(s.past, l.fd)|
    && (l == Latest(s, l.fd) && IsOpen(s, l.fd) ==> ClaimedBy(claims, l.fd, id))
    && (l == Latest(s, l.fd) ==> Solo(s, id, l.fd))
  }

  /** The last conjunct through a change of state that connects nobody else on the number. */
  lemma SoloStays(s: State, s': State, id: Text, fd: int)
    requires Solo(s, id, fd)
    requires forall k | k != id && IsOnline(s', k) && k in s'.fds && s'.fds[k] == fd ::
      IsOnline(s, k) && k in s.fds && s.fds[k] == fd
    ensures Solo(s', id, fd)
  {
    hide IsOnline;
  }

  // ---------------------------------------------------------------- lists of connections

  lemma {:induction false} WrittenSame(s: State, s': State, links: seq<Link>)
    requires forall l | l in links :: StreamOf(s', l) == StreamOf(s, l)
    ensures Written(s', links) == Written(s, links)
    decreases |links|
  {
    hide StreamOf;
    if links != [] {
      WrittenSame(s, s', links[..|links| - 1]);
    }
  }

  lemma LastIsElsewhere(links: seq<Link>, l: Link)
    requires links != [] && Apart(links) && l in links[..|links| - 1]
    ensures l in links && l != links[|links| - 1]
  {
    var i :| 0 <= i < |links| - 1 && links[i] == l;
  }

  lemma WrittenToLast(s: State, s': State, links: seq<Link>, more: seq<Msg>)
    requires links != [] && Apart(links)
    requires forall l | l in links ::
      StreamOf(s', l) == StreamOf(s, l) + (if l == links[|links| - 1] then more else [])
    ensures Written(s', links) == Written(s, links) + more
  {
    var n := |links| - 1;
    hide StreamOf, Apart;
    forall l | l in links[..n] ensures StreamOf(s', l) == StreamOf(s, l) {
      LastIsElsewhere(links, l);
      assert StreamOf(s, l) + [] == StreamOf(s, l);
    }
    WrittenSame(s, s', links[..n]);
    Grouped(Written(s, links[..n]), StreamOf(s, links[n]), more);
  }

  lemma Grouped(a: seq<Msg>, b: seq<Msg>, c: seq<Msg>)
    ensures a + (b + c) == a + b + c
  {
  }

  lemma WrittenOneMore(s: State, links: seq<Link>, l: Link)
    ensures Written(s, links + [l]) == Written(s, links) + StreamOf(s, l)
  {
    assert (links + [l])[..|links|] == links;
  }

  // ---------------------------------------------------------------- accept

  lemma AcceptKeepsStreams(s: State, fd: int, address: Address, l: Link)
    requires Enabled(s, Accept(fd, address)) && l.fd in s.frames && l.turn <= |PastOf(s.past, l.fd)|
    ensures
      var s' := Step(s, Accept(fd, address));
      && StreamOf(s', l) == StreamOf(s, l)
      && l.fd in s'.frames && l.turn <= |PastOf(s'.past, l.fd)|
      && (l == Latest(s', l.fd) ==> l.fd != fd && l == Latest(s, l.fd))
  {
  }

  lemma AcceptReaches(s: State, claims: map<int, Text>, links: seq<Link>, id: Text, fd: int, address: Address)
    requires Enabled(s, Accept(fd, address)) && IdBound(s, claims, id) && LinksBound(s, claims, id, links)
    ensures
      var s' := Step(s, Accept(fd, address));
      && Written(s', links) == Written(s, links)
      && LinksBound(s', claims - {fd}, id, links)
  {
    var s' := Step(s, Accept(fd, address));
    OpenAfterAccept(s, fd, address);
    assert s'.fds == s.fds && forall k :: IsOnline(s', k) <==> IsOnline(s, k);
    hide IsOpen, IsOnline;
    forall l | l in links ensures StreamOf(s', l) == StreamOf(s, l) && Known(s', claims - {fd}, id, l) {
      assert Known(s, claims, id, l);
      AcceptKeepsStreams(s, fd, address, l);
      if l == Latest(s', l.fd) {
        SoloStays(s, s', id, l.fd);
      }
    }
    if IsOnline(s, id) {
      assert s.fds[id] != fd;
      assert Latest(s', s.fds[id]) == Latest(s, s.fds[id]);
    }
    hide StreamOf, Known;
    WrittenSame(s, s', links);
  }

  // ---------------------------------------------------------------- datagrams

  lemma BroadcastOn(s: State, ids: set<Text>, msg: Msg, l: Link, s': State)
    requires l.fd in s.frames && s'.past == s.past && s'.frames == Broadcast(s.frames, s.fds, ids, msg)
    ensures StreamOf(s', l) == StreamOf(s, l)
      + if l == Latest(s, l.fd) then Copies(msg, |At(s.fds, ids, l.fd)|) else []
  {
  }

  /** Only the client itself can be a recipient on the latest connection of a number it used. */
  lemma RecipientsAt(s: State, claims: map<int, Text>, links: seq<Link>, id: Text, op: Op, l: Link)
    requires TablesAgree(s) && LinksBound(s, claims, id, links)
    requires op.Publish? && l in links && l == Latest(s, l.fd)
    ensures Copies(op.msg, |At(s.fds, Recipients(s.sessions, op.topic), l.fd)|)
      == if l == links[|links| - 1] then Output(s.sessions, op, id) else []
  {
    var ids := Recipients(s.sessions, op.topic);
    var at := At(s.fds, ids, l.fd);
    assert Known(s, claims, id, l);
    assert forall k | k in ids :: IsOnline(s, k);
    assert forall k | k in at :: k == id;
    if id in at {
      assert at == {id};
      assert Copies(op.msg, 1) == [op.msg];
    } else {
      assert at == {};
    }
  }

  lemma DatagramReaches(s: State, claims: map<int, Text>, links: seq<Link>, id: Text, e: Event)
    requires TablesAgree(s) && LinksBound(s, claims, id, links)
    requires Enabled(s, e) && e.Datagram?
    ensures Written(Step(s, e), links) == Written(s, links) + Output(s.sessions, OpOf(s, e), id)
  {
    var op, s' := OpOf(s, e), Step(s, e);
    DatagramMeans(s, e);
    if links == [] {
      assert !IsOnline(s, id);
    } else {
      assert Apart(links);
      forall l | l in links
        ensures StreamOf(s', l) == StreamOf(s, l)
          + if l == links[|links| - 1] then Output(s.sessions, op, id) else []
      {
        LinkReached(s, claims, links, id, op, l, s');
      }
      hide StreamOf, LinksBound, TablesAgree, Step, OpOf, Output;
      WrittenToLast(s, s', links, Output(s.sessions, op, id));
    }
  }

  lemma LinkReached(s: State, claims: map<int, Text>, links: seq<Link>, id: Text, op: Op, l: Link, s': State)
    requires TablesAgree(s) && LinksBound(s, claims, id, links)
    requires op.Publish? && l in links && s'.past == s.past
    requires s'.frames == Broadcast(s.frames, s.fds, Recipients(s.sessions, op.topic), op.msg)
    ensures StreamOf(s', l) == StreamOf(s, l)
      + if l == links[|links| - 1] then Output(s.sessions, op, id) else []
  {
    assert Known(s, claims, id, l);
    BroadcastOn(s, Recipients(s.sessions, op.topic), op.msg, l, s');
    if l == Latest(s, l.fd) {
      hide StreamOf, Broadcast;
      RecipientsAt(s, claims, links, id, op, l);
    } else {
      hide StreamOf, Broadcast, TablesAgree;
      assert IsOnline(s, id) ==> l != links[|links| - 1];
    }
  }

  /** Whatever leaves streams and descriptors as they are and connects nobody. */
  lemma SameLinks(s: State, claims: map<int, Text>, links: seq<Link>, id: Text, s': State)
    requires LinksBound(s, claims, id, links)
    requires s'.past == s.past && s'.frames.Keys == s.frames.Keys && s'.fds == s.fds
    requires forall f | IsOpen(s', f) :: IsOpen(s, f)
    requires forall k | IsOnline(s', k) :: IsOnline(s, k)
    ensures LinksBound(s', claims, id, links)
  {
    hide IsOpen, IsOnline;
    forall l | l in links ensures Known(s', claims, id, l) {
      assert Known(s, claims, id, l);
      if l == Latest(s, l.fd) {
        SoloStays(s, s', id, l.fd);
      }
    }
  }

  // ---------------------------------------------------------------- connecting

  /** A client's streams, and those of everybody else, when it takes a new connection. */
  lemma AttachStreams(s: State, k: Text, fd: int, l: Link)
    requires !IsOnline(s, k) && l != Latest(s, fd)
    ensures StreamOf(Attach(s, k, fd), l) == StreamOf(s, l)
    ensures Latest(Attach(s, k, fd), l.fd) == Latest(s, l.fd)
  {
    AttachMeans(s, k, fd);
    hide Attach;
  }

  lemma AttachNewStream(s: State, id: Text, fd: int)
    requires !IsOnline(s, id) && FramesOf(s.frames, fd) == []
    ensures
      var s' := Attach(s, id, fd);
      && Latest(s', fd) == Latest(s, fd) && StreamOf(s', Latest(s, fd)) == Queue(s.sessions, id)
  {
    AttachMeans(s, id, fd);
    hide Attach;
    assert [] + Queue(s.sessions, id) == Queue(s.sessions, id);
  }

  lemma NotYetLinked(s: State, claims: map<int, Text>, links: seq<Link>, id: Text, fd: int, l: Link)
    requires LinksBound(s, claims, id, links) && l in links
    requires IsOpen(s, fd) && !ClaimedBy(claims, fd, id)
    ensures l != Latest(s, fd)
  {
    assert Known(s, claims, id, l);
  }

  lemma AttachWrites(s: State, claims: map<int, Text>, links: seq<Link>, id: Text, fd: int)
    requires LinksBound(s, claims, id, links)
    requires IsOpen(s, fd) && Untouched(s, claims, id, fd) && !IsOnline(s, id)
    ensures Written(Attach(s, id, fd), links + [Latest(s, fd)]) == Written(s, links) + Queue(s.sessions, id)
  {
    var s', l' := Attach(s, id, fd), Latest(s, fd);
    assert FramesOf(s.frames, fd) == [];
    hide Attach, StreamOf, IsOpen, IsOnline, Latest;
    forall l | l in links ensures StreamOf(s', l) == StreamOf(s, l) {
      NotYetLinked(s, claims, links, id, fd, l);
      AttachStreams(s, id, fd, l);
    }
    WrittenSame(s, s', links);
    WrittenOneMore(s', links, l');
    AttachNewStream(s, id, fd);
  }

  lemma ApartOneMore(links: seq<Link>, l: Link)
    requires Apart(links) && l !in links
    ensures Apart(links + [l])
  {
  }

  lemma AttachSolo(s: State, id: Text, k: Text, fd: int, f: int)
    requires Solo(s, id, f) && !IsOnline(s, k) && (k == id || f != fd)
    ensures Solo(Attach(s, k, fd), id, f)
  {
    AttachMeans(s, k, fd);
    hide Attach, IsOnline;
  }

  lemma AttachLinks(s: State, claims: map<int, Text>, links: seq<Link>, id: Text, fd: int)
    requires LinksBound(s, claims, id, links) && fd in s.frames
    requires IsOpen(s, fd) && Untouched(s, claims, id, fd) && !IsOnline(s, id)
    ensures LinksBound(Attach(s, id, fd), claims[fd := id], id, links + [Latest(s, fd)])
  {
    var s', l' := Attach(s, id, fd), Latest(s, fd);
    AttachMeans(s, id, fd);
    assert forall f :: IsOpen(s', f) <==> IsOpen(s, f);
    hide Attach, IsOpen, IsOnline;
    forall l | l in links ensures l != l' && Known(s', claims[fd := id], id, l) {
      NotYetLinked(s, claims, links, id, fd, l);
      assert Known(s, claims, id, l);
      if l == Latest(s, l.fd) {
        AttachSolo(s, id, id, fd, l.fd);
      }
    }
    AttachSolo(s, id, id, fd, fd);
    assert Known(s', claims[fd := id], id, l');
    ApartOneMore(links, l');
  }

  lemma OthersAttachAside(s: State, claims: map<int, Text>, links: seq<Link>, id: Text, k: Text, fd: int)
    requires LinksBound(s, claims, id, links)
    requires IsOpen(s, fd) && !ClaimedBy(claims, fd, id) && !IsOnline(s, k) && k != id
    ensures Written(Attach(s, k, fd), links) == Written(s, links)
    ensures LinksBound(Attach(s, k, fd), claims[fd := k], id, links)
  {
    var s' := Attach(s, k, fd);
    AttachMeans(s, k, fd);
    assert forall f :: IsOpen(s', f) <==> IsOpen(s, f);
    hide Attach, IsOpen, IsOnline;
    forall l | l in links ensures StreamOf(s', l) == StreamOf(s, l) && Known(s', claims[fd := k], id, l) {
      NotYetLinked(s, claims, links, id, fd, l);
      AttachStreams(s, k, fd, l);
      assert Known(s, claims, id, l);
      if l == Latest(s, l.fd) {
        OthersElsewhere(s, claims, id, fd, l);
        AttachSolo(s, id, k, fd, l.fd);
      }
    }
    hide StreamOf, Known;
    WrittenSame(s, s', links);
  }

  lemma OthersElsewhere(s: State, claims: map<int, Text>, id: Text, fd: int, l: Link)
    requires Known(s, claims, id, l) && l == Latest(s, l.fd)
    requires IsOpen(s, fd) && !ClaimedBy(claims, fd, id)
    ensures l.fd != fd
  {
  }

  lemma RejectedAside(s: State, claims: map<int, Text>, links: seq<Link>, id: Text, k: Text, index: nat)
    requires TablesAgree(s) && LinksBound(s, claims, id, links)
    requires FIXED <= index < |s.polls| && !ClaimedBy(claims, s.polls[index], id)
    ensures Written(Drop(s, index), links) == Written(s, links)
    ensures LinksBound(Drop(s, index), claims[s.polls[index] := k], id, links)
  {
    var s' := Drop(s, index);
    OpenAfterDrop(s, index);
    assert forall k :: IsOnline(s', k) <==> IsOnline(s, k);
    assert s'.past == s.past && s'.frames == s.frames && s'.fds == s.fds;
    hide Drop, IsOpen, IsOnline, TablesAgree;
    forall l | l in links
      ensures StreamOf(s', l) == StreamOf(s, l) && Known(s', claims[s.polls[index] := k], id, l)
    {
      assert Known(s, claims, id, l);
      if l == Latest(s, l.fd) {
        SoloStays(s, s', id, l.fd);
      }
    }
    hide StreamOf, Known;
    WrittenSame(s, s', links);
  }

  lemma ConnectReaches(s: State, claims: map<int, Text>, links: seq<Link>, id: Text, index: nat, r: Request)
    requires TablesAgree(s) && LinksBound(s, claims, id, links)
    requires Enabled(s, Ask(index, r)) && r.kind == MESSAGE && Spares(s, claims, id, Ask(index, r))
    ensures
      var e := Ask(index, r);
      var links' := links + NewLink(s, e, id);
      && Written(Step(s, e), links') == Written(s, links) + Output(s.sessions, OpOf(s, e), id)
      && LinksBound(Step(s, e), ClaimsAfter(s, claims, e), id, links')
  {
    var fd, k := s.polls[index], ClientId(r);
    ConnectMeans(s, index, r);
    OpenAt(s, index);
    JoinOutput(s, index, r, id);
    assert fd in s.frames;
    assert NewLink(s, Ask(index, r), id) == if k == id && !IsOnline(s, id) then [Latest(s, fd)] else [];
    assert ClaimsAfter(s, claims, Ask(index, r)) == claims[fd := k];
    hide Step, LinksBound, Untouched, TablesAgree, Written, IsOpen, IsOnline, Attach, Drop, Output, OpOf;
    hide NewLink, ClaimsAfter, Latest, Enabled, ClientId;
    assert links + [] == links && Written(s, links) + [] == Written(s, links);
    if IsOnline(s, k) {
      RejectedAside(s, claims, links, id, k, index);
    } else if k == id {
      AttachWrites(s, claims, links, id, fd);
      AttachLinks(s, claims, links, id, fd);
    } else {
      OthersAttachAside(s, claims, links, id, k, fd);
    }
  }

  lemma JoinOutput(s: State, index: nat, r: Request, id: Text)
    requires Enabled(s, Ask(index, r)) && r.kind == MESSAGE
    ensures Output(s.sessions, OpOf(s, Ask(index, r)), id) ==
      if ClientId(r) == id && !IsOnline(s, id) then Queue(s.sessions, id) else []
  {
  }

  // ---------------------------------------------------------------- everything else

  lemma OtherReaches(s: State, claims: map<int, Text>, links: seq<Link>, id: Text, e: Event)
    requires TablesAgree(s) && LinksBound(s, claims, id, links)
    requires Enabled(s, e) && (e.Hangup? || (e.Ask? && e.request.kind != MESSAGE))
    ensures Written(Step(s, e), links) == Written(s, links)
    ensures LinksBound(Step(s, e), claims, id, links)
  {
    var s' := Step(s, e);
    OtherMeans(s, e, id);
    OtherOpens(s, e);
    hide Step, TablesAgree, IsOpen, IsOnline;
    SameLinks(s, claims, links, id, s');
    WrittenSame(s, s', links);
  }

  // ---------------------------------------------------------------- one event, all events

  /** One event that respects the client writes to its current connection exactly what the broker
      sends it. */
  lemma StepWrites(s: State, claims: map<int, Text>, links: seq<Link>, id: Text, e: Event)
    requires TablesAgree(s) && IdBound(s, claims, id) && LinksBound(s, claims, id, links)
    requires Enabled(s, e) && Spares(s, claims, id, e)
    ensures Written(Step(s, e), links + NewLink(s, e, id)) == Written(s, links) + Output(s.sessions, OpOf(s, e), id)
    ensures LinksBound(Step(s, e), ClaimsAfter(s, claims, e), id, links + NewLink(s, e, id))
  {
    if e.Ask? && e.request.kind == MESSAGE {
      hide TablesAgree, IdBound, LinksBound, Written, Output, Step, OpOf, NewLink, Spares;
      ConnectReaches(s, claims, links, id, e.index, e.request);
    } else {
      StepWritesAside(s, claims, links, id, e);
      assert links + [] == links;
    }
  }

  lemma StepWritesAside(s: State, claims: map<int, Text>, links: seq<Link>, id: Text, e: Event)
    requires TablesAgree(s) && IdBound(s, claims, id) && LinksBound(s, claims, id, links)
    requires Enabled(s, e) && !(e.Ask? && e.request.kind == MESSAGE)
    ensures NewLink(s, e, id) == []
    ensures Written(Step(s, e), links) == Written(s, links) + Output(s.sessions, OpOf(s, e), id)
    ensures LinksBound(Step(s, e), ClaimsAfter(s, claims, e), id, links)
  {
    assert Written(s, links) + [] == Written(s, links);
    if e.Datagram? {
      DatagramMeans(s, e);
      assert forall f :: IsOpen(Step(s, e), f) <==> IsOpen(s, f);
      hide TablesAgree, IdBound, LinksBound, Written, Output, Step, OpOf, IsOnline, IsOpen;
      DatagramReaches(s, claims, links, id, e);
      SameLinks(s, claims, links, id, Step(s, e));
    } else if e.Accept? {
      assert Output(s.sessions, OpOf(s, e), id) == [];
      hide TablesAgree, IdBound, LinksBound, Written, Output, Step, OpOf;
      AcceptReaches(s, claims, links, id, e.fd, e.address);
    } else {
      hide TablesAgree, IdBound, LinksBound, Written, Output, Step, OpOf;
      OtherMeans(s, e, id);
      OtherReaches(s, claims, links, id, e);
    }
  }

  /** Over every run that leaves the client undisturbed, what was written to its connections, in
      the order of the connections, is what the broker sent to it. */
  lemma {:induction false} WrittenIsSent(s: State, es: seq<Event>, id: Text)
    requires Fresh(s) && Legal(s, es) && Undisturbed(s, es, id)
    ensures Written(After(s, es), Links(s, es, id)) == Sent(map[], Ops(s, es), id)
    ensures LinksBound(After(s, es), Claims(s, es), id, Links(s, es, id))
    decreases |es|
  {
    if es != [] {
      var n := |es| - 1;
      WrittenIsSent(s, es[..n], id);
      ReachableTables(s, es[..n]);
      UndisturbedBound(s, es[..n], id);
      SentStep(s, es, id);
      hide TablesAgree, IdBound, LinksBound, Written, Sent, Output;
      hide Step, OpOf, Enabled, NewLink, ClaimsAfter, Spares;
      StepWrites(After(s, es[..n]), Claims(s, es[..n]), Links(s, es[..n], id), id, es[n]);
    }
  }

  lemma SentStep(s: State, es: seq<Event>, id: Text)
    requires Fresh(s) && Legal(s, es) && es != []
    ensures
      var n := |es| - 1;
      var before := After(s, es[..n]);
      Sent(map[], Ops(s, es), id) == Sent(map[], Ops(s, es[..n]), id) + Output(before.sessions, OpOf(before, es[n]), id)
  {
    var n := |es| - 1;
    RunIsBrokerRun(s, es[..n]);
    hide Enabled, OpOf, Step, Output, Run, After, Legal;
    var ops := Ops(s, es);
    assert ops[..|ops| - 1] == Ops(s, es[..n]);
  }
}
