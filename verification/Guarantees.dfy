/** What the state machine's and the broker's theorems say about the server's own heap: its client
    records, subscriber lists, shared messages and counts, after any run. */
module Guarantees {
  import opened Bytes
  import opened Broker
  import opened Machine
  import opened Rounds
  import opened Server
  import opened ServerLoop
  import opened Store

  /** The broker operations of a run. */
  ghost function Operations(io: Sockets, es: seq<Event>): seq<Op>
    requires Legal(Start(io), es)
  {
    Ops(Start(io), es)
  }

  lemma SessionsAre(s: ServerState, io: Sockets, es: seq<Event>)
    requires HasRun(s, io, es)
    ensures s.Sessions() == Run(map[], Operations(io, es)) && Numbered(Operations(io, es))
  {
    RunIsBrokerRun(Start(io), es);
    OpsNumbered(Start(io), es);
    hide Legal, After;
    assert s.View().sessions == s.Sessions();
  }

  /** No socket is leaked and none is closed that is still in use: besides standard input the open
      descriptors are exactly those of the poll list. */
  lemma OpenSockets(s: ServerState, io: Sockets, es: seq<Event>, fd: int)
    requires ThreeApart(io) && HasRun(s, io, es)
    ensures fd in s.openFds <==> fd in After(Start(io), es).polls && fd != 0
  {
    TablesAlwaysAgree(io.udp, io.listen, STDIN, es);
    var polls := After(Start(io), es).polls;
    assert s.SocketsOpen() && s.View().polls == polls;
    hide Legal, After, TablesAgree;
    assert polls[2] == polls[..FIXED][2];
  }

  lemma RecordIs(s: ServerState, id: Text)
    ensures id in s.Sessions() <==> id in s.clients
    ensures id in s.clients ==> s.Sessions()[id] == s.clients[id].Snapshot()
  {
  }

  /** Delivery, on the heap: whatever was sent to a client over the run, followed by the messages
      its record points to, is what the client was due, in order; a connected client's record
      points to none. */
  lemma HeapDelivery(s: ServerState, io: Sockets, es: seq<Event>, id: Text)
    requires HasRun(s, io, es) && id in s.clients
    ensures
      var ops := Operations(io, es);
      && Sent(map[], ops, id) + Values(s.clients[id].lostMessages) == Due(map[], ops, id)
      && Ascending(Due(map[], ops, id))
    ensures s.clients[id].connected ==> s.clients[id].lostMessages == []
  {
    var ops := Operations(io, es);
    SessionsAre(s, io, es);
    RecordIs(s, id);
    hide HasRun, Run, Sent, Due;
    Delivery(map[], ops, id);
    RunTidy(map[], ops);
    DueAscending(map[], ops, id);
    assert Queue(map[], id) + Due(map[], ops, id) == Due(map[], ops, id);
    assert s.clients[id].connected ==> |Values(s.clients[id].lostMessages)| == 0;
  }

  /** The two records of every subscription agree, and both say what the client's latest accepted
      request about the pattern said. */
  lemma SubscriptionsAgree(s: ServerState, io: Sockets, es: seq<Event>, id: Text, p: Text, sf: bool)
    requires HasRun(s, io, es) && id in s.clients
    ensures p in s.subscriptions && s.clients[id] in s.subscriptions[p] <==> p in s.clients[id].topics
    ensures p in s.subscriptions ==> NoRepeats(s.subscriptions[p])
    ensures p in s.clients[id].topics && s.clients[id].topics[p] == sf <==>
      exists n: nat :: Standing(Operations(io, es), id, p, n) && Operations(io, es)[n].sf == sf
  {
    var ops := Operations(io, es);
    SessionsAre(s, io, es);
    RecordIs(s, id);
    FlagIsLatest(ops, id, p, sf);
    hide Legal, After, Standing, Run;
    assert s.clients[id] in Members(s.SubscribersOf(p)) <==> p in s.clients[id].topics;
    assert Holds(s.Sessions(), id, p, sf) <==> p in s.clients[id].topics && s.clients[id].topics[p] == sf;
  }
}
