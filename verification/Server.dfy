/** The server's state and its handlers (server.h:25-29, server.cpp:83-345), which update maps,
    client records and reference counts in place. Each handler is proved to make exactly the
    step that Machine describes and to keep the redundant tables in agreement. */
module Server {
  import opened Bytes
  import opened Broker
  import opened Machine
  import opened Rounds
  import opened Store
  import opened Wire
  import Envelope
  import Frames
  import Matcher
  import Order

  ghost predicate OpenExactly(open: set<int>, polls: seq<int>) {
    && FIXED <= |polls| && Distinct(polls)
    && forall f :: f in open <==> f in polls && f != polls[2]
  }

  lemma OpenOneMore(open: set<int>, polls: seq<int>, fd: int)
    requires OpenExactly(open, polls) && fd !in polls
    ensures OpenExactly(open + {fd}, polls + [fd])
  {
  }

  lemma OpenOneFewer(open: set<int>, polls: seq<int>, index: nat)
    requires OpenExactly(open, polls) && FIXED <= index < |polls|
    ensures OpenExactly(open - {polls[index]}, Without(polls, index))
  {
    WithoutKeepsDistinct(polls, index);
    var p' := Without(polls, index);
    assert p'[2] == polls[2];
    forall f ensures f in p' <==> f in polls && f != polls[index] {
      WithoutDrops(polls, index, f);
    }
  }

  class ServerState {
    var clients: map<Text, TcpClient>
    var subscriptions: map<Text, seq<TcpClient>>
    var clientAddresses: map<int, Address>
    var pollFds: seq<PollFd>

    /** The bytes written to the latest connection on each descriptor number, those written to
        earlier ones, and the messages they stand for. */
    var wire: map<int, Text>
    var pastWire: map<int, seq<Text>>
    ghost var frames: map<int, seq<Msg>>
    ghost var past: map<int, seq<seq<Msg>>>

    /** The sockets that are open. */
    var openFds: set<int>

    /** The number of datagrams received, and the heap: what new made and delete did not free. */
    ghost var published: nat
    ghost var live: set<StoredMessage>
    ghost var liveClients: set<TcpClient>

    // -------------------------------------------------------------- abstraction

    ghost function Sessions(): Sessions
      reads this`clients, clients.Values`connected, clients.Values`topics, clients.Values`lostMessages
    {
      SessionsOf(clients)
    }

    ghost function Fds(): map<Text, int>
      reads this`clients, clients.Values`fd
    {
      FdsOf(clients)
    }

    ghost function Polls(): (r: seq<int>)
      reads this`pollFds
      ensures |r| == |pollFds|
    {
      Descriptors(pollFds)
    }

    ghost function View(): State
      reads this`clients, this`clientAddresses, this`pollFds, this`frames, this`past, this`published, clients.Values
    {
      State(Sessions(), Fds(), clientAddresses, Polls(), frames, past, published)
    }

    ghost function Queued(): Queues
      reads this`clients, clients.Values`lostMessages
    {
      QueuesOf(clients)
    }

    // -------------------------------------------------------------- invariants

    ghost predicate Named()
      reads this`clients
    {
      forall k | k in clients :: clients[k].id == k
    }

    /** The subscriber lists and the clients' own topic maps say the same, without repeats. */
    ghost predicate IndexAgrees()
      reads this`clients, this`subscriptions, clients.Values`topics
    {
      && (forall p | p in subscriptions :: NoRepeats(subscriptions[p]))
      && (forall p :: Members(SubscribersOf(p)) <= clients.Values)
      && (forall p, k | k in clients :: clients[k] in Members(SubscribersOf(p)) <==> p in clients[k].topics)
    }

    /** Every queued message is live, no queue repeats one, and each count is the number of
        clients that queue the message. */
    ghost predicate Counted(qs: Queues)
      reads this`live, live
    {
      && (forall k, m | k in qs && m in qs[k] :: m in live)
      && (forall k | k in qs :: NoRepeats(qs[k]))
      && (forall m | m in live :: m.c == |Holders(qs, m)|)
    }

    /** Every live message is queued somewhere. */
    ghost predicate AllHeld(qs: Queues)
      reads this`live
    {
      forall m | m in live :: Holders(qs, m) != {}
    }

    ghost predicate Intact()
      reads this`live
    {
      forall m | m in live :: m.len == |m.buff| && Frames.Sendable(m.buff)
    }

    /** The bytes on each descriptor are the frames of the messages written to it. */
    ghost predicate Wired()
      reads this`wire, this`frames
    {
      Matched(wire, frames)
    }

    /** The same for the connections that ended before their number was given out again. */
    ghost predicate Archived()
      reads this`pastWire, this`past
    {
      MatchedPast(pastWire, past)
    }

    /** The open sockets are those of the poll list, where standard input is no socket. */
    ghost predicate SocketsOpen()
      reads this`openFds, this`pollFds
    {
      OpenExactly(openFds, Polls())
    }

    ghost predicate EntriesIn(streams: set<int>)
      reads this`pollFds
    {
      FIXED <= |pollFds| && forall i | FIXED <= i < |pollFds| :: pollFds[i].fd in streams
    }

    /** The descriptors in use have a stream. */
    ghost predicate Plugged(streams: set<int>)
      reads this`pollFds, this`clients, clients.Values`fd
    {
      EntriesIn(streams) && FdsIn(Fds(), streams)
    }

    lemma ClientsPlugged()
      requires Plugged(frames.Keys)
      ensures forall k | k in clients :: clients[k].fd in frames
    {
      forall k | k in clients ensures clients[k].fd in frames {
        assert Fds()[k] == clients[k].fd;
      }
    }

    ghost predicate Valid()
      reads this, clients.Values, live
    {
      && Named()
      && IndexAgrees()
      && Counted(Queued())
      && AllHeld(Queued())
      && Intact()
      && Wired()
      && Archived()
      && SocketsOpen()
      && Plugged(frames.Keys)
      && liveClients == clients.Values
    }

    constructor (udp: int, listen: int, stdin: int)
      requires udp != listen && udp != stdin && listen != stdin
      ensures Valid()
      ensures View() == Initial(udp, listen, stdin)
      ensures clients == map[] && live == {}
      ensures pollFds == [PollFd(udp, false, false), PollFd(listen, false, false), PollFd(stdin, false, false)]
      ensures fresh(live)
    {
      clients, subscriptions, clientAddresses := map[], map[], map[];
      pollFds := [PollFd(udp, false, false), PollFd(listen, false, false), PollFd(stdin, false, false)];
      wire, pastWire, frames, past := map[], map[], map[], map[];
      openFds := {udp, listen};
      published, live, liveClients := 0, {}, {};
      new;
      assert Polls() == [udp, listen, stdin];
    }

    // -------------------------------------------------------------- writing to sockets

    /** send_all (common.cpp:20-32): whatever part of the rest each send takes, in the end the
        whole buffer has been written, once and in order. */
    method SendAll(fd: int, data: Text)
      requires fd in wire
      modifies this`wire
      ensures wire == old(wire)[fd := old(wire[fd]) + data]
    {
      var total := 0;
      assert data[..0] == [];
      assert wire[fd] + [] == wire[fd];
      assert wire == wire[fd := wire[fd]];
      while total < |data|
        invariant 0 <= total <= |data|
        invariant wire == old(wire)[fd := old(wire[fd]) + data[..total]]
      {
        var rc :| 1 <= rc <= |data| - total;
        assert data[..total + rc] == data[..total] + data[total..total + rc];
        wire := wire[fd := wire[fd] + data[total..total + rc]];
        assert wire[fd] == old(wire[fd]) + data[..total + rc];
        total := total + rc;
      }
      assert data[..total] == data;
    }

    /** The two send_all calls that write a stored message (server.cpp:140-141, 238-239). */
    method SendMessage(fd: int, m: StoredMessage)
      requires m in live && m.len == |m.buff| && Frames.Sendable(m.buff)
      requires Wired() && fd in frames
      modifies this`wire, this`frames
      ensures Wired()
      ensures frames == old(frames)[fd := old(frames[fd]) + [m.Value()]]
    {
      StreamGrows(frames[fd], m.Value());
      SendAll(fd, EncodeInt(m.len));
      SendAll(fd, m.buff);
      frames := frames[fd := frames[fd] + [m.Value()]];
    }

    // -------------------------------------------------------------- connections

    /** A new connection starts with an empty stream; that of an earlier one on the same number
        is kept as it is. */
    method OpenStream(fd: int)
      requires Wired() && Archived()
      modifies this`wire, this`frames, this`pastWire, this`past
      ensures Wired() && Archived()
      ensures frames == old(frames)[fd := []] && past == Shelved(old(past), old(frames), fd)
    {
      EmptyStream();
      ShelvingMatches(fd);
      hide Stream, AllFit, MatchedPast, Shelved;
      pastWire, past := Shelved(pastWire, wire, fd), Shelved(past, frames, fd);
      wire, frames := wire[fd := []], frames[fd := []];
    }

    lemma ShelvingMatches(fd: int)
      requires Wired() && Archived()
      ensures MatchedPast(Shelved(pastWire, wire, fd), Shelved(past, frames, fd))
    {
      if fd in frames {
        NothingMatches();
        hide Stream, AllFit, AllMatched;
        assert AllMatched(PastOf(pastWire, fd), PastOf(past, fd));
        MatchedOneMore(PastOf(pastWire, fd), PastOf(past, fd), wire[fd], frames[fd]);
      }
    }

    lemma NothingMatches()
      ensures AllMatched([], [])
    {
    }

    /** handle_new_connection after accept. */
    method HandleNewConnection(fd: int, address: Address)
      requires Valid() && Enabled(View(), Accept(fd, address))
      modifies this`clientAddresses, this`pollFds, this`openFds, this`wire, this`frames, this`pastWire, this`past
      ensures Valid()
      ensures View() == Step(old(View()), Accept(fd, address))
      ensures pollFds == old(pollFds) + [PollFd(fd, false, false)]
    {
      hide Sessions, Fds, Queued, IndexAgrees, Counted, AllHeld, Named, Intact, Wired, Archived, Shelved;
      ghost var s := View();
      AcceptStep(s, fd, address);
      OpenOneMore(openFds, s.polls, fd);
      hide Step, Enabled, OpenExactly;
      openFds := openFds + {fd};
      clientAddresses := clientAddresses[fd := address];
      pollFds := pollFds + [PollFd(fd, false, false)];
      OpenStream(fd);
      assert Polls() == s.polls + [fd];
    }

    /** close, client_addresses.erase and poll_fds.erase, as every removal does them. */
    method RemoveEntry(fd: int, index: nat)
      requires Valid() && FIXED <= index < |pollFds| && pollFds[index].fd == fd
      modifies this`clientAddresses, this`pollFds, this`openFds
      ensures Valid()
      ensures View() == Drop(old(View()), index)
      ensures pollFds == old(pollFds)[..index] + old(pollFds)[index + 1..]
    {
      hide Sessions, Fds, Queued, IndexAgrees, Counted, AllHeld, Named, Intact, Wired, Archived, OpenExactly;
      ghost var s := View();
      OpenOneFewer(openFds, s.polls, index);
      openFds := openFds - {fd};
      clientAddresses := clientAddresses - {fd};
      pollFds := pollFds[..index] + pollFds[index + 1..];
      assert Polls() == Without(s.polls, index);
      assert s.polls == s.polls[..index] + [fd] + s.polls[index + 1..];
      assert View() == s.(addresses := s.addresses - {fd}, polls := Without(s.polls, index));
    }

    /** handle_client_disconnect: the first record in map order that stores the descriptor. */
    method HandleClientDisconnect(fd: int, index: nat)
      requires Valid() && Enabled(View(), Hangup(index)) && pollFds[index].fd == fd
      modifies this`clientAddresses, this`pollFds, this`openFds, clients.Values`connected
      ensures Valid()
      ensures View() == Step(old(View()), Hangup(index))
      ensures clients == old(clients) && live == old(live)
      ensures pollFds == old(pollFds)[..index] + old(pollFds)[index + 1..]
    {
      hide Sessions, Fds, Queued, Named, IndexAgrees, Counted, AllHeld, Intact, Wired, Archived, SocketsOpen, Plugged;
      ghost var s := View();
      var clientIdToMark := FindByFd(fd);
      if clientIdToMark != [] {
        MarkGone(clientIdToMark);
      }
      assert View() == s.(sessions := Apply(s.sessions, OpOf(s, Hangup(index))));
      RemoveEntry(fd, index);
    }

    /** The loop of handle_client_disconnect; the empty string stands for "none". */
    method FindByFd(fd: int) returns (found: Text)
      ensures found == (match OwnerOf(Fds(), fd) case None => [] case Some(id) => id)
      ensures found != [] ==> found in clients
    {
      ghost var bound := Bound(Fds(), fd);
      var todo := clients.Keys;
      while todo != {}
        invariant todo <= clients.Keys
        invariant bound <= todo
        decreases |todo|
      {
        var id := Order.First(todo);
        if clients[id].fd == fd {
          assert Order.IsLeast(id, bound);
          Order.LeastUnique(id, OwnerOf(Fds(), fd).value, bound);
          return id;
        }
        todo := todo - {id};
      }
      found := [];
    }

    /** state.clients[id]->connected = false. */
    method MarkGone(id: Text)
      requires Valid() && id in clients
      modifies clients.Values`connected
      ensures Valid()
      ensures View() == old(View()).(sessions := Apply(old(View()).sessions, Leave(id)))
    {
      hide Sessions, Fds, Queued, IndexAgrees, Counted, AllHeld, Intact, Wired, Archived, SocketsOpen, Plugged;
      SetGone(clients[id]);
    }

    /** client->connected = false. */
    method SetGone(client: TcpClient)
      requires Named() && client in clients.Values
      modifies client`connected
      ensures client.id in old(Sessions())
      ensures Sessions() == old(Sessions())[client.id := old(Sessions())[client.id].(online := false)]
    {
      hide Values;
      assert forall k | k in clients && k != client.id :: clients[k] != client;
      client.connected := false;
    }

    // -------------------------------------------------------------- requests

    /** Who subscribes to a pattern. */
    ghost function SubscribersOf(p: Text): (r: seq<TcpClient>)
      reads this`subscriptions
    {
      if p in subscriptions then subscriptions[p] else []
    }

    /** server.cpp:270-283. */
    method Enlist(client: TcpClient, topic: Text)
      requires forall p | p in subscriptions :: NoRepeats(subscriptions[p])
      modifies this`subscriptions
      ensures forall p | p in subscriptions :: NoRepeats(subscriptions[p])
      ensures subscriptions.Keys == old(subscriptions.Keys) + {topic}
      ensures forall p | p != topic :: SubscribersOf(p) == old(SubscribersOf(p))
      ensures Members(SubscribersOf(topic)) == Members(old(SubscribersOf(topic))) + {client}
    {
      var found := false;
      if topic in subscriptions {
        found := Contains(subscriptions[topic], client);
      }
      if !found {
        var subscribers := if topic in subscriptions then subscriptions[topic] else [];
        subscriptions := subscriptions[topic := subscribers + [client]];
      }
    }

    /** server.cpp:298-305. */
    method Delist(client: TcpClient, topic: Text)
      requires forall p | p in subscriptions :: NoRepeats(subscriptions[p])
      modifies this`subscriptions
      ensures forall p | p in subscriptions :: NoRepeats(subscriptions[p])
      ensures subscriptions.Keys == old(subscriptions.Keys)
      ensures forall p | p != topic :: SubscribersOf(p) == old(SubscribersOf(p))
      ensures Members(SubscribersOf(topic)) == Members(old(SubscribersOf(topic))) - {client}
    {
      if topic in subscriptions {
        RemovedHolds(subscriptions[topic], client);
        var subscribers := RemoveAll(subscriptions[topic], client);
        subscriptions := subscriptions[topic := subscribers];
      }
    }

    /** client->topics = topics. */
    method SetTopics(client: TcpClient, topics: map<Text, bool>)
      requires Named() && client in clients.Values
      modifies client`topics
      ensures client.topics == topics
      ensures client.id in old(Sessions())
      ensures Sessions() == old(Sessions())[client.id := old(Sessions())[client.id].(topics := topics)]
    {
      hide Values;
      assert forall k | k in clients && k != client.id :: clients[k] != client;
      client.topics := topics;
    }

    method AddSubscription(client: TcpClient, topic: Text, sf: bool)
      requires Named() && IndexAgrees() && client in clients.Values
      modifies this`subscriptions, client`topics
      ensures IndexAgrees()
      ensures client.topics == old(client.topics)[topic := sf]
      ensures client.id in old(Sessions())
      ensures Sessions() == old(Sessions())[client.id := old(Sessions())[client.id].(topics := client.topics)]
    {
      hide SubscribersOf, Members, NoRepeats, Sessions;
      Enlist(client, topic);
      SetTopics(client, client.topics[topic := sf]);
      assert forall k | k in clients && k != client.id :: clients[k] != client;
    }

    method RemoveSubscription(client: TcpClient, topic: Text)
      requires Named() && IndexAgrees() && client in clients.Values
      modifies this`subscriptions, client`topics
      ensures IndexAgrees()
      ensures client.topics == old(client.topics) - {topic}
      ensures client.id in old(Sessions())
      ensures Sessions() == old(Sessions())[client.id := old(Sessions())[client.id].(topics := client.topics)]
    {
      hide SubscribersOf, Members, NoRepeats, Sessions;
      Delist(client, topic);
      SetTopics(client, client.topics - {topic});
      assert forall k | k in clients && k != client.id :: clients[k] != client;
    }

    lemma ClientSession(id: Text)
      ensures id in Sessions() <==> id in clients
      ensures id in clients ==> Sessions()[id] == clients[id].Snapshot()
    {
    }

    method HandleSubscribe(id: Text, topic: Text, sf: bool)
      requires Valid()
      modifies this`subscriptions, clients.Values`topics
      ensures Valid()
      ensures View() == old(View()).(sessions := Apply(old(View()).sessions, Subscribe(id, topic, sf)))
    {
      ClientSession(id);
      hide Sessions, Fds, Queued, IndexAgrees, Counted, AllHeld, Intact, Wired, Archived, SocketsOpen, Plugged, Polls;
      if id in clients {
        AddSubscription(clients[id], topic, sf);
      }
    }

    method HandleUnsubscribe(id: Text, topic: Text)
      requires Valid()
      modifies this`subscriptions, clients.Values`topics
      ensures Valid()
      ensures View() == old(View()).(sessions := Apply(old(View()).sessions, Unsubscribe(id, topic)))
    {
      ClientSession(id);
      hide Sessions, Fds, Queued, IndexAgrees, Counted, AllHeld, Intact, Wired, Archived, SocketsOpen, Plugged, Polls;
      if id in clients {
        RemoveSubscription(clients[id], topic);
      }
    }

    // -------------------------------------------------------------- reference counts

    /** --message->c, and delete when it reaches zero, for the first message of one queue. */
    method DropReference(m: StoredMessage, k: Text, ghost qs: Queues)
      requires Counted(qs) && AllHeld(qs)
      requires k in qs && qs[k] != [] && qs[k][0] == m
      modifies this`live, m`c
      ensures Counted(qs[k := qs[k][1..]]) && AllHeld(qs[k := qs[k][1..]])
      ensures live <= old(live)
    {
      ghost var qs' := qs[k := qs[k][1..]];
      assert m in qs[k];
      forall x | x in live
        ensures Holders(qs', x) == if x == m then Holders(qs, x) - {k} else Holders(qs, x)
        ensures x == m ==> |Holders(qs', x)| == |Holders(qs, x)| - 1
        ensures NoRepeats(qs'[k])
      {
        HoldersAfterHead(qs, k, x);
      }
      assert forall x | x in qs'[k] :: x in qs[k];
      m.c := m.c - 1;
      if m.c == 0 {
        live := live - {m};
        assert Holders(qs', m) == {};
        forall j | j in qs' ensures m !in qs'[j] {
          assert j !in Holders(qs', m);
        }
      }
    }

    /** Everything stored for a client goes out on a descriptor, in order, and the queue's
        references are given up (server.cpp:236-244). No freed message is touched: the one
        in hand is live until its own reference is dropped. */
    method SendStored(fd: int, id: Text, lost: seq<StoredMessage>, ghost qs: Queues)
      requires id in qs && qs[id] == lost
      requires Counted(qs) && AllHeld(qs) && Intact() && Wired() && fd in frames
      modifies this`wire, this`frames, this`live, live`c
      ensures Counted(qs[id := []]) && AllHeld(qs[id := []]) && Intact() && Wired()
      ensures frames == old(frames)[fd := old(frames[fd]) + Values(lost)]
      ensures live <= old(live)
    {
      hide Wired, Counted, AllHeld;
      ghost var f0 := frames;
      var i := 0;
      assert qs[id := lost[0..]] == qs;
      assert f0[fd] + Values(lost[..0]) == f0[fd];
      assert f0 == f0[fd := f0[fd]];
      while i < |lost|
        invariant i <= |lost|
        invariant Counted(qs[id := lost[i..]]) && AllHeld(qs[id := lost[i..]])
        invariant Intact() && Wired() && live <= old(live)
        invariant frames == f0[fd := f0[fd] + Values(lost[..i])]
      {
        var m := lost[i];
        ghost var rest := qs[id := lost[i..]];
        QueuedIsLive(rest, id, m);
        OneFewer(qs, id, lost, i);
        OneSentMore(f0[fd], lost, i);
        SendMessage(fd, m);
        DropReference(m, id, rest);
        i := i + 1;
      }
      assert lost[..|lost|] == lost && lost[|lost|..] == [];
    }

    lemma QueuedIsLive(qs: Queues, id: Text, m: StoredMessage)
      requires Counted(qs) && Intact() && id in qs && m in qs[id]
      ensures m in live && m.len == |m.buff| && Frames.Sendable(m.buff)
    {
    }

    lemma NamedHas(client: TcpClient)
      requires Named() && client in clients.Values
      ensures client.id in Queued() && Queued()[client.id] == client.lostMessages
      ensures client.id in Sessions()
    {
    }

    method TakeOver(client: TcpClient, fd: int)
      requires Named() && client in clients.Values
      modifies client`fd, client`connected
      ensures client.fd == fd && client.connected
      ensures Sessions() == old(Sessions())[client.id := old(Sessions())[client.id].(online := true)]
      ensures Fds() == old(Fds())[client.id := fd]
    {
      assert forall k | k in clients && k != client.id :: clients[k] != client;
      client.fd := fd;
      client.connected := true;
    }

    method ClearQueue(client: TcpClient)
      requires Named() && client in clients.Values
      modifies client`lostMessages
      ensures client.lostMessages == []
      ensures Sessions() == old(Sessions())[client.id := old(Sessions())[client.id].(queue := [])]
      ensures Queued() == old(Queued())[client.id := []]
    {
      assert forall k | k in clients && k != client.id :: clients[k] != client;
      client.lostMessages := [];
      assert Values([]) == [];
    }

    /** Sending what is stored and clearing the queue (server.cpp:236-245). */
    method FlushQueue(client: TcpClient, fd: int)
      requires Named() && client in clients.Values
      requires Counted(Queued()) && AllHeld(Queued()) && Intact() && Wired() && fd in frames
      modifies this`wire, this`frames, this`live, live`c, client`lostMessages
      ensures Counted(Queued()) && AllHeld(Queued()) && Intact() && Wired()
      ensures frames == old(frames)[fd := old(frames[fd]) + Values(old(client.lostMessages))]
      ensures live <= old(live)
      ensures client.id in old(Sessions())
      ensures Sessions() == old(Sessions())[client.id := old(Sessions())[client.id].(queue := [])]
    {
      hide Wired, Counted, AllHeld, Intact, Named, Values;
      ghost var qs, b := Queued(), Sessions();
      NamedHas(client);
      hide Queued, Sessions;
      SendStored(fd, client.id, client.lostMessages, qs);
      assert Queued() == qs && Sessions() == b;
      ClearQueue(client);
    }

    /** A client that comes back: its record takes the new descriptor, and its queue is sent
        and cleared (server.cpp:228-246). */
    method Reattach(client: TcpClient, fd: int)
      requires Named() && client in clients.Values
      requires Counted(Queued()) && AllHeld(Queued()) && Intact() && Wired() && fd in frames
      modifies this`wire, this`frames, this`live, live`c
      modifies client`fd, client`connected, client`lostMessages
      ensures Counted(Queued()) && AllHeld(Queued()) && Intact() && Wired()
      ensures frames == old(frames)[fd := old(frames[fd]) + Values(old(client.lostMessages))]
      ensures live <= old(live)
      ensures client.fd == fd && client.id in old(Sessions())
      ensures Sessions() == old(Sessions())[client.id := old(Sessions())[client.id].(online := true, queue := [])]
      ensures Fds() == old(Fds())[client.id := fd]
    {
      hide Wired, Counted, AllHeld, Intact, Fds, Named, Values;
      NamedHas(client);
      hide Queued, Sessions;
      ghost var b := Sessions();
      TakeOver(client, fd);
      ghost var b1 := Sessions();
      FlushQueue(client, fd);
      BackOnline(b, client.id, b1, Sessions());
    }

    lemma BackOnline(b: Sessions, id: Text, b1: Sessions, b2: Sessions)
      requires id in b && b1 == b[id := b[id].(online := true)] && b2 == b1[id := b1[id].(queue := [])]
      ensures b2 == b[id := b[id].(online := true, queue := [])]
    {
    }

    // -------------------------------------------------------------- publishing

    /** The state of a publication while it is being handed out: each client in `stored` has
        the message at the end of its queue and no other queue has changed; the count is the
        number of these clients; each client in `got` has one copy on its descriptor. */
    ghost predicate Distributing(m: StoredMessage, q0: Queues, f0: map<int, seq<Msg>>,
                                 got: set<Text>, stored: set<Text>)
      reads this`clients, clients.Values`lostMessages, clients.Values`fd, this`wire, this`frames, m
    {
      && GrownBy(q0, Queued(), m, stored)
      && m.c == |stored|
      && frames == Broadcast(f0, Fds(), got, m.Value())
      && Wired()
    }

    /** The local set message_recipients holds the clients whose ids are in `got`. */
    ghost predicate Recorded(recipients: set<TcpClient>, got: set<Text>)
      reads this`clients
    {
      forall k | k in clients :: clients[k] in recipients <==> k in got
    }

    /** server.cpp:137-143. */
    method OfferNow(client: TcpClient, m: StoredMessage, recipients: set<TcpClient>,
                    ghost q0: Queues, ghost f0: map<int, seq<Msg>>, ghost got: set<Text>, ghost stored: set<Text>)
      returns (recipients': set<TcpClient>)
      requires Named() && client in clients.Values && client.fd in f0
      requires m in live && m.len == |m.buff| && Frames.Sendable(m.buff)
      requires Recorded(recipients, got) && Distributing(m, q0, f0, got, stored)
      modifies this`wire, this`frames
      ensures Recorded(recipients', got + {client.id})
      ensures Distributing(m, q0, f0, got + {client.id}, stored)
    {
      hide Wired, Broadcast, GrownBy, Queued;
      recipients' := recipients;
      if client !in recipients {
        recipients' := recipients + {client};
        BroadcastOneMore(f0, Fds(), got, client.id, m.Value());
        SendMessage(client.fd, m);
      } else {
        assert got + {client.id} == got;
      }
    }

    /** server.cpp:144-158. */
    method OfferLater(client: TcpClient, m: StoredMessage,
                      ghost q0: Queues, ghost f0: map<int, seq<Msg>>, ghost got: set<Text>, ghost stored: set<Text>)
      requires Named() && client in clients.Values && m in live
      requires Distributing(m, q0, f0, got, stored)
      modifies client`lostMessages, m`c
      ensures Distributing(m, q0, f0, got, stored + {client.id})
    {
      hide Wired, Broadcast, GrownBy;
      ghost var q := Queued();
      var alreadyStored := Contains(client.lostMessages, m);
      GrownHolds(q0, q, m, stored, client.id);
      if !alreadyStored {
        GrowOneMore(q0, q, m, stored, client.id);
        m.c := m.c + 1;
        client.lostMessages := client.lostMessages + [m];
        assert Queued() == q[client.id := q[client.id] + [m]];
      } else {
        assert stored + {client.id} == stored;
      }
    }

    /** One subscriber of a matching pattern (server.cpp:134-159). The guard of the source never
        skips anybody here, because the subscriber lists and the topic maps agree. */
    method Offer(client: TcpClient, pattern: Text, m: StoredMessage, recipients: set<TcpClient>,
                 ghost q0: Queues, ghost f0: map<int, seq<Msg>>, ghost got: set<Text>, ghost stored: set<Text>)
      returns (recipients': set<TcpClient>, ghost got': set<Text>, ghost stored': set<Text>)
      requires Named() && client in clients.Values && client.fd in f0
      requires pattern in client.topics
      requires m in live && m.len == |m.buff| && Frames.Sendable(m.buff)
      requires Recorded(recipients, got) && Distributing(m, q0, f0, got, stored)
      modifies this`wire, this`frames, client`lostMessages, m`c
      ensures Recorded(recipients', got') && Distributing(m, q0, f0, got', stored')
      ensures got' == if client.connected then got + {client.id} else got
      ensures stored' == if !client.connected && client.topics[pattern] then stored + {client.id} else stored
    {
      hide Distributing, Recorded;
      recipients', got', stored' := recipients, got, stored;
      if pattern in client.topics {
        if client.connected {
          recipients' := OfferNow(client, m, recipients, q0, f0, got, stored);
          got' := got + {client.id};
        } else if client.topics[pattern] {
          OfferLater(client, m, q0, f0, got, stored);
          stored' := stored + {client.id};
        }
      }
    }

    /** The client records agree with b on who is connected and who holds which pattern. */
    ghost predicate SameStatus(b: Sessions)
      reads this`clients, clients.Values`connected, clients.Values`topics
    {
      && b.Keys == clients.Keys
      && forall k | k in clients :: b[k].online == clients[k].connected && b[k].topics == clients[k].topics
    }

    /** All subscribers of a matching pattern (server.cpp:134-159). */
    method Distribute(pattern: Text, m: StoredMessage, recipients: set<TcpClient>, ghost b: Sessions,
                      ghost q0: Queues, ghost f0: map<int, seq<Msg>>, ghost got: set<Text>, ghost stored: set<Text>)
      returns (recipients': set<TcpClient>, ghost got': set<Text>, ghost stored': set<Text>)
      requires Named() && IndexAgrees() && SameStatus(b) && pattern in subscriptions
      requires forall k | k in clients :: clients[k].fd in f0
      requires m in live && m.len == |m.buff| && Frames.Sendable(m.buff)
      requires Recorded(recipients, got) && Distributing(m, q0, f0, got, stored)
      modifies this`wire, this`frames, clients.Values`lostMessages, m`c
      ensures Recorded(recipients', got') && Distributing(m, q0, f0, got', stored')
      ensures got' == got + Takers(b, pattern)
      ensures stored' == stored + Keepers(b, pattern)
    {
      hide Distributing, Recorded, IndexAgrees, SameStatus, Takers, Keepers, IdsOf;
      var subscribers := subscriptions[pattern];
      recipients', got', stored' := recipients, got, stored;
      SubscribersAre(pattern, b);
      assert IdsOf(subscribers[..0]) == {} by { NoIds(); }
      for i := 0 to |subscribers|
        invariant Recorded(recipients', got') && Distributing(m, q0, f0, got', stored')
        invariant got' == got + Takers(b, pattern) * IdsOf(subscribers[..i])
        invariant stored' == stored + Keepers(b, pattern) * IdsOf(subscribers[..i])
      {
        var client := subscribers[i];
        IdsOfAppend(subscribers[..i], client);
        assert subscribers[..i + 1] == subscribers[..i] + [client];
        OneIdMore(got, Takers(b, pattern), IdsOf(subscribers[..i]), client.id, got');
        OneIdMore(stored, Keepers(b, pattern), IdsOf(subscribers[..i]), client.id, stored');
        recipients', got', stored' := Offer(client, pattern, m, recipients', q0, f0, got', stored');
      }
      assert subscribers[..|subscribers|] == subscribers;
      assert Takers(b, pattern) * IdsOf(subscribers) == Takers(b, pattern);
      assert Keepers(b, pattern) * IdsOf(subscribers) == Keepers(b, pattern);
    }

    lemma SubscribersAre(pattern: Text, b: Sessions)
      requires Named() && IndexAgrees() && SameStatus(b) && pattern in subscriptions
      ensures forall c | c in subscriptions[pattern] ::
        && c in clients.Values && clients[c.id] == c && pattern in c.topics
        && (c.id in Takers(b, pattern) <==> c.connected)
        && (c.id in Keepers(b, pattern) <==> !c.connected && c.topics[pattern])
      ensures Takers(b, pattern) <= IdsOf(subscriptions[pattern])
      ensures Keepers(b, pattern) <= IdsOf(subscriptions[pattern])
    {
      assert SubscribersOf(pattern) == subscriptions[pattern];
      forall k | k in clients && pattern in clients[k].topics ensures k in IdsOf(subscriptions[pattern]) {
        assert clients[k] in Members(SubscribersOf(pattern));
        assert clients[k].id == k;
      }
      forall c | c in subscriptions[pattern]
        ensures c in clients.Values && clients[c.id] == c && pattern in c.topics
      {
        assert c in Members(SubscribersOf(pattern));
      }
    }

    /** Where the loop over the subscription map stands once some patterns are done. */
    ghost predicate Progress(topic: Text, m: StoredMessage, b: Sessions, q0: Queues, f0: map<int, seq<Msg>>,
                             recipients: set<TcpClient>, done: set<Text>)
      reads this`clients, clients.Values`lostMessages, clients.Values`fd, this`wire, this`frames, m
    {
      && Recorded(recipients, Reached(b, topic, done))
      && Distributing(m, q0, f0, Reached(b, topic, done), Kept(b, topic, done))
    }

    /** One pattern of the subscription map (server.cpp:133-160). */
    method DistributePattern(pattern: Text, topic: Text, m: StoredMessage, recipients: set<TcpClient>,
                             ghost b: Sessions, ghost q0: Queues, ghost f0: map<int, seq<Msg>>, ghost done: set<Text>)
      returns (recipients': set<TcpClient>)
      requires Named() && IndexAgrees() && SameStatus(b) && pattern in subscriptions
      requires forall k | k in clients :: clients[k].fd in f0
      requires m in live && m.len == |m.buff| && Frames.Sendable(m.buff)
      requires Progress(topic, m, b, q0, f0, recipients, done)
      modifies this`wire, this`frames, clients.Values`lostMessages, m`c
      ensures Progress(topic, m, b, q0, f0, recipients', done + {pattern})
    {
      hide Distributing, Recorded, IndexAgrees, SameStatus, Reached, Kept, Takers, Keepers;
      hide Matcher.Routes, Matcher.Means, Matcher.HasStarLevel;
      recipients' := recipients;
      OnePatternMore(b, topic, done, pattern);
      ghost var got, stored := Reached(b, topic, done), Kept(b, topic, done);
      var matches := Matcher.TopicMatchesPattern(topic, pattern);
      if matches {
        recipients', got, stored := Distribute(pattern, m, recipients, b, q0, f0, got, stored);
      }
      assert got == Reached(b, topic, done + {pattern}) && stored == Kept(b, topic, done + {pattern});
    }

    lemma NothingDone(topic: Text, m: StoredMessage, b: Sessions, q0: Queues, f0: map<int, seq<Msg>>)
      requires Distributing(m, q0, f0, {}, {})
      ensures Progress(topic, m, b, q0, f0, {}, {})
    {
      hide Distributing;
      NoPatterns(b, topic);
    }

    /** The loop over the subscription map, whatever order it is walked in
        (server.cpp:128-161). */
    method DistributeAll(topic: Text, m: StoredMessage, ghost b: Sessions, ghost q0: Queues,
                         ghost f0: map<int, seq<Msg>>)
      returns (messageRecipients: set<TcpClient>)
      requires Named() && IndexAgrees() && SameStatus(b)
      requires forall k | k in clients :: clients[k].fd in f0
      requires m in live && m.len == |m.buff| && Frames.Sendable(m.buff)
      requires Distributing(m, q0, f0, {}, {})
      modifies this`wire, this`frames, clients.Values`lostMessages, m`c
      ensures Progress(topic, m, b, q0, f0, messageRecipients, subscriptions.Keys)
    {
      hide Progress, Distributing, IndexAgrees, SameStatus;
      messageRecipients := {};
      var todo := subscriptions.Keys;
      ghost var done: set<Text> := {};
      NothingDone(topic, m, b, q0, f0);
      while todo != {}
        invariant todo <= subscriptions.Keys && done == subscriptions.Keys - todo
        invariant Progress(topic, m, b, q0, f0, messageRecipients, done)
        decreases |todo|
      {
        var pattern :| pattern in todo;
        messageRecipients := DistributePattern(pattern, topic, m, messageRecipients, b, q0, f0, done);
        todo, done := todo - {pattern}, done + {pattern};
      }
      assert done == subscriptions.Keys;
    }

    lemma GrowthCounts(q0: Queues, m: StoredMessage, stored: set<Text>)
      requires CountedBut(m, q0) && m.c == |stored| && GrownBy(q0, Queued(), m, stored)
      ensures Counted(Queued())
      ensures forall x | x in live && x != m :: Holders(Queued(), x) != {}
    {
      forall x ensures Holders(Queued(), x) == if x == m then stored else Holders(q0, x) {
        HoldersAfterGrowth(q0, Queued(), m, stored, x);
      }
      HoldersAfterGrowth(q0, Queued(), m, stored, m);
      forall k | k in Queued()
        ensures Queued()[k] == if k in stored then q0[k] + [m] else q0[k]
      {
      }
    }

    /** Handing out the message made of the sessions what Publish makes of them. */
    lemma GrowthIsPublish(b: Sessions, topic: Text, m: StoredMessage, q0: Queues)
      requires SameStatus(b) && q0.Keys == clients.Keys
      requires forall k | k in clients :: b[k].queue == Values(q0[k])
      requires GrownBy(q0, Queued(), m, Waiting(b, topic))
      ensures Sessions() == Apply(b, Publish(topic, m.Value()))
    {
      hide GetsLater;
      forall k | k in clients ensures clients[k].Snapshot() == AfterPublish(b[k], topic, m.Value()) {
        ValuesAppend(q0[k], m);
        assert Queued()[k] == q0[k] + if GetsLater(b[k], topic) then [m] else [];
      }
    }

    lemma NothingHandedOut(m: StoredMessage)
      requires Wired() && m.c == 0
      requires forall k | k in clients :: m !in clients[k].lostMessages
      ensures Distributing(m, Queued(), frames, {}, {})
    {
      BroadcastNone(frames, Fds(), m.Value());
    }

    /** What has been handed out once every pattern is done. */
    lemma AllHandedOut(topic: Text, m: StoredMessage, b: Sessions, q0: Queues, f0: map<int, seq<Msg>>,
                       recipients: set<TcpClient>)
      requires Progress(topic, m, b, q0, f0, recipients, subscriptions.Keys)
      requires IndexAgrees() && SameStatus(b)
      ensures GrownBy(q0, Queued(), m, Waiting(b, topic)) && m.c == |Waiting(b, topic)|
      ensures frames == Broadcast(f0, Fds(), Recipients(b, topic), m.Value()) && Wired()
    {
      hide GrownBy, Broadcast, Wired, Reached, Kept, GetsNow, GetsLater;
      forall k, p | k in clients && p in clients[k].topics ensures p in subscriptions.Keys {
        assert clients[k] in Members(SubscribersOf(p));
      }
      AllPatterns(b, topic, subscriptions.Keys);
    }

    /** Apart from a message nobody queues yet, the counts are those of these queues. */
    ghost predicate CountedBut(m: StoredMessage, qs: Queues)
      reads this`live, live - {m}
    {
      && m in live
      && (forall x | x in live - {m} :: x.c == |Holders(qs, x)| && Holders(qs, x) != {})
      && (forall k, x | k in qs && x in qs[k] :: x in live && x != m)
      && (forall k | k in qs :: NoRepeats(qs[k]))
    }

    /** new stored_message_t, numbered and not yet queued by anybody. */
    method Allocate(buff: Text, ghost qs: Queues) returns (message: StoredMessage)
      requires Counted(qs) && AllHeld(qs) && Intact() && Frames.Sendable(buff)
      modifies this`live, this`published
      ensures fresh(message) && message.Value() == Msg(old(published), buff) && message.c == 0
      ensures published == old(published) + 1
      ensures live == old(live) + {message}
      ensures CountedBut(message, qs) && Intact()
    {
      message := new StoredMessage(buff, published);
      live := live + {message};
      published := published + 1;
    }

    /** if (message->c == 0) delete message. */
    method DeleteIfUnused(message: StoredMessage, ghost qs: Queues)
      requires message in live
      requires Counted(qs) && forall x | x in live && x != message :: Holders(qs, x) != {}
      modifies this`live
      ensures Counted(qs) && AllHeld(qs)
      ensures live <= old(live)
    {
      if message.c == 0 {
        forall k | k in qs && message in live ensures message !in qs[k] {
          assert k !in Holders(qs, message);
        }
        live := live - {message};
      }
    }

    /** server.cpp:128-161: the message goes to every client it concerns exactly once. */
    method HandOut(topic: Text, message: StoredMessage, ghost b: Sessions, ghost q0: Queues,
                   ghost f0: map<int, seq<Msg>>)
      requires Named() && IndexAgrees() && b == Sessions() && q0 == Queued() && f0 == frames
      requires message in live && message.len == |message.buff| && Frames.Sendable(message.buff)
      requires message.c == 0 && forall k | k in clients :: message !in clients[k].lostMessages
      requires Wired()
      requires forall k | k in clients :: clients[k].fd in frames
      modifies this`wire, this`frames, clients.Values`lostMessages, message`c
      ensures GrownBy(q0, Queued(), message, Waiting(b, topic)) && message.c == |Waiting(b, topic)|
      ensures Wired()
      ensures Sessions() == Apply(b, Publish(topic, message.Value()))
      ensures frames == Broadcast(f0, Fds(), Recipients(b, topic), message.Value())
    {
      hide IndexAgrees, Wired, Broadcast, Distributing, Progress, GrownBy, Waiting, Recipients, SameStatus, Apply;
      StatusIsSame();
      assert forall k | k in clients :: b[k].queue == Values(q0[k]);
      hide Sessions;
      NothingHandedOut(message);
      var recipients := DistributeAll(topic, message, b, q0, f0);
      AllHandedOut(topic, message, b, q0, f0, recipients);
      GrowthIsPublish(b, topic, message, q0);
    }

    /** server.cpp:128-166: handing out, and deleting again if nobody queues the message. */
    method HandOutOrDelete(topic: Text, message: StoredMessage)
      requires Named() && IndexAgrees() && Intact() && Wired()
      requires CountedBut(message, Queued()) && message.c == 0
      requires forall k | k in clients :: clients[k].fd in frames
      modifies this`wire, this`frames, this`live, clients.Values`lostMessages, message`c
      ensures Counted(Queued()) && AllHeld(Queued()) && Wired()
      ensures live <= old(live)
      ensures Sessions() == Apply(old(Sessions()), Publish(topic, message.Value()))
      ensures frames == Broadcast(old(frames), Fds(), Recipients(old(Sessions()), topic), message.Value())
    {
      hide Named, IndexAgrees, Wired, Broadcast, Recipients, Waiting, Sessions, Fds, Apply, Counted, AllHeld, GrownBy;
      ghost var b, q0, f0 := Sessions(), Queued(), frames;
      assert forall k | k in clients :: q0[k] == clients[k].lostMessages;
      HandOut(topic, message, b, q0, f0);
      hide CountedBut, Queued;
      GrowthCounts(q0, message, Waiting(b, topic));
      DeleteIfUnused(message, Queued());
    }

    /** The life of one message, from its allocation on. */
    method PublishMessage(topic: Text, buff: Text)
      requires Named() && IndexAgrees() && Intact() && Wired()
      requires Counted(Queued()) && AllHeld(Queued())
      requires Frames.Sendable(buff)
      requires forall k | k in clients :: clients[k].fd in frames
      modifies this`wire, this`frames, this`live, this`published, clients.Values`lostMessages
      ensures Counted(Queued()) && AllHeld(Queued()) && Intact() && Wired()
      ensures fresh(live - old(live)) && published == old(published) + 1
      ensures Sessions() == Apply(old(Sessions()), Publish(topic, Msg(old(published), buff)))
      ensures frames == Broadcast(old(frames), Fds(), Recipients(old(Sessions()), topic), Msg(old(published), buff))
    {
      hide Named, IndexAgrees, Wired, Broadcast, Recipients, Sessions, Queued, Fds, Apply, Counted, AllHeld, CountedBut;
      var message := Allocate(buff, Queued());
      HandOutOrDelete(topic, message);
    }

    /** server.cpp:111-166, seen from outside. */
    method SpreadMessage(topic: Text, buff: Text)
      requires Valid() && Frames.Sendable(buff)
      modifies this`wire, this`frames, this`live, this`published, clients.Values`lostMessages
      ensures Valid()
      ensures View() == Spread(old(View()), topic, buff)
      ensures fresh(live - old(live))
    {
      hide Named, IndexAgrees, Wired, Intact, Archived, SocketsOpen, Broadcast, Recipients, Sessions, Queued, Fds;
      hide Apply, Counted, AllHeld, Polls, Frames.Sendable;
      ClientsPlugged();
      hide Plugged;
      PublishMessage(topic, buff);
    }

    /** process_udp_message after recvfrom. */
    method ProcessUdpMessage(ip: Text, port: Text, data: Text, residue: Text)
      requires Valid() && Enabled(View(), Datagram(ip, port, data, residue))
      modifies this`wire, this`frames, this`live, this`published, clients.Values`lostMessages
      ensures Valid()
      ensures View() == Step(old(View()), Datagram(ip, port, data, residue))
      ensures fresh(live - old(live))
    {
      hide Valid, View, Step, Enabled, Spread, Envelope.Build, Envelope.RoutedTopic;
      DatagramStep(View(), ip, port, data, residue);
      SpreadMessage(Envelope.RoutedTopic(data, residue), Envelope.Build(ip, port, data));
    }

    lemma StatusIsSame()
      ensures SameStatus(Sessions())
      ensures forall k | k in clients :: Sessions()[k].queue == Values(Queued()[k])
    {
    }

    // -------------------------------------------------------------- MESSAGE and the dispatch

    /** A client seen for the first time (server.cpp:247-259). */
    method AddClient(id: Text, fd: int)
      requires Valid() && id !in clients && fd in frames
      modifies this`clients, this`liveClients
      ensures Valid()
      ensures fresh(clients.Values - old(clients.Values))
      ensures View() == Bind(old(View()), id, fd)
    {
      assert id !in View().sessions;
      NewClientBinds(View(), id, fd);
      hide Valid, View, Bind;
      Record(id, fd);
    }

    method Record(id: Text, fd: int)
      requires Valid() && id !in clients && fd in frames
      modifies this`clients, this`liveClients
      ensures Valid()
      ensures fresh(clients.Values - old(clients.Values))
      ensures View() == old(View()).(sessions := old(View()).sessions[id := Session(true, map[], [])],
                                     fds := old(View()).fds[id := fd])
    {
      hide Named, Intact, Wired, Archived, SocketsOpen, IndexAgrees, Counted, AllHeld, Plugged, Sessions, Fds;
      EmptyQueueHoldsNothing(Queued(), id);
      hide Queued;
      var newClient := new TcpClient(id, fd);
      assert newClient.Snapshot() == Session(true, map[], []);
      Register(id, newClient);
    }

    lemma NewClientBinds(s: State, id: Text, fd: int)
      requires id !in s.sessions && fd in s.frames
      ensures Bind(s, id, fd) == s.(sessions := s.sessions[id := Session(true, map[], [])], fds := s.fds[id := fd])
    {
      assert s.frames[fd] + [] == s.frames[fd];
      assert s.frames == s.frames[fd := s.frames[fd]];
    }

    /** state.clients[client_id] = new_client. */
    method Insert(id: Text, client: TcpClient)
      requires id !in clients
      modifies this`clients
      ensures clients == old(clients)[id := client] && clients.Values == old(clients.Values) + {client}
      ensures Sessions() == old(Sessions())[id := client.Snapshot()]
      ensures Fds() == old(Fds())[id := client.fd]
      ensures Queued() == old(Queued())[id := client.lostMessages]
    {
      hide SessionsOf, FdsOf, QueuesOf;
      OneValueMore(clients, id, client);
      OneClientMore(clients, id, client);
      clients := clients[id := client];
    }

    /** The new record is known to nobody's subscriber list yet. */
    method Register(id: Text, client: TcpClient)
      requires Named() && IndexAgrees() && Plugged(frames.Keys) && liveClients == clients.Values
      requires id !in clients && client !in clients.Values && client.id == id && client.topics == map[]
      requires client.fd in frames
      modifies this`clients, this`liveClients
      ensures Named() && IndexAgrees() && Plugged(frames.Keys) && liveClients == clients.Values
      ensures clients == old(clients)[id := client]
      ensures clients.Values == old(clients.Values) + {client}
      ensures Sessions() == old(Sessions())[id := client.Snapshot()]
      ensures Fds() == old(Fds())[id := client.fd]
      ensures Queued() == old(Queued())[id := client.lostMessages]
    {
      hide SubscribersOf, NoRepeats, Sessions, Fds, Queued;
      Insert(id, client);
      liveClients := liveClients + {client};
    }

    lemma EmptyQueueHoldsNothing(qs: Queues, id: Text)
      requires Counted(qs) && AllHeld(qs) && id !in qs
      ensures Counted(qs[id := []]) && AllHeld(qs[id := []])
    {
      forall m | m in live ensures Holders(qs[id := []], m) == Holders(qs, m) {
        HoldersWithoutEmpty(qs, id, m);
      }
    }

    /** state.client_addresses[fd]. */
    method TouchAddress(fd: int)
      requires Valid()
      modifies this`clientAddresses
      ensures Valid()
      ensures View() == old(View()).(addresses := LookUp(old(View()).addresses, fd))
    {
      hide Named, Intact, Wired, Archived, SocketsOpen, IndexAgrees, Counted, AllHeld;
      hide Queued, Fds, Sessions, Plugged, Polls;
      clientAddresses := LookUp(clientAddresses, fd);
    }

    /** A client that is not connected takes the descriptor (server.cpp:227-259). */
    method HandleConnect(id: Text, fd: int)
      requires Valid() && fd in frames
      requires id in clients ==> !clients[id].connected
      modifies this, clients.Values, live
      ensures Valid()
      ensures View() == Attach(old(View()), id, fd)
      ensures fresh(clients.Values - old(clients.Values)) && live <= old(live)
      ensures pollFds == old(pollFds)
    {
      hide Valid, View, Bind, LookUp;
      TouchAddress(fd);
      if id in clients {
        ReattachKnown(id, fd);
      } else {
        AddClient(id, fd);
      }
    }

    lemma ConnectedIsOnline(id: Text)
      ensures IsOnline(View(), id) <==> id in clients && clients[id].connected
    {
    }

    /** The MESSAGE case of handle_client_request: a duplicate is thrown out, a known client
        comes back, a new one is recorded (server.cpp:217-261). */
    method HandleMessage(id: Text, fd: int, index: nat)
      requires Valid() && FIXED <= index < |pollFds| && pollFds[index].fd == fd
      modifies this, clients.Values, live
      ensures Valid()
      ensures View() == if IsOnline(old(View()), id) then Drop(old(View()), index) else Attach(old(View()), id, fd)
      ensures fresh(clients.Values - old(clients.Values)) && live <= old(live)
      ensures pollFds == if old(id in clients && clients[id].connected)
        then old(pollFds)[..index] + old(pollFds)[index + 1..] else old(pollFds)
    {
      hide Valid, View, IsOnline, Attach, Drop;
      EntryHasStream(index);
      ConnectedIsOnline(id);
      if id in clients && clients[id].connected {
        RemoveEntry(fd, index);
      } else {
        HandleConnect(id, fd);
      }
    }

    lemma EntryHasStream(index: nat)
      requires Valid() && FIXED <= index < |pollFds|
      ensures pollFds[index].fd in frames
    {
    }

    /** Reattach with its effect on the view. */
    method ReattachKnown(id: Text, fd: int)
      requires Valid() && id in clients && !clients[id].connected && fd in frames
      modifies this`wire, this`frames, this`live, live`c
      modifies clients.Values`fd, clients.Values`connected, clients.Values`lostMessages
      ensures Valid()
      ensures View() == Bind(old(View()), id, fd)
      ensures live <= old(live)
    {
      hide Intact, Wired, Archived, SocketsOpen, IndexAgrees, Counted, AllHeld, Queued, Polls, Sessions, Fds, Bind;
      hide FdsIn, EntriesIn;
      ghost var s := View();
      KnownIs(s, id, fd);
      assert clients[id].id == id;
      Reattach(clients[id], fd);
    }

    lemma KnownIs(s: State, id: Text, fd: int)
      requires s == View() && Plugged(frames.Keys)
      requires id in clients && !clients[id].connected && fd in frames
      ensures id in Sessions() && Sessions()[id].queue == Values(clients[id].lostMessages)
      ensures Bind(s, id, fd) ==
        s.(sessions := Sessions()[id := Sessions()[id].(online := true, queue := [])], fds := Fds()[id := fd],
           frames := frames[fd := frames[fd] + Values(clients[id].lostMessages)])
      ensures frames[fd := frames[fd] + Values(clients[id].lostMessages)].Keys == frames.Keys
      ensures FdsIn(Fds()[id := fd], frames.Keys)
    {
      ClientSession(id);
      KnownBinds(s, id, fd);
      FdsInOneMore(Fds(), frames.Keys, id, fd);
    }

    lemma KnownBinds(s: State, id: Text, fd: int)
      requires id in s.sessions && !s.sessions[id].online && fd in s.frames
      ensures Bind(s, id, fd) ==
        s.(sessions := s.sessions[id := s.sessions[id].(online := true, queue := [])], fds := s.fds[id := fd],
           frames := s.frames[fd := s.frames[fd] + s.sessions[id].queue])
      ensures s.frames[fd := s.frames[fd] + s.sessions[id].queue].Keys == s.frames.Keys
    {
    }

    /** The EXIT case (server.cpp:313-323). */
    method HandleExit(id: Text, fd: int, index: nat)
      requires Valid() && FIXED <= index < |pollFds| && pollFds[index].fd == fd
      modifies this`clientAddresses, this`pollFds, this`openFds, clients.Values`connected
      ensures Valid()
      ensures View() == Drop(old(View()).(sessions := Apply(old(View()).sessions, Leave(id))), index)
      ensures pollFds == old(pollFds)[..index] + old(pollFds)[index + 1..]
    {
      hide Named, Intact, Wired, Archived, SocketsOpen, IndexAgrees, Counted, AllHeld, Queued, Fds, Plugged;
      if id in clients {
        MarkGone(id);
      }
      hide Sessions;
      RemoveEntry(fd, index);
    }

    /** handle_client_request: nothing in the request is trusted, and whatever it holds the
        server makes exactly the step of the state machine. */
    method HandleClientRequest(fd: int, request: Request, index: nat)
      requires Valid() && Enabled(View(), Ask(index, request)) && pollFds[index].fd == fd
      modifies this, clients.Values, live
      ensures Valid()
      ensures View() == Step(old(View()), Ask(index, request))
      ensures fresh(clients.Values - old(clients.Values)) && live <= old(live)
      ensures pollFds == old(pollFds) || pollFds == old(pollFds)[..index] + old(pollFds)[index + 1..]
    {
      hide Valid, View, Step, Enabled, Drop, Attach, Apply, IsOnline;
      AskIs(index, request);
      var clientId := ClientId(request);
      if request.kind == MESSAGE {
        HandleMessage(clientId, fd, index);
      } else if request.kind == SUBSCRIBE {
        HandleSubscribe(clientId, TopicOf(request), request.sf);
      } else if request.kind == UNSUBSCRIBE {
        HandleUnsubscribe(clientId, TopicOf(request));
      } else if request.kind == EXIT {
        HandleExit(clientId, fd, index);
      }
    }

    lemma AskIs(index: nat, r: Request)
      requires Enabled(View(), Ask(index, r))
      ensures FIXED <= index < |pollFds| && View().polls[index] == pollFds[index].fd
      ensures
        var s, id := View(), ClientId(r);
        Step(s, Ask(index, r)) ==
          if r.kind == MESSAGE then
            if IsOnline(s, id) then Drop(s, index) else Attach(s, id, pollFds[index].fd)
          else if r.kind == EXIT then Drop(s.(sessions := Apply(s.sessions, Leave(id))), index)
          else if r.kind == SUBSCRIBE then s.(sessions := Apply(s.sessions, Subscribe(id, TopicOf(r), r.sf)))
          else if r.kind == UNSUBSCRIBE then s.(sessions := Apply(s.sessions, Unsubscribe(id, TopicOf(r))))
          else s
    {
      hide Sessions, Drop, Attach, IsOnline;
    }

    // -------------------------------------------------------------- shutdown

    /** The notices written so far: one for each client in `told`, on its descriptor. */
    ghost predicate Notified(told: set<Text>)
      reads this`wire, this`frames, this`clients, clients.Values`fd
    {
      && wire.Keys == frames.Keys
      && forall f | f in frames :: AllFit(frames[f]) && wire[f] == Stream(frames[f]) + Notices(|At(Fds(), told, f)|)
    }

    ghost function OnlineIds(): set<Text>
      reads this`clients, clients.Values`connected
    {
      set k | k in clients && clients[k].connected
    }

    /** server.cpp:177-186. */
    method NotifyAll()
      requires Wired() && Plugged(frames.Keys)
      modifies this`wire
      ensures Notified(OnlineIds())
    {
      var todo := clients.Keys;
      ghost var told, done: set<Text> := {}, {};
      ClientsPlugged();
      hide Plugged;
      NobodyTold();
      hide Stream, Wired, Frames.Notice, OnlineIds;
      while todo != {}
        invariant todo <= clients.Keys && done == clients.Keys - todo
        invariant told == OnlineIds() * done
        invariant Notified(told)
        decreases todo
      {
        var id :| id in todo;
        OneIdMore({}, OnlineIds(), done, id, told);
        assert id in OnlineIds() <==> clients[id].connected by { OnlineIs(id); }
        if clients[id].connected {
          NotifyOne(id, told);
          told := told + {id};
        }
        todo, done := todo - {id}, done + {id};
      }
      assert done == clients.Keys;
      EverybodyTold(told, done);
    }

    lemma OnlineIs(id: Text)
      requires id in clients
      ensures id in OnlineIds() <==> clients[id].connected
    {
    }

    lemma EverybodyTold(told: set<Text>, done: set<Text>)
      requires told == OnlineIds() * done && done == clients.Keys
      ensures told == OnlineIds()
    {
      assert OnlineIds() <= clients.Keys;
      assert OnlineIds() * done == OnlineIds();
    }

    method NotifyOne(id: Text, ghost told: set<Text>)
      requires id in clients && id !in told && clients[id].fd in frames
      requires Notified(told)
      modifies this`wire
      ensures Notified(told + {id})
    {
      ghost var before := wire;
      SendAll(clients[id].fd, Frames.Notice());
      OneMoreTold(told, id, before);
    }

    lemma NobodyTold()
      requires Wired()
      ensures Notified({})
    {
      forall f | f in frames ensures Notices(|At(Fds(), {}, f)|) == [] && Stream(frames[f]) + [] == wire[f] {
        assert At(Fds(), {}, f) == {};
      }
    }

    lemma OneMoreTold(told: set<Text>, id: Text, before: map<int, Text>)
      requires id in clients && id !in told && clients[id].fd in before
      requires before.Keys == frames.Keys
      requires forall f | f in frames ::
        AllFit(frames[f]) && before[f] == Stream(frames[f]) + Notices(|At(Fds(), told, f)|)
      requires wire == before[clients[id].fd := before[clients[id].fd] + Frames.Notice()]
      ensures Notified(told + {id})
    {
      ghost var fds := Fds();
      assert id in fds && fds[id] == clients[id].fd;
      hide Fds, At, Stream, Notices, AllFit, Frames.Notice;
      forall f | f in frames ensures wire[f] == Stream(frames[f]) + Notices(|At(fds, told + {id}, f)|) {
        AtOneMore(fds, told, id, f);
        NoticeMore(Stream(frames[f]), |At(fds, told, f)|);
      }
    }

    /** One client's queue gives up its references; each message is deleted with its last one. */
    method ReleaseQueue(id: Text, lost: seq<StoredMessage>, ghost qs: Queues)
      requires id in qs && qs[id] == lost
      requires Counted(qs) && AllHeld(qs)
      modifies this`live, live`c
      ensures Counted(qs - {id}) && AllHeld(qs - {id})
      ensures live <= old(live)
    {
      var i := 0;
      assert qs[id := lost[0..]] == qs;
      hide Counted, AllHeld;
      while i < |lost|
        invariant i <= |lost|
        invariant Counted(qs[id := lost[i..]]) && AllHeld(qs[id := lost[i..]])
        invariant live <= old(live)
      {
        ghost var rest := qs[id := lost[i..]];
        OneFewer(qs, id, lost, i);
        DropReference(lost[i], id, rest);
        i := i + 1;
      }
      assert lost[|lost|..] == [];
      assert qs[id := []] - {id} == qs - {id};
      LeaveEmptyQueue(qs[id := []], id);
    }

    lemma LeaveEmptyQueue(qs: Queues, id: Text)
      requires Counted(qs) && AllHeld(qs)
      requires id in qs && qs[id] == []
      ensures Counted(qs - {id}) && AllHeld(qs - {id})
    {
      forall m | m in live ensures Holders(qs - {id}, m) == Holders(qs, m) {
        HoldersWithoutEmpty(qs, id, m);
      }
    }

    /** The clients not yet deleted are those still to be visited. */
    ghost predicate Remaining(todo: set<Text>, qs: Queues)
      reads this`clients, this`liveClients, clients.Values`lostMessages
    {
      && todo <= clients.Keys
      && qs.Keys == todo
      && (forall k | k in todo :: qs[k] == clients[k].lostMessages)
      && (forall c | c in liveClients :: c in clients.Values && c.id in todo)
      && (forall k | k in todo :: clients[k] in liveClients)
    }

    /** One round of the outer loop: the queue is released, then the record is deleted. */
    method FreeClient(id: Text, ghost todo: set<Text>, ghost qs: Queues)
      requires Named() && Remaining(todo, qs) && id in todo
      requires Counted(qs) && AllHeld(qs)
      modifies this`live, this`liveClients, live`c
      ensures Remaining(todo - {id}, qs - {id})
      ensures Counted(qs - {id}) && AllHeld(qs - {id})
      ensures live <= old(live)
    {
      hide Counted, AllHeld;
      var client := clients[id];
      assert client in liveClients;
      ReleaseQueue(id, client.lostMessages, qs);
      liveClients := liveClients - {client};
    }

    lemma AllRemain()
      requires Named() && liveClients == clients.Values
      ensures Remaining(clients.Keys, Queued())
    {
    }

    /** server.cpp:195-203: the nested loops leave nothing behind and free nothing twice. A
        record is read only while it is allocated, a count only while its message is. */
    method FreeAll()
      requires Named() && Counted(Queued()) && AllHeld(Queued()) && liveClients == clients.Values
      modifies this`live, this`liveClients, live`c
      ensures live == {} && liveClients == {}
    {
      var todo := clients.Keys;
      ghost var qs := Queued();
      AllRemain();
      hide Counted, AllHeld, Named, Remaining;
      while todo != {}
        invariant Named() && Remaining(todo, qs)
        invariant Counted(qs) && AllHeld(qs)
        invariant live <= old(live)
        decreases todo
      {
        var id :| id in todo;
        FreeClient(id, todo, qs);
        todo, qs := todo - {id}, qs - {id};
      }
      NobodyRemains(qs);
      NoQueuesNoMessages(qs);
    }

    lemma NobodyRemains(qs: Queues)
      requires Remaining({}, qs)
      ensures liveClients == {} && qs.Keys == {}
    {
    }

    lemma NoQueuesNoMessages(qs: Queues)
      requires AllHeld(qs) && qs.Keys == {}
      ensures live == {}
    {
      forall m | m in live ensures Holders(qs, m) == {} {
      }
    }

    /** server.cpp:188-193. */
    method CloseAll()
      requires SocketsOpen()
      modifies this`openFds
      ensures openFds <= {STDIN}
    {
      var i := 0;
      while i < |pollFds|
        invariant i <= |pollFds|
        invariant forall f | f in openFds && f != STDIN :: f in Polls()[i..]
      {
        assert Polls()[i..] == [pollFds[i].fd] + Polls()[i + 1..];
        if pollFds[i].fd != STDIN {
          openFds := openFds - {pollFds[i].fd};
        }
        i := i + 1;
      }
      assert Polls()[i..] == [];
      assert forall f | f in openFds :: f == STDIN;
    }

    /** server.cpp:177-193: the notices, then the sockets. */
    method SayGoodbye()
      requires Wired() && Plugged(frames.Keys) && SocketsOpen()
      modifies this`wire, this`openFds
      ensures Notified(OnlineIds()) && openFds <= {STDIN}
    {
      hide Wired, Plugged, SocketsOpen, Notified, OnlineIds;
      NotifyAll();
      CloseAll();
    }

    /** server.cpp:177-203: then the heap. The sessions as they were are still what the last state
        of the run says. */
    method ShutDown()
      requires Valid()
      modifies this`wire, this`openFds, this`live, this`liveClients, live`c
      ensures live == {} && liveClients == {} && live <= old(live) && openFds <= {STDIN}
      ensures Notified(OnlineIds()) && Archived()
      ensures View() == old(View())
    {
      hide Named, Intact, IndexAgrees, Counted, AllHeld, Queued, Wired, Archived, SocketsOpen, Plugged;
      hide View, Notified, OnlineIds;
      SayGoodbye();
      FreeAll();
    }

    /** handle_server_command after the line was read and cut into words: on the single word
        "exit" every connected client gets its notice and the whole heap is freed. */
    method HandleServerCommand(argv: seq<Text>) returns (stop: bool)
      requires Valid()
      modifies this`wire, this`openFds, this`live, this`liveClients, live`c
      ensures stop <==> argv == [EXIT_WORD]
      ensures View() == old(View())
      ensures !stop ==> Valid()
      ensures stop ==> live == {} && liveClients == {} && openFds <= {STDIN}
      ensures stop ==> Notified(OnlineIds()) && Archived()
      ensures live <= old(live)
    {
      hide Valid, View, Notified, OnlineIds, Archived;
      if |argv| == 1 && argv[0] == EXIT_WORD {
        ShutDown();
        return true;
      }
      return false;
    }
  }
}
