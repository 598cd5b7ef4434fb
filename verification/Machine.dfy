/** The server seen as a state machine over values: sessions, the descriptors they are bound
    to, the address table, the poll list and the frames written to each descriptor. Every
    step performs one operation of Broker on the sessions. */
module Machine {
  import opened Bytes
  import opened Broker
  import Envelope
  import Order

  datatype Option<T> = None | Some(value: T)

  /** sockaddr_in of a connection. */
  datatype Address = Address(ip: Text, port: Text)

  /** What operator[] of std::map puts under a missing descriptor. */
  const NOWHERE := Address([], [])

  const ID_SIZE := 11
  const TOPIC_FIELD_SIZE := 51
  type IdField = s: Text | |s| == ID_SIZE witness seq(ID_SIZE, _ => NUL)
  type TopicField = s: Text | |s| == TOPIC_FIELD_SIZE witness seq(TOPIC_FIELD_SIZE, _ => NUL)

  /** The fields of tcp_request_t as received; nothing about them is trusted. */
  datatype Request = Request(id: IdField, topic: TopicField, sf: bool, kind: int)

  const EXIT := 0
  const SUBSCRIBE := 1
  const UNSUBSCRIBE := 2
  const MESSAGE := 3

  /** The id and the topic as the server reads them: last byte forced to NUL, cut at the first. */
  function ClientId(r: Request): Text {
    CutAtNul(r.id[..ID_SIZE - 1])
  }

  function TopicOf(r: Request): Text {
    CutAtNul(r.topic[..TOPIC_FIELD_SIZE - 1])
  }

  /** The first three entries of the poll list are not clients. */
  const FIXED := 3

  datatype State = State(
    sessions: Sessions,
    fds: map<Text, int>,             // the fd field of each client record
    addresses: map<int, Address>,
    polls: seq<int>,                 // the descriptors of the poll list
    frames: map<int, seq<Msg>>,      // the messages written to the latest connection on each number
    past: map<int, seq<seq<Msg>>>,   // and to the earlier connections on it, in order
    published: nat)

  datatype Event =
    | Accept(fd: int, address: Address)
    | Datagram(ip: Text, port: Text, data: Text, residue: Text)
    | Ask(index: nat, request: Request)
    | Hangup(index: nat)

  function FramesOf(frames: map<int, seq<Msg>>, fd: int): seq<Msg> {
    if fd in frames then frames[fd] else []
  }

  /** The streams of earlier connections on a descriptor number. */
  function PastOf<T>(past: map<int, seq<T>>, fd: int): seq<T> {
    if fd in past then past[fd] else []
  }

  /** A number that is given out again starts a new stream; the old one is kept as it is. */
  function Shelved<T>(past: map<int, seq<T>>, streams: map<int, T>, fd: int): map<int, seq<T>> {
    if fd in streams then past[fd := PastOf(past, fd) + [streams[fd]]] else past
  }

  // ---------------------------------------------------------------- one step

  /** What can happen: accept yields a descriptor that is not open, recvfrom fills at least
      the topic field together with the old contents of its buffer, and requests and hang-ups
      come from client entries of the poll list. */
  ghost predicate Enabled(s: State, e: Event) {
    && FIXED <= |s.polls|
    && match e
       case Accept(fd, _) => fd !in s.polls
       case Datagram(ip, port, data, residue) =>
         && |ip| == Envelope.IP_SIZE && |port| == Envelope.PORT_SIZE
         && |data| <= Envelope.MAX_DATAGRAM
         && |data| + |residue| >= Envelope.TOPIC_SIZE
       case Ask(index, _) => FIXED <= index < |s.polls|
       case Hangup(index) => FIXED <= index < |s.polls|
  }

  ghost function Bound(fds: map<Text, int>, fd: int): set<Text> {
    set k | k in fds && fds[k] == fd
  }

  /** The record handle_client_disconnect settles on: the first in map order with that fd. */
  ghost function OwnerOf(fds: map<Text, int>, fd: int): (r: Option<Text>)
    ensures r.None? <==> Bound(fds, fd) == {}
    ensures r.Some? ==> Order.IsLeast(r.value, Bound(fds, fd))
  {
    var c := Bound(fds, fd);
    if c == {} then None
    else
      assert exists k :: Order.IsLeast(k, c) by { var k := Order.LeastExists(c); }
      var k :| Order.IsLeast(k, c);
      Some(k)
  }

  ghost function OpOf(s: State, e: Event): Op
    requires Enabled(s, e)
  {
    match e
    case Accept(_, _) => Skip
    case Datagram(ip, port, data, residue) =>
      Publish(Envelope.RoutedTopic(data, residue), Msg(s.published, Envelope.Build(ip, port, data)))
    case Ask(_, r) =>
      if r.kind == MESSAGE then Join(ClientId(r))
      else if r.kind == SUBSCRIBE then Subscribe(ClientId(r), TopicOf(r), r.sf)
      else if r.kind == UNSUBSCRIBE then Unsubscribe(ClientId(r), TopicOf(r))
      else if r.kind == EXIT then Leave(ClientId(r))
      else Skip
    case Hangup(index) =>
      match OwnerOf(s.fds, s.polls[index])
      case None => Skip
      case Some(id) => if id == [] then Skip else Leave(id)
  }

  function Copies(msg: Msg, n: nat): seq<Msg> {
    seq(n, _ => msg)
  }

  /** The recipients bound to a descriptor. */
  ghost function At(fds: map<Text, int>, ids: set<Text>, fd: int): set<Text> {
    set k | k in ids && k in fds && fds[k] == fd
  }

  /** One copy of a message written for each recipient, on the descriptor it is bound to. */
  ghost function Broadcast(frames: map<int, seq<Msg>>, fds: map<Text, int>, ids: set<Text>, msg: Msg)
    : (r: map<int, seq<Msg>>)
    ensures r.Keys == frames.Keys
  {
    map f | f in frames :: frames[f] + Copies(msg, |At(fds, ids, f)|)
  }

  lemma AtOneMore(fds: map<Text, int>, ids: set<Text>, k: Text, f: int)
    requires k in fds && k !in ids
    ensures |At(fds, ids + {k}, f)| == |At(fds, ids, f)| + if fds[k] == f then 1 else 0
  {
    if fds[k] == f {
      assert At(fds, ids + {k}, f) == At(fds, ids, f) + {k};
    } else {
      assert At(fds, ids + {k}, f) == At(fds, ids, f);
    }
  }

  lemma OneCopyMore(sent: seq<Msg>, msg: Msg, n: nat)
    ensures sent + Copies(msg, n + 1) == sent + Copies(msg, n) + [msg]
  {
    assert Copies(msg, n + 1) == Copies(msg, n) + [msg];
  }

  /** One more recipient is one more copy on its descriptor. */
  lemma BroadcastOneMore(frames: map<int, seq<Msg>>, fds: map<Text, int>, ids: set<Text>, k: Text, msg: Msg)
    requires k in fds && k !in ids && fds[k] in frames
    ensures
      var sent := Broadcast(frames, fds, ids, msg);
      Broadcast(frames, fds, ids + {k}, msg) == sent[fds[k] := sent[fds[k]] + [msg]]
  {
    hide At, Copies;
    var sent, more := Broadcast(frames, fds, ids, msg), Broadcast(frames, fds, ids + {k}, msg);
    forall f | f in frames ensures more[f] == if f == fds[k] then sent[f] + [msg] else sent[f] {
      AtOneMore(fds, ids, k, f);
      OneCopyMore(frames[f], msg, |At(fds, ids, f)|);
    }
  }

  lemma BroadcastNone(frames: map<int, seq<Msg>>, fds: map<Text, int>, msg: Msg)
    ensures Broadcast(frames, fds, {}, msg) == frames
  {
    forall f | f in frames ensures Broadcast(frames, fds, {}, msg)[f] == frames[f] {
      assert At(fds, {}, f) == {};
    }
  }

  ghost function Recipients(b: Sessions, topic: Text): set<Text> {
    set k | k in b && GetsNow(b[k], topic)
  }

  ghost function Waiting(b: Sessions, topic: Text): set<Text> {
    set k | k in b && GetsLater(b[k], topic)
  }

  function Without(polls: seq<int>, index: nat): seq<int>
    requires index < |polls|
  {
    polls[..index] + polls[index + 1..]
  }

  /** close(fd), client_addresses.erase(fd) and poll_fds.erase(begin() + index). */
  ghost function Drop(s: State, index: nat): State
    requires index < |s.polls|
  {
    s.(addresses := s.addresses - {s.polls[index]}, polls := Without(s.polls, index))
  }

  /** client_addresses[fd], which inserts a default when there is no entry. */
  function LookUp(addresses: map<int, Address>, fd: int): map<int, Address> {
    if fd in addresses then addresses else addresses[fd := NOWHERE]
  }

  /** Binding a descriptor to a client that is new or comes back. */
  ghost function Bind(s: State, id: Text, fd: int): State {
    s.(sessions := Apply(s.sessions, Join(id)),
       fds := s.fds[id := fd],
       frames := s.frames[fd := FramesOf(s.frames, fd) + Queue(s.sessions, id)])
  }

  /** The same after the address of the descriptor was looked up. */
  ghost function Attach(s: State, id: Text, fd: int): State {
    Bind(s.(addresses := LookUp(s.addresses, fd)), id, fd)
  }

  ghost predicate IsOnline(s: State, id: Text) {
    id in s.sessions && s.sessions[id].online
  }

  ghost function Step(s: State, e: Event): State
    requires Enabled(s, e)
  {
    var b := Apply(s.sessions, OpOf(s, e));
    match e
    case Accept(fd, address) =>
      s.(addresses := s.addresses[fd := address],
         polls := s.polls + [fd],
         past := Shelved(s.past, s.frames, fd),
         frames := s.frames[fd := []])
    case Datagram(_, _, _, _) =>
      var op := OpOf(s, e);
      s.(sessions := b,
         frames := Broadcast(s.frames, s.fds, Recipients(s.sessions, op.topic), op.msg),
         published := s.published + 1)
    case Ask(index, r) =>
      var id := ClientId(r);
      if r.kind == MESSAGE then
        if IsOnline(s, id) then Drop(s, index) else Attach(s, id, s.polls[index])
      else if r.kind == EXIT then Drop(s.(sessions := b), index)
      else s.(sessions := b)
    case Hangup(index) => Drop(s.(sessions := b), index)
  }

  /** Each step does to the sessions exactly the operation it stands for. */
  lemma StepIsOp(s: State, e: Event)
    requires Enabled(s, e)
    ensures Step(s, e).sessions == Apply(s.sessions, OpOf(s, e))
  {
    if e.Ask? && e.request.kind == MESSAGE {
      JoinIsOp(s, e.index, e.request);
    } else {
      SkipSkips(s.sessions);
      hide Apply, Broadcast, Recipients, OwnerOf;
    }
  }

  lemma SkipSkips(b: Sessions)
    ensures Apply(b, Skip) == b
  {
  }

  /** A rejected CONNECT changes no session, and an accepted one joins. */
  lemma JoinIsOp(s: State, index: nat, r: Request)
    requires Enabled(s, Ask(index, r)) && r.kind == MESSAGE
    ensures Step(s, Ask(index, r)).sessions == Apply(s.sessions, Join(ClientId(r)))
  {
  }

  lemma AcceptStep(s: State, fd: int, address: Address)
    requires Enabled(s, Accept(fd, address))
    ensures Step(s, Accept(fd, address)) ==
      s.(addresses := s.addresses[fd := address], polls := s.polls + [fd],
         past := Shelved(s.past, s.frames, fd), frames := s.frames[fd := []])
  {
  }

  /** A publication: it goes to everybody it concerns at once, or is stored. */
  ghost function Spread(s: State, topic: Text, buff: Text): State {
    var msg := Msg(s.published, buff);
    s.(sessions := Apply(s.sessions, Publish(topic, msg)),
       frames := Broadcast(s.frames, s.fds, Recipients(s.sessions, topic), msg),
       published := s.published + 1)
  }

  lemma DatagramStep(s: State, ip: Text, port: Text, data: Text, residue: Text)
    requires Enabled(s, Datagram(ip, port, data, residue))
    ensures |data| + |residue| >= Envelope.TOPIC_SIZE
    ensures |Envelope.Build(ip, port, data)| == Envelope.IP_SIZE + Envelope.PORT_SIZE + |data|
    ensures |data| <= Envelope.MAX_DATAGRAM
    ensures Step(s, Datagram(ip, port, data, residue)) ==
      Spread(s, Envelope.RoutedTopic(data, residue), Envelope.Build(ip, port, data))
  {
  }

  // ---------------------------------------------------------------- runs

  ghost function Initial(udp: int, listen: int, stdin: int): State {
    State(map[], map[], map[], [udp, listen, stdin], map[], map[], 0)
  }

  ghost predicate Legal(s: State, es: seq<Event>)
    decreases |es|, 0
  {
    es == [] || (Legal(s, es[..|es| - 1]) && Enabled(After(s, es[..|es| - 1]), es[|es| - 1]))
  }

  ghost function After(s: State, es: seq<Event>): State
    requires Legal(s, es)
    decreases |es|, 1
  {
    if es == [] then s else Step(After(s, es[..|es| - 1]), es[|es| - 1])
  }

  ghost function Ops(s: State, es: seq<Event>): seq<Op>
    requires Legal(s, es)
    decreases |es|
  {
    if es == [] then []
    else
      var n := |es| - 1;
      Ops(s, es[..n]) + [OpOf(After(s, es[..n]), es[n])]
  }

  /** A run goes on by one enabled event. */
  lemma OneEventMore(s: State, es: seq<Event>, e: Event)
    requires Legal(s, es) && Enabled(After(s, es), e)
    ensures Legal(s, es + [e]) && After(s, es + [e]) == Step(After(s, es), e)
  {
    assert (es + [e])[..|es|] == es;
  }

  /** Every event of a run was enabled where it happened. */
  lemma {:induction false} PrefixLegal(s: State, es: seq<Event>, n: nat)
    requires Legal(s, es) && n < |es|
    ensures Legal(s, es[..n]) && Enabled(After(s, es[..n]), es[n])
    decreases |es|
  {
    hide Enabled, Step;
    var last := |es| - 1;
    if n < last {
      PrefixLegal(s, es[..last], n);
      assert es[..last][..n] == es[..n];
    }
  }

  /** A run of the machine is, for its sessions, a run of the broker. */
  lemma {:induction false} RunIsBrokerRun(s: State, es: seq<Event>)
    requires Legal(s, es)
    ensures |Ops(s, es)| == |es|
    ensures After(s, es).sessions == Run(s.sessions, Ops(s, es))
    decreases |es|
  {
    if es != [] {
      var n := |es| - 1;
      RunIsBrokerRun(s, es[..n]);
      StepIsOp(After(s, es[..n]), es[n]);
      assert Ops(s, es)[..n] == Ops(s, es[..n]);
    }
  }

  lemma StepCounts(s: State, e: Event)
    requires Enabled(s, e)
    ensures Step(s, e).published == s.published + if e.Datagram? then 1 else 0
    ensures OpOf(s, e).Publish? <==> e.Datagram?
    ensures e.Datagram? ==> OpOf(s, e).msg.serial == s.published
  {
  }

  ghost predicate AllBelow(ops: seq<Op>, bound: nat) {
    forall i | 0 <= i < |ops| && ops[i].Publish? :: ops[i].msg.serial < bound
  }

  lemma {:induction false} OpsNumbered(s: State, es: seq<Event>)
    requires Legal(s, es)
    ensures Numbered(Ops(s, es)) && AllBelow(Ops(s, es), After(s, es).published)
    decreases |es|
  {
    if es != [] {
      var n := |es| - 1;
      OpsNumbered(s, es[..n]);
      hide Enabled, Step, OpOf;
      StepCounts(After(s, es[..n]), es[n]);
    }
  }

  // ---------------------------------------------------------------- descriptor tables

  ghost predicate Distinct(polls: seq<int>) {
    forall i, j | 0 <= i < j < |polls| :: polls[i] != polls[j]
  }

  /** The poll list, the address table, the client records and the frame log agree. */
  ghost predicate TablesAgree(s: State) {
    && FIXED <= |s.polls|
    && Distinct(s.polls)
    && (forall f :: f in s.addresses <==> f in s.polls[FIXED..])
    && (forall f | f in s.polls[FIXED..] :: f in s.frames)
    && s.fds.Keys == s.sessions.Keys
    && (forall k | k in s.fds :: s.fds[k] in s.frames)
  }

  lemma WithoutKeepsDistinct(p: seq<int>, index: nat)
    requires Distinct(p) && index < |p|
    ensures Distinct(Without(p, index))
  {
    var p' := Without(p, index);
    assert forall i | 0 <= i < |p'| :: p'[i] == if i < index then p[i] else p[i + 1];
  }

  lemma WithoutDrops(p: seq<int>, index: nat, f: int)
    requires Distinct(p) && index < |p|
    ensures f in Without(p, index) <==> f in p && f != p[index]
  {
    assert p == p[..index] + [p[index]] + p[index + 1..];
    if f in p[..index] {
      var i :| 0 <= i < index && p[i] == f;
    }
    if f in p[index + 1..] {
      var i :| index < i < |p| && p[i] == f;
    }
  }

  lemma WithoutHolds(p: seq<int>, index: nat, f: int)
    requires Distinct(p) && FIXED <= index < |p|
    ensures f in Without(p, index)[FIXED..] <==> f in p[FIXED..] && f != p[index]
  {
    var p' := Without(p, index);
    assert p'[FIXED..] == p[FIXED..index] + p[index + 1..];
    assert p[FIXED..] == p[FIXED..index] + [p[index]] + p[index + 1..];
    if f in p[FIXED..index] {
      var i :| FIXED <= i < index && p[i] == f;
    }
    if f in p[index + 1..] {
      var i :| index < i < |p| && p[i] == f;
    }
  }

  lemma DropKeepsTables(s: State, index: nat)
    requires TablesAgree(s)
    requires FIXED <= index < |s.polls|
    ensures TablesAgree(Drop(s, index))
  {
    WithoutKeepsDistinct(s.polls, index);
    var s' := Drop(s, index);
    assert |s'.polls| == |s.polls| - 1;
    forall f ensures f in s'.polls[FIXED..] <==> f in s.polls[FIXED..] && f != s.polls[index] {
      WithoutHolds(s.polls, index, f);
    }
    hide Distinct, Without;
  }

  lemma AcceptKeepsTables(s: State, fd: int, address: Address)
    requires TablesAgree(s)
    requires Enabled(s, Accept(fd, address))
    ensures TablesAgree(Step(s, Accept(fd, address)))
  {
    assert (s.polls + [fd])[FIXED..] == s.polls[FIXED..] + [fd];
  }

  lemma AttachKeepsTables(s: State, id: Text, index: nat)
    requires TablesAgree(s)
    requires FIXED <= index < |s.polls|
    ensures TablesAgree(Attach(s, id, s.polls[index]))
  {
    LookUpFinds(s, index);
    assert s.polls[index] == s.polls[FIXED..][index - FIXED];
  }

  /** Operations on the sessions of known clients leave the tables alone. */
  lemma OpKeepsTables(s: State, op: Op)
    requires TablesAgree(s) && !op.Join?
    ensures TablesAgree(s.(sessions := Apply(s.sessions, op)))
  {
  }

  lemma StepKeepsTables(s: State, e: Event)
    requires TablesAgree(s)
    requires Enabled(s, e)
    ensures TablesAgree(Step(s, e))
  {
    match e
    case Accept(fd, address) =>
      AcceptKeepsTables(s, fd, address);
    case Datagram(_, _, _, _) =>
      OpKeepsTables(s, OpOf(s, e));
    case Ask(index, r) =>
      AskKeepsTables(s, index, r);
    case Hangup(index) =>
      OpKeepsTables(s, OpOf(s, e));
      DropKeepsTables(s.(sessions := Apply(s.sessions, OpOf(s, e))), index);
  }

  lemma AskKeepsTables(s: State, index: nat, r: Request)
    requires TablesAgree(s)
    requires Enabled(s, Ask(index, r))
    ensures TablesAgree(Step(s, Ask(index, r)))
  {
    if r.kind == MESSAGE {
      if IsOnline(s, ClientId(r)) {
        DropKeepsTables(s, index);
      } else {
        AttachKeepsTables(s, ClientId(r), index);
      }
    } else {
      OpKeepsTables(s, OpOf(s, Ask(index, r)));
      if r.kind == EXIT {
        DropKeepsTables(s.(sessions := Apply(s.sessions, OpOf(s, Ask(index, r)))), index);
      }
    }
  }

  /** Nothing is removed among the first three entries, and nothing inserted before them. */
  lemma StepKeepsFixed(s: State, e: Event)
    requires Enabled(s, e)
    ensures Step(s, e).polls[..FIXED] == s.polls[..FIXED] && FIXED <= |Step(s, e).polls|
  {
    hide Apply, Broadcast, OpOf;
  }

  /** In every reachable state, whatever the clients send, the descriptors in the poll list
      are distinct and the client entries are exactly the keys of the address table. */
  lemma {:induction false} TablesAlwaysAgree(udp: int, listen: int, stdin: int, es: seq<Event>)
    requires udp != listen && udp != stdin && listen != stdin
    requires Legal(Initial(udp, listen, stdin), es)
    ensures TablesAgree(After(Initial(udp, listen, stdin), es))
    ensures After(Initial(udp, listen, stdin), es).polls[..FIXED] == [udp, listen, stdin]
    decreases |es|
  {
    var s := Initial(udp, listen, stdin);
    if es != [] {
      var n := |es| - 1;
      TablesAlwaysAgree(udp, listen, stdin, es[..n]);
      var before := After(s, es[..n]);
      StepKeepsTables(before, es[n]);
      StepKeepsFixed(before, es[n]);
      hide TablesAgree, Step, Enabled, Initial;
    } else {
      assert s.polls[FIXED..] == [];
    }
  }

  /** Hence looking up the address of a client entry never inserts a default. */
  lemma LookUpFinds(s: State, index: nat)
    requires TablesAgree(s)
    requires FIXED <= index < |s.polls|
    ensures LookUp(s.addresses, s.polls[index]) == s.addresses
  {
    assert s.polls[index] == s.polls[FIXED..][index - FIXED];
  }

  // ---------------------------------------------------------------- hanging up

  /** The walk over the client map settles on this client for the descriptor: its id is not the
      empty one, and no smaller id stores the number. */
  ghost predicate FoundFirst(fds: map<Text, int>, id: Text, fd: int) {
    id != [] && forall k | k in fds && fds[k] == fd :: Order.AtMost(id, k)
  }

  /** A hang-up marks the session bound to the descriptor as gone if and only if its id is not
      empty and no session with a smaller id still stores the same descriptor number. */
  lemma HangupMarksExactly(s: State, index: nat, id: Text)
    requires Enabled(s, Hangup(index))
    requires IsOnline(s, id) && id in s.fds && s.fds[id] == s.polls[index]
    ensures !IsOnline(Step(s, Hangup(index)), id) <==> FoundFirst(s.fds, id, s.polls[index])
  {
    var c := Bound(s.fds, s.polls[index]);
    assert id in c;
    var owner := OwnerOf(s.fds, s.polls[index]).value;
    if forall k | k in s.fds && s.fds[k] == s.polls[index] :: Order.AtMost(id, k) {
      assert Order.IsLeast(id, c);
      Order.LeastUnique(owner, id, c);
    }
    if owner == id {
      forall k | k in s.fds && s.fds[k] == s.polls[index] ensures Order.AtMost(id, k) {
        assert k in c;
      }
    }
  }
}
