/** What one call of poll leads to (server.cpp:357-407), told on the states of Machine: which
    entries of the poll list get their turn while the handlers remove entries and append to the
    list, in which order, and with which events. */
module Rounds {
  import opened Bytes
  import opened Machine
  import Envelope

  const STDIN := 0

  /** "exit". */
  const EXIT_WORD: Text := [101, 120, 105, 116]

  /** The descriptors server() is given. */
  datatype Sockets = Sockets(udp: int, listen: int)

  ghost function Start(io: Sockets): State {
    Initial(io.udp, io.listen, STDIN)
  }

  ghost predicate ThreeApart(io: Sockets) {
    io.udp != io.listen && io.udp != STDIN && io.listen != STDIN
  }

  /** An entry of the poll list with what poll reported for it. */
  datatype PollFd = PollFd(fd: int, hangup: bool, readable: bool)

  ghost function Descriptors(entries: seq<PollFd>): (r: seq<int>)
    ensures |r| == |entries|
  {
    seq(|entries|, i requires 0 <= i < |entries| => entries[i].fd)
  }

  /** What recv_all yields for a client entry: the peer closed, or a whole request. */
  datatype Read = Closed | Got(request: Request)

  /** What poll reports, and what reading the ready descriptors yields: the datagram with its
      sender, the number accept returns if it is free and the peer's address, the words of the
      console line, and what each client sent. A client entry without a read was closed. */
  datatype Round = Round(
    hangups: set<int>, readable: set<int>,
    ip: Text, port: Text, data: Text, residue: Text,
    conn: int, address: Address,
    line: seq<Text>,
    inbox: map<int, Read>)

  ghost predicate Feasible(r: Round) {
    && |r.ip| == Envelope.IP_SIZE && |r.port| == Envelope.PORT_SIZE
    && |r.data| <= Envelope.MAX_DATAGRAM
    && |r.data| + |r.residue| >= Envelope.TOPIC_SIZE
  }

  function Polled(polls: seq<int>, r: Round): (p: seq<PollFd>)
    ensures |p| == |polls|
    ensures Descriptors(p) == polls
  {
    seq(|polls|, i requires 0 <= i < |polls| => PollFd(polls[i], polls[i] in r.hangups, polls[i] in r.readable))
  }

  // ---------------------------------------------------------------- the events of a round

  /** The descriptor whose entry in the poll list brought an event about. */
  ghost function Subject(io: Sockets, s: State, e: Event): int
    requires Enabled(s, e)
  {
    match e
    case Accept(_, _) => io.listen
    case Datagram(_, _, _, _) => io.udp
    case Ask(index, _) => s.polls[index]
    case Hangup(index) => s.polls[index]
  }

  /** A request that makes the server close the connection it came from. */
  ghost predicate Throws(s: State, e: Event) {
    e.Ask? && (e.request.kind == EXIT || (e.request.kind == MESSAGE && IsOnline(s, ClientId(e.request))))
  }

  /** The event is what the round holds for its descriptor. */
  ghost predicate Reports(s: State, e: Event, r: Round)
    requires Enabled(s, e)
  {
    match e
    case Accept(fd, address) => address == r.address && (r.conn !in s.polls ==> fd == r.conn)
    case Datagram(_, _, _, _) => e == Datagram(r.ip, r.port, r.data, r.residue)
    case Ask(index, request) =>
      var fd := s.polls[index];
      fd !in r.hangups && fd in r.inbox && r.inbox[fd] == Got(request)
    case Hangup(index) =>
      var fd := s.polls[index];
      fd in r.hangups || fd !in r.inbox || r.inbox[fd].Closed?
  }

  /** The descriptors handled since the first n events, in order; those of them closed on
      request; and whether all these events are what the round holds. */
  ghost function Handled(io: Sockets, es: seq<Event>, n: nat): seq<int>
    requires Legal(Start(io), es) && n <= |es|
    decreases |es|
  {
    if |es| == n then []
    else
      var last := |es| - 1;
      Handled(io, es[..last], n) + [Subject(io, After(Start(io), es[..last]), es[last])]
  }

  ghost function Thrown(io: Sockets, es: seq<Event>, n: nat): set<int>
    requires Legal(Start(io), es) && n <= |es|
    decreases |es|
  {
    if |es| == n then {}
    else
      var last := |es| - 1;
      var before := After(Start(io), es[..last]);
      Thrown(io, es[..last], n) + if Throws(before, es[last]) then {Subject(io, before, es[last])} else {}
  }

  ghost predicate Faithful(io: Sockets, es: seq<Event>, n: nat, r: Round)
    requires Legal(Start(io), es) && n <= |es|
    decreases |es|
  {
    |es| == n ||
    var last := |es| - 1;
    Faithful(io, es[..last], n, r) && Reports(After(Start(io), es[..last]), es[last], r)
  }

  lemma HandledOneMore(io: Sockets, es: seq<Event>, e: Event, n: nat, r: Round)
    requires
      var start := Start(io);
      n <= |es| && Legal(start, es) && Enabled(After(start, es), e)
    ensures
      var before := After(Start(io), es);
      var f := Subject(io, before, e);
      && Legal(Start(io), es + [e])
      && Handled(io, es + [e], n) == Handled(io, es, n) + [f]
      && Thrown(io, es + [e], n) == Thrown(io, es, n) + (if Throws(before, e) then {f} else {})
      && (Faithful(io, es + [e], n, r) <==> Faithful(io, es, n, r) && Reports(before, e, r))
  {
    OneEventMore(Start(io), es, e);
    hide Legal, Enabled, Step, After, Subject, Throws, Initial, Reports;
    var more := es + [e];
    assert more[..|more| - 1] == es;
  }

  lemma LastHandled(io: Sockets, es: seq<Event>, n: nat)
    requires Legal(Start(io), es) && n < |es|
    ensures
      var e, earlier := es[|es| - 1], es[..|es| - 1];
      && Legal(Start(io), earlier) && Enabled(After(Start(io), earlier), e)
      && var s := After(Start(io), earlier);
      && After(Start(io), es) == Step(s, e)
      && Handled(io, es, n) == Handled(io, earlier, n) + [Subject(io, s, e)]
      && Thrown(io, es, n) == Thrown(io, earlier, n) + if Throws(s, e) then {Subject(io, s, e)} else {}
  {
    hide Enabled, Step, Subject, Throws;
  }

  // ---------------------------------------------------------------- turns

  predicate Eventful(p: PollFd) {
    p.hangup || p.readable
  }

  /** What poll reported for an entry calls for a handler that takes an event: a readable
      socket of the server without an error, or any condition of a client. */
  predicate Ready(all: seq<PollFd>, i: nat)
    requires i < |all|
  {
    if i < FIXED then i != 2 && all[i].readable && !all[i].hangup else Eventful(all[i])
  }

  /** A ready entry gets its turn unless the entry just before it was closed on request: the
      list moves up then, while the index goes on. */
  predicate Turn(all: seq<PollFd>, i: nat, thrown: set<int>)
    requires i < |all|
  {
    Ready(all, i) && (i > FIXED ==> all[i - 1].fd !in thrown)
  }

  /** The descriptors of the entries that get their turn, in the order of the list. */
  function Turns(all: seq<PollFd>, k: nat, thrown: set<int>): seq<int>
    requires k <= |all|
  {
    if k == 0 then []
    else Turns(all, k - 1, thrown) + if Turn(all, k - 1, thrown) then [all[k - 1].fd] else []
  }

  lemma OthersDiffer(all: seq<PollFd>, i: nat, j: nat)
    requires Distinct(Descriptors(all)) && i < |all| && j < |all| && i != j
    ensures all[i].fd != all[j].fd
  {
    var d := Descriptors(all);
    assert d[i] == all[i].fd && d[j] == all[j].fd;
  }

  lemma {:induction false} TurnsFrom(all: seq<PollFd>, k: nat, thrown: set<int>, m: nat)
    requires m < k <= |all| && Turn(all, m, thrown)
    ensures all[m].fd in Turns(all, k, thrown)
    decreases k
  {
    if m < k - 1 {
      TurnsFrom(all, k - 1, thrown, m);
    }
  }

  lemma {:induction false} TurnsOnly(all: seq<PollFd>, k: nat, thrown: set<int>, f: int) returns (m: nat)
    requires k <= |all| && f in Turns(all, k, thrown)
    ensures m < k && all[m].fd == f && Turn(all, m, thrown)
    decreases k
  {
    m := k - 1;
    if f in Turns(all, k - 1, thrown) {
      m := TurnsOnly(all, k - 1, thrown, f);
    }
  }

  /** No descriptor gets two turns. */
  lemma {:induction false} TurnsOnce(all: seq<PollFd>, k: nat, thrown: set<int>)
    requires k <= |all| && Distinct(Descriptors(all))
    ensures Distinct(Turns(all, k, thrown))
    decreases k
  {
    if k > 0 {
      TurnsOnce(all, k - 1, thrown);
      var f := all[k - 1].fd;
      if f in Turns(all, k - 1, thrown) {
        var m := TurnsOnly(all, k - 1, thrown, f);
        OthersDiffer(all, m, k - 1);
      }
    }
  }

  /** An entry's descriptor is among those that get a turn exactly if the entry gets one. */
  lemma TurnsExactlyIff(all: seq<PollFd>, k: nat, thrown: set<int>, i: nat)
    requires k <= |all| && i < |all| && Distinct(Descriptors(all))
    ensures all[i].fd in Turns(all, k, thrown) <==> i < k && Turn(all, i, thrown)
  {
    if i < k && Turn(all, i, thrown) {
      TurnsFrom(all, k, thrown, i);
    }
    if all[i].fd in Turns(all, k, thrown) {
      var m := TurnsOnly(all, k, thrown, all[i].fd);
      if m != i {
        OthersDiffer(all, m, i);
      }
    }
  }

  /** Turns come in the order of the list. */
  lemma {:induction false} TurnsInOrder(all: seq<PollFd>, k: nat, thrown: set<int>, x: nat, y: nat)
    returns (a: nat, b: nat)
    requires k <= |all| && x < y < |Turns(all, k, thrown)|
    ensures a < b < k && all[a].fd == Turns(all, k, thrown)[x] && all[b].fd == Turns(all, k, thrown)[y]
    decreases k
  {
    var firsts := Turns(all, k - 1, thrown);
    if y < |firsts| {
      a, b := TurnsInOrder(all, k - 1, thrown, x, y);
    } else {
      assert firsts[x] in firsts;
      a := TurnsOnly(all, k - 1, thrown, firsts[x]);
      b := k - 1;
    }
  }

  /** Only a descriptor further up decides about a turn. */
  lemma {:induction false} TurnsFrame(all: seq<PollFd>, k: nat, thrown: set<int>, fd: int)
    requires k <= |all| && forall i | 0 <= i < k :: all[i].fd != fd
    ensures Turns(all, k, thrown + {fd}) == Turns(all, k, thrown)
    decreases k
  {
    if k > 0 {
      TurnsFrame(all, k - 1, thrown, fd);
    }
  }

  lemma {:induction false} TurnsPrefix(all: seq<PollFd>, p: PollFd, k: nat, thrown: set<int>)
    requires k <= |all|
    ensures Turns(all + [p], k, thrown) == Turns(all, k, thrown)
    decreases k
  {
    if k > 0 {
      TurnsPrefix(all, p, k - 1, thrown);
    }
  }

  // ---------------------------------------------------------------- the scan

  function Upto(all: seq<PollFd>, pos: nat): nat {
    if pos <= |all| then pos else |all|
  }

  /** The first pos entries of the list are done, and nothing ahead was closed. */
  ghost predicate Scanned(all: seq<PollFd>, pos: nat, handled: seq<int>, thrown: set<int>) {
    && Distinct(Descriptors(all))
    && handled == Turns(all, Upto(all, pos), thrown)
    && (forall f | f in thrown :: f in Descriptors(all))
    && (forall i | pos <= i < |all| :: all[i].fd !in thrown)
    && (FIXED < pos <= |all| ==> all[pos - 1].fd !in thrown)
  }

  lemma ScanPasses(all: seq<PollFd>, pos: nat, handled: seq<int>, thrown: set<int>)
    requires Scanned(all, pos, handled, thrown) && pos < |all| && !Ready(all, pos)
    ensures Scanned(all, pos + 1, handled, thrown)
  {
    assert handled + [] == handled;
  }

  lemma ScanHandles(all: seq<PollFd>, pos: nat, handled: seq<int>, thrown: set<int>, closes: bool)
    requires Scanned(all, pos, handled, thrown) && pos < |all| && Ready(all, pos)
    requires closes ==> FIXED <= pos
    ensures
      var fd := all[pos].fd;
      if closes then Scanned(all, pos + 2, handled + [fd], thrown + {fd})
      else Scanned(all, pos + 1, handled + [fd], thrown)
  {
    var fd := all[pos].fd;
    assert Descriptors(all)[pos] == fd;
    if closes {
      forall i | 0 <= i < |all| && i != pos ensures all[i].fd != fd {
        OthersDiffer(all, i, pos);
      }
      hide Descriptors, Distinct, Ready;
      var thrown' := thrown + {fd};
      TurnsFrame(all, pos, thrown, fd);
      assert Turn(all, pos, thrown');
      assert Turns(all, pos + 1, thrown') == handled + [fd];
      if pos + 1 < |all| {
        assert !Turn(all, pos + 1, thrown');
        assert Turns(all, pos + 2, thrown') == Turns(all, pos + 1, thrown') + [];
      }
    } else {
      assert Turn(all, pos, thrown);
    }
  }

  lemma ScanGrows(all: seq<PollFd>, pos: nat, handled: seq<int>, thrown: set<int>, fd: int)
    requires Scanned(all, pos, handled, thrown) && pos <= |all|
    requires fd !in Descriptors(all)
    ensures Scanned(all + [PollFd(fd, false, false)], pos, handled, thrown)
  {
    var p := PollFd(fd, false, false);
    assert Descriptors(all + [p]) == Descriptors(all) + [fd];
    TurnsPrefix(all, p, pos, thrown);
  }

  /** One event more, for the entry whose turn it is. */
  lemma ScanTakesTurn(io: Sockets, r: Round, es: seq<Event>, n: nat, all: seq<PollFd>, pos: nat,
                      before: State, e: Event)
    requires Legal(Start(io), es) && n <= |es| && After(Start(io), es) == before && Enabled(before, e)
    requires Faithful(io, es, n, r) && Scanned(all, pos, Handled(io, es, n), Thrown(io, es, n))
    requires pos < |all| && Ready(all, pos)
    requires Subject(io, before, e) == all[pos].fd && Reports(before, e, r)
    requires Throws(before, e) ==> FIXED <= pos
    ensures Legal(Start(io), es + [e])
    ensures Faithful(io, es + [e], n, r)
    ensures Scanned(all, if Throws(before, e) then pos + 2 else pos + 1,
                    Handled(io, es + [e], n), Thrown(io, es + [e], n))
  {
    hide Scanned, Ready, Subject, Enabled, Legal, After, Reports, Faithful, Handled, Thrown, Throws, Start;
    HandledOneMore(io, es, e, n, r);
    var thrown := Thrown(io, es, n);
    ScanHandles(all, pos, Handled(io, es, n), thrown, Throws(before, e));
    assert thrown + {} == thrown;
  }

  /** The polled list, perhaps with the one connection the listener appended. */
  ghost predicate Grown(all: seq<PollFd>, polled: seq<PollFd>) {
    all == polled || exists fd :: all == polled + [PollFd(fd, false, false)]
  }

  /** An appended entry gets no turn in its first round. */
  lemma GrownTurns(all: seq<PollFd>, polled: seq<PollFd>, k: nat, thrown: set<int>)
    requires Grown(all, polled) && FIXED <= |polled| && k <= |polled|
    ensures Turns(all, k, thrown) == Turns(polled, k, thrown)
    ensures Turns(all, |all|, thrown) == Turns(polled, |polled|, thrown)
  {
    if all != polled {
      var fd :| all == polled + [PollFd(fd, false, false)];
      var p := PollFd(fd, false, false);
      TurnsPrefix(polled, p, k, thrown);
      TurnsPrefix(polled, p, |polled|, thrown);
      QuietLast(polled, p, thrown);
    }
  }

  lemma QuietLast(polled: seq<PollFd>, p: PollFd, thrown: set<int>)
    requires FIXED <= |polled| && !Eventful(p)
    ensures Turns(polled + [p], |polled| + 1, thrown) == Turns(polled + [p], |polled|, thrown)
  {
    var all := polled + [p];
    assert all[|polled|] == p;
    assert !Turn(all, |polled|, thrown);
  }

  // ---------------------------------------------------------------- whole rounds

  /** The console line of this round shuts the server down. */
  predicate Exits(polled: seq<PollFd>, r: Round) {
    FIXED <= |polled| && polled[2].readable && !polled[2].hangup && r.line == [EXIT_WORD]
  }

  /** The events from the n-th on are those of one scan of the polled list: what the round holds
      for each descriptor that gets its turn, in the order of the list; only for the entries
      before the console if the console says exit. */
  ghost predicate RoundDone(io: Sockets, r: Round, es: seq<Event>, n: nat, polled: seq<PollFd>) {
    && Legal(Start(io), es) && n <= |es|
    && Faithful(io, es, n, r)
    && var done := if Exits(polled, r) then 2 else |polled|;
    Handled(io, es, n) == Turns(polled, done, Thrown(io, es, n))
  }

  /** One scan with what poll reported for the list as it was. */
  ghost predicate OneRound(io: Sockets, r: Round, before: seq<Event>, es: seq<Event>) {
    && Legal(Start(io), before) && before <= es
    && RoundDone(io, r, es, |before|, Polled(After(Start(io), before).polls, r))
  }

  /** The console says exit in this round. */
  ghost predicate Stops(io: Sockets, r: Round, before: seq<Event>)
    requires Legal(Start(io), before)
  {
    Exits(Polled(After(Start(io), before).polls, r), r)
  }

  /** A whole run, round after round; no round but the last one stops it. */
  ghost predicate Served(io: Sockets, rounds: seq<Round>, es: seq<Event>, stopped: bool)
    decreases |rounds|
  {
    if rounds == [] then es == [] && !stopped
    else
      var earlier, last := rounds[..|rounds| - 1], rounds[|rounds| - 1];
      exists before ::
        && Served(io, earlier, before, false)
        && OneRound(io, last, before, es)
        && (stopped <==> Stops(io, last, before))
  }

  lemma OneRoundMore(io: Sockets, rounds: seq<Round>, k: nat, before: seq<Event>, es: seq<Event>, stopped: bool)
    requires k < |rounds| && Served(io, rounds[..k], before, false)
    requires OneRound(io, rounds[k], before, es) && (stopped <==> Stops(io, rounds[k], before))
    ensures Served(io, rounds[..k + 1], es, stopped)
  {
    var more := rounds[..k + 1];
    assert more[..|more| - 1] == rounds[..k] && more[|more| - 1] == rounds[k];
  }

  /** No descriptor is handled twice in a round, and a ready one is handled if and only if the
      entry before it was not closed on request. */
  lemma RoundIsFair(io: Sockets, r: Round, es: seq<Event>, n: nat, polled: seq<PollFd>, i: nat)
    requires RoundDone(io, r, es, n, polled) && !Exits(polled, r)
    requires Distinct(Descriptors(polled)) && i < |polled|
    ensures Distinct(Handled(io, es, n))
    ensures polled[i].fd in Handled(io, es, n) <==> Turn(polled, i, Thrown(io, es, n))
  {
    var thrown := Thrown(io, es, n);
    TurnsOnce(polled, |polled|, thrown);
    TurnsExactlyIff(polled, |polled|, thrown, i);
  }
}
