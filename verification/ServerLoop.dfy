/** The event loop (server.cpp:347-408): one scan of the poll list for each call of poll, while
    the handlers remove entries from the list and append to it. */
module ServerLoop {
  import opened Bytes
  import opened Machine
  import opened Rounds
  import opened Server
  import opened Store

  /** The state after a run, seen from the first poll on. */
  ghost predicate HasRun(s: ServerState, io: Sockets, es: seq<Event>)
    reads s, s.clients.Values, s.live
  {
    var start := Start(io);
    s.Valid() && Legal(start, es) && s.View() == After(start, es)
  }

  /** The clients whose queue holds a message. */
  ghost function Queueing(s: ServerState, m: StoredMessage): set<Text>
    reads s`clients, s.clients.Values`lostMessages
  {
    set k | k in s.clients && m in s.clients[k].lostMessages
  }

  /** The manual reference counts are exact: what was allocated and not freed is what some client
      queues, each count is the positive number of these clients, and no queue repeats one. */
  ghost predicate CountsExact(s: ServerState)
    reads s`clients, s.clients.Values`lostMessages, s`live, s.live
  {
    && (forall m | m in s.live :: m.c == |Queueing(s, m)| > 0)
    && (forall k, m | k in s.clients && m in s.clients[k].lostMessages :: m in s.live)
    && (forall k | k in s.clients :: NoRepeats(s.clients[k].lostMessages))
  }

  lemma ValidCounts(s: ServerState)
    requires s.Counted(s.Queued()) && s.AllHeld(s.Queued())
    ensures CountsExact(s)
  {
    var qs := s.Queued();
    assert forall k | k in s.clients :: qs[k] == s.clients[k].lostMessages;
    forall m | m in s.live ensures Holders(qs, m) == Queueing(s, m) && m.c == |Queueing(s, m)| > 0 {
      assert Holders(qs, m) == Queueing(s, m);
    }
  }

  lemma RunCounts(s: ServerState, io: Sockets, es: seq<Event>)
    requires HasRun(s, io, es)
    ensures CountsExact(s)
  {
    assert s.Counted(s.Queued()) && s.AllHeld(s.Queued());
    hide HasRun, ServerState.Counted, ServerState.AllHeld, ServerState.Queued, CountsExact;
    ValidCounts(s);
  }

  lemma RunTables(s: ServerState, io: Sockets, es: seq<Event>)
    requires ThreeApart(io) && HasRun(s, io, es)
    ensures TablesAgree(s.View())
    ensures s.View().polls == Descriptors(s.pollFds)
    ensures Distinct(Descriptors(s.pollFds)) && FIXED <= |s.pollFds|
    ensures s.pollFds[0].fd == io.udp && s.pollFds[1].fd == io.listen && s.pollFds[2].fd == STDIN
  {
    TablesAlwaysAgree(io.udp, io.listen, STDIN, es);
    var polls := Descriptors(s.pollFds);
    assert s.View().polls == polls;
    assert polls[..FIXED] == [io.udp, io.listen, STDIN];
    assert polls[0] == polls[..FIXED][0] && polls[1] == polls[..FIXED][1] && polls[2] == polls[..FIXED][2];
  }

  /** The entries from idx on are those of the polled list from pos on. */
  ghost predicate Ahead(pollFds: seq<PollFd>, idx: nat, all: seq<PollFd>, pos: nat) {
    && |pollFds| - idx == |all| - pos
    && (idx <= |pollFds| ==> pollFds[idx..] == all[pos..])
    && (pos < FIXED || idx < FIXED ==> pos == idx && pollFds == all)
  }

  /** poll: the same entries, each with what is reported for its descriptor. */
  method Poll(s: ServerState, io: Sockets, r: Round, ghost es: seq<Event>)
    requires HasRun(s, io, es)
    modifies s`pollFds
    ensures HasRun(s, io, es)
    ensures s.pollFds == Polled(After(Start(io), es).polls, r)
  {
    hide Legal, After, ServerState.Named, ServerState.IndexAgrees, ServerState.Counted, ServerState.AllHeld;
    hide ServerState.Intact, ServerState.Wired, ServerState.Queued, ServerState.Sessions, ServerState.Fds;
    var p := s.pollFds;
    s.pollFds := seq(|p|, i requires 0 <= i < |p| => PollFd(p[i].fd, p[i].fd in r.hangups, p[i].fd in r.readable));
    assert Descriptors(s.pollFds) == Descriptors(p);
  }

  /** accept: any descriptor number that is not open, so the wanted one if it is free. */
  method AcceptFd(polls: seq<PollFd>, wanted: int) returns (fd: int)
    ensures fd !in Descriptors(polls)
    ensures wanted !in Descriptors(polls) ==> fd == wanted
  {
    fd := wanted;
    var isOpen := false;
    var above := 0;
    for i := 0 to |polls|
      invariant isOpen <==> exists j :: 0 <= j < i && polls[j].fd == wanted
      invariant forall j | 0 <= j < i :: polls[j].fd < above
    {
      isOpen := isOpen || polls[i].fd == wanted;
      above := if polls[i].fd < above then above else polls[i].fd + 1;
    }
    if isOpen {
      fd := above;
    }
    ghost var d := Descriptors(polls);
    forall j | 0 <= j < |polls| ensures d[j] == polls[j].fd && d[j] != fd {
      assert d[j] == polls[j].fd;
    }
    assert isOpen ==> wanted in d;
  }

  /** How much of a scan is left: the entries ahead, and the one the listener may append. */
  function Left(n: nat, idx: nat): nat {
    if idx < n then n - idx + if idx <= 1 then 1 else 0 else 0
  }

  /** What is handed to the shutdown: the last state of the run, its heap freed, and one notice
      behind the frames on the descriptor of each connected client. */
  ghost predicate ShutDown(s: ServerState, io: Sockets, es: seq<Event>)
    reads s, s.clients.Values
  {
    var start := Start(io);
    && Legal(start, es) && s.View() == After(start, es)
    && s.live == {} && s.liveClients == {} && s.openFds <= {STDIN}
    && s.Notified(s.OnlineIds()) && s.Archived()
  }

  /** A readable or hung-up client entry (server.cpp:366-372, 388-405). Its event concerns the
      entry's own position; a removal after a close steps the index back, which is at least
      three, and one inside a request does not. */
  method HandleClientEntry(s: ServerState, io: Sockets, r: Round, idx: nat, ghost es: seq<Event>)
    returns (idx': nat, ghost e: Event)
    requires HasRun(s, io, es)
    requires FIXED <= idx < |s.pollFds|
    requires s.pollFds[idx].hangup <==> s.pollFds[idx].fd in r.hangups
    modifies s, s.clients.Values, s.live
    ensures Enabled(old(s.View()), e) && Subject(io, old(s.View()), e) == old(s.pollFds[idx].fd)
    ensures Reports(old(s.View()), e, r)
    ensures
      var fd := old(s.pollFds[idx].fd);
      e == if fd !in r.hangups && fd in r.inbox && r.inbox[fd].Got? then Ask(idx, r.inbox[fd].request)
        else Hangup(idx)
    ensures HasRun(s, io, es + [e])
    ensures fresh(s.clients.Values - old(s.clients.Values)) && s.live <= old(s.live)
    ensures s.pollFds == if e.Hangup? || Throws(old(s.View()), e)
      then old(s.pollFds)[..idx] + old(s.pollFds)[idx + 1..] else old(s.pollFds)
    ensures idx' == if e.Hangup? then idx else idx + 1
  {
    var pfd := s.pollFds[idx];
    CanHear(s, idx);
    if pfd.hangup || pfd.fd !in r.inbox || r.inbox[pfd.fd].Closed? {
      e := Hangup(idx);
      OneEventMore(Start(io), es, e);
      hide Step, After, Legal, ServerState.Valid, ServerState.View;
      s.HandleClientDisconnect(pfd.fd, idx);
      idx' := idx - 1;
      idx' := idx' + 1;
    } else {
      e := Ask(idx, r.inbox[pfd.fd].request);
      OneEventMore(Start(io), es, e);
      AskPolls(s.View(), idx, e.request);
      hide Step, After, Legal, ServerState.Valid, ServerState.View;
      s.HandleClientRequest(pfd.fd, r.inbox[pfd.fd].request, idx);
      ListLength(s);
      idx' := idx + 1;
    }
  }

  lemma CanHear(s: ServerState, idx: nat)
    requires FIXED <= idx < |s.pollFds|
    ensures |s.View().polls| == |s.pollFds| && s.View().polls[idx] == s.pollFds[idx].fd
  {
  }

  lemma ListLength(s: ServerState)
    ensures |s.View().polls| == |s.pollFds|
  {
  }

  lemma AskPolls(s: State, index: nat, r: Request)
    requires Enabled(s, Ask(index, r))
    ensures |Step(s, Ask(index, r)).polls| == |s.polls| - if Throws(s, Ask(index, r)) then 1 else 0
  {
  }

  /** The datagram socket. */
  method HandleUdp(s: ServerState, io: Sockets, r: Round, ghost es: seq<Event>)
    returns (ghost e: Event)
    requires HasRun(s, io, es) && Feasible(r) && FIXED <= |s.pollFds|
    modifies s`wire, s`frames, s`live, s`published, s.clients.Values`lostMessages
    ensures Enabled(old(s.View()), e) && e.Datagram? && Reports(old(s.View()), e, r)
    ensures HasRun(s, io, es + [e])
    ensures fresh(s.live - old(s.live))
  {
    e := Datagram(r.ip, r.port, r.data, r.residue);
    OneEventMore(Start(io), es, e);
    hide Step, After, Legal;
    s.ProcessUdpMessage(r.ip, r.port, r.data, r.residue);
  }

  lemma CanAccept(s: ServerState, fd: int, address: Address)
    requires FIXED <= |s.pollFds| && fd !in Descriptors(s.pollFds)
    ensures Enabled(s.View(), Accept(fd, address)) && s.View().polls == Descriptors(s.pollFds)
  {
  }

  /** The listening socket. */
  method HandleListener(s: ServerState, io: Sockets, r: Round, ghost es: seq<Event>)
    returns (ghost e: Event)
    requires HasRun(s, io, es)
    requires FIXED <= |s.pollFds|
    modifies s`clientAddresses, s`pollFds, s`openFds, s`wire, s`frames, s`pastWire, s`past
    ensures Enabled(old(s.View()), e) && e.Accept? && Reports(old(s.View()), e, r)
    ensures e.fd !in Descriptors(old(s.pollFds))
    ensures HasRun(s, io, es + [e])
    ensures s.pollFds == old(s.pollFds) + [PollFd(e.fd, false, false)]
  {
    hide Step, After, Legal, Descriptors, Enabled, ServerState.Valid, ServerState.View;
    var conn := AcceptFd(s.pollFds, r.conn);
    e := Accept(conn, r.address);
    CanAccept(s, conn, r.address);
    OneEventMore(Start(io), es, e);
    s.HandleNewConnection(conn, r.address);
  }

  /** The console. */
  method HandleStdin(s: ServerState, io: Sockets, r: Round, ghost es: seq<Event>) returns (stop: bool)
    requires HasRun(s, io, es)
    modifies s`wire, s`openFds, s`live, s`liveClients, s.live`c
    ensures stop <==> r.line == [EXIT_WORD]
    ensures s.live <= old(s.live)
    ensures !stop ==> HasRun(s, io, es)
    ensures stop ==> ShutDown(s, io, es)
  {
    hide Step, After, Legal;
    stop := s.HandleServerCommand(r.line);
  }

  // ---------------------------------------------------------------- the scan

  /** How far a scan has come: the run, the length it had when the scan began, the list that
      was polled, that list with what was appended to it, and how much of it is done. */
  datatype Scan = Scan(es: seq<Event>, from: nat, polled: seq<PollFd>, all: seq<PollFd>, pos: nat)

  ghost predicate Flagged(polled: seq<PollFd>, r: Round) {
    polled == Polled(Descriptors(polled), r)
  }

  ghost predicate Stage(io: Sockets, r: Round, g: Scan) {
    StageAt(io, r, g.es, g.from, g.polled, g.all, g.pos)
  }

  ghost predicate InScan(s: ServerState, io: Sockets, r: Round, idx: nat, g: Scan)
    reads s, s.clients.Values, s.live
  {
    HasRun(s, io, g.es) && Stage(io, r, g) && Ahead(s.pollFds, idx, g.all, g.pos)
  }

  /** Where a scan is, or how it was stopped. */
  ghost predicate Scans(stop: bool, s: ServerState, io: Sockets, r: Round, idx: nat, g: Scan)
    reads s, s.clients.Values, s.live
  {
    if stop then ShutDown(s, io, g.es) && RoundDone(io, r, g.es, g.from, g.polled) && Exits(g.polled, r)
    else InScan(s, io, r, idx, g)
  }

  /** One scan goes on from where another stood. */
  ghost predicate Later(g: Scan, g': Scan) {
    g.es <= g'.es && g'.from == g.from && g'.polled == g.polled
  }

  /** One event more, for the entry whose turn it is. */
  ghost function Next(g: Scan, e: Event, closes: bool): (n: Scan)
    ensures n.es == g.es + [e] && n.all == g.all && g.pos < n.pos && Later(g, n)
  {
    g.(es := g.es + [e], pos := if closes then g.pos + 2 else g.pos + 1)
  }

  ghost predicate StageAt(io: Sockets, r: Round, es: seq<Event>, from: nat, polled: seq<PollFd>,
                          all: seq<PollFd>, pos: nat)
  {
    && Legal(Start(io), es) && from <= |es|
    && Faithful(io, es, from, r)
    && Scanned(all, pos, Handled(io, es, from), Thrown(io, es, from))
    && Grown(all, polled) && (pos <= 1 ==> all == polled)
    && FIXED <= |polled| && Flagged(polled, r)
    && (pos > 2 ==> !Exits(polled, r))
  }

  lemma TurnTakenAt(io: Sockets, r: Round, es: seq<Event>, from: nat, polled: seq<PollFd>,
                    all: seq<PollFd>, pos: nat, before: State, e: Event)
    requires StageAt(io, r, es, from, polled, all, pos) && pos < |all| && Ready(all, pos)
    requires Legal(Start(io), es) && After(Start(io), es) == before && Enabled(before, e)
    requires Subject(io, before, e) == all[pos].fd && Reports(before, e, r)
    requires Throws(before, e) ==> FIXED <= pos
    ensures StageAt(io, r, es + [e], from, polled, all, if Throws(before, e) then pos + 2 else pos + 1)
  {
    assert pos != 2;
    hide Scanned, Ready, Subject, Enabled, Legal, After, Grown, Reports, Exits, Flagged;
    hide Faithful, Handled, Thrown, Throws, Start;
    ScanTakesTurn(io, r, es, from, all, pos, before, e);
  }

  lemma TurnTaken(io: Sockets, r: Round, g: Scan, before: State, e: Event)
    requires Stage(io, r, g) && g.pos < |g.all| && Ready(g.all, g.pos)
    requires Legal(Start(io), g.es) && After(Start(io), g.es) == before && Enabled(before, e)
    requires Subject(io, before, e) == g.all[g.pos].fd && Reports(before, e, r)
    requires Throws(before, e) ==> FIXED <= g.pos
    ensures Stage(io, r, Next(g, e, Throws(before, e)))
  {
    hide Scanned, Ready, Subject, Enabled, Legal, After, Grown, Reports, Exits, Flagged;
    hide Faithful, Handled, Thrown, Throws, Start, Later;
    TurnTakenAt(io, r, g.es, g.from, g.polled, g.all, g.pos, before, e);
  }

  /** The listener's connection goes to the end of the list. */
  lemma StageGrows(io: Sockets, r: Round, g: Scan, fd: int)
    requires Stage(io, r, g) && 1 < g.pos <= |g.all| && g.all == g.polled
    requires fd !in Descriptors(g.all)
    ensures Stage(io, r, g.(all := g.all + [PollFd(fd, false, false)]))
  {
    hide Scanned, Exits, Flagged, Faithful, Legal, After;
    ScanGrows(g.all, g.pos, Handled(io, g.es, g.from), Thrown(io, g.es, g.from), fd);
  }

  /** A quiet entry is passed over, and so is a console line that is not the command. */
  lemma StagePasses(io: Sockets, r: Round, g: Scan)
    requires Stage(io, r, g) && g.pos < |g.all| && !Ready(g.all, g.pos)
    requires g.pos == 2 ==> !Exits(g.polled, r)
    ensures Stage(io, r, g.(pos := g.pos + 1))
  {
    hide Scanned, Exits, Flagged, Faithful, Legal, After, Handled, Thrown, Grown;
    ScanPasses(g.all, g.pos, Handled(io, g.es, g.from), Thrown(io, g.es, g.from));
  }

  /** What poll reported for an entry that has something to report. */
  lemma StageFlags(io: Sockets, r: Round, g: Scan)
    requires Stage(io, r, g) && g.pos < |g.all| && Eventful(g.all[g.pos])
    ensures g.all[g.pos].hangup <==> g.all[g.pos].fd in r.hangups
  {
    assert g.all[g.pos] == g.polled[g.pos] == Polled(Descriptors(g.polled), r)[g.pos];
  }

  lemma StageEnds(io: Sockets, r: Round, g: Scan)
    requires Stage(io, r, g)
    requires if Exits(g.polled, r) then g.pos == 2 else g.pos >= |g.all|
    ensures RoundDone(io, r, g.es, g.from, g.polled)
  {
    hide Legal, After, Faithful, Handled, Thrown, Exits, Flagged, Turns;
    GrownTurns(g.all, g.polled, 2, Thrown(io, g.es, g.from));
  }

  lemma AheadStays(pollFds: seq<PollFd>, idx: nat, all: seq<PollFd>, pos: nat)
    requires Ahead(pollFds, idx, all, pos) && idx < |pollFds|
    ensures pos < |all| && pollFds[idx] == all[pos] && Ahead(pollFds, idx + 1, all, pos + 1)
    ensures idx < FIXED || pos < FIXED ==> pos == idx && all == pollFds
  {
    assert pollFds[idx] == pollFds[idx..][0] && all[pos] == all[pos..][0];
    assert pollFds[idx + 1..] == pollFds[idx..][1..] && all[pos + 1..] == all[pos..][1..];
  }

  /** An entry that takes its turn may be removed, and the index may stay where it is then. */
  lemma AheadMoves(pollFds: seq<PollFd>, idx: nat, g: Scan, pollFds': seq<PollFd>, idx': nat, e: Event, closes: bool)
    requires Ahead(pollFds, idx, g.all, g.pos) && FIXED <= idx < |pollFds| && !(e.Hangup? && closes)
    requires pollFds' == if e.Hangup? || closes then pollFds[..idx] + pollFds[idx + 1..] else pollFds
    requires idx' == if e.Hangup? then idx else idx + 1
    ensures Ahead(pollFds', idx', g.all, Next(g, e, closes).pos)
  {
    AheadStays(pollFds, idx, g.all, g.pos);
    if e.Hangup? {
      assert pollFds'[idx..] == pollFds[idx + 1..];
    } else if closes && idx + 1 < |pollFds| {
      AheadStays(pollFds, idx + 1, g.all, g.pos + 1);
      assert pollFds'[idx + 1..] == pollFds[idx + 2..];
    }
  }

  lemma StandsAt(s: ServerState, io: Sockets, r: Round, idx: nat, g: Scan)
    requires InScan(s, io, r, idx, g)
    ensures HasRun(s, io, g.es) && Legal(Start(io), g.es) && After(Start(io), g.es) == s.View()
    ensures Stage(io, r, g) && Ahead(s.pollFds, idx, g.all, g.pos)
    ensures g.pos <= 1 ==> g.all == g.polled
  {
  }

  /** A client entry takes its turn. */
  method ScanClient(s: ServerState, io: Sockets, r: Round, idx: nat, ghost g: Scan)
    returns (idx': nat, ghost g': Scan)
    requires InScan(s, io, r, idx, g)
    requires FIXED <= idx < |s.pollFds| && Eventful(s.pollFds[idx])
    modifies s, s.clients.Values, s.live
    ensures InScan(s, io, r, idx', g') && Later(g, g')
    ensures g'.all == g.all && g.pos < g'.pos
    ensures fresh(s.clients.Values - old(s.clients.Values)) && s.live <= old(s.live)
  {
    ghost var before, polls := s.View(), s.pollFds;
    StandsAt(s, io, r, idx, g);
    AheadStays(polls, idx, g.all, g.pos);
    StageFlags(io, r, g);
    hide HasRun, Stage, Ahead, Legal, After, Enabled, Subject, Reports, Next, Later, Start, ServerState.View;
    ghost var e: Event;
    idx', e := HandleClientEntry(s, io, r, idx, g.es);
    TurnTaken(io, r, g, before, e);
    AheadMoves(polls, idx, g, s.pollFds, idx', e, Throws(before, e));
    g' := Next(g, e, Throws(before, e));
  }

  method ScanUdp(s: ServerState, io: Sockets, r: Round, idx: nat, ghost g: Scan) returns (ghost g': Scan)
    requires InScan(s, io, r, idx, g) && Feasible(r)
    requires idx < 2 && FIXED <= |s.pollFds| && s.pollFds[idx].fd == io.udp && Ready(s.pollFds, idx)
    modifies s`wire, s`frames, s`live, s`published, s.clients.Values`lostMessages
    ensures InScan(s, io, r, idx + 1, g') && Later(g, g')
    ensures g'.all == g.all && g.pos < g'.pos
    ensures fresh(s.live - old(s.live))
  {
    ghost var before, polls := s.View(), s.pollFds;
    StandsAt(s, io, r, idx, g);
    AheadStays(polls, idx, g.all, g.pos);
    hide HasRun, Stage, Ahead, Legal, After, Enabled, Reports, Later, Start, ServerState.View, Ready, Feasible;
    ghost var e := HandleUdp(s, io, r, g.es);
    TurnTaken(io, r, g, before, e);
    g' := Next(g, e, false);
  }

  method ScanListener(s: ServerState, io: Sockets, r: Round, idx: nat, ghost g: Scan) returns (ghost g': Scan)
    requires InScan(s, io, r, idx, g)
    requires idx == 1 && FIXED <= |s.pollFds| && s.pollFds[idx].fd == io.listen && Ready(s.pollFds, idx)
    modifies s`clientAddresses, s`pollFds, s`openFds, s`wire, s`frames, s`pastWire, s`past
    ensures InScan(s, io, r, idx + 1, g') && Later(g, g')
    ensures |g'.all| == |g.all| + 1 && g.pos == idx < g'.pos
  {
    ghost var before, polls := s.View(), s.pollFds;
    StandsAt(s, io, r, idx, g);
    AheadStays(polls, idx, g.all, g.pos);
    hide HasRun, Stage, Legal, After, Enabled, Reports, Start, ServerState.View, Ready, Descriptors;
    ghost var e := HandleListener(s, io, r, g.es);
    TurnTaken(io, r, g, before, e);
    g' := Next(g, e, false);
    StageGrows(io, r, g', e.fd);
    g' := g'.(all := g.all + [PollFd(e.fd, false, false)]);
  }

  method ScanStdin(s: ServerState, io: Sockets, r: Round, idx: nat, ghost g: Scan)
    returns (stop: bool, ghost g': Scan)
    requires InScan(s, io, r, idx, g) && idx == 2 && FIXED <= |s.pollFds|
    requires s.pollFds[2].readable && !s.pollFds[2].hangup
    modifies s`wire, s`openFds, s`live, s`liveClients, s.live`c
    ensures Scans(stop, s, io, r, idx + 1, g') && Later(g, g')
    ensures !stop ==> g'.all == g.all && g.pos < g'.pos
    ensures s.live <= old(s.live)
  {
    StandsAt(s, io, r, idx, g);
    AheadStays(s.pollFds, idx, g.all, g.pos);
    ConsoleEntry(s, io, r, idx, g);
    assert !Ready(g.all, g.pos);
    hide HasRun, ShutDown, Stage, RoundDone, Ahead, Legal, After, Start, ServerState.View, Ready, Descriptors;
    stop := HandleStdin(s, io, r, g.es);
    g' := if stop then g else g.(pos := g.pos + 1);
    if stop {
      StageEnds(io, r, g);
    } else {
      StagePasses(io, r, g);
    }
  }

  lemma ConsoleEntry(s: ServerState, io: Sockets, r: Round, idx: nat, g: Scan)
    requires InScan(s, io, r, idx, g)
    ensures idx == 2 && idx < |s.pollFds| ==>
      var shown := s.pollFds[2].readable && !s.pollFds[2].hangup;
      g.pos == 2 && (Exits(g.polled, r) <==> shown && r.line == [EXIT_WORD])
    ensures g.pos == 2 && idx < |s.pollFds| ==> idx == 2
  {
    if idx < |s.pollFds| {
      AheadStays(s.pollFds, idx, g.all, g.pos);
      assert g.all[2] == g.polled[2];
    }
  }

  lemma QuietEntry(s: ServerState, io: Sockets, r: Round, idx: nat, g: Scan)
    requires InScan(s, io, r, idx, g) && idx < |s.pollFds|
    requires s.pollFds[idx].hangup || !s.pollFds[idx].readable
    requires !Ready(s.pollFds, idx)
    ensures InScan(s, io, r, idx + 1, g.(pos := g.pos + 1))
  {
    ConsoleEntry(s, io, r, idx, g);
    AheadStays(s.pollFds, idx, g.all, g.pos);
    hide HasRun, Stage, Ahead, Exits;
    StagePasses(io, r, g);
  }

  /** The first three entries during a scan. */
  lemma FixedEntries(s: ServerState, io: Sockets, r: Round, idx: nat, g: Scan)
    requires ThreeApart(io) && InScan(s, io, r, idx, g)
    ensures FIXED <= |s.pollFds|
    ensures s.pollFds[0].fd == io.udp && s.pollFds[1].fd == io.listen && s.pollFds[2].fd == STDIN
    ensures idx < |s.pollFds| ==> g.pos < |g.all|
    ensures forall i | FIXED <= i < |s.pollFds| ::
      s.pollFds[i].fd != io.udp && s.pollFds[i].fd != io.listen && s.pollFds[i].fd != STDIN
  {
    RunTables(s, io, g.es);
    forall i, j | 0 <= j < FIXED <= i < |s.pollFds| ensures s.pollFds[i].fd != s.pollFds[j].fd {
      OthersDiffer(s.pollFds, i, j);
    }
  }

  /** server.cpp:377-405. */
  method ScanReadable(s: ServerState, io: Sockets, r: Round, idx: nat, ghost g: Scan)
    returns (stop: bool, idx': nat, ghost g': Scan)
    requires ThreeApart(io) && Feasible(r)
    requires InScan(s, io, r, idx, g) && idx < |s.pollFds|
    requires s.pollFds[idx].readable && !s.pollFds[idx].hangup
    modifies s, s.clients.Values, s.live
    ensures Scans(stop, s, io, r, idx', g') && Later(g, g')
    ensures fresh(s.clients.Values - old(s.clients.Values)) && fresh(s.live - old(s.live))
    ensures !stop ==> Left(|g'.all|, g'.pos) < Left(|g.all|, g.pos)
  {
    hide Feasible, InScan, ShutDown, HasRun, Later, RoundDone, Exits;
    FixedEntries(s, io, r, idx, g);
    var fd := s.pollFds[idx].fd;
    stop, idx' := false, idx + 1;
    if fd == io.udp {
      g' := ScanUdp(s, io, r, idx, g);
    } else if fd == io.listen {
      g' := ScanListener(s, io, r, idx, g);
    } else if fd == STDIN {
      stop, g' := ScanStdin(s, io, r, idx, g);
    } else {
      idx', g' := ScanClient(s, io, r, idx, g);
    }
  }

  /** The body of the scan's loop (server.cpp:363-405). */
  method ScanEntry(s: ServerState, io: Sockets, r: Round, idx: nat, ghost g: Scan)
    returns (stop: bool, idx': nat, ghost g': Scan)
    requires ThreeApart(io) && Feasible(r)
    requires Scans(false, s, io, r, idx, g) && idx < |s.pollFds|
    modifies s, s.clients.Values, s.live
    ensures Scans(stop, s, io, r, idx', g') && Later(g, g')
    ensures fresh(s.clients.Values - old(s.clients.Values)) && fresh(s.live - old(s.live))
    ensures !stop ==> Left(|g'.all|, g'.pos) < Left(|g.all|, g.pos)
  {
    hide Feasible, InScan, ShutDown, HasRun, RoundDone, Exits;
    FixedEntries(s, io, r, idx, g);
    var pfd := s.pollFds[idx];
    stop, idx', g' := false, idx + 1, g.(pos := g.pos + 1);
    if pfd.hangup && pfd.fd != io.listen && pfd.fd != io.udp && pfd.fd != STDIN {
      idx', g' := ScanClient(s, io, r, idx, g);
    } else if pfd.hangup || !pfd.readable {
      QuietEntry(s, io, r, idx, g);
    } else {
      stop, idx', g' := ScanReadable(s, io, r, idx, g);
    }
  }

  lemma ScanStarts(s: ServerState, io: Sockets, r: Round, es: seq<Event>)
    requires ThreeApart(io) && HasRun(s, io, es)
    requires s.pollFds == Polled(After(Start(io), es).polls, r)
    ensures Scans(false, s, io, r, 0, Scan(es, |es|, s.pollFds, s.pollFds, 0))
  {
    RunTables(s, io, es);
  }

  lemma ScanEnds(stop: bool, s: ServerState, io: Sockets, r: Round, idx: nat, g: Scan)
    requires Scans(stop, s, io, r, idx, g) && (stop || idx >= |s.pollFds|)
    ensures if stop then ShutDown(s, io, g.es) else HasRun(s, io, g.es)
    ensures RoundDone(io, r, g.es, g.from, g.polled)
    ensures stop <==> Exits(g.polled, r)
  {
    hide HasRun, ShutDown, RoundDone, Exits;
    if !stop {
      assert g.pos >= |g.all| > 2;
      StageEnds(io, r, g);
    }
  }

  /** The scan's loop: it ends although a connection may be appended, and the index never runs
      below zero. */
  method ScanAll(s: ServerState, io: Sockets, r: Round, ghost first: Scan)
    returns (stop: bool, idx: nat, ghost g: Scan)
    requires ThreeApart(io) && Feasible(r)
    requires Scans(false, s, io, r, 0, first)
    modifies s, s.clients.Values, s.live
    ensures fresh(s.clients.Values - old(s.clients.Values)) && fresh(s.live - old(s.live))
    ensures Scans(stop, s, io, r, idx, g) && Later(first, g)
    ensures stop || idx >= |s.pollFds|
  {
    hide Feasible, Scans, Left, ThreeApart;
    ghost var records, messages := s.clients.Values, s.live;
    stop, idx, g := false, 0, first;
    while !stop && idx < |s.pollFds|
      invariant Scans(stop, s, io, r, idx, g) && Later(first, g)
      invariant fresh(s.clients.Values - records) && fresh(s.live - messages)
      decreases !stop, Left(|g.all|, g.pos)
    {
      ghost var g0 := g;
      stop, idx, g := ScanEntry(s, io, r, idx, g);
      LaterStill(first, g0, g);
    }
  }

  /** One pass over the poll list: each handler gets the entry of its own descriptor, and the
      events are exactly those of the round, for the entries that get their turn, in order. */
  method ServeRound(s: ServerState, io: Sockets, r: Round, ghost es: seq<Event>)
    returns (stop: bool, ghost es': seq<Event>)
    requires ThreeApart(io) && Feasible(r) && HasRun(s, io, es)
    requires s.pollFds == Polled(After(Start(io), es).polls, r)
    modifies s, s.clients.Values, s.live
    ensures fresh(s.clients.Values - old(s.clients.Values)) && fresh(s.live - old(s.live))
    ensures OneRound(io, r, es, es')
    ensures stop <==> Stops(io, r, es)
    ensures if stop then ShutDown(s, io, es') else HasRun(s, io, es')
  {
    ScanStarts(s, io, r, es);
    hide HasRun, ShutDown, Feasible, RoundDone, Scans, ThreeApart, Exits, After, Legal, Polled;
    var idx;
    ghost var g;
    stop, idx, g := ScanAll(s, io, r, Scan(es, |es|, s.pollFds, s.pollFds, 0));
    ScanEnds(stop, s, io, r, idx, g);
    es' := g.es;
  }

  lemma LaterStill(a: Scan, b: Scan, c: Scan)
    requires Later(a, b) && Later(b, c)
    ensures Later(a, c)
  {
  }

  /** A new server, before its first call of poll. */
  method StartUp(io: Sockets) returns (s: ServerState)
    requires ThreeApart(io)
    ensures fresh(s) && fresh(s.clients.Values) && fresh(s.live)
    ensures HasRun(s, io, [])
  {
    s := new ServerState(io.udp, io.listen, STDIN);
  }

  /** One turn of the outer loop. */
  method PollAndServe(s: ServerState, io: Sockets, r: Round, ghost es: seq<Event>)
    returns (stop: bool, ghost es': seq<Event>)
    requires ThreeApart(io) && Feasible(r) && HasRun(s, io, es)
    modifies s, s.clients.Values, s.live
    ensures fresh(s.clients.Values - old(s.clients.Values)) && fresh(s.live - old(s.live))
    ensures OneRound(io, r, es, es')
    ensures stop <==> Stops(io, r, es)
    ensures if stop then ShutDown(s, io, es') else HasRun(s, io, es')
  {
    hide HasRun, ShutDown, Feasible, OneRound, Stops, ThreeApart, Polled;
    Poll(s, io, r, es);
    stop, es' := ServeRound(s, io, r, es);
  }

  /** The server from its start through any number of calls of poll, or up to its shutdown: the
      run it makes is the one these rounds ask for, and its heap is that of the run. */
  method Serve(io: Sockets, rounds: seq<Round>)
    returns (s: ServerState, stop: bool, ghost es: seq<Event>, served: nat)
    requires ThreeApart(io) && forall r | r in rounds :: Feasible(r)
    ensures fresh(s)
    ensures served <= |rounds| && (stop || served == |rounds|)
    ensures Served(io, rounds[..served], es, stop)
    ensures if stop then ShutDown(s, io, es) else HasRun(s, io, es) && CountsExact(s)
  {
    hide Feasible, OneRound, Stops, HasRun, ShutDown, CountsExact;
    s := StartUp(io);
    stop, es, served := false, [], 0;
    assert rounds[..0] == [];
    while !stop && served < |rounds|
      invariant served <= |rounds|
      invariant Served(io, rounds[..served], es, stop)
      invariant if stop then ShutDown(s, io, es) else HasRun(s, io, es)
      invariant fresh(s) && fresh(s.clients.Values) && fresh(s.live)
    {
      hide Served;
      ghost var before := es;
      stop, es := PollAndServe(s, io, rounds[served], es);
      OneRoundMore(io, rounds, served, before, es, stop);
      served := served + 1;
    }
    if !stop {
      RunCounts(s, io, es);
    }
  }
}
