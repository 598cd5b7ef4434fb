/** A visit is a connection that says CONNECT and is then closed by its peer. When descriptor
    numbers are reused, a visit may leave its client marked as connected. */
module Visits {
  import opened Bytes
  import opened Conduct
  import opened Machine
  import Order

  /** An id a subscriber can send: it fits its field and contains no NUL. */
  predicate Plain(id: Text) {
    |id| < ID_SIZE && NUL !in id
  }

  function Connect(id: Text): Request
    requires Plain(id)
  {
    Request(id + seq(ID_SIZE - |id|, _ => NUL), seq(TOPIC_FIELD_SIZE, _ => NUL), false, MESSAGE)
  }

  lemma ConnectNames(id: Text)
    requires Plain(id)
    ensures ClientId(Connect(id)) == id
  {
    var field := Connect(id).id[..ID_SIZE - 1];
    assert field[..|id|] == id;
    CutAtNulUnique(field, id);
  }

  function Visit(fd: int, address: Address, id: Text): seq<Event>
    requires Plain(id)
  {
    [Accept(fd, address), Ask(FIXED, Connect(id)), Hangup(FIXED)]
  }

  /** Nobody is connected. */
  ghost predicate Quiet(s: State) {
    && TablesAgree(s) && |s.polls| == FIXED
    && forall k :: !IsOnline(s, k) || k == []
  }

  /** Some other record, smaller than this one, still stores the descriptor number. */
  ghost predicate Shadowed(fds: map<Text, int>, id: Text, fd: int) {
    !forall k | k in fds && k != id && fds[k] == fd :: Order.AtMost(id, k)
  }

  ghost predicate OthersSame(s: State, s': State, id: Text) {
    forall k | k != id :: IsOnline(s', k) <==> IsOnline(s, k)
  }

  lemma ThreeMore(s: State, es: seq<Event>, a: Event, b: Event, c: Event)
    requires Legal(s, es)
    requires Enabled(After(s, es), a)
    requires Enabled(Step(After(s, es), a), b)
    requires Enabled(Step(Step(After(s, es), a), b), c)
    ensures Legal(s, es + [a, b, c]) && After(s, es + [a, b, c]) == Step(Step(Step(After(s, es), a), b), c)
  {
    OneEventMore(s, es, a);
    OneEventMore(s, es + [a], b);
    OneEventMore(s, es + [a] + [b], c);
    assert es + [a] + [b] + [c] == es + [a, b, c];
  }

  lemma VisitConnects(s: State, fd: int, address: Address, id: Text)
    requires Plain(id) && Quiet(s) && fd !in s.polls && !IsOnline(s, id)
    ensures
      var v := Visit(fd, address, id);
      && Enabled(s, v[0]) && Enabled(Step(s, v[0]), v[1])
      && var s' := Step(Step(s, v[0]), v[1]);
      && s'.polls == s.polls + [fd] && s'.polls[FIXED] == fd && s'.fds == s.fds[id := fd]
      && IsOnline(s', id) && OthersSame(s, s', id)
  {
    var v := Visit(fd, address, id);
    ConnectNames(id);
    var s1 := Step(s, v[0]);
    assert s1.polls[FIXED] == fd;
    assert Step(s1, v[1]) == Attach(s1, id, fd);
  }

  /** The three steps of a visit while nobody else is connected. The client is still marked as
      connected at the end if and only if its id is empty or its record is shadowed. */
  lemma VisitEnds(s: State, fd: int, address: Address, id: Text)
    requires Plain(id) && Quiet(s) && fd !in s.polls && !IsOnline(s, id)
    ensures
      var v := Visit(fd, address, id);
      && Enabled(s, v[0]) && Enabled(Step(s, v[0]), v[1]) && Enabled(Step(Step(s, v[0]), v[1]), v[2])
      && var s' := Step(Step(Step(s, v[0]), v[1]), v[2]);
      && s'.polls == s.polls && s'.fds == s.fds[id := fd]
      && (IsOnline(s', id) <==> id == [] || Shadowed(s.fds, id, fd))
      && OthersSame(s, s', id)
  {
    var v := Visit(fd, address, id);
    VisitConnects(s, fd, address, id);
    var s2 := Step(Step(s, v[0]), v[1]);
    HangupMarks(s2, FIXED);
    HangupMarksExactly(s2, FIXED, id);
    HangupSparesOthers(s2, id);
    FirstOrShadowed(s.fds, id, fd);
    hide Step, Visit, FoundFirst, Shadowed;
    assert Without(s.polls + [fd], FIXED) == s.polls;
  }

  lemma FirstOrShadowed(fds: map<Text, int>, id: Text, fd: int)
    ensures FoundFirst(fds[id := fd], id, fd) <==> id != [] && !Shadowed(fds, id, fd)
  {
    Order.Total(id, id);
    var more := fds[id := fd];
    assert forall k | k != id :: (k in more <==> k in fds) && (k in fds ==> more[k] == fds[k]);
  }

  lemma HangupSparesOthers(s: State, id: Text)
    requires Enabled(s, Hangup(FIXED))
    requires forall k | IsOnline(s, k) :: k == id || k == []
    ensures OthersSame(s, Step(s, Hangup(FIXED)), id)
  {
  }

  lemma VisitRuns(start: State, es: seq<Event>, fd: int, address: Address, id: Text)
    requires Legal(start, es)
    requires Plain(id) && Quiet(After(start, es)) && fd !in After(start, es).polls && !IsOnline(After(start, es), id)
    ensures
      var s, es' := After(start, es), es + Visit(fd, address, id);
      && Legal(start, es')
      && var s' := After(start, es');
      && s'.polls == s.polls && s'.fds == s.fds[id := fd]
      && (IsOnline(s', id) <==> id == [] || Shadowed(s.fds, id, fd))
      && OthersSame(s, s', id) && TablesAgree(s')
  {
    var s := After(start, es);
    VisitEnds(s, fd, address, id);
    hide Step, Enabled, IsOnline, Shadowed, TablesAgree;
    var v := Visit(fd, address, id);
    StepKeepsTables(s, v[0]);
    StepKeepsTables(Step(s, v[0]), v[1]);
    StepKeepsTables(Step(Step(s, v[0]), v[1]), v[2]);
    ThreeMore(start, es, v[0], v[1], v[2]);
    assert v == [v[0], v[1], v[2]];
  }

  /** Two clients visit one after the other, the second on the number of the first. If its id
      is greater, the server takes it for connected although no connection is left. */
  lemma SecondVisitorStays(start: State, fd: int, address: Address, first: Text, second: Text)
    requires Quiet(start) && start.fds == map[] && fd !in start.polls
    requires Plain(first) && Plain(second) && first != second && first != [] && second != []
    ensures
      var es := Visit(fd, address, first) + Visit(fd, address, second);
      && Legal(start, es)
      && var s := After(start, es);
      && |s.polls| == FIXED
      && (IsOnline(s, second) <==> Order.AtMost(first, second))
  {
    assert Legal(start, []) && After(start, []) == start;
    VisitRuns(start, [], fd, address, first);
    var es := Visit(fd, address, first);
    assert [] + es == es;
    hide Legal, After, TablesAgree, Visit;
    VisitRuns(start, es, fd, address, second);
    var fds := After(start, es).fds;
    assert fds == map[first := fd];
    assert Shadowed(fds, second, fd) <==> !Order.AtMost(second, first);
    Order.Total(first, second);
    if Order.AtMost(first, second) && Order.AtMost(second, first) {
      Order.Antisymmetric(first, second);
    }
  }
}
