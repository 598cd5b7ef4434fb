/** The records the server allocates (server.h:10-22) and the bookkeeping of shared messages:
    which clients queue a message, and how that set changes as queues grow and shrink. */
module Store {
  import opened Bytes
  import opened Broker

  /** stored_message_t. Its bytes are fixed once built; only the reference count changes. */
  class StoredMessage {
    var c: int
    const len: int
    const buff: Text
    ghost const serial: nat

    constructor (buff: Text, ghost serial: nat)
      ensures c == 0 && len == |buff| && this.buff == buff && this.serial == serial
    {
      c := 0;
      this.len := |buff|;
      this.buff := buff;
      this.serial := serial;
    }

    ghost function Value(): Msg {
      Msg(serial, buff)
    }
  }

  /** tcp_client_t. */
  class TcpClient {
    var fd: int
    const id: Text
    var connected: bool
    var topics: map<Text, bool>
    var lostMessages: seq<StoredMessage>

    constructor (id: Text, fd: int)
      ensures this.id == id && this.fd == fd && connected && topics == map[] && lostMessages == []
    {
      this.id := id;
      this.fd := fd;
      connected := true;
      topics := map[];
      lostMessages := [];
    }

    ghost function Snapshot(): Session
      reads this`connected, this`topics, this`lostMessages
    {
      Session(connected, topics, Values(lostMessages))
    }
  }

  ghost function Values(q: seq<StoredMessage>): (r: seq<Msg>)
    ensures |r| == |q|
  {
    seq(|q|, i requires 0 <= i < |q| => q[i].Value())
  }

  lemma ValuesAppend(q: seq<StoredMessage>, m: StoredMessage)
    ensures Values(q + [m]) == Values(q) + [m.Value()]
  {
  }

  /** One step along a queue, seen from what is left of it and from what went out. */
  lemma OneFewer(qs: Queues, id: Text, lost: seq<StoredMessage>, i: nat)
    requires i < |lost|
    ensures
      var rest := qs[id := lost[i..]];
      rest[id] != [] && rest[id][0] == lost[i] && rest[id := rest[id][1..]] == qs[id := lost[i + 1..]]
  {
    assert lost[i..][1..] == lost[i + 1..];
  }

  lemma OneSentMore(sent: seq<Msg>, lost: seq<StoredMessage>, i: nat)
    requires i < |lost|
    ensures sent + Values(lost[..i + 1]) == sent + Values(lost[..i]) + [lost[i].Value()]
  {
    assert lost[..i + 1] == lost[..i] + [lost[i]];
    ValuesAppend(lost[..i], lost[i]);
  }

  // ---------------------------------------------------------------- lists without repeats

  ghost predicate NoRepeats<T>(xs: seq<T>) {
    forall i, j | 0 <= i < j < |xs| :: xs[i] != xs[j]
  }

  ghost function Members<T>(xs: seq<T>): set<T> {
    set x | x in xs
  }

  /** What std::remove followed by erase leaves. */
  function Removed<T(==)>(xs: seq<T>, x: T): seq<T> {
    if xs == [] then [] else (if xs[0] == x then [] else [xs[0]]) + Removed(xs[1..], x)
  }

  lemma {:induction false} RemovedHolds<T>(xs: seq<T>, x: T)
    ensures Members(Removed(xs, x)) == Members(xs) - {x}
    ensures NoRepeats(xs) ==> NoRepeats(Removed(xs, x))
    decreases |xs|
  {
    if xs != [] {
      RemovedHolds(xs[1..], x);
      assert xs == [xs[0]] + xs[1..];
      assert Members(xs) == {xs[0]} + Members(xs[1..]);
      var rest := Removed(xs[1..], x);
      if xs[0] != x {
        assert Members([xs[0]] + rest) == {xs[0]} + Members(rest);
      } else {
        assert [] + rest == rest;
      }
      if NoRepeats(xs) {
        assert forall i | 0 <= i < |xs[1..]| :: xs[1..][i] == xs[i + 1];
        assert xs[0] !in Members(xs[1..]);
        assert xs[0] !in Members(rest);
      }
    }
  }

  lemma {:induction false} RemovedAppend<T>(xs: seq<T>, y: T, x: T)
    ensures Removed(xs + [y], x) == Removed(xs, x) + if y == x then [] else [y]
    decreases |xs|
  {
    if xs != [] {
      RemovedAppend(xs[1..], y, x);
      assert (xs + [y])[1..] == xs[1..] + [y];
    }
  }

  /** The search loops of the handlers. */
  method Contains<T(==)>(xs: seq<T>, x: T) returns (found: bool)
    ensures found <==> x in xs
  {
    var i := 0;
    while i < |xs|
      invariant i <= |xs|
      invariant x !in xs[..i]
    {
      if xs[i] == x {
        return true;
      }
      i := i + 1;
    }
    found := false;
  }

  /** subs.erase(std::remove(subs.begin(), subs.end(), x), subs.end()). */
  method RemoveAll<T(==)>(xs: seq<T>, x: T) returns (ys: seq<T>)
    ensures ys == Removed(xs, x)
  {
    ys := [];
    for i := 0 to |xs|
      invariant ys == Removed(xs[..i], x)
    {
      RemovedAppend(xs[..i], xs[i], x);
      assert xs[..i + 1] == xs[..i] + [xs[i]];
      if xs[i] != x {
        ys := ys + [xs[i]];
      }
    }
    assert xs[..|xs|] == xs;
  }

  // ---------------------------------------------------------------- the client records

  type Queues = map<Text, seq<StoredMessage>>

  ghost function SessionsOf(m: map<Text, TcpClient>): Sessions
    reads m.Values`connected, m.Values`topics, m.Values`lostMessages
  {
    map k | k in m :: m[k].Snapshot()
  }

  ghost function FdsOf(m: map<Text, TcpClient>): map<Text, int>
    reads m.Values`fd
  {
    map k | k in m :: m[k].fd
  }

  ghost function QueuesOf(m: map<Text, TcpClient>): Queues
    reads m.Values`lostMessages
  {
    map k | k in m :: m[k].lostMessages
  }

  lemma OneClientMore(m: map<Text, TcpClient>, id: Text, c: TcpClient)
    requires id !in m
    ensures SessionsOf(m[id := c]) == SessionsOf(m)[id := c.Snapshot()]
    ensures FdsOf(m[id := c]) == FdsOf(m)[id := c.fd]
    ensures QueuesOf(m[id := c]) == QueuesOf(m)[id := c.lostMessages]
  {
    OneSessionMore(m, id, c);
  }

  lemma OneSessionMore(m: map<Text, TcpClient>, id: Text, c: TcpClient)
    requires id !in m
    ensures SessionsOf(m[id := c]) == SessionsOf(m)[id := c.Snapshot()]
  {
  }

  ghost predicate FdsIn(fds: map<Text, int>, streams: set<int>) {
    forall k | k in fds :: fds[k] in streams
  }

  lemma FdsInOneMore(fds: map<Text, int>, streams: set<int>, id: Text, fd: int)
    requires FdsIn(fds, streams) && fd in streams
    ensures FdsIn(fds[id := fd], streams)
  {
  }

  // ---------------------------------------------------------------- who holds a message

  ghost function Holders(qs: Queues, m: StoredMessage): set<Text> {
    set k | k in qs && m in qs[k]
  }

  /** Taking the first message off one queue takes exactly that client out of its holders. */
  lemma HoldersAfterHead(qs: Queues, k: Text, m: StoredMessage)
    requires k in qs && qs[k] != [] && NoRepeats(qs[k])
    ensures
      var qs' := qs[k := qs[k][1..]];
      && NoRepeats(qs'[k])
      && Holders(qs', m) == (if m == qs[k][0] then Holders(qs, m) - {k} else Holders(qs, m))
      && (m == qs[k][0] ==> |Holders(qs', m)| == |Holders(qs, m)| - 1)
  {
    var q := qs[k];
    assert q == [q[0]] + q[1..];
    assert q[0] !in q[1..];
    if m == q[0] {
      assert k in Holders(qs, m);
      assert Holders(qs[k := q[1..]], m) == Holders(qs, m) - {k};
    } else {
      assert m in q <==> m in q[1..];
      assert Holders(qs[k := q[1..]], m) == Holders(qs, m);
    }
  }

  /** A queue that is empty holds nothing. */
  lemma HoldersWithoutEmpty(qs: Queues, k: Text, m: StoredMessage)
    requires k in qs ==> qs[k] == []
    ensures Holders(qs - {k}, m) == Holders(qs, m)
    ensures Holders(qs[k := []], m) == Holders(qs, m)
  {
  }

  /** Queues that differ by one message at the end of some of them. */
  ghost predicate GrownBy(qs: Queues, qs': Queues, m: StoredMessage, ids: set<Text>) {
    && qs'.Keys == qs.Keys
    && ids <= qs.Keys
    && forall k | k in qs :: m !in qs[k] && qs'[k] == qs[k] + if k in ids then [m] else []
  }

  /** A message sits in a queue exactly if the queue has grown by it. */
  lemma GrownHolds(qs: Queues, qs': Queues, m: StoredMessage, ids: set<Text>, k: Text)
    requires GrownBy(qs, qs', m, ids) && k in qs'
    ensures m in qs'[k] <==> k in ids
  {
    assert qs'[k] == qs[k] + if k in ids then [m] else [];
    if k in ids {
      assert qs'[k][|qs[k]|] == m;
    }
  }

  lemma GrowOneMore(qs: Queues, qs': Queues, m: StoredMessage, ids: set<Text>, k: Text)
    requires GrownBy(qs, qs', m, ids) && k in qs' && k !in ids
    ensures GrownBy(qs, qs'[k := qs'[k] + [m]], m, ids + {k})
  {
    forall j | j in qs
      ensures m !in qs[j] && qs'[k := qs'[k] + [m]][j] == qs[j] + if j in ids + {k} then [m] else []
    {
      assert qs'[j] == qs[j] + if j in ids then [m] else [];
    }
  }

  lemma HoldersAfterGrowth(qs: Queues, qs': Queues, m: StoredMessage, ids: set<Text>, x: StoredMessage)
    requires GrownBy(qs, qs', m, ids)
    ensures Holders(qs', x) == if x == m then ids else Holders(qs, x)
    ensures (forall k | k in qs :: NoRepeats(qs[k])) ==> (forall k | k in qs' :: NoRepeats(qs'[k]))
  {
    if x == m {
      assert Holders(qs', m) == ids;
    } else {
      assert Holders(qs', x) == Holders(qs, x);
    }
  }

  /** Collecting the wanted ids one by one. */
  lemma OneIdMore(base: set<Text>, wanted: set<Text>, seen: set<Text>, x: Text, now: set<Text>)
    requires now == base + wanted * seen
    ensures base + wanted * (seen + {x}) == if x in wanted then now + {x} else now
  {
  }

  /** The ids of the clients in a list. */
  ghost function IdsOf(list: seq<TcpClient>): set<Text> {
    set c | c in list :: c.id
  }

  lemma NoIds()
    ensures IdsOf([]) == {}
  {
  }

  lemma IdsOfAppend(list: seq<TcpClient>, c: TcpClient)
    ensures IdsOf(list + [c]) == IdsOf(list) + {c.id}
  {
    assert c in list + [c];
    forall x | x in list ensures x in list + [c] {}
  }

  lemma OneValueMore<T>(m: map<Text, T>, k: Text, v: T)
    requires k !in m
    ensures m[k := v].Values == m.Values + {v}
  {
    forall x | x in m.Values ensures x in m[k := v].Values {
      var j :| j in m && m[j] == x;
      assert m[k := v][j] == x;
    }
    assert m[k := v][k] == v;
  }
}
