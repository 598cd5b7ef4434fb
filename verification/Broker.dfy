/** The broker as its users see it: one session per client id, with no descriptors, pointers or
    reference counts. The rest of the project refines it. */
module Broker {
  import opened Bytes
  import Matcher

  /** A publication: its number in the order of arrival and the envelope sent to subscribers. */
  datatype Msg = Msg(serial: nat, buff: Text)

  /** What the broker remembers of a client: whether it is connected, its patterns with their
      store-and-forward flags, and what is stored for it. */
  datatype Session = Session(online: bool, topics: map<Text, bool>, queue: seq<Msg>)

  type Sessions = map<Text, Session>

  datatype Op =
    | Publish(topic: Text, msg: Msg)
    | Join(id: Text)
    | Subscribe(id: Text, pattern: Text, sf: bool)
    | Unsubscribe(id: Text, pattern: Text)
    | Leave(id: Text)
    | Skip

  predicate Wants(s: Session, topic: Text) {
    exists p | p in s.topics :: Matcher.Routes(topic, p)
  }

  predicate WantsStored(s: Session, topic: Text) {
    exists p | p in s.topics :: s.topics[p] && Matcher.Routes(topic, p)
  }

  predicate GetsNow(s: Session, topic: Text) {
    s.online && Wants(s, topic)
  }

  predicate GetsLater(s: Session, topic: Text) {
    !s.online && WantsStored(s, topic)
  }

  function AfterPublish(s: Session, topic: Text, msg: Msg): Session {
    if GetsLater(s, topic) then s.(queue := s.queue + [msg]) else s
  }

  function Apply(b: Sessions, op: Op): Sessions {
    match op
    case Publish(topic, msg) => map k | k in b :: AfterPublish(b[k], topic, msg)
    case Join(id) =>
      if id !in b then b[id := Session(true, map[], [])]
      else if b[id].online then b
      else b[id := b[id].(online := true, queue := [])]
    case Subscribe(id, p, sf) =>
      if id in b then b[id := b[id].(topics := b[id].topics[p := sf])] else b
    case Unsubscribe(id, p) =>
      if id in b then b[id := b[id].(topics := b[id].topics - {p})] else b
    case Leave(id) =>
      if id in b then b[id := b[id].(online := false)] else b
    case Skip => b
  }

  /** What one operation sends to one client. */
  function Output(b: Sessions, op: Op, id: Text): seq<Msg> {
    if id !in b then []
    else match op
      case Publish(topic, msg) => if GetsNow(b[id], topic) then [msg] else []
      case Join(k) => if k == id && !b[id].online then b[id].queue else []
      case _ => []
  }

  /** A publication concerns a client that gets it at once or has it stored. */
  predicate Eligible(b: Sessions, op: Op, id: Text) {
    op.Publish? && id in b && (GetsNow(b[id], op.topic) || GetsLater(b[id], op.topic))
  }

  // ---------------------------------------------------------------- pattern by pattern

  /** The connected clients that hold a pattern, and the disconnected ones that hold it with
      the store-and-forward flag set. */
  ghost function Takers(b: Sessions, p: Text): set<Text> {
    set k | k in b && b[k].online && p in b[k].topics
  }

  ghost function Keepers(b: Sessions, p: Text): set<Text> {
    set k | k in b && !b[k].online && p in b[k].topics && b[k].topics[p]
  }

  /** Who is reached, and for whom the message is stored, through a set of patterns. */
  ghost function Reached(b: Sessions, topic: Text, patterns: set<Text>): set<Text> {
    set k | k in b && b[k].online && exists p :: p in patterns && p in b[k].topics && Matcher.Routes(topic, p)
  }

  ghost function Kept(b: Sessions, topic: Text, patterns: set<Text>): set<Text> {
    set k | k in b && !b[k].online &&
      exists p :: p in patterns && p in b[k].topics && b[k].topics[p] && Matcher.Routes(topic, p)
  }

  /** Taking the patterns one after the other, in any order, and uniting what each gives. */
  lemma OnePatternMore(b: Sessions, topic: Text, patterns: set<Text>, p: Text)
    ensures Reached(b, topic, patterns + {p})
      == Reached(b, topic, patterns) + if Matcher.Routes(topic, p) then Takers(b, p) else {}
    ensures Kept(b, topic, patterns + {p})
      == Kept(b, topic, patterns) + if Matcher.Routes(topic, p) then Keepers(b, p) else {}
  {
  }

  lemma NoPatterns(b: Sessions, topic: Text)
    ensures Reached(b, topic, {}) == {} && Kept(b, topic, {}) == {}
  {
  }

  lemma AllPatterns(b: Sessions, topic: Text, patterns: set<Text>)
    requires forall k | k in b :: b[k].topics.Keys <= patterns
    ensures Reached(b, topic, patterns) == set k | k in b && GetsNow(b[k], topic)
    ensures Kept(b, topic, patterns) == set k | k in b && GetsLater(b[k], topic)
  {
  }

  // ---------------------------------------------------------------- runs

  function Run(b: Sessions, ops: seq<Op>): Sessions {
    if ops == [] then b else Apply(Run(b, ops[..|ops| - 1]), ops[|ops| - 1])
  }

  /** Everything sent to a client over a run, in order. */
  function Sent(b: Sessions, ops: seq<Op>, id: Text): seq<Msg> {
    if ops == [] then []
    else
      var n := |ops| - 1;
      Sent(b, ops[..n], id) + Output(Run(b, ops[..n]), ops[n], id)
  }

  /** The publications of a run that concerned a client when they were made, in order. */
  function Due(b: Sessions, ops: seq<Op>, id: Text): seq<Msg> {
    if ops == [] then []
    else
      var n := |ops| - 1;
      Due(b, ops[..n], id) + if Eligible(Run(b, ops[..n]), ops[n], id) then [ops[n].msg] else []
  }

  function Queue(b: Sessions, id: Text): seq<Msg> {
    if id in b then b[id].queue else []
  }

  /** A connected client has nothing stored. */
  ghost predicate Tidy(b: Sessions) {
    forall k | k in b :: b[k].online ==> b[k].queue == []
  }

  lemma ApplyTidy(b: Sessions, op: Op)
    requires Tidy(b)
    ensures Tidy(Apply(b, op))
  {
  }

  lemma {:induction false} RunTidy(b: Sessions, ops: seq<Op>)
    requires Tidy(b)
    ensures Tidy(Run(b, ops))
    decreases |ops|
  {
    if ops != [] {
      var n := |ops| - 1;
      RunTidy(b, ops[..n]);
      ApplyTidy(Run(b, ops[..n]), ops[n]);
    }
  }

  lemma OneStepDelivers(b: Sessions, op: Op, id: Text)
    requires Tidy(b)
    ensures Output(b, op, id) + Queue(Apply(b, op), id)
      == Queue(b, id) + if Eligible(b, op, id) then [op.msg] else []
  {
    if id in b && b[id].online {
      assert b[id].queue == [];
    }
  }

  /** Delivery over every run: what was sent to a client followed by what is stored for it is
      what was stored at the start followed by the publications that concerned it, in order.
      Nothing is lost, repeated or overtaken, however often the client came and went. */
  lemma {:induction false} Delivery(b: Sessions, ops: seq<Op>, id: Text)
    requires Tidy(b)
    ensures Sent(b, ops, id) + Queue(Run(b, ops), id) == Queue(b, id) + Due(b, ops, id)
    decreases |ops|
  {
    if ops != [] {
      var n := |ops| - 1;
      var prev, op := ops[..n], ops[n];
      Delivery(b, prev, id);
      RunTidy(b, prev);
      OneStepDelivers(Run(b, prev), op, id);
      var sent, out := Sent(b, prev, id), Output(Run(b, prev), op, id);
      var q, q' := Queue(Run(b, prev), id), Queue(Run(b, ops), id);
      var now := if Eligible(Run(b, prev), op, id) then [op.msg] else [];
      Regroup(sent, out, q', q, now, Queue(b, id), Due(b, prev, id));
    }
  }

  lemma Regroup(sent: seq<Msg>, out: seq<Msg>, q': seq<Msg>, q: seq<Msg>, now: seq<Msg>,
                q0: seq<Msg>, due: seq<Msg>)
    requires sent + q == q0 + due
    requires out + q' == q + now
    ensures (sent + out) + q' == q0 + (due + now)
  {
    assert (sent + out) + q' == sent + (out + q');
    assert sent + (q + now) == (sent + q) + now;
    assert (q0 + due) + now == q0 + (due + now);
  }

  // ---------------------------------------------------------------- exactly once

  /** Publications carry increasing numbers. */
  ghost predicate Numbered(ops: seq<Op>) {
    forall i, j | 0 <= i < j < |ops| && ops[i].Publish? && ops[j].Publish? ::
      ops[i].msg.serial < ops[j].msg.serial
  }

  ghost predicate Ascending(ms: seq<Msg>) {
    forall i, j | 0 <= i < j < |ms| :: ms[i].serial < ms[j].serial
  }

  lemma {:induction false} DueComesFrom(b: Sessions, ops: seq<Op>, id: Text, i: nat) returns (n: nat)
    requires i < |Due(b, ops, id)|
    ensures n < |ops| && Eligible(Run(b, ops[..n]), ops[n], id) && ops[n].msg == Due(b, ops, id)[i]
    decreases |ops|
  {
    n := |ops| - 1;
    var prev := ops[..n];
    if i < |Due(b, prev, id)| {
      n := DueComesFrom(b, prev, id, i);
      assert prev[..n] == ops[..n];
    }
  }

  lemma {:induction false} DueAscending(b: Sessions, ops: seq<Op>, id: Text)
    requires Numbered(ops)
    ensures Ascending(Due(b, ops, id))
    decreases |ops|
  {
    if ops != [] {
      var n := |ops| - 1;
      DueAscending(b, ops[..n], id);
      var due := Due(b, ops[..n], id);
      if Eligible(Run(b, ops[..n]), ops[n], id) {
        forall i | 0 <= i < |due| ensures due[i].serial < ops[n].msg.serial {
          var k := DueComesFrom(b, ops[..n], id, i);
        }
      }
    }
  }

  lemma {:induction false} EligibleIsDue(b: Sessions, ops: seq<Op>, id: Text, n: nat)
    requires n < |ops| && Eligible(Run(b, ops[..n]), ops[n], id)
    ensures ops[n].msg in Due(b, ops, id)
    decreases |ops|
  {
    var last := |ops| - 1;
    if n < last {
      assert ops[..last][..n] == ops[..n];
      EligibleIsDue(b, ops[..last], id, n);
    }
  }

  ghost function Occurrences(ms: seq<Msg>, m: Msg): nat {
    multiset(ms)[m]
  }

  lemma AscendingOnce(ms: seq<Msg>, m: Msg)
    requires Ascending(ms)
    ensures Occurrences(ms, m) == if m in ms then 1 else 0
  {
    if m in ms {
      var i :| 0 <= i < |ms| && ms[i] == m;
      assert ms == ms[..i] + [m] + ms[i + 1..];
      assert m !in ms[..i] && m !in ms[i + 1..];
    }
  }

  lemma DueExactlyOnce(ops: seq<Op>, id: Text, n: nat)
    requires Numbered(ops)
    requires n < |ops| && ops[n].Publish?
    ensures Occurrences(Due(map[], ops, id), ops[n].msg)
      == if Eligible(Run(map[], ops[..n]), ops[n], id) then 1 else 0
  {
    var due := Due(map[], ops, id);
    DueAscending(map[], ops, id);
    AscendingOnce(due, ops[n].msg);
    if Eligible(Run(map[], ops[..n]), ops[n], id) {
      EligibleIsDue(map[], ops, id, n);
    } else if ops[n].msg in due {
      var i :| 0 <= i < |due| && due[i] == ops[n].msg;
      var k := DueComesFrom(map[], ops, id, i);
    }
  }

  /** From an empty broker, each publication reaches or waits for each client exactly once if
      it concerned the client when it was made, and never otherwise; and all that a client
      was sent, followed by what waits for it, is in the order of publication. */
  lemma ExactlyOnceInOrder(ops: seq<Op>, id: Text, n: nat)
    requires Numbered(ops)
    requires n < |ops| && ops[n].Publish?
    ensures
      var held := Sent(map[], ops, id) + Queue(Run(map[], ops), id);
      && Ascending(held)
      && Occurrences(held, ops[n].msg) == if Eligible(Run(map[], ops[..n]), ops[n], id) then 1 else 0
  {
    Delivery(map[], ops, id);
    assert Queue(map[], id) + Due(map[], ops, id) == Due(map[], ops, id);
    DueAscending(map[], ops, id);
    DueExactlyOnce(ops, id, n);
  }

  // ---------------------------------------------------------------- by the documented rules

  /** The same judgement with the meaning of a pattern in place of the matcher's answer. */
  ghost predicate MeantFor(s: Session, topic: Text) {
    exists p | p in s.topics :: Matcher.Means(topic, p) && (s.online || s.topics[p])
  }

  ghost function DueByRules(b: Sessions, ops: seq<Op>, id: Text): seq<Msg> {
    if ops == [] then []
    else
      var n := |ops| - 1;
      var before := Run(b, ops[..n]);
      DueByRules(b, ops[..n], id)
        + if ops[n].Publish? && id in before && MeantFor(before[id], ops[n].topic) then [ops[n].msg] else []
  }

  ghost predicate NoStarTopics(ops: seq<Op>) {
    forall i | 0 <= i < |ops| && ops[i].Publish? :: !Matcher.HasStarLevel(ops[i].topic)
  }

  lemma MeantIsEligible(b: Sessions, op: Op, id: Text)
    requires op.Publish? && !Matcher.HasStarLevel(op.topic) && id in b
    ensures MeantFor(b[id], op.topic) <==> Eligible(b, op, id)
  {
    Matcher.TopicRoutedExactlyIff(op.topic);
    hide Matcher.Routes, Matcher.Means, Matcher.HasStarLevel;
    assert forall p :: Matcher.Routes(op.topic, p) <==> Matcher.Means(op.topic, p);
  }

  /** When no published topic has a level "*", a client is due exactly what the documented rules
      say, in the same order. */
  lemma {:induction false} DueByTheRules(b: Sessions, ops: seq<Op>, id: Text)
    requires NoStarTopics(ops)
    ensures DueByRules(b, ops, id) == Due(b, ops, id)
    decreases |ops|
  {
    if ops != [] {
      var n := |ops| - 1;
      DueByTheRules(b, ops[..n], id);
      hide MeantFor, Eligible, Run;
      if ops[n].Publish? && id in Run(b, ops[..n]) {
        MeantIsEligible(Run(b, ops[..n]), ops[n], id);
      } else {
        NotEligible(Run(b, ops[..n]), ops[n], id);
      }
    }
  }

  lemma NotEligible(b: Sessions, op: Op, id: Text)
    requires !op.Publish? || id !in b
    ensures !Eligible(b, op, id)
  {
  }

  // ---------------------------------------------------------------- subscriptions

  predicate Touches(op: Op, id: Text, p: Text) {
    (op.Subscribe? || op.Unsubscribe?) && op.id == id && op.pattern == p
  }

  /** ops[n] is a SUBSCRIBE of a known client that no later request about the pattern undoes. */
  ghost predicate Standing(ops: seq<Op>, id: Text, p: Text, n: nat) {
    && n < |ops| && ops[n].Subscribe? && Touches(ops[n], id, p)
    && id in Run(map[], ops[..n])
    && forall m | n < m < |ops| :: !Touches(ops[m], id, p)
  }

  ghost predicate Holds(b: Sessions, id: Text, p: Text, sf: bool) {
    id in b && p in b[id].topics && b[id].topics[p] == sf
  }

  lemma OneStepFlag(b: Sessions, op: Op, id: Text, p: Text, sf: bool)
    ensures Holds(Apply(b, op), id, p, sf) <==>
      if Touches(op, id, p) then op.Subscribe? && id in b && op.sf == sf else Holds(b, id, p, sf)
  {
  }

  lemma StandingStep(ops: seq<Op>, id: Text, p: Text, n: nat)
    requires ops != [] && n < |ops|
    ensures
      var last := |ops| - 1;
      Standing(ops, id, p, n) <==>
        if n == last then ops[last].Subscribe? && Touches(ops[last], id, p) && id in Run(map[], ops[..last])
        else Standing(ops[..last], id, p, n) && !Touches(ops[last], id, p)
  {
    var prev := ops[..|ops| - 1];
    if n < |prev| {
      assert prev[..n] == ops[..n];
      assert forall m | 0 <= m < |prev| :: prev[m] == ops[m];
    }
  }

  /** A client holds a pattern with a given flag exactly when its latest accepted request about
      the pattern was a SUBSCRIBE with that flag. */
  lemma {:induction false} FlagIsLatest(ops: seq<Op>, id: Text, p: Text, sf: bool)
    ensures Holds(Run(map[], ops), id, p, sf) <==>
      exists n: nat :: Standing(ops, id, p, n) && ops[n].sf == sf
    decreases |ops|
  {
    if ops != [] {
      var last := |ops| - 1;
      var prev := ops[..last];
      FlagIsLatest(prev, id, p, sf);
      OneStepFlag(Run(map[], prev), ops[last], id, p, sf);
      StandingStep(ops, id, p, last);
      if Holds(Run(map[], ops), id, p, sf) {
        if !Touches(ops[last], id, p) {
          var n: nat :| Standing(prev, id, p, n) && prev[n].sf == sf;
          StandingStep(ops, id, p, n);
          assert Standing(ops, id, p, n) && ops[n].sf == sf;
        } else {
          assert Standing(ops, id, p, last) && ops[last].sf == sf;
        }
      }
      if n: nat :| Standing(ops, id, p, n) && ops[n].sf == sf {
        StandingStep(ops, id, p, n);
        assert n < last ==> Standing(prev, id, p, n) && prev[n].sf == sf;
      }
    }
  }
}
