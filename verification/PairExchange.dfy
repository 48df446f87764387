/** Anti-entropy between two stores: one status, and everything it sets off, in whatever order it arrives. */
module PairExchange {
  import opened Types
  import opened Rings
  import opened ClockOrder
  import opened DataLogs
  import opened Codec
  import opened Nodes
  import opened NodeInvariants
  import opened NodeEffects
  import opened Members

  /** One side: its clock and its log. */
  datatype Side = Side(clock: Clock, log: Log)

  /** The two sides, and the messages on their way to each. */
  datatype Pair = Pair(a: Side, b: Side, toA: multiset<Message>, toB: multiset<Message>)

  /** The same exchange seen from the other side. */
  function Swap(p: Pair): Pair {
    Pair(p.b, p.a, p.toB, p.toA)
  }

  predicate AllPostable(ms: seq<Message>) {
    forall i :: 0 <= i < |ms| ==> Fits(ms[i])
  }

  /** What a node enqueues of messages posted in a row: those before the first that does not fit. */
  function Postable(ms: seq<Message>): seq<Message> {
    if AllPostable(ms) then ms else Postable(ms[..|ms| - 1])
  }

  /** What a side answers to a message from the other, acknowledgements apart. */
  function Answers(s: Side, m: Message): seq<Message> {
    match m
    case Status(version) => Postable(StatusReplies(s.clock, s.log, version))
    case _ => []
  }

  function Absorb(s: Side, m: Message): Side {
    match m
    case Data(version, payload) =>
      if CompareRecord(s.clock.items, version) == Before
      then Side(MergeRecord(s.clock, version), Recorded(s.log, version, payload))
      else s
    case _ => s
  }

  /** What may come on top of the answers: acknowledgements and, if `m` is data that is new, rumours of it. */
  ghost predicate Besides(s: Side, m: Message, more: multiset<Message>) {
    forall x :: x in more ==> x.Ack? || (x == m && m.Data? && CompareRecord(s.clock.items, m.version) == Before)
  }

  /** `m` reaches side B. */
  function DeliverToB(p: Pair, m: Message, more: multiset<Message>): Pair
    requires m in p.toB
  {
    Pair(p.a, Absorb(p.b, m), p.toA + multiset(Answers(p.b, m)) + more, p.toB - multiset{m})
  }

  ghost predicate DeliversToB(p: Pair, p': Pair) {
    exists m, more :: m in p.toB && Besides(p.b, m, more) && p' == DeliverToB(p, m, more)
  }

  /** One message arrives, at either side; nothing is lost, the order is arbitrary. */
  ghost predicate Delivery(p: Pair, p': Pair) {
    DeliversToB(p, p') || DeliversToB(Swap(p), Swap(p'))
  }

  // ----- the stores -----

  type Numbers = MemberId -> Option<uint32>

  predicate AtMost(x: Option<uint32>, y: Option<uint32>) {
    x.Some? ==> y.Some? && x.value <= y.value
  }

  function MinOf(x: Option<uint32>, y: Option<uint32>): Option<uint32> {
    if x.None? || y.None? then None else if x.value < y.value then x else y
  }

  /** A store as every run leaves it while the originators fit the clock: the log holds what the clock holds. */
  ghost predicate SideOk(s: Side, universe: set<MemberId>) {
    && ValidRing(s.clock, MAX_VECTOR_SIZE) && ValidRing(s.log, DATA_LOG_SIZE)
    && Keys(s.clock.items) <= universe && Keys(s.log.items) <= universe
    && forall k: MemberId :: Lookup(s.clock.items, k) == LoggedNumber(s.log, k)
  }

  function LoggedNumber(l: Log, k: MemberId): Option<uint32> {
    match Lookup(l.items, k) case None => None case Some(v) => Some(v.seqNum)
  }

  function Now(s: Side, k: MemberId): Option<uint32> {
    Lookup(s.clock.items, k)
  }

  /** The most a data message can carry in 512 bytes. */
  const MAX_PAYLOAD: nat := MESSAGE_MAX_SIZE - HEADER_SIZE - VECTOR_RECORD_SIZE - 2

  /** Every logged message a remote clock is behind on is small enough to be sent. */
  ghost predicate Carries(s: Side, remote: seq<Record>) {
    forall i :: 0 <= i < |s.log.items| && CompareRecord(remote, VersionOf(s.log.items[i])) == Before ==>
      |s.log.items[i].val.payload| <= MAX_PAYLOAD
  }

  /** Each side can send what the other lacks. */
  ghost predicate Exchangeable(a: Side, b: Side) {
    Carries(a, b.clock.items) && Carries(b, a.clock.items)
  }

  // ----- the bounds of an exchange -----

  /** What both sides held at the start, and what either held. */
  datatype Terms = Terms(floor: Numbers, goal: Numbers, universe: set<MemberId>)

  ghost predicate Within(s: Side, t: Terms) {
    forall k: MemberId :: AtMost(t.floor(k), Now(s, k)) && AtMost(Now(s, k), t.goal(k))
  }

  ghost predicate Good(s: Side, t: Terms) {
    |t.universe| <= MAX_VECTOR_SIZE && SideOk(s, t.universe) && Within(s, t)
  }

  /** A logged message too large to send is one both sides held at the start. */
  ghost predicate LogFits(s: Side, t: Terms) {
    forall i :: 0 <= i < |s.log.items| ==>
      |s.log.items[i].val.payload| <= MAX_PAYLOAD || AtMost(Some(s.log.items[i].val.seqNum), t.floor(s.log.items[i].key))
  }

  /** A message in flight from `s`: an acknowledgement, data within the goal, or an earlier clock of `s`. */
  ghost predicate Sensible(m: Message, s: Side, t: Terms) {
    match m
    case Ack(_) => true
    case Data(version, payload) =>
      version.key in t.universe && AtMost(Some(version.val), t.goal(version.key)) && |payload| <= MAX_PAYLOAD
    case Status(v) =>
      && Distinct(v) && |v| <= MAX_VECTOR_SIZE
      && forall k: MemberId :: AtMost(t.floor(k), Lookup(v, k)) && AtMost(Lookup(v, k), Now(s, k))
    case _ => false
  }

  ghost predicate AllSensible(ms: multiset<Message>, s: Side, t: Terms) {
    forall m :: m in ms ==> Sensible(m, s, t)
  }

  ghost predicate Grown(s: Side, s': Side) {
    forall k: MemberId :: AtMost(Now(s, k), Now(s', k))
  }

  /** Side B and what is in flight to it. */
  ghost predicate HalfBase(p: Pair, t: Terms) {
    Good(p.b, t) && AllSensible(p.toB, p.a, t)
  }

  ghost predicate Base(p: Pair, t: Terms) {
    HalfBase(p, t) && HalfBase(Swap(p), t)
  }

  /** Absorbing data within the goal raises at most that one number, and keeps clock and log equal. */
  lemma AbsorbData(s: Side, m: Message, t: Terms, from: Side)
    requires Good(s, t) && m.Data? && Sensible(m, from, t)
    ensures var s' := Absorb(s, m);
      && SideOk(s', t.universe)
      && forall k: MemberId ::
           && Now(s', k) == (if k == m.version.key then MaxOf(Now(s, k), Some(m.version.val)) else Now(s, k))
           && (k != m.version.key ==> Lookup(s'.log.items, k) == Lookup(s.log.items, k))
  {
    hide Put, Find, Keys;
    var version := m.version;
    if CompareRecord(s.clock.items, version) == Before {
      var s' := Absorb(s, m);
      PutKeepsValid(s.clock, MAX_VECTOR_SIZE, version.key, version.val);
      PutKeepsValid(s.log, DATA_LOG_SIZE, version.key, Logged(version.val, m.payload));
      PutKeys(s.clock, MAX_VECTOR_SIZE, version.key, version.val);
      PutKeys(s.log, DATA_LOG_SIZE, version.key, Logged(version.val, m.payload));
      PutForgetsNothing(s.clock, MAX_VECTOR_SIZE, version.key, version.val, t.universe);
      PutForgetsNothing(s.log, DATA_LOG_SIZE, version.key, Logged(version.val, m.payload), t.universe);
      forall k: MemberId
        ensures Now(s', k) == if k == version.key then Some(version.val) else Now(s, k)
        ensures LoggedNumber(s'.log, k) == if k == version.key then Some(version.val) else LoggedNumber(s.log, k)
        ensures k != version.key ==> Lookup(s'.log.items, k) == Lookup(s.log.items, k)
      {
        assert Lookup(s'.log.items, k) ==
               if k == version.key then Some(Logged(version.val, m.payload)) else Lookup(s.log.items, k);
      }
    }
  }

  lemma AbsorbKeepsGood(s: Side, m: Message, t: Terms, from: Side)
    requires Good(s, t) && m.Data? && Sensible(m, from, t)
    ensures Good(Absorb(s, m), t) && Grown(s, Absorb(s, m))
    ensures AtMost(Some(m.version.val), Now(Absorb(s, m), m.version.key))
  {
    AbsorbData(s, m, t, from);
    hide Absorb, SideOk, Find, Now;
  }

  /** What is written to a log was there before, or is the message recorded. */
  lemma AbsorbKeepsFits(s: Side, m: Message, t: Terms, from: Side)
    requires LogFits(s, t) && Sensible(m, from, t)
    ensures LogFits(Absorb(s, m), t)
  {
    hide Find, CompareRecord;
  }

  /** In-flight messages from a side stay sensible when that side's clock grows. */
  lemma SensibleGrows(ms: multiset<Message>, s: Side, s': Side, t: Terms)
    requires AllSensible(ms, s, t) && Grown(s, s')
    ensures AllSensible(ms, s', t)
  {
  }

  // ----- answering a status -----

  lemma {:induction false} ReplyFor(items: seq<Entry<Logged>>, v: seq<Record>, n: nat, i: nat)
    requires i < n <= |items| && CompareRecord(v, VersionOf(items[i])) == Before
    ensures Data(VersionOf(items[i]), items[i].val.payload) in DataReplies(items, v, n)
  {
    hide CompareRecord;
    if i < n - 1 { ReplyFor(items, v, n - 1, i); }
  }

  lemma {:induction false} RepliesLogged(items: seq<Entry<Logged>>, v: seq<Record>, n: nat, m: Message)
    requires n <= |items| && m in DataReplies(items, v, n)
    ensures exists i :: 0 <= i < n && CompareRecord(v, VersionOf(items[i])) == Before
                        && m == Data(VersionOf(items[i]), items[i].val.payload)
  {
    hide CompareRecord;
    if m !in DataReplies(items, v, n - 1) {
      assert m == Data(VersionOf(items[n - 1]), items[n - 1].val.payload);
    } else {
      RepliesLogged(items, v, n - 1, m);
    }
  }

  lemma {:induction false} PostableIn(ms: seq<Message>, m: Message)
    requires m in Postable(ms)
    ensures m in ms && Fits(m)
  {
    hide Fits;
    if !AllPostable(ms) { PostableIn(ms[..|ms| - 1], m); }
  }

  lemma PayloadFits(version: Record, payload: Bytes)
    ensures Fits(Data(version, payload)) <==> |payload| <= MAX_PAYLOAD
  {
  }

  /** A reply to a status is the side's own clock, or a logged message the status is behind on. */
  lemma ReplyIs(s: Side, v: seq<Record>, m: Message) returns (i: nat)
    requires m in StatusReplies(s.clock, s.log, v)
    ensures m == Status(s.clock.items)
            || (i < |s.log.items| && CompareRecord(v, VersionOf(s.log.items[i])) == Before
                && m == Data(VersionOf(s.log.items[i]), s.log.items[i].val.payload))
  {
    hide Compare, DataReplies, CompareRecord;
    i := 0;
    if m != Status(s.clock.items) {
      RepliesLogged(s.log.items, v, |s.log.items|, m);
      i :| 0 <= i < |s.log.items| && CompareRecord(v, VersionOf(s.log.items[i])) == Before
           && m == Data(VersionOf(s.log.items[i]), s.log.items[i].val.payload);
    }
  }

  lemma OwnStatusSensible(s: Side, t: Terms)
    requires Good(s, t)
    ensures Sensible(Status(s.clock.items), s, t) && Fits(Status(s.clock.items))
  {
    hide Find;
  }

  lemma LoggedSensible(s: Side, i: nat, t: Terms)
    requires Good(s, t) && i < |s.log.items| && |s.log.items[i].val.payload| <= MAX_PAYLOAD
    ensures Sensible(Data(VersionOf(s.log.items[i]), s.log.items[i].val.payload), s, t)
    ensures Now(s, s.log.items[i].key) == Some(s.log.items[i].val.seqNum)
  {
    var items := s.log.items;
    LookupIn(items, i);
    assert LoggedNumber(s.log, items[i].key) == Some(items[i].val.seqNum) == Now(s, items[i].key);
    assert items[i].key in Keys(items);
    hide Find;
  }

  lemma AnswersSensible(s: Side, v: seq<Record>, t: Terms)
    requires Good(s, t)
    ensures forall m :: m in Answers(s, Status(v)) ==> Sensible(m, s, t)
  {
    hide StatusReplies, Postable, Good, Sensible, CompareRecord, Fits;
    forall m | m in Answers(s, Status(v)) ensures Sensible(m, s, t) {
      PostableIn(StatusReplies(s.clock, s.log, v), m);
      var i := ReplyIs(s, v, m);
      OwnStatusSensible(s, t);
      if m != Status(s.clock.items) {
        PayloadFits(VersionOf(s.log.items[i]), s.log.items[i].val.payload);
        LoggedSensible(s, i, t);
      }
    }
  }

  /** All replies are enqueued if and only if every logged message the status is behind on is small enough. */
  lemma AnswersAreComplete(s: Side, v: seq<Record>, universe: set<MemberId>)
    requires SideOk(s, universe) && Distinct(v)
    ensures Answers(s, Status(v)) == StatusReplies(s.clock, s.log, v) <==> Carries(s, v)
  {
    hide Compare, DataReplies, CompareRecord, Leq, Find, Fits;
    var items, replies := s.log.items, StatusReplies(s.clock, s.log, v);
    PostableAll(replies);
    if Carries(s, v) {
      forall i | 0 <= i < |replies| ensures Fits(replies[i]) {
        var j := ReplyIs(s, v, replies[i]);
        StatusFitsSlot(s, universe);
        if replies[i] != Status(s.clock.items) { PayloadFits(VersionOf(items[j]), items[j].val.payload); }
      }
    } else {
      var i :| 0 <= i < |items| && CompareRecord(v, VersionOf(items[i])) == Before && |items[i].val.payload| > MAX_PAYLOAD;
      LackIsReplied(s, v, universe, i);
      PayloadFits(VersionOf(items[i]), items[i].val.payload);
    }
  }

  lemma StatusFitsSlot(s: Side, universe: set<MemberId>)
    requires SideOk(s, universe)
    ensures Fits(Status(s.clock.items))
  {
  }

  lemma {:induction false} PostableAll(ms: seq<Message>)
    ensures Postable(ms) == ms <==> forall m :: m in ms ==> Fits(m)
    ensures |Postable(ms)| <= |ms|
  {
    hide Fits;
    if !AllPostable(ms) { PostableAll(ms[..|ms| - 1]); }
  }

  /** A logged message the status is behind on is among the replies. */
  lemma LackIsReplied(s: Side, v: seq<Record>, universe: set<MemberId>, i: nat)
    requires SideOk(s, universe) && Distinct(v) && i < |s.log.items| && CompareRecord(v, VersionOf(s.log.items[i])) == Before
    ensures Data(VersionOf(s.log.items[i]), s.log.items[i].val.payload) in StatusReplies(s.clock, s.log, v)
    ensures !Leq(s.clock.items, v)
  {
    var items := s.log.items;
    LookupIn(items, i);
    assert LoggedNumber(s.log, items[i].key) == Some(items[i].val.seqNum) == Lookup(s.clock.items, items[i].key);
    assert !Leq(s.clock.items, v);
    CompareIsOrder(s.clock.items, v);
    ReplyFor(items, v, |items|, i);
    hide DataReplies, Compare, Leq, SideOk, Find;
  }

  ghost predicate DataComing(ms: multiset<Message>, k: MemberId, s: uint32) {
    exists payload :: Data(Entry(k, s), payload) in ms
  }

  /** A status within the bounds is answered in full: with the side's clock if the side lacks something, and with
      the data for whatever the status lacks. */
  lemma AnswersAreRight(s: Side, v: seq<Record>, t: Terms, from: Side)
    requires Good(s, t) && LogFits(s, t) && Sensible(Status(v), from, t)
    ensures !Leq(v, s.clock.items) ==> Status(s.clock.items) in Answers(s, Status(v))
    ensures forall k: MemberId :: Now(s, k).Some? && !AtMost(Now(s, k), Lookup(v, k)) ==>
              DataComing(multiset(Answers(s, Status(v))), k, Now(s, k).value)
  {
    FitsMeansCarries(s, v, t, from);
    AnswersAreComplete(s, v, t.universe);
    CompareIsOrder(s.clock.items, v);
    hide Good, Sensible, Find, DataReplies, Answers, LogFits, Carries;
    forall k: MemberId | Now(s, k).Some? && !AtMost(Now(s, k), Lookup(v, k))
      ensures DataComing(multiset(Answers(s, Status(v))), k, Now(s, k).value)
    {
      AnswersTell(s, v, t.universe, k);
    }
  }

  lemma FitsMeansCarries(s: Side, v: seq<Record>, t: Terms, from: Side)
    requires LogFits(s, t) && Sensible(Status(v), from, t)
    ensures Carries(s, v)
  {
    hide Find;
    forall i | 0 <= i < |s.log.items| && CompareRecord(v, VersionOf(s.log.items[i])) == Before
      ensures |s.log.items[i].val.payload| <= MAX_PAYLOAD
    {
      assert AtMost(t.floor(s.log.items[i].key), Lookup(v, s.log.items[i].key));
    }
  }

  lemma AnswersTell(s: Side, v: seq<Record>, universe: set<MemberId>, k: MemberId)
    requires SideOk(s, universe) && Distinct(v) && Now(s, k).Some? && !AtMost(Now(s, k), Lookup(v, k))
    requires Answers(s, Status(v)) == StatusReplies(s.clock, s.log, v)
    ensures DataComing(multiset(Answers(s, Status(v))), k, Now(s, k).value)
  {
    hide StatusReplies, Answers;
    var items := s.log.items;
    assert LoggedNumber(s.log, k) == Now(s, k);
    var i := Find(items, k);
    LackIsReplied(s, v, universe, i);
    assert Data(Entry(k, Now(s, k).value), items[i].val.payload) in Answers(s, Status(v));
  }

  lemma StatusAtMost(v: seq<Record>, s: Side, t: Terms)
    requires Sensible(Status(v), s, t)
    ensures Distinct(v) && forall k: MemberId :: AtMost(Lookup(v, k), Now(s, k))
  {
  }

  // ----- each delivery keeps the bounds -----

  lemma DeliveryKeepsBase(p: Pair, m: Message, more: multiset<Message>, t: Terms)
    requires Base(p, t) && m in p.toB && Besides(p.b, m, more)
    ensures Base(DeliverToB(p, m, more), t) && Grown(p.b, Absorb(p.b, m))
    ensures LogFits(p.b, t) ==> LogFits(Absorb(p.b, m), t)
  {
    hide Good, Sensible, Answers, CompareRecord, Now, LogFits;
    assert Sensible(m, p.a, t);
    TakeOne(p.b, m, t, p.a);
    var p' := DeliverToB(p, m, more);
    SensibleGrows(p.toA, p.b, p'.b, t);
    SensibleGrows(multiset(Answers(p.b, m)), p.b, p'.b, t);
    forall x | x in p'.toB ensures Sensible(x, p'.a, t) { assert x in p.toB; }
    forall x | x in more ensures Sensible(x, p'.b, t) { MoreSensible(m, x, p.a, p'.b, t); }
    forall x | x in p'.toA ensures Sensible(x, p'.b, t) {
      assert x in p.toA || x in multiset(Answers(p.b, m)) || x in more;
    }
  }

  lemma MoreSensible(m: Message, x: Message, from: Side, s: Side, t: Terms)
    requires Sensible(m, from, t) && (x.Ack? || (x == m && m.Data?))
    ensures Sensible(x, s, t)
  {
  }

  /** One message: the clock only grows and stays within the bounds, and takes in what data it is given. */
  lemma TakeOne(s: Side, m: Message, t: Terms, from: Side)
    requires Good(s, t) && Sensible(m, from, t)
    ensures var s' := Absorb(s, m);
      && Good(s', t) && Grown(s, s') && (LogFits(s, t) ==> LogFits(s', t))
      && (m.Data? ==> AtMost(Some(m.version.val), Now(s', m.version.key)))
      && forall x :: x in Answers(s, m) ==> Sensible(x, s, t)
  {
    if LogFits(s, t) { AbsorbKeepsFits(s, m, t, from); }
    if m.Data? {
      AbsorbKeepsGood(s, m, t, from);
    } else if m.Status? {
      AnswersSensible(s, m.clock, t);
    }
    hide SideOk, LogFits, Find, Within, Answers;
    SelfGrown(s);
  }

  lemma SelfGrown(s: Side)
    ensures Grown(s, s)
  {
  }

  // ----- what a lack rests on -----

  ghost predicate StatusWith(ms: multiset<Message>, k: MemberId, seen: Option<uint32>) {
    exists v :: Status(v) in ms && Lookup(v, k) == seen
  }

  ghost predicate StatusWithout(ms: multiset<Message>, k: MemberId, seen: Option<uint32>) {
    exists v :: Status(v) in ms && Lookup(v, k) != seen
  }

  /** What may be relied on while a side lacks the goal for `k`, from the messages to it and from it: the data is
      on its way, or a status on its way out shows the lack, or a status on its way in will make it ask. */
  ghost predicate Promised(coming: multiset<Message>, going: multiset<Message>, goal: Numbers, k: MemberId) {
    goal(k).Some? &&
    (DataComing(coming, k, goal(k).value) || StatusWithout(going, k, goal(k)) || StatusWith(coming, k, goal(k)))
  }

  /** Whatever side B lacks, the other side holds, and it is promised. */
  ghost predicate Promises(p: Pair, t: Terms) {
    forall k: MemberId :: Now(p.b, k) != t.goal(k) ==> Now(p.a, k) == t.goal(k) && Promised(p.toB, p.toA, t.goal, k)
  }

  ghost predicate PairInv(p: Pair, t: Terms) {
    Base(p, t) && LogFits(p.a, t) && LogFits(p.b, t) && Promises(p, t) && Promises(Swap(p), t)
  }

  /** More on the way keeps every promise; so does taking away an incoming message no promise rests on. */
  lemma PromiseKept(coming: multiset<Message>, going: multiset<Message>, coming': multiset<Message>,
                    going': multiset<Message>, goal: Numbers, k: MemberId, m: Message)
    requires Promised(coming, going, goal, k)
    requires going <= going' && coming - multiset{m} <= coming'
    requires m.Data? ==> m.version != Entry(k, goal(k).value)
    requires m.Status? ==> Lookup(m.clock, k) != goal(k)
    ensures Promised(coming', going', goal, k)
  {
  }

  /** The same, for the side the message came from. */
  lemma SenderPromiseKept(coming: multiset<Message>, going: multiset<Message>, coming': multiset<Message>,
                          going': multiset<Message>, goal: Numbers, k: MemberId, m: Message)
    requires Promised(coming, going, goal, k)
    requires coming <= coming' && going - multiset{m} <= going'
    requires m.Status? ==> Lookup(m.clock, k) == goal(k)
    ensures Promised(coming', going', goal, k)
  {
  }

  /** A number that has not reached the goal after a message was not there before, and was not in the message. */
  lemma NotTheGoal(before: Option<uint32>, after: Option<uint32>, goal: Option<uint32>, version: Record, k: MemberId)
    requires after == if k == version.key then MaxOf(before, Some(version.val)) else before
    requires AtMost(before, goal) && AtMost(after, goal) && after != goal
    ensures before != goal && goal.Some? && version != Entry(k, goal.value)
  {
  }

  lemma WithinAt(s: Side, t: Terms)
    requires Good(s, t)
    ensures forall k: MemberId :: AtMost(Now(s, k), t.goal(k))
  {
  }

  lemma DataKeeps(p: Pair, m: Message, more: multiset<Message>, t: Terms)
    requires PairInv(p, t) && m in p.toB && m.Data? && Besides(p.b, m, more)
    ensures PairInv(DeliverToB(p, m, more), t)
  {
    hide Absorb, Good, CompareRecord, Find, Promised, Sensible, Now, Lookup, LogFits;
    var p' := DeliverToB(p, m, more);
    DeliveryKeepsBase(p, m, more, t);
    assert Sensible(m, p.a, t);
    AbsorbData(p.b, m, t, p.a);
    WithinAt(p.b, t);
    WithinAt(p'.b, t);
    forall k: MemberId | Now(p'.b, k) != t.goal(k)
      ensures Now(p'.a, k) == t.goal(k) && Promised(p'.toB, p'.toA, t.goal, k)
    {
      NotTheGoal(Now(p.b, k), Now(p'.b, k), t.goal(k), m.version, k);
      PromiseKept(p.toB, p.toA, p'.toB, p'.toA, t.goal, k, m);
    }
    forall k: MemberId | Now(p'.a, k) != t.goal(k)
      ensures Now(p'.b, k) == t.goal(k) && Promised(p'.toA, p'.toB, t.goal, k)
    {
      assert Now(Swap(p).b, k) != t.goal(k);
      assert AtMost(Now(p'.b, k), t.goal(k)) && AtMost(Now(p.b, k), Now(p'.b, k));
      SenderPromiseKept(p.toA, p.toB, p'.toA, p'.toB, t.goal, k, m);
    }
  }

  lemma AckKeeps(p: Pair, m: Message, more: multiset<Message>, t: Terms)
    requires PairInv(p, t) && m in p.toB && m.Ack? && Besides(p.b, m, more)
    ensures PairInv(DeliverToB(p, m, more), t)
  {
    hide Good, Find, Promised, Sensible, Now, Lookup, LogFits;
    var p' := DeliverToB(p, m, more);
    DeliveryKeepsBase(p, m, more, t);
    forall k: MemberId | Now(p'.b, k) != t.goal(k)
      ensures Now(p'.a, k) == t.goal(k) && Promised(p'.toB, p'.toA, t.goal, k)
    {
      PromiseKept(p.toB, p.toA, p'.toB, p'.toA, t.goal, k, m);
    }
    forall k: MemberId | Now(p'.a, k) != t.goal(k)
      ensures Now(p'.b, k) == t.goal(k) && Promised(p'.toA, p'.toB, t.goal, k)
    {
      assert Now(Swap(p).b, k) != t.goal(k);
      SenderPromiseKept(p.toA, p.toB, p'.toA, p'.toB, t.goal, k, m);
    }
  }

  lemma StatusKeeps(p: Pair, v: seq<Record>, more: multiset<Message>, t: Terms)
    requires PairInv(p, t) && Status(v) in p.toB && Besides(p.b, Status(v), more)
    ensures PairInv(DeliverToB(p, Status(v), more), t)
  {
    hide Answers, Good, Compare, Find, Promised, Leq, Sensible, DataComing, Now, Lookup, LogFits;
    var m := Status(v);
    var p' := DeliverToB(p, m, more);
    DeliveryKeepsBase(p, m, more, t);
    assert Sensible(m, p.a, t);
    StatusAtMost(v, p.a, t);
    AnswersAreRight(p.b, v, t, p.a);
    WithinAt(p.b, t);
    WithinAt(p.a, t);
    forall k: MemberId | Now(p'.b, k) != t.goal(k)
      ensures Now(p'.a, k) == t.goal(k) && Promised(p'.toB, p'.toA, t.goal, k)
    {
      AskerKeeps(p, p', v, t.goal, k);
    }
    forall k: MemberId | Now(p'.a, k) != t.goal(k)
      ensures Now(p'.b, k) == t.goal(k) && Promised(p'.toA, p'.toB, t.goal, k)
    {
      assert Now(Swap(p).b, k) != t.goal(k);
      TellerKeeps(p, p', v, t.goal, k);
    }
  }

  /** B lacks the goal for `k` and reads a status: if the status shows the goal, B asks. */
  lemma AskerKeeps(p: Pair, p': Pair, v: seq<Record>, goal: Numbers, k: MemberId)
    requires Status(v) in p.toB && p.toA + multiset(Answers(p.b, Status(v))) <= p'.toA
    requires p'.toB == p.toB - multiset{Status(v)}
    requires Now(p.b, k) != goal(k) && AtMost(Now(p.b, k), goal(k)) && Promised(p.toB, p.toA, goal, k)
    requires !Leq(v, p.b.clock.items) ==> Status(p.b.clock.items) in Answers(p.b, Status(v))
    ensures Promised(p'.toB, p'.toA, goal, k)
  {
    hide Answers, Find;
    if Lookup(v, k) == goal(k) {
      assert Lookup(v, k).Some? && !AtMost(Lookup(v, k), Now(p.b, k));
      assert Status(p.b.clock.items) in p'.toA;
      assert StatusWithout(p'.toA, k, goal(k));
    } else {
      PromiseKept(p.toB, p.toA, p'.toB, p'.toA, goal, k, Status(v));
    }
  }

  /** A lacks the goal for `k` and its status reaches B: if the status shows the lack, B sends the data. */
  lemma TellerKeeps(p: Pair, p': Pair, v: seq<Record>, goal: Numbers, k: MemberId)
    requires Status(v) in p.toB && p.toA + multiset(Answers(p.b, Status(v))) <= p'.toA
    requires p'.toB == p.toB - multiset{Status(v)}
    requires Now(p.a, k) != goal(k) && AtMost(Now(p.a, k), goal(k)) && Now(p.b, k) == goal(k)
    requires Promised(p.toA, p.toB, goal, k) && AtMost(Lookup(v, k), Now(p.a, k))
    requires Now(p.b, k).Some? && !AtMost(Now(p.b, k), Lookup(v, k)) ==>
               DataComing(multiset(Answers(p.b, Status(v))), k, Now(p.b, k).value)
    ensures Promised(p'.toA, p'.toB, goal, k)
  {
    hide Answers, Find, DataComing, StatusWith, StatusWithout;
    if Lookup(v, k) == goal(k) {
      SenderPromiseKept(p.toA, p.toB, p'.toA, p'.toB, goal, k, Status(v));
    } else {
      MoreComing(multiset(Answers(p.b, Status(v))), p'.toA, k, goal(k).value);
    }
  }

  lemma MoreComing(ms: multiset<Message>, more: multiset<Message>, k: MemberId, s: uint32)
    requires DataComing(ms, k, s) && ms <= more
    ensures DataComing(more, k, s)
  {
  }

  lemma DeliveryKeeps(p: Pair, p': Pair, t: Terms)
    requires PairInv(p, t) && DeliversToB(p, p')
    ensures PairInv(p', t)
  {
    var m, more :| m in p.toB && Besides(p.b, m, more) && p' == DeliverToB(p, m, more);
    assert Sensible(m, p.a, t);
    hide PairInv, Besides;
    match m {
      case Data(_, _) => DataKeeps(p, m, more, t);
      case Status(v) => StatusKeeps(p, v, more, t);
      case _ => AckKeeps(p, m, more, t);
    }
  }

  lemma SwapInv(p: Pair, t: Terms)
    requires PairInv(p, t)
    ensures PairInv(Swap(p), t)
  {
    hide HalfBase, Promises, LogFits;
    assert Swap(Swap(p)) == p;
  }

  lemma AnyDeliveryKeeps(p: Pair, p': Pair, t: Terms)
    requires PairInv(p, t) && Delivery(p, p')
    ensures PairInv(p', t)
  {
    hide PairInv, DeliversToB;
    if DeliversToB(p, p') {
      DeliveryKeeps(p, p', t);
    } else {
      SwapInv(p, t);
      DeliveryKeeps(Swap(p), Swap(p'), t);
      SwapInv(Swap(p'), t);
    }
  }

  /** With nothing left in flight, both sides are at the goal. */
  lemma QuietMeansJoined(p: Pair, t: Terms)
    requires PairInv(p, t) && p.toA == p.toB == multiset{}
    ensures forall k: MemberId :: Now(p.a, k) == Now(p.b, k) == t.goal(k)
  {
    hide Base, LogFits, Find;
    forall k: MemberId ensures Now(p.a, k) == Now(p.b, k) == t.goal(k) {
      assert !Promised(p.toB, p.toA, t.goal, k);
      assert !Promised(p.toA, p.toB, t.goal, k);
      assert Now(Swap(p).b, k) == Now(p.a, k);
    }
  }

  // ----- a message that is never sent -----

  /** A holds for `k` a message too large to send, B lacks it, and nobody else can send it to B. */
  ghost predicate Stuck(p: Pair, t: Terms, k: MemberId) {
    && Base(p, t) && t.goal(k).Some? && Now(p.b, k) != t.goal(k)
    && TooLarge(p.a, k, t.goal(k).value)
    && NoneAt(p.toA, k, t.goal(k).value) && NoneAt(p.toB, k, t.goal(k).value)
  }

  ghost predicate TooLarge(s: Side, k: MemberId, n: uint32) {
    Lookup(s.log.items, k).Some? && Lookup(s.log.items, k).value.seqNum == n
    && |Lookup(s.log.items, k).value.payload| > MAX_PAYLOAD
  }

  ghost predicate NoneAt(ms: multiset<Message>, k: MemberId, n: uint32) {
    forall m :: m in ms && m.Data? && m.version.key == k ==> m.version.val < n
  }

  /** Data for `k` answered by a side is what its log holds for `k`, and it was small enough to send. */
  lemma AnswerData(s: Side, v: seq<Record>, t: Terms, m: Message)
    requires Good(s, t) && m in Answers(s, Status(v)) && m.Data?
    ensures Lookup(s.log.items, m.version.key) == Some(Logged(m.version.val, m.payload)) && |m.payload| <= MAX_PAYLOAD
    ensures Now(s, m.version.key) == Some(m.version.val)
  {
    hide StatusReplies, CompareRecord, Find, Fits;
    PostableIn(StatusReplies(s.clock, s.log, v), m);
    var i := ReplyIs(s, v, m);
    LookupIn(s.log.items, i);
    PayloadFits(m.version, m.payload);
    assert LoggedNumber(s.log, m.version.key) == Now(s, m.version.key);
  }

  /** B, which lacks it, is given something. */
  lemma StuckAtB(p: Pair, m: Message, more: multiset<Message>, t: Terms, k: MemberId)
    requires Stuck(p, t, k) && m in p.toB && Besides(p.b, m, more)
    ensures Stuck(DeliverToB(p, m, more), t, k)
  {
    hide Good, Sensible, Answers, Absorb, CompareRecord, Find, Now, TooLarge;
    var p' := DeliverToB(p, m, more);
    DeliveryKeepsBase(p, m, more, t);
    assert Sensible(m, p.a, t);
    if m.Data? { AbsorbData(p.b, m, t, p.a); } else { AbsorbsOnlyData(p.b, m); }
    WithinAt(p.b, t);
    forall x | x in p'.toA && x.Data? && x.version.key == k ensures x.version.val < t.goal(k).value {
      if x in Answers(p.b, m) {
        OnlyStatusAnswered(p.b, m);
        AnswerData(p.b, m.clock, t, x);
      } else {
        assert x in p.toA || x in more;
      }
    }
    forall x | x in p'.toB && x.Data? && x.version.key == k ensures x.version.val < t.goal(k).value { assert x in p.toB; }
  }

  /** A, which holds it, is given something. */
  lemma StuckAtA(p: Pair, m: Message, more: multiset<Message>, t: Terms, k: MemberId)
    requires Stuck(p, t, k) && m in p.toA && Besides(p.a, m, more)
    ensures Stuck(Swap(DeliverToB(Swap(p), m, more)), t, k)
  {
    hide Good, Sensible, Answers, Absorb, CompareRecord, Find, Now, TooLarge;
    var p' := Swap(DeliverToB(Swap(p), m, more));
    SwapBase(p, t);
    DeliveryKeepsBase(Swap(p), m, more, t);
    SwapBase(Swap(p'), t);
    assert Sensible(m, Swap(p).a, t);
    HolderKeeps(p.a, m, t, p.b, k);
    forall x | x in p'.toB && x.Data? && x.version.key == k ensures x.version.val < t.goal(k).value {
      if x in Answers(p.a, m) {
        OnlyStatusAnswered(p.a, m);
        AnswerData(p.a, m.clock, t, x);
        TooLargeIs(p.a, k, t.goal(k).value);
        assert false;
      } else {
        assert x in p.toB || x in more;
      }
    }
    forall x | x in p'.toA && x.Data? && x.version.key == k ensures x.version.val < t.goal(k).value { assert x in p.toA; }
  }

  lemma TooLargeIs(s: Side, k: MemberId, n: uint32)
    requires TooLarge(s, k, n)
    ensures Lookup(s.log.items, k).Some? && |Lookup(s.log.items, k).value.payload| > MAX_PAYLOAD
  {
  }

  lemma HolderKeeps(s: Side, m: Message, t: Terms, from: Side, k: MemberId)
    requires Good(s, t) && Sensible(m, from, t) && t.goal(k).Some? && TooLarge(s, k, t.goal(k).value)
    requires m.Data? && m.version.key == k ==> m.version.val < t.goal(k).value
    ensures TooLarge(Absorb(s, m), k, t.goal(k).value)
  {
    hide Find, Put;
    assert LoggedNumber(s.log, k) == Lookup(s.clock.items, k) == t.goal(k);
    if m.Data? && m.version.key != k { AbsorbData(s, m, t, from); }
  }

  lemma AbsorbsOnlyData(s: Side, m: Message)
    requires !m.Data?
    ensures Absorb(s, m) == s
  {
  }

  lemma OnlyStatusAnswered(s: Side, m: Message)
    ensures Answers(s, m) != [] ==> m.Status?
  {
  }

  lemma SwapBase(p: Pair, t: Terms)
    requires Base(p, t)
    ensures Base(Swap(p), t)
  {
    hide HalfBase;
    assert Swap(Swap(p)) == p;
  }

  lemma AnyDeliveryStuck(p: Pair, p': Pair, t: Terms, k: MemberId)
    requires Stuck(p, t, k) && Delivery(p, p')
    ensures Stuck(p', t, k)
  {
    hide Stuck, Besides;
    if DeliversToB(p, p') {
      var m, more :| m in p.toB && Besides(p.b, m, more) && p' == DeliverToB(p, m, more);
      StuckAtB(p, m, more, t, k);
    } else {
      var m, more :| m in Swap(p).toB && Besides(Swap(p).b, m, more) && Swap(p') == DeliverToB(Swap(p), m, more);
      StuckAtA(p, m, more, t, k);
      assert Swap(Swap(p')) == p';
    }
  }

  // ----- convergence -----

  /** B's status sets off the exchange. */
  function Opening(a: Side, b: Side): Pair {
    Pair(a, b, multiset{Status(b.clock.items)}, multiset{})
  }

  ghost predicate ExchangeRun(ps: seq<Pair>) {
    ps != [] && forall i :: 0 < i < |ps| ==> Delivery(ps[i - 1], ps[i])
  }

  function TermsOf(a: Side, b: Side, universe: set<MemberId>): Terms {
    Terms(k => MinOf(Now(a, k), Now(b, k)), k => MaxOf(Now(a, k), Now(b, k)), universe)
  }

  lemma OpeningBase(a: Side, b: Side, universe: set<MemberId>)
    requires SideOk(a, universe) && SideOk(b, universe) && |universe| <= MAX_VECTOR_SIZE
    ensures Base(Opening(a, b), TermsOf(a, b, universe))
  {
    hide Find, SideOk;
    var t := TermsOf(a, b, universe);
    assert Good(a, t) && Good(b, t);
    hide Good;
    OwnStatusSensible(b, t);
  }

  lemma OpeningFits(a: Side, b: Side, universe: set<MemberId>)
    requires SideOk(a, universe) && Carries(a, b.clock.items)
    ensures LogFits(a, TermsOf(a, b, universe)) && LogFits(a, TermsOf(b, a, universe))
  {
    hide Find;
    forall i | 0 <= i < |a.log.items| && |a.log.items[i].val.payload| > MAX_PAYLOAD
      ensures AtMost(Some(a.log.items[i].val.seqNum), MinOf(Now(a, a.log.items[i].key), Now(b, a.log.items[i].key)))
    {
      LookupIn(a.log.items, i);
      assert LoggedNumber(a.log, a.log.items[i].key) == Now(a, a.log.items[i].key);
    }
  }

  lemma OpeningInv(a: Side, b: Side, universe: set<MemberId>)
    requires SideOk(a, universe) && SideOk(b, universe) && |universe| <= MAX_VECTOR_SIZE && Exchangeable(a, b)
    ensures PairInv(Opening(a, b), TermsOf(a, b, universe))
  {
    hide SideOk, Find, Carries, LogFits, Base;
    var p, t := Opening(a, b), TermsOf(a, b, universe);
    OpeningBase(a, b, universe);
    OpeningFits(a, b, universe);
    OpeningFits(b, a, universe);
    forall k: MemberId | Now(b, k) != t.goal(k) ensures Promised(p.toB, p.toA, t.goal, k) {
      assert Status(b.clock.items) in p.toA;
    }
    forall k: MemberId | Now(a, k) != t.goal(k) ensures Promised(p.toA, p.toB, t.goal, k) {
      assert Status(b.clock.items) in Swap(p).toB;
    }
  }

  /** If a side cannot send what the other lacks, the other never gets it. */
  lemma OpeningStuck(a: Side, b: Side, universe: set<MemberId>) returns (k: MemberId)
    requires SideOk(a, universe) && SideOk(b, universe) && |universe| <= MAX_VECTOR_SIZE && !Exchangeable(a, b)
    ensures EitherStuck(Opening(a, b), TermsOf(a, b, universe), k)
  {
    OpeningBase(a, b, universe);
    SwapBase(Opening(a, b), TermsOf(a, b, universe));
    if !Carries(a, b.clock.items) {
      k := Uncarried(a, b, universe);
    } else {
      k := Uncarried(b, a, universe);
    }
    hide Base, Find, SideOk, Carries;
  }

  lemma Uncarried(a: Side, b: Side, universe: set<MemberId>) returns (k: MemberId)
    requires SideOk(a, universe) && !Carries(a, b.clock.items)
    ensures Now(a, k).Some? && TooLarge(a, k, Now(a, k).value) && !AtMost(Now(a, k), Now(b, k))
  {
    var items := a.log.items;
    var i :| 0 <= i < |items| && CompareRecord(b.clock.items, VersionOf(items[i])) == Before && |items[i].val.payload| > MAX_PAYLOAD;
    k := items[i].key;
    LookupIn(items, i);
    assert LoggedNumber(a.log, k) == Now(a, k);
    hide Find;
  }

  lemma {:induction false} RunKeepsPair(ps: seq<Pair>, k: nat, t: Terms)
    requires ExchangeRun(ps) && k < |ps| && PairInv(ps[0], t)
    ensures PairInv(ps[k], t)
  {
    hide PairInv, Delivery;
    if k > 0 {
      RunKeepsPair(ps, k - 1, t);
      AnyDeliveryKeeps(ps[k - 1], ps[k], t);
    }
  }

  /** Both sides hold the pointwise maximum of the clocks of `a` and `b`. */
  ghost predicate JoinedAt(x: Side, y: Side, a: Side, b: Side) {
    forall k: MemberId :: Now(x, k) == Now(y, k) == MaxOf(Now(a, k), Now(b, k))
  }

  ghost predicate EitherStuck(p: Pair, t: Terms, k: MemberId) {
    Stuck(p, t, k) || Stuck(Swap(p), t, k)
  }

  lemma StuckApart(p: Pair, a: Side, b: Side, universe: set<MemberId>, k: MemberId)
    requires EitherStuck(p, TermsOf(a, b, universe), k)
    ensures !JoinedAt(p.a, p.b, a, b)
  {
    hide Base, Find, NoneAt, TooLarge;
    assert Now(p.b, k) != MaxOf(Now(a, k), Now(b, k)) || Now(p.a, k) != MaxOf(Now(a, k), Now(b, k));
  }

  lemma StepStuck(p: Pair, p': Pair, t: Terms, k: MemberId)
    requires EitherStuck(p, t, k) && Delivery(p, p')
    ensures EitherStuck(p', t, k)
  {
    hide Stuck, DeliversToB;
    assert Swap(Swap(p)) == p && Swap(Swap(p')) == p';
    if Stuck(p, t, k) { AnyDeliveryStuck(p, p', t, k); } else { AnyDeliveryStuck(Swap(p), Swap(p'), t, k); }
  }

  lemma {:induction false} RunKeepsStuck(ps: seq<Pair>, n: nat, t: Terms, k: MemberId)
    requires ExchangeRun(ps) && n < |ps| && EitherStuck(ps[0], t, k)
    ensures EitherStuck(ps[n], t, k)
  {
    hide EitherStuck, Delivery;
    if n > 0 {
      RunKeepsStuck(ps, n - 1, t, k);
      StepStuck(ps[n - 1], ps[n], t, k);
    }
  }

  /** Pairwise convergence: when one status and everything it set off has arrived, in any order and with any
      rumours, both clocks hold the pointwise maximum of the two clocks the exchange began with, if and only if
      neither side then logged, above what the other held, a message too large to send. */
  lemma QuiescenceIsConvergence(a: Side, b: Side, universe: set<MemberId>, ps: seq<Pair>)
    requires SideOk(a, universe) && SideOk(b, universe) && |universe| <= MAX_VECTOR_SIZE
    requires ExchangeRun(ps) && ps[0] == Opening(a, b)
    requires ps[|ps| - 1].toA == ps[|ps| - 1].toB == multiset{}
    ensures JoinedAt(ps[|ps| - 1].a, ps[|ps| - 1].b, a, b) <==> Exchangeable(a, b)
  {
    hide Delivery, SideOk, Find, Opening, Exchangeable, EitherStuck, PairInv;
    var t, n := TermsOf(a, b, universe), |ps| - 1;
    if Exchangeable(a, b) {
      OpeningInv(a, b, universe);
      RunKeepsPair(ps, n, t);
      QuietMeansJoined(ps[n], t);
    } else {
      var k := OpeningStuck(a, b, universe);
      RunKeepsStuck(ps, n, t, k);
      StuckApart(ps[n], a, b, universe, k);
    }
  }
}
