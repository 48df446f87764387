/** The same exchange between two nodes: what arrives are datagrams, what answers are the messages the nodes enqueue. */
module Meetings {
  import opened Types
  import opened Rings
  import opened ClockOrder
  import opened DataLogs
  import opened Codec
  import opened Reservoirs
  import opened Members
  import opened Outbound
  import opened Tracking
  import opened Nodes
  import opened NodeInvariants
  import opened NodeEffects
  import opened Handlers
  import opened PairExchange

  function SideOf(n: Node): Side {
    Side(n.clock, n.log)
  }

  /** What a node's clock holds for an originator. */
  function ClockOf(n: Node, k: MemberId): Option<uint32> {
    Lookup(n.clock.items, k)
  }

  // ----- what a node enqueues in answer -----

  /** Everything the handler of one message enqueues. */
  function Enqueues(n: Node, src: Address, f: Frame, random: seq<nat>): seq<Posting>
    requires |random| >= |n.members|
  {
    match f.body
    case Status(_) => [Posting(src, Plain(Ack(f.seqNum)))] + DirectPostings(Answers(SideOf(n), f.body), src)
    case Data(version, _) =>
      [Posting(src, Plain(Ack(f.seqNum)))]
        + if CompareRecord(n.clock.items, version) == Before && Fits(f.body)
          then Postings(f, RandomRecipients(n.members, random)) else []
    case _ => []
  }

  /** A connected node does to its stores, and enqueues, exactly what a side of the exchange absorbs and answers. */
  lemma NodesActAsSides(n: Node, src: Address, f: Frame, random: seq<nat>)
    requires n.phase == Connected && |random| >= |n.members| && (f.body.Data? || f.body.Status? || f.body.Ack?)
    ensures var n' := Handle(n, src, f, random).node;
      && n'.phase == Connected && n'.self == n.self
      && SideOf(n') == Absorb(SideOf(n), f.body)
      && n'.created == n.created + Enqueues(n, src, f, random)
  {
    hide PostAll, Compare, DirectAll, RandomRecipients, Put, Sent, PostingsOf, StatusReplies, Postable, Fits,
         Handle, Recorded;
    HandleEffect(n, src, f, random);
    HandlePhase(n, src, f, random);
    match f.body {
      case Status(v) =>
        SentReplies(f.seqNum, StatusReplies(n.clock, n.log, v), src);
        RepliesPosted(f.seqNum, Postable(StatusReplies(n.clock, n.log, v)), src);
      case Data(_, _) => RumourPosted(f.seqNum, src, Post(f, RandomRecipients(n.members, random)));
      case Ack(_) => CreatesNothing(n);
    }
  }

  // ----- two nodes -----

  /** Two nodes, and the messages enqueued for each that have not arrived yet. */
  datatype Meeting = Meeting(a: Node, b: Node, toA: multiset<Message>, toB: multiset<Message>)

  function Turn(x: Meeting): Meeting {
    Meeting(x.b, x.a, x.toB, x.toA)
  }

  function AsPair(x: Meeting): Pair {
    Pair(SideOf(x.a), SideOf(x.b), x.toA, x.toB)
  }

  /** The messages for `to` among some envelopes. */
  function Bodies(ps: seq<Posting>, to: Address): seq<Message> {
    if ps == [] then []
    else Bodies(ps[..|ps| - 1], to) + if ps[|ps| - 1].recipient == to then [ps[|ps| - 1].frame.body] else []
  }

  /** What a node has enqueued for `to` from one state to another. */
  ghost function EnqueuedFor(n: Node, n': Node, to: Address): multiset<Message> {
    if |n.created| <= |n'.created| then multiset(Bodies(n'.created[|n.created|..], to)) else multiset{}
  }

  /** The datagram of a message in flight to B arrives there, under whatever number it was sent. */
  ghost predicate ArrivesWith(x: Meeting, x': Meeting, f: Frame, random: seq<nat>) {
    && f.body in x.toB && Fits(f.body)
    && Steps(x.b, Receives(x.a.self.address, Encode(f), random), x'.b)
    && x' == Meeting(x.a, x'.b, x.toA + EnqueuedFor(x.b, x'.b, x.a.self.address), x.toB - multiset{f.body})
  }

  ghost predicate ArrivesAtB(x: Meeting, x': Meeting) {
    exists f, random :: ArrivesWith(x, x', f, random)
  }

  /** B sends what is due. */
  ghost predicate FlushesWith(x: Meeting, x': Meeting, times: seq<nat>, budget: nat) {
    Steps(x.b, Flushes(times, budget), x'.b) && x' == x.(b := x'.b)
  }

  ghost predicate FlushesAtB(x: Meeting, x': Meeting) {
    exists times, budget :: FlushesWith(x, x', times, budget)
  }

  /** A message arrives, or a node sends, at either side; every message enqueued for the other arrives once. */
  ghost predicate MeetingStep(x: Meeting, x': Meeting) {
    || ArrivesAtB(x, x') || FlushesAtB(x, x')
    || ArrivesAtB(Turn(x), Turn(x')) || FlushesAtB(Turn(x), Turn(x'))
  }

  ghost predicate BothConnected(x: Meeting) {
    x.a.phase == Connected && x.b.phase == Connected
  }

  lemma {:induction false} BodyIn(ps: seq<Posting>, to: Address, m: Message)
    requires m in Bodies(ps, to)
    ensures exists i :: 0 <= i < |ps| && ps[i].frame.body == m
  {
    var k := |ps| - 1;
    if m in Bodies(ps[..k], to) {
      BodyIn(ps[..k], to, m);
      var i :| 0 <= i < k && ps[..k][i].frame.body == m;
      assert ps[i].frame.body == m;
    } else {
      assert ps[k].frame.body == m;
    }
  }

  lemma {:induction false} DirectBodies(m: Message, ms: seq<Message>, to: Address)
    ensures Bodies([Posting(to, Plain(m))] + DirectPostings(ms, to), to) == [m] + ms
  {
    var ps := [Posting(to, Plain(m))] + DirectPostings(ms, to);
    if ms == [] {
      assert ps == [Posting(to, Plain(m))] && ps[..0] == [];
    } else {
      var k := |ms| - 1;
      DirectBodies(m, ms[..k], to);
      assert ps[..|ps| - 1] == [Posting(to, Plain(m))] + DirectPostings(ms[..k], to);
      assert [m] + ms == ([m] + ms[..k]) + [ms[k]];
    }
  }

  /** What is enqueued for the sender: the answers and, besides, an acknowledgement and rumours. */
  lemma EnqueuesAnswers(n: Node, src: Address, f: Frame, random: seq<nat>) returns (more: multiset<Message>)
    requires |random| >= |n.members| && (f.body.Data? || f.body.Status? || f.body.Ack?)
    ensures Besides(SideOf(n), f.body, more)
    ensures multiset(Bodies(Enqueues(n, src, f, random), src)) == multiset(Answers(SideOf(n), f.body)) + more
  {
    hide RandomRecipients, CompareRecord, StatusReplies, Postable, Fits;
    var answers := Answers(SideOf(n), f.body);
    match f.body {
      case Status(_) =>
        DirectBodies(Ack(f.seqNum), answers, src);
        more := multiset{Ack(f.seqNum)};
      case Ack(_) => more := multiset{};
      case Data(_, _) => more := RumoursBesides(n, src, f, random);
    }
  }

  lemma RumoursBesides(n: Node, src: Address, f: Frame, random: seq<nat>) returns (more: multiset<Message>)
    requires |random| >= |n.members| && f.body.Data?
    ensures Besides(SideOf(n), f.body, more) && more == multiset(Bodies(Enqueues(n, src, f, random), src))
  {
    hide RandomRecipients, CompareRecord, Fits, Bodies;
    more := multiset(Bodies(Enqueues(n, src, f, random), src));
    forall x | x in more ensures x.Ack? || (x == f.body && CompareRecord(n.clock.items, f.body.version) == Before) {
      BodyIn(Enqueues(n, src, f, random), src, x);
    }
  }

  /** The datagram of an exchange message reaches its handler as what it encodes. */
  lemma ExchangeDelivers(n: Node, f: Frame)
    requires n.phase == Connected && Fits(f.body) && (f.body.Data? || f.body.Status? || f.body.Ack?)
    requires f.body.Status? ==> |f.body.clock| <= MAX_VECTOR_SIZE
    ensures Delivers(n, Encode(f)) && Delivered(n, Encode(f)) == f
  {
    hide Encode, DecodeAs;
    HeaderReadsBack(f);
    RoundTrip(f, KindOf(f.body));
  }

  /** An arrival is a delivery of the exchange. */
  lemma ArrivalIsDelivery(x: Meeting, x': Meeting, t: Terms)
    requires Base(AsPair(x), t) && BothConnected(x) && ArrivesAtB(x, x')
    ensures DeliversToB(AsPair(x), AsPair(x')) && BothConnected(x')
  {
    hide Good, Besides, Encode, Handle, Delivers, Delivered, DecodeAs, Enqueues, Bodies, Answers, Absorb, Fits, NoWrap;
    var f, random :| ArrivesWith(x, x', f, random);
    var src := x.a.self.address;
    assert Sensible(f.body, AsPair(x).a, t);
    ExchangeDelivers(x.b, f);
    DeliveredIsHandled(x.b, src, f, random);
    NodesActAsSides(x.b, src, f, random);
    var more := EnqueuesAnswers(x.b, src, f, random);
    assert x'.b.created[|x.b.created|..] == Enqueues(x.b, src, f, random);
    assert AsPair(x') == DeliverToB(AsPair(x), f.body, more);
  }

  lemma DeliveredIsHandled(n: Node, src: Address, f: Frame, random: seq<nat>)
    requires Fits(f.body) && Delivers(n, Encode(f)) && Delivered(n, Encode(f)) == f
    requires Supplied(n, Receives(src, Encode(f), random))
    ensures Apply(n, Receives(src, Encode(f), random)) == Handle(n, src, f, random).node
  {
    hide Encode, DecodeAs, Handle;
  }

  /** Sending changes neither store and enqueues nothing. */
  lemma FlushIsQuiet(x: Meeting, x': Meeting)
    requires BothConnected(x) && FlushesAtB(x, x')
    ensures AsPair(x') == AsPair(x) && BothConnected(x')
  {
    hide Pass, NoWrap;
    var times, budget :| FlushesWith(x, x', times, budget);
  }

  // ----- convergence of nodes -----

  /** B has enqueued its clock for A. */
  function Opened(a: Node, b: Node): Meeting {
    Meeting(a, b, multiset{Status(b.clock.items)}, multiset{})
  }

  ghost predicate MeetingRun(xs: seq<Meeting>) {
    xs != [] && forall i :: 0 < i < |xs| ==> MeetingStep(xs[i - 1], xs[i])
  }

  /** One step of the nodes is a delivery of the exchange, or nothing to it. */
  lemma StepAsPair(x: Meeting, x': Meeting, t: Terms)
    requires Base(AsPair(x), t) && BothConnected(x) && MeetingStep(x, x')
    ensures BothConnected(x') && (AsPair(x') == AsPair(x) || Delivery(AsPair(x), AsPair(x')))
  {
    hide Base, ArrivesAtB, FlushesAtB, DeliversToB;
    assert AsPair(Turn(x)) == Swap(AsPair(x)) && AsPair(Turn(x')) == Swap(AsPair(x'));
    assert Swap(AsPair(Turn(x))) == AsPair(x) && Swap(AsPair(Turn(x'))) == AsPair(x');
    if ArrivesAtB(x, x') {
      ArrivalIsDelivery(x, x', t);
    } else if FlushesAtB(x, x') {
      FlushIsQuiet(x, x');
    } else if ArrivesAtB(Turn(x), Turn(x')) {
      SwapBase(AsPair(x), t);
      ArrivalIsDelivery(Turn(x), Turn(x'), t);
    } else {
      FlushIsQuiet(Turn(x), Turn(x'));
    }
  }

  lemma {:induction false} MeetingKeepsInv(xs: seq<Meeting>, n: nat, t: Terms)
    requires MeetingRun(xs) && n < |xs| && BothConnected(xs[0]) && PairInv(AsPair(xs[0]), t)
    ensures BothConnected(xs[n]) && PairInv(AsPair(xs[n]), t)
  {
    hide Base, Promises, LogFits, MeetingStep, BothConnected, Delivery;
    if n > 0 {
      MeetingKeepsInv(xs, n - 1, t);
      StepAsPair(xs[n - 1], xs[n], t);
      if AsPair(xs[n]) != AsPair(xs[n - 1]) { AnyDeliveryKeeps(AsPair(xs[n - 1]), AsPair(xs[n]), t); }
    }
  }

  lemma {:induction false} MeetingKeepsStuck(xs: seq<Meeting>, n: nat, t: Terms, k: MemberId)
    requires MeetingRun(xs) && n < |xs| && BothConnected(xs[0]) && EitherStuck(AsPair(xs[0]), t, k)
    ensures BothConnected(xs[n]) && EitherStuck(AsPair(xs[n]), t, k)
  {
    hide EitherStuck, MeetingStep, BothConnected, Delivery;
    if n > 0 {
      MeetingKeepsStuck(xs, n - 1, t, k);
      StuckHasBase(AsPair(xs[n - 1]), t, k);
      StepAsPair(xs[n - 1], xs[n], t);
      if AsPair(xs[n]) != AsPair(xs[n - 1]) { StepStuck(AsPair(xs[n - 1]), AsPair(xs[n]), t, k); }
    }
  }

  lemma StuckHasBase(p: Pair, t: Terms, k: MemberId)
    requires EitherStuck(p, t, k)
    ensures Base(p, t)
  {
    hide HalfBase;
    assert Swap(Swap(p)) == p;
  }

  // ----- for the nodes of any run -----

  lemma KnownKey<V>(items: seq<Entry<V>>, k: MemberId)
    ensures Lookup(items, k).Some? ==> k in Keys(items)
  {
  }

  /** The stores of any node any run leads to are fit for the exchange, while it has seen at most 20 originators. */
  lemma ReachableSideOk(self: Member, id: MemberId, states: seq<Node>, events: seq<Event>, k: nat,
                        universe: set<MemberId>)
    requires NewRun(self, id, states, events) && k < |states|
    requires Seen(states[k]) <= universe && |universe| <= MAX_VECTOR_SIZE
    ensures SideOk(SideOf(states[k]), universe)
  {
    ClockAndLogAgree(self, id, states, events, k);
    hide NewRun, Find, Seen, ValidRing, Keys;
    var n := states[k];
    SubsetCount(Seen(n), universe);
    forall j: MemberId ensures Lookup(n.clock.items, j) == LoggedNumber(n.log, j) {
      KnownKey(n.clock.items, j);
      KnownKey(n.log.items, j);
    }
  }

  /** Any two connected nodes that any two runs lead to, with at most 20 originators between them: once B's status and
      every message it set off has arrived, whatever the order and the rumours, both clocks are the pointwise maximum
      of the two, if and only if neither node then logged, above what the other held, a payload of over 486 bytes. */
  lemma ReachableNodesConverge(selfA: Member, idA: MemberId, statesA: seq<Node>, eventsA: seq<Event>, i: nat,
                               selfB: Member, idB: MemberId, statesB: seq<Node>, eventsB: seq<Event>, j: nat,
                               xs: seq<Meeting>)
    requires NewRun(selfA, idA, statesA, eventsA) && i < |statesA| && statesA[i].phase == Connected
    requires NewRun(selfB, idB, statesB, eventsB) && j < |statesB| && statesB[j].phase == Connected
    requires |Seen(statesA[i]) + Seen(statesB[j])| <= MAX_VECTOR_SIZE
    requires MeetingRun(xs) && xs[0] == Opened(statesA[i], statesB[j])
    requires xs[|xs| - 1].toA == xs[|xs| - 1].toB == multiset{}
    ensures var x, a, b := xs[|xs| - 1], statesA[i], statesB[j];
      (forall k: MemberId ::
        ClockOf(x.a, k) == ClockOf(x.b, k) == MaxOf(ClockOf(a, k), ClockOf(b, k)))
      <==> Exchangeable(SideOf(a), SideOf(b))
  {
    hide SideOk, Seen, MeetingStep, Find, NewRun, Exchangeable, EitherStuck, PairInv;
    var a, b := statesA[i], statesB[j];
    var universe := Seen(a) + Seen(b);
    ReachableSideOk(selfA, idA, statesA, eventsA, i, universe);
    ReachableSideOk(selfB, idB, statesB, eventsB, j, universe);
    MeetingConverges(a, b, universe, xs);
    JoinedClocks(xs[|xs| - 1], a, b);
  }

  lemma JoinedClocks(x: Meeting, a: Node, b: Node)
    ensures JoinedAt(SideOf(x.a), SideOf(x.b), SideOf(a), SideOf(b)) <==>
            forall k: MemberId ::
              ClockOf(x.a, k) == ClockOf(x.b, k) == MaxOf(ClockOf(a, k), ClockOf(b, k))
  {
    hide Lookup, MaxOf;
    forall n: Node, k: MemberId ensures ClockOf(n, k) == Now(SideOf(n), k) { }
  }

  lemma MeetingConverges(a: Node, b: Node, universe: set<MemberId>, xs: seq<Meeting>)
    requires SideOk(SideOf(a), universe) && SideOk(SideOf(b), universe) && |universe| <= MAX_VECTOR_SIZE
    requires a.phase == Connected && b.phase == Connected
    requires MeetingRun(xs) && xs[0] == Opened(a, b) && xs[|xs| - 1].toA == xs[|xs| - 1].toB == multiset{}
    ensures JoinedAt(SideOf(xs[|xs| - 1].a), SideOf(xs[|xs| - 1].b), SideOf(a), SideOf(b)) <==>
            Exchangeable(SideOf(a), SideOf(b))
  {
    hide SideOk, MeetingStep, Find, Exchangeable, EitherStuck, PairInv, JoinedAt;
    var t, n := TermsOf(SideOf(a), SideOf(b), universe), |xs| - 1;
    assert AsPair(xs[0]) == Opening(SideOf(a), SideOf(b));
    if Exchangeable(SideOf(a), SideOf(b)) {
      OpeningInv(SideOf(a), SideOf(b), universe);
      MeetingKeepsInv(xs, n, t);
      QuietMeansJoined(AsPair(xs[n]), t);
      GoalIsJoin(AsPair(xs[n]), SideOf(a), SideOf(b), universe);
    } else {
      var k := OpeningStuck(SideOf(a), SideOf(b), universe);
      MeetingKeepsStuck(xs, n, t, k);
      StuckApart(AsPair(xs[n]), SideOf(a), SideOf(b), universe, k);
    }
  }

  lemma GoalIsJoin(p: Pair, a: Side, b: Side, universe: set<MemberId>)
    requires forall k: MemberId :: Now(p.a, k) == Now(p.b, k) == TermsOf(a, b, universe).goal(k)
    ensures JoinedAt(p.a, p.b, a, b)
  {
    hide Now;
  }

  // ----- the payload that does not leave -----

  /** The payload is published, and no slot or envelope is spent on it. */
  lemma LargeIsPublished(n: Node, data: Bytes)
    requires n.phase == Connected && n.queue == [] && n.members == [] && MAX_PAYLOAD < |data|
    ensures SendData(n, data, []).node == Publishing(n, data)
  {
    hide RandomRecipients, PostAll, Encode, Put, Recorded;
    var version := Entry(n.id, Increment(n.dataCounter));
    PostFirst(Publishing(n, data), Post(Plain(Data(version, data)), RandomRecipients(n.members, [])));
    EmptyPool();
  }

  lemma LargeIsNotAnswered(s: Side, id: MemberId, data: Bytes)
    requires s.clock.items == [Entry(id, 1)] && s.log.items == [Entry(id, Logged(1, data))] && MAX_PAYLOAD < |data|
    ensures Answers(s, Status([])) == []
    ensures forall remote: seq<Record> :: Lookup(remote, id).None? ==> !Carries(s, remote)
  {
    var v: seq<Record> := [];
    var large := Data(VersionOf(s.log.items[0]), data);
    assert AheadAt(s.clock.items, v, 0);
    assert Compare(s.clock.items, v) == After;
    assert CompareRecord(v, VersionOf(s.log.items[0])) == Before;
    assert DataReplies(s.log.items, v, 0) == [];
    assert DataReplies(s.log.items, v, 1) == [] + [large] == [large];
    assert StatusReplies(s.clock, s.log, v) == [large];
    assert !Fits([large][0]) && [large][..0] == [];
    assert Postable([large]) == Postable([]) == [];
    assert |s.log.items[0].val.payload| > MAX_PAYLOAD;
  }

  /** For any new node and any payload of 487 to 512 bytes: `send_data` enters it in clock and log, the answer to an
      empty peer's status is an acknowledgement and nothing else, and no node that lacks it can be brought up to date. */
  lemma LargePayloadStays(self: Member, id: MemberId, data: Bytes, peer: Address) returns (states: seq<Node>)
    requires MAX_PAYLOAD < |data| <= MESSAGE_MAX_SIZE
    ensures NewRun(self, id, states, [Joins([]), Sends(data, [])])
    ensures var n := states[2];
      && n.phase == Connected && n.members == [] && n.created == []
      && n.clock.items == [Entry(id, 1)] && n.log.items == [Entry(id, Logged(1, data))]
      && Handle(n, peer, Frame(0, 1, Status([])), []).node.created == [Posting(peer, Plain(Ack(1)))]
      && forall b: Node :: Lookup(b.clock.items, id).None? ==> !Exchangeable(SideOf(n), SideOf(b))
  {
    hide Handle, SendData, Answers, Carries;
    var n := InitialNode(self, id);
    var s1 := Apply(n, Joins([]));
    var s2 := Apply(s1, Sends(data, []));
    states := [n, s1, s2];
    LargeIsPublished(s1, data);
    LargeIsNotAnswered(SideOf(s2), id, data);
    NodesActAsSides(s2, peer, Frame(0, 1, Status([])), []);
  }
}
