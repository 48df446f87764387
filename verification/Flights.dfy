/** The exchange flight by flight: everything one side sends arrives, in some order, before anything it sets off. */
module Flights {
  import opened Types
  import opened Rings
  import opened ClockOrder
  import opened DataLogs
  import opened Codec
  import opened Nodes
  import opened PairExchange

  datatype Taken = Taken(side: Side, answers: seq<Message>)

  /** A side takes messages one after the other and collects its answers. */
  function TakeAll(s: Side, ms: seq<Message>): Taken {
    if ms == [] then Taken(s, [])
    else
      var front := TakeAll(s, ms[..|ms| - 1]);
      var m := ms[|ms| - 1];
      Taken(Absorb(front.side, m), front.answers + Answers(front.side, m))
  }

  /** `ms` are messages that `from` may have sent. */
  ghost predicate Flight(ms: seq<Message>, from: Side, t: Terms) {
    forall m :: m in ms ==> Sensible(m, from, t)
  }

  lemma FlightGrows(ms: seq<Message>, s: Side, s': Side, t: Terms)
    requires Flight(ms, s, t) && Grown(s, s')
    ensures Flight(ms, s', t)
  {
  }

  /** Messages in any order: the side keeps growing towards the goal, and answers sensibly. */
  lemma {:induction false} TakeAny(s: Side, ms: seq<Message>, t: Terms, from: Side)
    requires Good(s, t) && Flight(ms, from, t)
    ensures var r := TakeAll(s, ms);
      && Good(r.side, t) && Grown(s, r.side) && (LogFits(s, t) ==> LogFits(r.side, t))
      && (forall m :: m in ms && m.Data? ==> AtMost(Some(m.version.val), Now(r.side, m.version.key)))
      && Flight(r.answers, r.side, t)
  {
    hide Good, Absorb, Answers, Find, Sensible, LogFits, Now;
    if ms != [] {
      var front, m := ms[..|ms| - 1], ms[|ms| - 1];
      TakeAny(s, front, t, from);
      var r := TakeAll(s, front);
      TakeOne(r.side, m, t, from);
      FlightGrows(r.answers + Answers(r.side, m), r.side, Absorb(r.side, m), t);
    } else {
      SelfGrown(s);
    }
  }

  /** A status that lacks what the side held from the start is answered with the data. */
  lemma {:induction false} TakeTells(s: Side, ms: seq<Message>, t: Terms, from: Side, v: seq<Record>, k: MemberId)
    requires Good(s, t) && LogFits(s, t) && Flight(ms, from, t)
    requires Status(v) in ms && Now(s, k) == t.goal(k) && t.goal(k).Some? && !AtMost(t.goal(k), Lookup(v, k))
    ensures DataComing(multiset(TakeAll(s, ms).answers), k, t.goal(k).value)
  {
    hide Good, Answers, Absorb, Find, Sensible, LogFits, DataComing, Now;
    var front, m := ms[..|ms| - 1], ms[|ms| - 1];
    assert ms == front + [m];
    TakeAny(s, front, t, from);
    var r := TakeAll(s, front);
    WithinAt(r.side, t);
    assert AtMost(Now(s, k), Now(r.side, k)) && AtMost(Now(r.side, k), t.goal(k));
    if m == Status(v) {
      AnswersAreRight(r.side, v, t, from);
      MoreComing(multiset(Answers(r.side, m)), multiset(r.answers + Answers(r.side, m)), k, t.goal(k).value);
    } else {
      TakeTells(s, front, t, from, v, k);
      MoreComing(multiset(r.answers), multiset(r.answers + Answers(r.side, m)), k, t.goal(k).value);
    }
  }

  ghost predicate AtGoal(s: Side, t: Terms) {
    forall k: MemberId :: Now(s, k) == t.goal(k)
  }

  /** A side at the goal asks for nothing. */
  lemma {:induction false} TakeAtGoal(s: Side, ms: seq<Message>, t: Terms, from: Side)
    requires Good(s, t) && AtGoal(s, t) && Flight(ms, from, t) && Good(from, t)
    ensures AtGoal(TakeAll(s, ms).side, t)
    ensures forall m :: m in TakeAll(s, ms).answers ==> m.Data?
  {
    hide Good, Answers, Absorb, Find, Sensible, LogFits, Now, AtGoal;
    TakeAny(s, ms, t, from);
    StaysAtGoal(s, TakeAll(s, ms).side, t);
    if ms != [] {
      var front, m := ms[..|ms| - 1], ms[|ms| - 1];
      TakeAtGoal(s, front, t, from);
      TakeAny(s, front, t, from);
      OnlyStatusAnswered(TakeAll(s, front).side, m);
      if m.Status? { NothingToAsk(TakeAll(s, front).side, m.clock, t, from); }
    }
  }

  lemma StaysAtGoal(s: Side, s': Side, t: Terms)
    requires AtGoal(s, t) && Grown(s, s') && Good(s', t)
    ensures AtGoal(s', t)
  {
    hide Find, SideOk;
    forall k: MemberId ensures Now(s', k) == t.goal(k) {
      assert Now(s, k) == t.goal(k) && AtMost(Now(s, k), Now(s', k)) && AtMost(Now(s', k), t.goal(k));
    }
  }

  lemma NothingToAsk(s: Side, v: seq<Record>, t: Terms, from: Side)
    requires Good(s, t) && AtGoal(s, t) && Sensible(Status(v), from, t) && Good(from, t)
    ensures forall m :: m in Answers(s, Status(v)) ==> m.Data?
  {
    hide Find, DataReplies, Fits;
    forall k: MemberId ensures AtMost(Lookup(v, k), Lookup(s.clock.items, k)) {
      assert AtMost(Lookup(v, k), Now(from, k)) && AtMost(Now(from, k), t.goal(k)) && Now(s, k) == t.goal(k);
    }
    assert Leq(v, s.clock.items);
    CompareIsOrder(s.clock.items, v);
    hide Compare, Leq, Good;
    forall m | m in Answers(s, Status(v)) ensures m.Data? {
      PostableIn(StatusReplies(s.clock, s.log, v), m);
      RepliesLogged(s.log.items, v, |s.log.items|, m);
    }
  }

  lemma {:induction false} DataAsksNothing(s: Side, ms: seq<Message>)
    requires forall m :: m in ms ==> m.Data?
    ensures TakeAll(s, ms).answers == []
  {
    hide Absorb;
    if ms != [] { DataAsksNothing(s, ms[..|ms| - 1]); }
  }

  ghost predicate Shuffled(ms: seq<Message>, ms': seq<Message>) {
    multiset(ms) == multiset(ms')
  }

  lemma ShuffledIn(ms: seq<Message>, ms': seq<Message>, m: Message)
    requires Shuffled(ms, ms')
    ensures m in ms <==> m in ms'
  {
    assert m in multiset(ms) <==> m in multiset(ms');
  }

  lemma ShuffledFlight(ms: seq<Message>, ms': seq<Message>, from: Side, t: Terms)
    requires Shuffled(ms, ms') && Flight(ms, from, t)
    ensures Flight(ms', from, t)
  {
    hide Sensible, Shuffled;
    forall m | m in ms' ensures Sensible(m, from, t) { ShuffledIn(ms, ms', m); }
  }

  /** A side that is sent the data for all it lacks, among other things, is at the goal. */
  lemma TakenToGoal(s: Side, ms: seq<Message>, t: Terms, from: Side)
    requires Good(s, t) && Flight(ms, from, t)
    requires forall k: MemberId :: Now(s, k) != t.goal(k) ==>
               t.goal(k).Some? && DataComing(multiset(ms), k, t.goal(k).value)
    ensures AtGoal(TakeAll(s, ms).side, t)
  {
    hide TakeAll, Good, Find, Sensible, DataComing, Now, Flight, Lookup;
    TakeAny(s, ms, t, from);
    var s' := TakeAll(s, ms).side;
    WithinAt(s', t);
    forall k: MemberId ensures Now(s', k) == t.goal(k) {
      assert AtMost(Now(s, k), Now(s', k)) && AtMost(Now(s', k), t.goal(k));
      if Now(s, k) != t.goal(k) { TakenIn(s', ms, k, t.goal(k).value); }
    }
  }

  lemma TakenIn(s: Side, ms: seq<Message>, k: MemberId, v: uint32)
    requires forall m :: m in ms && m.Data? ==> AtMost(Some(m.version.val), Now(s, m.version.key))
    requires DataComing(multiset(ms), k, v)
    ensures AtMost(Some(v), Now(s, k))
  {
  }

  /** Flight by flight, each flight in whatever order it arrives and whichever way the clocks compare: if both sides can
      send what the other lacks, B holds the join after A's first answers, A after B's answers to those, and the fifth
      flight is answered by nothing; otherwise the two are not joined after the fifth flight either. */
  lemma ShuffledExchangeEnds(a: Side, b: Side, universe: set<MemberId>,
                             o2: seq<Message>, o3: seq<Message>, o4: seq<Message>, o5: seq<Message>)
    requires SideOk(a, universe) && SideOk(b, universe) && |universe| <= MAX_VECTOR_SIZE
    requires Shuffled(Answers(a, Status(b.clock.items)), o2)
    requires Shuffled(TakeAll(b, o2).answers, o3)
    requires Shuffled(TakeAll(a, o3).answers, o4)
    requires Shuffled(TakeAll(TakeAll(b, o2).side, o4).answers, o5)
    ensures var b', a' := TakeAll(b, o2).side, TakeAll(a, o3).side;
      var b'', last := TakeAll(b', o4).side, TakeAll(a', o5);
      && (Exchangeable(a, b) ==> last.answers == [] && JoinedAt(a', b', a, b))
      && (JoinedAt(last.side, b'', a, b) <==> Exchangeable(a, b))
  {
    hide *;
    if Exchangeable(a, b) {
      CarriedExchangeEnds(a, b, universe, o2, o3, o4, o5);
    } else {
      UncarriedExchangeFails(a, b, universe, o2, o3, o4, o5);
    }
  }

  /** Side B takes all that is in flight to it, in some order. */
  function Flown(p: Pair, o: seq<Message>): Pair {
    var r := TakeAll(p.b, o);
    Pair(p.a, r.side, p.toA + multiset(r.answers), p.toB - multiset(o))
  }

  lemma FlownStep(p: Pair, front: seq<Message>, m: Message)
    requires multiset(front + [m]) <= p.toB
    ensures multiset(front) <= p.toB && m in Flown(p, front).toB
    ensures Flown(p, front + [m]) == DeliverToB(Flown(p, front), m, multiset{})
  {
    hide Absorb, Answers;
    assert (front + [m])[..|front|] == front;
    assert multiset(front + [m]) == multiset(front) + multiset{m};
    hide TakeAll;
    var q := Flown(p, front);
    assert Flown(p, front + [m]).toA == q.toA + multiset(Answers(q.b, m)) + multiset{};
    assert Flown(p, front + [m]).toB == q.toB - multiset{m};
  }

  lemma {:induction false} FlightStuck(p: Pair, o: seq<Message>, t: Terms, k: MemberId)
    requires EitherStuck(p, t, k) && multiset(o) <= p.toB
    ensures EitherStuck(Flown(p, o), t, k)
  {
    hide EitherStuck, Absorb, Answers, DeliverToB;
    if o == [] {
      assert Flown(p, o) == p;
    } else {
      hide Flown;
      var front, m := o[..|o| - 1], o[|o| - 1];
      assert o == front + [m];
      FlownStep(p, front, m);
      FlightStuck(p, front, t, k);
      assert Besides(Flown(p, front).b, m, multiset{});
      StepStuck(Flown(p, front), Flown(p, o), t, k);
    }
  }

  lemma EitherSwap(p: Pair, t: Terms, k: MemberId)
    requires EitherStuck(p, t, k)
    ensures EitherStuck(Swap(p), t, k)
  {
    hide Stuck;
    assert Swap(Swap(p)) == p;
  }

  lemma UncarriedExchangeFails(a: Side, b: Side, universe: set<MemberId>,
                               o2: seq<Message>, o3: seq<Message>, o4: seq<Message>, o5: seq<Message>)
    requires SideOk(a, universe) && SideOk(b, universe) && |universe| <= MAX_VECTOR_SIZE && !Exchangeable(a, b)
    requires Shuffled(Answers(a, Status(b.clock.items)), o2)
    requires Shuffled(TakeAll(b, o2).answers, o3)
    requires Shuffled(TakeAll(a, o3).answers, o4)
    requires Shuffled(TakeAll(TakeAll(b, o2).side, o4).answers, o5)
    ensures !JoinedAt(TakeAll(TakeAll(a, o3).side, o5).side, TakeAll(TakeAll(b, o2).side, o4).side, a, b)
  {
    hide SideOk, Exchangeable, EitherStuck, Answers, TakeAll, JoinedAt;
    var t := TermsOf(a, b, universe);
    var k := OpeningStuck(a, b, universe);
    var status := [Status(b.clock.items)];
    var p0 := Opening(a, b);
    EitherSwap(p0, t, k);
    FlightStuck(Swap(p0), status, t, k);
    TakeStatus(a, b.clock.items);
    var p1 := Swap(Flown(Swap(p0), status));
    assert p1 == Pair(a, b, multiset{}, multiset(o2));
    EitherSwap(Flown(Swap(p0), status), t, k);
    FlightStuck(p1, o2, t, k);
    var p2 := Flown(p1, o2);
    EitherSwap(p2, t, k);
    assert Swap(p2) == Pair(TakeAll(b, o2).side, a, multiset{}, multiset(o3));
    FlightStuck(Swap(p2), o3, t, k);
    var p3 := Swap(Flown(Swap(p2), o3));
    EitherSwap(Flown(Swap(p2), o3), t, k);
    assert p3 == Pair(TakeAll(a, o3).side, TakeAll(b, o2).side, multiset{}, multiset(o4));
    FlightStuck(p3, o4, t, k);
    var p4 := Flown(p3, o4);
    EitherSwap(p4, t, k);
    assert multiset(o5) <= Swap(p4).toB;
    FlightStuck(Swap(p4), o5, t, k);
    var p5 := Flown(Swap(p4), o5);
    EitherSwap(p5, t, k);
    StuckApart(Swap(p5), a, b, universe, k);
  }

  lemma TakeStatus(s: Side, v: seq<Record>)
    ensures TakeAll(s, [Status(v)]) == Taken(s, Answers(s, Status(v)))
  {
    hide Answers;
    assert [Status(v)][..0] == [];
    assert [] + Answers(s, Status(v)) == Answers(s, Status(v));
  }

  lemma CarriedExchangeEnds(a: Side, b: Side, universe: set<MemberId>,
                            o2: seq<Message>, o3: seq<Message>, o4: seq<Message>, o5: seq<Message>)
    requires SideOk(a, universe) && SideOk(b, universe) && |universe| <= MAX_VECTOR_SIZE && Exchangeable(a, b)
    requires Shuffled(Answers(a, Status(b.clock.items)), o2)
    requires Shuffled(TakeAll(b, o2).answers, o3)
    requires Shuffled(TakeAll(a, o3).answers, o4)
    requires Shuffled(TakeAll(TakeAll(b, o2).side, o4).answers, o5)
    ensures var b', a' := TakeAll(b, o2).side, TakeAll(a, o3).side;
      var b'', last := TakeAll(b', o4).side, TakeAll(a', o5);
      last.answers == [] && JoinedAt(a', b', a, b) && JoinedAt(last.side, b'', a, b)
  {
    hide SideOk, TakeAll, Find, Answers, Shuffled, Sensible, Exchangeable, Good, Now;
    var t := TermsOf(a, b, universe);
    var b', a' := TakeAll(b, o2).side, TakeAll(a, o3).side;
    FirstFlights(a, b, universe, o2, o3);
    ShuffledFlight(TakeAll(a, o3).answers, o4, a', t);
    TakeAtGoal(b', o4, t, a');
    TakeAny(b', o4, t, a');
    var r := TakeAll(b', o4);
    ShuffledFlight(r.answers, o5, r.side, t);
    TakeAtGoal(a', o5, t, r.side);
    forall m | m in o5 ensures m.Data? { ShuffledIn(r.answers, o5, m); }
    DataAsksNothing(a', o5);
    AtGoalJoined(a', b', a, b, universe);
    AtGoalJoined(TakeAll(a', o5).side, r.side, a, b, universe);
  }

  lemma AtGoalJoined(x: Side, y: Side, a: Side, b: Side, universe: set<MemberId>)
    requires AtGoal(x, TermsOf(a, b, universe)) && AtGoal(y, TermsOf(a, b, universe))
    ensures JoinedAt(x, y, a, b)
  {
    hide Now;
    forall k: MemberId ensures Now(x, k) == Now(y, k) == MaxOf(Now(a, k), Now(b, k)) {
      assert Now(x, k) == TermsOf(a, b, universe).goal(k) == Now(y, k);
    }
  }

  /** The two flights that bring the data. */
  lemma FirstFlights(a: Side, b: Side, universe: set<MemberId>, o2: seq<Message>, o3: seq<Message>)
    requires SideOk(a, universe) && SideOk(b, universe) && |universe| <= MAX_VECTOR_SIZE && Exchangeable(a, b)
    requires Shuffled(Answers(a, Status(b.clock.items)), o2) && Shuffled(TakeAll(b, o2).answers, o3)
    ensures var t, b', ra := TermsOf(a, b, universe), TakeAll(b, o2).side, TakeAll(a, o3);
      Good(b', t) && Good(ra.side, t) && AtGoal(b', t) && AtGoal(ra.side, t) && Flight(ra.answers, ra.side, t)
  {
    hide SideOk, TakeAll, Find, Answers, Shuffled, Sensible, DataComing, Leq, LogFits, Carries, Good;
    var status, t := Status(b.clock.items), TermsOf(a, b, universe);
    OpeningBase(a, b, universe);
    OpeningFits(a, b, universe);
    OpeningFits(b, a, universe);
    OwnStatusSensible(b, t);
    AnswersAreRight(a, b.clock.items, t, b);
    AnswersSensible(a, b.clock.items, t);
    ShuffledFlight(Answers(a, status), o2, a, t);
    SameContents(Answers(a, status), o2);
    forall k: MemberId | Now(b, k) != t.goal(k) ensures t.goal(k).Some? && DataComing(multiset(o2), k, t.goal(k).value) {
      assert t.goal(k) == Now(a, k) && !AtMost(Now(a, k), Lookup(b.clock.items, k));
    }
    TakenToGoal(b, o2, t, a);
    TakeAny(b, o2, t, a);
    var tb := TakeAll(b, o2);
    ShuffledFlight(tb.answers, o3, tb.side, t);
    SameContents(tb.answers, o3);
    forall k: MemberId | Now(a, k) != t.goal(k) ensures t.goal(k).Some? && DataComing(multiset(o3), k, t.goal(k).value) {
      BehindIsNotLeq(a, b, k);
      ShuffledIn(Answers(a, status), o2, Status(a.clock.items));
      TakeTells(b, o2, t, a, a.clock.items, k);
    }
    TakenToGoal(a, o3, t, tb.side);
    TakeAny(a, o3, t, tb.side);
  }

  lemma BehindIsNotLeq(a: Side, b: Side, k: MemberId)
    requires Now(a, k) != MaxOf(Now(a, k), Now(b, k))
    ensures !Leq(b.clock.items, a.clock.items) && MaxOf(Now(a, k), Now(b, k)) == Now(b, k)
    ensures Now(b, k).Some? && !AtMost(Now(b, k), Lookup(a.clock.items, k))
  {
  }

  lemma SameContents(ms: seq<Message>, ms': seq<Message>)
    requires Shuffled(ms, ms')
    ensures multiset(ms) == multiset(ms')
  {
  }
}
