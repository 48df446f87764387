/** What every run of one node keeps, whatever datagrams arrive. */
module NodeInvariants {
  import opened Types
  import opened Rings
  import opened ClockOrder
  import opened DataLogs
  import opened Codec
  import opened Reservoirs
  import opened Members
  import opened Outbound
  import opened SendingPass
  import opened Tracking
  import opened Nodes

  // ----- the invariant -----

  ghost predicate QueueInv(n: Node) {
    && PoolInv(n.queue)
    && TrackInv(n.queue, n.slots, n.created, n.writes)
    && n.sequenceNum == |n.created|
    && forall e :: e in n.queue ==> e.attemptTs <= n.latest
  }

  /** Clock and log never disagree on an originator both hold. */
  ghost predicate Agree(clock: seq<Record>, log: seq<Entry<Logged>>) {
    forall k: MemberId :: Lookup(clock, k).Some? && Lookup(log, k).Some? ==>
      Lookup(log, k).value.seqNum == Lookup(clock, k).value
  }

  ghost predicate StoreInv(n: Node) {
    && ValidRing(n.clock, MAX_VECTOR_SIZE) && ValidRing(n.log, DATA_LOG_SIZE)
    && Agree(n.clock.items, n.log.items)
    && Unique(n.members)
    && n.dataCounter == |n.published|
  }

  /** Before it is connected a node knows nobody, holds no data and has queued only hellos. */
  ghost predicate JoinInv(n: Node) {
    n.phase != Connected ==>
      && n.members == [] && n.clock.items == [] && n.log.items == []
      && n.published == [] && n.accepted == [] && n.delivered == []
      && (forall i :: 0 <= i < |n.created| ==> n.created[i].frame.body.Hello?)
      && (n.phase == Initialized ==> n.created == [])
  }

  ghost predicate NodeInv(n: Node) {
    QueueInv(n) && StoreInv(n) && JoinInv(n)
  }

  /** Neither 32-bit counter has wrapped. */
  ghost predicate NoWrap(n: Node) {
    |n.created| < WORD && |n.published| < WORD
  }

  // ----- posting -----

  /** `n'` differs from `n` at most in the queue, the slots and what was enqueued. */
  ghost predicate OnlyQueued(n: Node, n': Node) {
    && n' == n.(queue := n'.queue, slots := n'.slots, sequenceNum := n'.sequenceNum, created := n'.created)
    && n.created <= n'.created
  }

  ghost predicate FromPost(p: Posting, post: Post) {
    p.frame == post.frame && p.recipient in post.recipients && Fits(p.frame.body)
  }

  ghost predicate FromSome(p: Posting, ps: seq<Post>) {
    exists k :: 0 <= k < |ps| && FromPost(p, ps[k])
  }

  ghost predicate NewFrom(n: Node, n': Node, ps: seq<Post>) {
    forall i :: |n.created| <= i < |n'.created| ==> FromSome(n'.created[i], ps)
  }

  /** The first message posted. */
  lemma PostFirst(n: Node, p: Post)
    ensures PostAll(n, [p]) == PostOne(n, p) && (AllFit([p]) <==> Fits(p.frame.body))
    ensures p.frame.body.Ack? || p.frame.body.Welcome? ==> Fits(p.frame.body)
  {
  }

  lemma PostOneFrame(n: Node, p: Post)
    ensures OnlyQueued(n, PostOne(n, p))
    ensures forall i :: |n.created| <= i < |PostOne(n, p).created| ==> FromPost(PostOne(n, p).created[i], p)
  {
    hide Encode, Acquire, Enqueued, Stored;
  }

  lemma PostOneKeeps(n: Node, p: Post)
    requires QueueInv(n) && |PostOne(n, p).created| < WORD
    ensures QueueInv(PostOne(n, p))
  {
    hide Acquire, PoolInv, TrackInv, Encode, Enqueued, Occupied, Fits, Postings, Stored;
    var a := Acquire(n.queue);
    AcquireKeeps(n.queue, n.slots, n.created, n.writes);
    if Fits(p.frame.body) {
      EncodedFits(p.frame);
      EnqueueKeeps(a.queue, a.slot, n.slots, n.created, n.writes, n.sequenceNum, p, n.latest);
    }
  }

  lemma AcquireKeeps(q: seq<Envelope>, slots: Slots, created: seq<Posting>, ws: seq<Write>)
    requires PoolInv(q) && TrackInv(q, slots, created, ws)
    ensures var a := Acquire(q);
      && PoolInv(a.queue) && TrackInv(a.queue, slots, created, ws) && !Occupied(a.queue, a.slot)
      && forall e :: e in a.queue ==> e in q
  {
    AcquireIsSafe(q);
    AcquireCuts(q);
    hide Acquire, PoolInv, TrackInv, Occupied, Cut;
    var i, j :| 0 <= i <= j <= |q| && Acquire(q).queue == Cut(q, i, j);
    CutKeepsTrack(q, i, j, slots, created, ws);
    CutSubset(q, i, j);
  }

  lemma CutSubset(q: seq<Envelope>, i: nat, j: nat)
    requires i <= j <= |q|
    ensures forall e :: e in Cut(q, i, j) ==> e in q
  {
  }

  lemma EnqueueKeeps(q: seq<Envelope>, slot: SlotIndex, slots: Slots, created: seq<Posting>, ws: seq<Write>,
                     n: uint32, p: Post, latest: nat)
    requires PoolInv(q) && TrackInv(q, slots, created, ws) && !Occupied(q, slot)
    requires forall e :: e in q ==> e.attemptTs <= latest
    requires Fits(p.frame.body) && |Encode(p.frame)| <= MESSAGE_MAX_SIZE
    requires n == |created| && n + |p.recipients| < WORD
    ensures var bytes := Encode(p.frame);
      var e := Enqueued(q, n, p.frame, slot, |bytes|, p.recipients);
      && PoolInv(e.queue)
      && TrackInv(e.queue, Stored(slots, slot, bytes), created + Postings(p.frame, p.recipients), ws)
      && e.seqNum == n + |p.recipients|
      && forall x :: x in e.queue ==> x.attemptTs <= latest
  {
    hide PoolInv, TrackInv, Encode, Enqueued, Occupied, Fits, Postings, Stored;
    var bytes := Encode(p.frame);
    StoreKeepsTrack(q, slots, created, ws, slot, bytes);
    StoredReads(slots, slot, bytes);
    EnqueueKeepsTrack(q, Stored(slots, slot, bytes), created, ws, n, p.frame, slot, p.recipients);
    EnqueuedKeepsPool(q, n, p.frame, slot, |bytes|, p.recipients);
    EnqueuedAppends(q, n, p.frame, slot, |bytes|, p.recipients);
    EnqueuedTimes(q, n, p.frame, slot, |bytes|, p.recipients, latest);
  }

  lemma {:induction false} EnqueuedTimes(q: seq<Envelope>, n: uint32, f: Frame, slot: SlotIndex, size: DatagramSize,
                                         recipients: seq<Address>, latest: nat)
    requires forall e :: e in q ==> e.attemptTs <= latest
    ensures forall e :: e in Enqueued(q, n, f, slot, size, recipients).queue ==> e.attemptTs <= latest
  {
    if recipients != [] { EnqueuedTimes(q, n, f, slot, size, recipients[..|recipients| - 1], latest); }
  }

  lemma StoredReads(slots: Slots, slot: SlotIndex, bytes: Bytes)
    requires |bytes| <= MESSAGE_MAX_SIZE
    ensures Stored(slots, slot, bytes)[slot][..|bytes|] == bytes
  {
  }

  lemma AcquireCuts(q: seq<Envelope>)
    ensures exists i, j :: 0 <= i <= j <= |q| && Acquire(q).queue == Cut(q, i, j)
  {
    if FreeSlotFrom(q, 0) < MAX_OUTPUT_MESSAGES {
      assert q == Cut(q, |q|, |q|);
    }
  }

  lemma {:induction false} PostAllFrame(n: Node, ps: seq<Post>)
    ensures OnlyQueued(n, PostAll(n, ps)) && NewFrom(n, PostAll(n, ps), ps)
  {
    hide PostOne, Fits;
    if ps != [] {
      var k := |ps| - 1;
      var front := ps[..k];
      PostAllFrame(n, front);
      var m := PostAll(n, front);
      PostOneFrame(m, ps[k]);
      var n' := PostAll(n, ps);
      forall i | |n.created| <= i < |n'.created| ensures FromSome(n'.created[i], ps) {
        if i < |m.created| {
          assert FromSome(m.created[i], front);
          var l :| 0 <= l < |front| && FromPost(m.created[i], front[l]);
          assert FromPost(n'.created[i], ps[l]);
        } else {
          assert FromPost(n'.created[i], ps[k]);
        }
      }
    }
  }

  lemma {:induction false} PostAllKeeps(n: Node, ps: seq<Post>)
    requires QueueInv(n) && |PostAll(n, ps).created| < WORD
    ensures QueueInv(PostAll(n, ps))
  {
    hide PostOne, Fits, QueueInv;
    if ps != [] {
      var k := |ps| - 1;
      var front := ps[..k];
      PostOneFrame(PostAll(n, front), ps[k]);
      PostAllKeeps(n, front);
      if AllFit(front) { PostOneKeeps(PostAll(n, front), ps[k]); }
    }
  }

  lemma WithoutMembers(q: seq<Envelope>, i: nat, e: Envelope)
    requires i < |q| && Increasing(q)
    ensures e in Without(q, i) <==> e in q && e.seqNum != q[i].seqNum
  {
  }

  lemma WithoutIncreasing(q: seq<Envelope>, i: nat)
    requires i < |q| && Increasing(q)
    ensures Increasing(Without(q, i)) && |Without(q, i)| == |q| - 1
  {
  }

  /** An acknowledgement or a welcome removes at most one envelope, the one with that number. */
  lemma AcknowledgedRemovesOne(q: seq<Envelope>, s: uint32)
    requires Increasing(q)
    ensures forall e :: e in Acknowledged(q, s) <==> e in q && e.seqNum != s
    ensures Increasing(Acknowledged(q, s)) && |q| - 1 <= |Acknowledged(q, s)| <= |q|
  {
    var i := FindSeq(q, s, 0);
    if i >= 0 {
      hide Increasing;
      WithoutIncreasing(q, i);
      hide Without;
      forall e ensures e in Acknowledged(q, s) <==> e in q && e.seqNum != s { WithoutMembers(q, i, e); }
    }
  }

  lemma AcknowledgedKeeps(n: Node, s: uint32)
    requires QueueInv(n)
    ensures QueueInv(n.(queue := Acknowledged(n.queue, s)))
  {
    hide PoolInv, TrackInv;
    var i := FindSeq(n.queue, s, 0);
    if i >= 0 {
      assert Acknowledged(n.queue, s) == Cut(n.queue, i, i + 1);
      CutKeepsPool(n.queue, i, i + 1);
      CutKeepsTrack(n.queue, i, i + 1, n.slots, n.created, n.writes);
    }
  }

  lemma ProcessSendKeeps(n: Node, times: seq<nat>, budget: nat, now: nat)
    requires QueueInv(n) && |times| >= |n.queue| && now >= n.latest && Steady(times, now)
    ensures QueueInv(ProcessSend(n, times, budget).node.(latest := LatestOf(n.latest, times)))
  {
    hide PoolInv, TrackInv, Pass;
    var c := Cursor([], n.queue, n.slots, n.members, n.writes, false);
    assert c.Queue() == n.queue;
    if n.phase != Initialized {
      SteadyPassKeepsPool(c, times, budget, now);
      PassKeepsTrack(c, times, budget, n.created);
      EmptyPass(c, times, budget);
    }
  }

  lemma EmptyPass(c: Cursor, times: seq<nat>, budget: nat)
    requires c.failed || |times| >= |c.rest|
    ensures times == [] && !c.failed ==> Pass(c, times, budget) == c
  {
  }

  // ----- the stores -----

  /** Writing the same number under the same id to clock and log keeps them in agreement,
      whatever either ring pushes out. */
  lemma AgreeAfterPut(clock: Clock, log: Log, version: Record, payload: Bytes)
    requires ValidRing(clock, MAX_VECTOR_SIZE) && ValidRing(log, DATA_LOG_SIZE) && Agree(clock.items, log.items)
    ensures var c := Put(clock, MAX_VECTOR_SIZE, version.key, version.val);
      var l := Recorded(log, version, payload);
      ValidRing(c, MAX_VECTOR_SIZE) && ValidRing(l, DATA_LOG_SIZE) && Agree(c.items, l.items)
  {
    hide Put, Lookup;
    var c := Put(clock, MAX_VECTOR_SIZE, version.key, version.val);
    var l := Recorded(log, version, payload);
    PutKeepsValid(clock, MAX_VECTOR_SIZE, version.key, version.val);
    PutKeepsValid(log, DATA_LOG_SIZE, version.key, Logged(version.val, payload));
    forall k: MemberId | Lookup(c.items, k).Some? && Lookup(l.items, k).Some?
      ensures Lookup(l.items, k).value.seqNum == Lookup(c.items, k).value
    {
      PutLookup(clock, MAX_VECTOR_SIZE, version.key, version.val, k);
      PutLookup(log, DATA_LOG_SIZE, version.key, Logged(version.val, payload), k);
    }
  }

  lemma AddAllUnique(s: seq<Member>, more: seq<Member>)
    requires Unique(s)
    ensures Unique(AddAll(s, more))
  {
  }

  // ----- each event -----

  /** Data part changed to `m`, then some messages posted: enough to keep the whole invariant. */
  lemma PostingKeeps(n: Node, m: Node, ps: seq<Post>)
    requires NodeInv(n) && StoreInv(m) && m.phase == Connected
    requires m.queue == n.queue && m.slots == n.slots && m.created == n.created && m.writes == n.writes
    requires m.sequenceNum == n.sequenceNum && m.latest == n.latest
    requires |PostAll(m, ps).created| < WORD
    ensures NodeInv(PostAll(m, ps))
  {
    hide PoolInv, TrackInv, Agree, ValidRing, PostAll;
    PostAllFrame(m, ps);
    PostAllKeeps(m, ps);
  }

  lemma HandleKeeps(n: Node, src: Address, f: Frame, random: seq<nat>)
    requires NodeInv(n) && n.phase != Initialized && |random| >= |n.members|
    requires NoWrap(Handle(n, src, f, random).node)
    ensures NodeInv(Handle(n, src, f, random).node)
  {
    hide PoolInv, TrackInv, Agree, ValidRing, PostAll, Acknowledged, AddAll, Unique, DirectAll, HelloPosts,
         RandomRecipients;
    if f.body.Welcome? {
      AcknowledgedKeeps(n, f.body.helloSeq);
      AddAllUnique(n.members, [f.body.member]);
    } else if n.phase == Connected {
      match f.body {
        case Hello(m) =>
          PostAllFrame(n, HelloPosts(n, src, f));
          PostingKeeps(n, n, HelloPosts(n, src, f));
          AddAllUnique(n.members, [m]);
        case MemberList(ms) =>
          AddAllUnique(n.members, ms);
          PostingKeeps(n, n.(members := AddAll(n.members, ms)), [Direct(Ack(f.seqNum), src)]);
        case Data(version, payload) =>
          HandleDataKeeps(n, src, f, random);
        case Ack(k) =>
          AcknowledgedKeeps(n, k);
        case Status(version) =>
          PostingKeeps(n, n, [Direct(Ack(f.seqNum), src)] + DirectAll(StatusReplies(n.clock, n.log, version), src));
      }
    }
  }

  lemma HandleDataKeeps(n: Node, src: Address, f: Frame, random: seq<nat>)
    requires NodeInv(n) && n.phase == Connected && |random| >= |n.members| && f.body.Data?
    requires NoWrap(HandleData(n, src, f, random).node)
    ensures NodeInv(HandleData(n, src, f, random).node)
  {
    hide PoolInv, TrackInv, Agree, ValidRing, PostAll, Unique, RandomRecipients, Put, Recorded;
    var ack := Direct(Ack(f.seqNum), src);
    if CompareRecord(n.clock.items, f.body.version) != Before {
      PostingKeeps(n, n, [ack]);
    } else {
      AgreeAfterPut(n.clock, n.log, f.body.version, f.body.payload);
      PostingKeeps(n, Accepting(n, f.body.version, f.body.payload), [ack, Post(f, RandomRecipients(n.members, random))]);
    }
  }

  lemma SendDataKeeps(n: Node, data: Bytes, random: seq<nat>)
    requires NodeInv(n) && |random| >= |n.members| && NoWrap(SendData(n, data, random).node)
    ensures NodeInv(SendData(n, data, random).node)
  {
    hide PoolInv, TrackInv, Agree, ValidRing, PostAll, Unique, RandomRecipients, Put, Recorded;
    if n.phase == Connected {
      var version := Entry(n.id, Increment(n.dataCounter));
      var ps := [Post(Plain(Data(version, data)), RandomRecipients(n.members, random))];
      var m := Publishing(n, data);
      PostAllFrame(m, ps);
      AgreeAfterPut(n.clock, n.log, version, data);
      PostingKeeps(n, m, ps);
    }
  }

  lemma JoinKeeps(n: Node, seeds: seq<Address>)
    requires NodeInv(n) && NoWrap(Join(n, seeds).node)
    ensures NodeInv(Join(n, seeds).node)
  {
    hide PoolInv, TrackInv, Agree, ValidRing, PostAll, Unique;
    if n.phase == Initialized && seeds != [] {
      PostAllFrame(n, HelloToAll(n.self, seeds));
      PostAllKeeps(n, HelloToAll(n.self, seeds));
    }
  }

  lemma TickKeeps(n: Node, now: nat, random: seq<nat>)
    requires NodeInv(n) && |random| >= |n.members| && NoWrap(Tick(n, now, random).node)
    ensures NodeInv(Tick(n, now, random).node)
  {
    hide PoolInv, TrackInv, Agree, ValidRing, PostAll, Unique, RandomRecipients, AllFit;
    if n.phase == Connected {
      var ps := [Post(Plain(Status(n.clock.items)), RandomRecipients(n.members, random))];
      if n.lastGossipTs + GOSSIP_TICK_INTERVAL <= now {
        PostAllFrame(n, ps);
        PostingKeeps(n, n, ps);
      }
    }
  }

  lemma {:induction false} PassKeepsUnique(c: Cursor, times: seq<nat>, budget: nat)
    requires c.failed || |times| >= |c.rest|
    requires Unique(c.members)
    ensures Unique(Pass(c, times, budget).members)
    ensures c.members == [] ==> Pass(c, times, budget).members == []
    decreases |c.rest|, if c.failed then 0 else 1
  {
    hide Unique, Patched, Waiting, Exhausted, RemoveByAddress;
    if c.rest != [] && !c.failed {
      if Exhausted(c.rest[0]) {
        RemovalKeepsUnique(c.members, c.rest[0].recipient);
        RemoveFromNobody(c.rest[0].recipient);
        PassKeepsUnique(Expire(c), times, budget);
      } else if Waiting(c.rest[0], times[0]) {
        PassKeepsUnique(Skip(c), times[1..], budget);
      } else {
        PassKeepsUnique(Transmit(c, times[0], budget > 0), times[1..], if budget > 0 then budget - 1 else 0);
      }
    }
  }

  lemma RemoveFromNobody(addr: Address)
    ensures RemoveByAddress([], addr) == []
  {
  }

  /** Every entry point keeps the invariant, whatever datagram arrives and whatever write fails. */
  lemma ApplyKeeps(n: Node, ev: Event)
    requires NodeInv(n) && Enabled(n, ev) && NoWrap(Apply(n, ev))
    ensures NodeInv(Apply(n, ev))
  {
    hide QueueInv, StoreInv, JoinInv, Handle, DecodeAs, Join, SendData, ProcessSend, Tick;
    match ev {
      case Joins(seeds) => JoinKeeps(n, seeds);
      case Sends(data, random) => SendDataKeeps(n, data, random);
      case Receives(src, datagram, random) =>
        if Delivers(n, datagram) {
          var f := DecodeAs(datagram[5], datagram).value;
          HandleKeeps(n, src, f, random);
        }
      case Flushes(times, budget) =>
        var now :| now >= n.latest && Steady(times, now);
        FlushKeeps(n, times, budget, now);
      case Ticks(now, random) => TickKeeps(n, now, random);
    }
  }

  lemma FlushKeeps(n: Node, times: seq<nat>, budget: nat, now: nat)
    requires NodeInv(n) && |times| >= |n.queue| && now >= n.latest && Steady(times, now)
    ensures NodeInv(ProcessSend(n, times, budget).node.(latest := LatestOf(n.latest, times)))
  {
    ProcessSendKeeps(n, times, budget, now);
    PassKeepsUnique(Cursor([], n.queue, n.slots, n.members, n.writes, false), times, budget);
    hide QueueInv, ValidRing, Agree, Unique, Pass;
  }

  /** A datagram reaches its handler: a known kind, decodable, and either a welcome or a connected node. */
  predicate Delivers(n: Node, b: Bytes) {
    && n.phase != Initialized && |b| >= HEADER_SIZE && HELLO <= b[5] <= STATUS
    && (b[5] == WELCOME || n.phase == Connected)
    && DecodeAs(b[5], b).Ok?
  }

  // ----- runs -----

  ghost predicate Steps(n: Node, ev: Event, n': Node) {
    Enabled(n, ev) && n' == Apply(n, ev) && NoWrap(n')
  }

  /** `states` are the states a node goes through from `states[0]` on: event `i` leads to state `i + 1`. */
  ghost predicate Run(states: seq<Node>, events: seq<Event>) {
    && |states| == |events| + 1
    && forall i {:trigger events[i]} :: 0 <= i < |events| ==> Steps(states[i], events[i], states[i + 1])
  }

  /** A run of a new node. */
  ghost predicate NewRun(self: Member, id: MemberId, states: seq<Node>, events: seq<Event>) {
    Run(states, events) && states[0] == InitialNode(self, id)
  }

  lemma InitialInv(self: Member, id: MemberId)
    ensures NodeInv(InitialNode(self, id))
  {
  }

  /** Every state of every run satisfies the invariant. */
  lemma {:induction false} RunKeeps(self: Member, id: MemberId, states: seq<Node>, events: seq<Event>, k: nat)
    requires NewRun(self, id, states, events) && k < |states|
    ensures NodeInv(states[k])
  {
    hide NodeInv, NoWrap, Enabled, Apply, InitialNode;
    if k == 0 {
      InitialInv(self, id);
    } else {
      RunKeeps(self, id, states, events, k - 1);
      assert Steps(states[k - 1], events[k - 1], states[k]);
      ApplyKeeps(states[k - 1], events[k - 1]);
    }
  }

  /** Shared-slot safety: at any moment of any run the slot chosen for the next message belongs to no envelope left queued. */
  lemma SlotsNeverShared(self: Member, id: MemberId, states: seq<Node>, events: seq<Event>, k: nat)
    requires NewRun(self, id, states, events) && k < |states|
    ensures !Occupied(Acquire(states[k].queue).queue, Acquire(states[k].queue).slot)
  {
    RunKeeps(self, id, states, events, k);
    hide Acquire, PoolInv, TrackInv, NewRun;
    AcquireIsSafe(states[k].queue);
  }

  /** Wire integrity: every datagram any run ever writes is the message enqueued under its number,
      for that recipient, re-encoded with only that number. */
  lemma WireIntegrity(self: Member, id: MemberId, states: seq<Node>, events: seq<Event>, k: nat, i: nat)
    requires NewRun(self, id, states, events) && k < |states| && i < |states[k].writes|
    ensures var w := states[k].writes[i];
      && 1 <= w.seqNum <= |states[k].created|
      && var posted := states[k].created[w.seqNum - 1];
      && w.recipient == posted.recipient
      && Fits(posted.frame.body) && w.bytes == Encode(posted.frame.(seqNum := w.seqNum))
  {
    hide NewRun, PoolInv, Encode;
    RunKeeps(self, id, states, events, k);
    assert WriteOk(states[k].writes[i], states[k].created);
  }

  /** Bounded retries: a welcome or an acknowledgement is written at most once, any other message at most three times,
      and two writes of one number are at least 10000 ms apart. */
  lemma RetriesBounded(self: Member, id: MemberId, states: seq<Node>, events: seq<Event>, k: nat, s: uint32)
    requires NewRun(self, id, states, events) && k < |states|
    ensures CountWrites(states[k].writes, s) <=
            if !(1 <= s <= |states[k].created|) then 0
            else if states[k].created[s - 1].frame.body.Welcome? || states[k].created[s - 1].frame.body.Ack? then 1
            else 3
    ensures forall i, j ::
              0 <= i < j < |states[k].writes| && states[k].writes[i].seqNum == states[k].writes[j].seqNum == s ==>
              states[k].writes[i].time + MESSAGE_RETRY_INTERVAL <= states[k].writes[j].time
  {
    hide NewRun, PoolInv, Encode, CountWrites;
    RunKeeps(self, id, states, events, k);
    var n := states[k];
    assert forall i :: 0 <= i < |n.writes| ==> WriteOk(n.writes[i], n.created);
    CountWithin(n.writes, s, if 1 <= s <= |n.created| then MaxAttempts(n.created[s - 1].frame.body) else 0);
  }

  /** Numbers strictly increase from head to tail and never exceed the counter, so a number finds its one envelope. */
  lemma QueueIsNumbered(self: Member, id: MemberId, states: seq<Node>, events: seq<Event>, k: nat)
    requires NewRun(self, id, states, events) && k < |states|
    ensures Increasing(states[k].queue)
    ensures forall i :: 0 <= i < |states[k].queue| ==>
              1 <= states[k].queue[i].seqNum <= states[k].sequenceNum
              && FindSeq(states[k].queue, states[k].queue[i].seqNum, 0) == i
  {
    hide NewRun, PoolInv, Encode;
    RunKeeps(self, id, states, events, k);
    var q := states[k].queue;
    forall i | 0 <= i < |q|
      ensures 1 <= q[i].seqNum <= states[k].sequenceNum && FindSeq(q, q[i].seqNum, 0) == i
    {
      assert EnvelopeOk(q[i], states[k].slots, states[k].created);
    }
  }

  /** From any state of any run: four passes at least 10000 ms apart, the first not before the latest clock reading,
      with successful writes and nothing received or sent in between, empty the queue. */
  lemma QueueEmptiesInFour(self: Member, id: MemberId, states: seq<Node>, events: seq<Event>, k: nat,
                           t0: seq<nat>, t1: seq<nat>, t2: seq<nat>, t3: seq<nat>)
    requires NewRun(self, id, states, events) && k < |states|
    requires var n := |states[k].queue|; |t0| >= n && |t1| >= n && |t2| >= n && |t3| >= n
    requires forall t :: t in t0 ==> t >= states[k].latest
    requires Spaced(t0, t1) && Spaced(t1, t2) && Spaced(t2, t3)
    ensures var n := states[k];
      var c0 := SendAll(n.queue, n.slots, n.members, t0);
      var c1 := SendAll(c0.Queue(), c0.slots, c0.members, t1);
      var c2 := SendAll(c1.Queue(), c1.slots, c1.members, t2);
      SendAll(c2.Queue(), c2.slots, c2.members, t3).Queue() == []
  {
    hide NewRun, PoolInv, Encode, SendAll, Spaced;
    RunKeeps(self, id, states, events, k);
    var n := states[k];
    forall e | e in n.queue ensures e.maxAttempts <= MESSAGE_RETRY_ATTEMPTS {
      var i :| 0 <= i < |n.queue| && n.queue[i] == e;
      assert EnvelopeOk(n.queue[i], n.slots, n.created);
    }
    FourPassesEmpty(n.queue, n.slots, n.members, t0, t1, t2, t3);
  }

  // ----- joining -----

  /** The only changes of phase; a node that is joining gets connected by a welcome and nothing else. */
  lemma PhaseChanges(n: Node, ev: Event)
    requires NodeInv(n) && Enabled(n, ev)
    ensures var n' := Apply(n, ev);
      n'.phase != n.phase ==>
        || (n.phase == Initialized && ev.Joins? && n'.phase == (if ev.seeds == [] then Connected else Joining))
        || (n.phase == Joining && n'.phase == Connected && ev.Receives?
            && DecodeAs(WELCOME, ev.datagram).Ok? && DecodeAs(WELCOME, ev.datagram).value.body.Welcome?)
  {
    hide NodeInv, PostAll, HelloPosts, RandomRecipients, StatusReplies, DecodeBody, DirectAll, Pass;
    match ev {
      case Joins(seeds) => PostAllFrame(n, HelloToAll(n.self, seeds));
      case Sends(data, random) => SendPhase(n, data, random);
      case Receives(src, datagram, random) =>
        if Delivers(n, datagram) {
          var f := DecodeAs(datagram[5], datagram).value;
          DecodedKind(datagram[5], datagram);
          HandlePhase(n, src, f, random);
        }
      case Flushes(times, budget) =>
      case Ticks(now, random) =>
        PostAllFrame(n, [Post(Plain(Status(n.clock.items)), RandomRecipients(n.members, random))]);
    }
  }

  lemma DecodedKind(kind: byte, b: Bytes)
    ensures DecodeAs(kind, b).Ok? ==> KindOf(DecodeAs(kind, b).value.body) == kind
  {
  }

  lemma SendPhase(n: Node, data: Bytes, random: seq<nat>)
    requires |random| >= |n.members|
    ensures SendData(n, data, random).node.phase == n.phase
  {
    hide PostAll, RandomRecipients, Put;
    if n.phase == Connected {
      var version := Entry(n.id, Increment(n.dataCounter));
      PostAllFrame(Publishing(n, data), [Post(Plain(Data(version, data)), RandomRecipients(n.members, random))]);
    }
  }

  lemma HandlePhase(n: Node, src: Address, f: Frame, random: seq<nat>)
    requires |random| >= |n.members|
    ensures Handle(n, src, f, random).node.phase == if f.body.Welcome? then Connected else n.phase
  {
    hide PostAll, HelloPosts, RandomRecipients, StatusReplies, DirectAll, Put, AddAll, Acknowledged, CompareRecord;
    if n.phase == Connected {
      match f.body {
        case Hello(m) => PostAllFrame(n, HelloPosts(n, src, f));
        case Welcome(_, _) =>
        case MemberList(ms) => PostAllFrame(n.(members := AddAll(n.members, ms)), [Direct(Ack(f.seqNum), src)]);
        case Data(version, payload) =>
          PostAllFrame(n, [Direct(Ack(f.seqNum), src)]);
          PostAllFrame(Accepting(n, version, payload),
                       [Direct(Ack(f.seqNum), src), Post(f, RandomRecipients(n.members, random))]);
        case Ack(_) =>
        case Status(version) =>
          PostAllFrame(n, [Direct(Ack(f.seqNum), src)] + DirectAll(StatusReplies(n.clock, n.log, version), src));
      }
    }
  }

  /** Over any run: before it is connected a node knows nobody, holds no data, and every envelope it has
      queued is a hello; and it never leaves the connected phase. */
  lemma {:induction false} JoinProtocol(self: Member, id: MemberId, states: seq<Node>, events: seq<Event>, j: nat, k: nat)
    requires NewRun(self, id, states, events) && j <= k < |states|
    ensures states[k].phase != Connected ==>
              && states[k].members == [] && states[k].clock.items == [] && states[k].log.items == []
              && forall e :: e in states[k].queue ==> e.frame.body.Hello?
    ensures states[j].phase == Connected ==> states[k].phase == Connected
    ensures states[j].phase == Joining ==> states[k].phase != Initialized
  {
    hide NodeInv, Apply, Enabled;
    RunKeeps(self, id, states, events, k);
    if states[k].phase != Connected { BeforeConnected(states[k]); }
    if j < k {
      JoinProtocol(self, id, states, events, j, k - 1);
      RunKeeps(self, id, states, events, k - 1);
      assert Steps(states[k - 1], events[k - 1], states[k]);
      PhaseChanges(states[k - 1], events[k - 1]);
    }
  }

  lemma BeforeConnected(n: Node)
    requires NodeInv(n) && n.phase != Connected
    ensures n.members == [] && n.clock.items == [] && n.log.items == []
    ensures forall e :: e in n.queue ==> e.frame.body.Hello?
  {
  }
}
