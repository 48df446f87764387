/** The gossip node as the object it is: each method computes, in place, the function of `Nodes` named in its contract. */
module Gossips {
  import opened Types
  import opened Rings
  import opened ClockOrder
  import opened VectorClocks
  import opened DataLogs
  import opened Codec
  import opened CodecBuffers
  import opened Reservoirs
  import opened Members
  import opened Outbound
  import opened Tracking
  import opened Nodes
  import opened NodeInvariants
  import opened EnvelopeQueues
  import opened EnvelopePools

  const OUTPUT_BUFFER_SIZE: nat := MAX_OUTPUT_MESSAGES * MESSAGE_MAX_SIZE

  /** The flat output buffer, read as slots. */
  ghost predicate SlotsIn(buffer: Bytes, slots: Slots) {
    && |buffer| == OUTPUT_BUFFER_SIZE
    && forall i {:trigger slots[i]} :: 0 <= i < MAX_OUTPUT_MESSAGES ==>
         buffer[i * MESSAGE_MAX_SIZE..i * MESSAGE_MAX_SIZE + MESSAGE_MAX_SIZE] == slots[i]
  }

  /** A write inside slot `slot`, from its byte `from` on. */
  lemma WriteInSlot(buffer: Bytes, slots: Slots, slot: SlotIndex, from: nat, bytes: Bytes)
    requires SlotsIn(buffer, slots) && from + |bytes| <= MESSAGE_MAX_SIZE
    ensures SlotsIn(Written(buffer, slot * MESSAGE_MAX_SIZE + from, bytes),
                    slots[slot := Written(slots[slot], from, bytes)])
  {
    var at := slot * MESSAGE_MAX_SIZE;
    var buffer' := Written(buffer, at + from, bytes);
    var slots' := slots[slot := Written(slots[slot], from, bytes)];
    forall i {:trigger slots'[i]} | 0 <= i < MAX_OUTPUT_MESSAGES
      ensures buffer'[i * MESSAGE_MAX_SIZE..i * MESSAGE_MAX_SIZE + MESSAGE_MAX_SIZE] == slots'[i]
    {
      assert buffer[i * MESSAGE_MAX_SIZE..i * MESSAGE_MAX_SIZE + MESSAGE_MAX_SIZE] == slots[i];
    }
  }

  lemma StoredIsWritten(slots: Slots, slot: SlotIndex, bytes: Bytes)
    requires |bytes| <= MESSAGE_MAX_SIZE
    ensures Stored(slots, slot, bytes) == slots[slot := Written(slots[slot], 0, bytes)]
  {
    assert Written(slots[slot], 0, bytes) == bytes + slots[slot][|bytes|..];
  }

  lemma PatchIsWritten(slots: Slots, e: Envelope)
    ensures Patched(slots, e) == slots[e.slot := Written(slots[e.slot], SEQ_OFFSET, Bytes32(e.seqNum))]
  {
  }

  /** Who a message goes to: one node, a few random members, or all members. */
  datatype Spreading = ToOne(to: Address) | ToRandom(random: seq<nat>) | ToAll

  predicate EnoughRandom(members: seq<Member>, spreading: Spreading) {
    spreading.ToRandom? ==> |spreading.random| >= |members|
  }

  function Recipients(members: seq<Member>, spreading: Spreading): seq<Address>
    requires EnoughRandom(members, spreading)
  {
    match spreading
    case ToOne(to) => [to]
    case ToRandom(random) => RandomRecipients(members, random)
    case ToAll => Addresses(members)
  }

  method NewBuffer() returns (buffer: array<byte>)
    ensures fresh(buffer) && buffer.Length == OUTPUT_BUFFER_SIZE && forall i :: 0 <= i < buffer.Length ==> buffer[i] == 0
  {
    buffer := new byte[OUTPUT_BUFFER_SIZE](_ => 0);
  }

  class Gossip {
    const outputBuffer: array<byte>
    const queue: EnvelopeQueue
    const clock: VectorClock
    const log: DataLog
    const members: MemberSet
    const self_: Member
    const id: MemberId
    var sequenceNum: uint32
    var dataCounter: uint32
    var phase: Phase
    var lastGossipTs: nat
    /** The slots of the output buffer, and the history of `Nodes.Node`. */
    ghost var slots: Slots
    ghost var published: seq<Bytes>
    ghost var created: seq<Posting>
    ghost var writes: seq<Write>
    ghost var accepted: seq<Item>
    ghost var delivered: seq<Item>
    ghost var latest: nat

    /** The objects the node is made of, besides itself. */
    ghost function Parts(): set<object>
      reads this, queue, members
    {
      {outputBuffer, queue, clock, clock.records, log, log.messages, members, members.set_} + queue.NodeSet()
    }

    ghost predicate Valid()
      reads this, queue, members, Parts()
    {
      && queue.Valid() && clock.Valid() && log.Valid() && members.Valid()
      && SlotsIn(outputBuffer[..], slots)
    }

    ghost function View(): Node
      reads this, queue, members, Parts()
      requires Valid()
    {
      Node(queue.View(), slots, sequenceNum, dataCounter, clock.View(), log.View(), phase, self_, id, members.View(),
           lastGossipTs, published, created, writes, accepted, delivered, latest)
    }

    /** The parts, each as it is created. */
    ghost predicate Blank()
      reads this, queue, queue.nodes, clock, clock.records, log, log.messages, members, members.set_, outputBuffer
    {
      && queue.Valid() && clock.Valid() && log.Valid() && members.Valid()
      && queue.View() == [] && clock.View() == Ring([], 0) && log.View() == Ring([], 0) && members.View() == []
      && sequenceNum == 0 && dataCounter == 0 && phase == Initialized && lastGossipTs == 0 && latest == 0
      && published == [] && created == [] && writes == [] && accepted == [] && delivered == []
      && outputBuffer.Length == OUTPUT_BUFFER_SIZE && slots == EmptySlots()
      && forall i :: 0 <= i < outputBuffer.Length ==> outputBuffer[i] == 0
    }

    constructor (self_: Member, id: MemberId)
      ensures Blank() && this.self_ == self_ && this.id == id && queue.nodes == []
      ensures fresh({outputBuffer, queue, clock, clock.records, log, log.messages, members, members.set_})
    {
      hide EmptySlots, EnvelopeQueue.Valid, EnvelopeQueue.View, VectorClock.Valid, VectorClock.View, DataLog.Valid,
           DataLog.View, MemberSet.Valid, MemberSet.View;
      this.self_, this.id := self_, id;
      queue := new EnvelopeQueue();
      clock := new VectorClock();
      log := new DataLog();
      members := new MemberSet();
      var buffer := NewBuffer();
      outputBuffer := buffer;
      sequenceNum, dataCounter, phase, lastGossipTs := 0, 0, Initialized, 0;
      slots := EmptySlots();
      published, created, writes, accepted, delivered, latest := [], [], [], [], [], 0;
    }

    lemma BlankIsInitial()
      requires Blank()
      ensures Valid() && View() == InitialNode(self_, id)
    {
    }

    /** A node that has not joined yet. */
    static method Create(self_: Member, id: MemberId) returns (g: Gossip)
      ensures fresh(g) && fresh(g.Parts()) && g.Valid() && g.View() == InitialNode(self_, id)
    {
      hide Gossip.Blank, Gossip.Valid, Gossip.View;
      g := new Gossip(self_, id);
      g.BlankIsInitial();
    }

    // ----- the steps that touch one part -----

    /** The view, field by field. */
    lemma Fields()
      requires Valid()
      ensures View().phase == phase && View().lastGossipTs == lastGossipTs && View().dataCounter == dataCounter
      ensures View().self == self_ && View().id == id
    {
    }

    /** Only the queue changed. */
    twostate lemma QueueChanged()
      requires old(Valid()) && queue.Valid()
      requires unchanged(this, outputBuffer, clock, clock.records, log, log.messages, members) && unchanged(members.set_)
      ensures Valid() && View() == old(View()).(queue := queue.View())
    {
      hide SlotsIn, EnvelopeQueue.Valid, EnvelopeQueue.View;
      assert outputBuffer[..] == old(outputBuffer[..]);
    }

    lemma QueueOf()
      requires Valid()
      ensures queue.Valid() && View().queue == queue.View()
    {
    }

    method AcquireSlot() returns (slot: SlotIndex)
      requires Valid()
      modifies this, Parts()
      ensures Valid() && Parts() <= old(Parts())
      ensures Acquired(View().queue, slot) == Acquire(old(View()).queue)
      ensures View() == old(View()).(queue := View().queue)
    {
      hide Valid, View, EnvelopeQueue.Valid, EnvelopeQueue.View, Acquire;
      QueueOf();
      queue.Front();
      slot := 0;
      if queue.head != null {
        slot := FindAvailableSlot(queue);
      } else {
        EmptyPool();
      }
      QueueChanged();
    }

    /** Encode into the acquired slot. */
    method EncodeInto(f: Frame, slot: SlotIndex) returns (result: int)
      requires Valid()
      modifies this`slots, outputBuffer
      ensures Valid() && result == if Fits(f.body) then |Encode(f)| else ERR_BUFFER_NOT_ENOUGH
      ensures Fits(f.body) ==> |Encode(f)| <= MESSAGE_MAX_SIZE
      ensures var n := old(View());
        View() == if Fits(f.body) then n.(slots := Stored(n.slots, slot, Encode(f))) else n
    {
      hide Encode, Stored, Fits, SlotsIn, EnvelopeQueue.Valid, EnvelopeQueue.View, ValidRing, Unique;
      result := EncodeSlot(f, slot);
    }

    /** The buffer and its slots only. */
    method EncodeSlot(f: Frame, slot: SlotIndex) returns (result: int)
      requires SlotsIn(outputBuffer[..], slots)
      modifies this`slots, outputBuffer
      ensures SlotsIn(outputBuffer[..], slots) && result == if Fits(f.body) then |Encode(f)| else ERR_BUFFER_NOT_ENOUGH
      ensures Fits(f.body) ==> |Encode(f)| <= MESSAGE_MAX_SIZE
      ensures slots == if Fits(f.body) then Stored(old(slots), slot, Encode(f)) else old(slots)
    {
      hide Encode, Written, Stored, Fits, SlotsIn;
      SlotsLength(outputBuffer[..], slots);
      result := EncodeMessage(f, outputBuffer, slot * MESSAGE_MAX_SIZE);
      if Fits(f.body) {
        WriteInSlot(old(outputBuffer[..]), slots, slot, 0, Encode(f));
        StoredIsWritten(slots, slot, Encode(f));
        slots := Stored(slots, slot, Encode(f));
      }
    }

    static lemma SlotsLength(buffer: Bytes, slots: Slots)
      requires SlotsIn(buffer, slots)
      ensures |buffer| == OUTPUT_BUFFER_SIZE
    {
    }

    method NextNumber(ghost posting: Posting) returns (s: uint32)
      requires Valid()
      modifies this`sequenceNum, this`created
      ensures Valid() && Parts() == old(Parts()) && s == Increment(old(View()).sequenceNum)
      ensures View() == old(View()).(sequenceNum := s, created := old(View()).created + [posting])
    {
      hide SlotsIn, EnvelopeQueue.Valid, EnvelopeQueue.View, ValidRing, Unique;
      sequenceNum := Increment(sequenceNum);
      created := created + [posting];
      s := sequenceNum;
    }

    /** One more envelope for the message in a slot. */
    method EnqueueToOutbound(frame: Frame, slot: SlotIndex, size: DatagramSize, maxAttempts: nat, recipient: Address)
      requires Valid()
      modifies this`sequenceNum, this`created, queue, queue.NodeSet()
      ensures Valid() && fresh(Parts() - old(Parts()))
      ensures var n := old(View());
        var s := Increment(n.sequenceNum);
        View() == n.(queue := n.queue + [Envelope(recipient, slot, size, frame, s, 0, 0, maxAttempts)], sequenceNum := s,
                     created := n.created + [Posting(recipient, frame)])
    {
      hide Valid, View, EnvelopeQueue.Valid, EnvelopeQueue.View;
      var s := NextNumber(Posting(recipient, frame));
      label numbered:
      QueueOf();
      queue.Enqueue(Envelope(recipient, slot, size, frame, s, 0, 0, maxAttempts));
      QueueChanged@numbered();
    }

    /** The addresses a spreading type stands for. */
    method CollectRecipients(spreading: Spreading) returns (r: seq<Address>)
      requires Valid() && EnoughRandom(View().members, spreading)
      ensures Valid() && View() == old(View()) && Parts() == old(Parts())
      ensures r == Recipients(View().members, spreading)
    {
      hide Valid, View, Parts, RandomRecipients;
      match spreading {
        case ToOne(to) => r := [to];
        case ToRandom(random) => r := RandomAddresses(random);
        case ToAll => r := AllAddresses();
      }
    }

    method RandomAddresses(random: seq<nat>) returns (r: seq<Address>)
      requires Valid() && |random| >= |View().members|
      ensures Valid() && View() == old(View()) && Parts() == old(Parts())
      ensures r == RandomRecipients(View().members, random)
    {
      hide SlotsIn, EnvelopeQueue.Valid, EnvelopeQueue.View, ValidRing, Sample;
      var reservoir := new Member[MESSAGE_RUMOR_FACTOR](_ => Member(0, 0, []));
      var n := members.RandomMembers(reservoir, random);
      r := AddressesOf(reservoir, n);
    }

    method AllAddresses() returns (r: seq<Address>)
      requires Valid()
      ensures Valid() && View() == old(View()) && Parts() == old(Parts())
      ensures r == Addresses(View().members)
    {
      hide SlotsIn, EnvelopeQueue.Valid, EnvelopeQueue.View, ValidRing;
      r := AddressesOf(members.set_, members.size);
    }

    static method AddressesOf(ms: array<Member>, n: nat) returns (r: seq<Address>)
      requires n <= ms.Length
      ensures r == Addresses(ms[..n])
    {
      r := [];
      for i := 0 to n
        invariant r == Addresses(ms[..i])
      {
        r := r + [ms[i].address];
      }
    }

    /** Encode a message once and queue it for every recipient: all envelopes share the slot. */
    method EnqueueMessage(frame: Frame, spreading: Spreading) returns (result: int)
      requires Valid() && EnoughRandom(View().members, spreading)
      modifies this, Parts()
      ensures Valid() && fresh(Parts() - old(Parts()))
      ensures var post := Post(frame, Recipients(old(View()).members, spreading));
        View() == PostOne(old(View()), post) && result == PostCode([post])
    {
      hide Encode, Fits, Acquire, Stored, Recipients, SlotsIn, EnvelopeQueue.Valid, EnvelopeQueue.View, ValidRing, Unique,
           Valid, View, PostOne, PostCode, Enqueued, Postings, RandomRecipients;
      ghost var post := Post(frame, Recipients(View().members, spreading));
      ghost var n := View();
      PostedTogether(n, post);
      var slot := AcquireSlot();
      var size := EncodeInto(frame, slot);
      if size < 0 { return ERR_BUFFER_NOT_ENOUGH; }
      var recipients := CollectRecipients(spreading);
      QueueForAll(frame, slot, size, recipients);
      return ERR_NONE;
    }

    /** The three parts of posting: the slot, the bytes in it, the envelopes. */
    static lemma PostedTogether(n: Node, p: Post)
      ensures PostCode([p]) == if Fits(p.frame.body) then ERR_NONE else ERR_BUFFER_NOT_ENOUGH
      ensures var a := Acquire(n.queue);
        if !Fits(p.frame.body) then PostOne(n, p) == n.(queue := a.queue)
        else
          |Encode(p.frame)| <= MESSAGE_MAX_SIZE &&
          var bytes := Encode(p.frame);
          var e := Enqueued(a.queue, n.sequenceNum, p.frame, a.slot, |bytes|, p.recipients);
          PostOne(n, p) == n.(queue := e.queue, sequenceNum := e.seqNum, slots := Stored(n.slots, a.slot, bytes),
                              created := n.created + Postings(p.frame, p.recipients))
    {
      hide Encode, Acquire, Enqueued, Stored;
      assert [p][0] == p;
      if Fits(p.frame.body) { EncodedFits(p.frame); }
    }


    method QueueForAll(frame: Frame, slot: SlotIndex, size: DatagramSize, recipients: seq<Address>)
      requires Valid()
      modifies this`sequenceNum, this`created, queue, queue.NodeSet()
      ensures Valid() && fresh(Parts() - old(Parts()))
      ensures View() == QueuedFor(old(View()), frame, slot, size, recipients)
    {
      hide SlotsIn, EnvelopeQueue.Valid, EnvelopeQueue.View, ValidRing, Unique, Valid, View, QueuedFor;
      ghost var n := View();
      QueuedFirst(n, frame, slot, size, recipients);
      for i := 0 to |recipients|
        invariant Valid() && fresh(Parts() - old(Parts()))
        invariant View() == QueuedFor(n, frame, slot, size, recipients[..i])
      {
        QueuedNext(n, frame, slot, size, recipients, i);
        EnqueueToOutbound(frame, slot, size, MaxAttempts(frame.body), recipients[i]);
      }
      assert recipients[..|recipients|] == recipients;
    }

    /** The node after a message, encoded in a slot, is queued for some recipients. */
    static function QueuedFor(n: Node, frame: Frame, slot: SlotIndex, size: DatagramSize,
                              recipients: seq<Address>): Node {
      var e := Enqueued(n.queue, n.sequenceNum, frame, slot, size, recipients);
      n.(queue := e.queue, sequenceNum := e.seqNum, created := n.created + Postings(frame, recipients))
    }

    static lemma QueuedFirst(n: Node, frame: Frame, slot: SlotIndex, size: DatagramSize, recipients: seq<Address>)
      ensures QueuedFor(n, frame, slot, size, recipients[..0]) == n
    {
    }

    static lemma QueuedNext(n: Node, frame: Frame, slot: SlotIndex, size: DatagramSize, recipients: seq<Address>, i: nat)
      requires i < |recipients|
      ensures var m := QueuedFor(n, frame, slot, size, recipients[..i]);
        var s := Increment(m.sequenceNum);
        QueuedFor(n, frame, slot, size, recipients[..i + 1]) ==
        m.(queue := m.queue + [Envelope(recipients[i], slot, size, frame, s, 0, 0, MaxAttempts(frame.body))],
           sequenceNum := s, created := m.created + [Posting(recipients[i], frame)])
    {
      var rs := recipients[..i + 1];
      assert rs[..i] == recipients[..i] && rs[i] == recipients[i];
      assert Postings(frame, rs) == Postings(frame, rs[..i]) + [Posting(rs[i], frame)];
      hide Postings;
    }

    /** Compare a version with the clock, and take it in if it is newer. */
    method MergeVersion(version: Record) returns (relation: Relation)
      requires Valid()
      modifies clock`size, clock`currentIdx, clock.records
      ensures Valid() && Parts() == old(Parts()) && relation == CompareRecord(old(View()).clock.items, version)
      ensures View() == old(View()).(clock := MergeRecord(old(View()).clock, version))
    {
      hide SlotsIn, EnvelopeQueue.Valid, EnvelopeQueue.View, ValidRing, Unique, MergeRecord;
      relation := clock.CompareWithRecord(version, true);
    }

    method SetOwnVersion(counter: uint32)
      requires Valid()
      modifies clock`size, clock`currentIdx, clock.records
      ensures Valid() && Parts() == old(Parts())
      ensures View() == old(View()).(clock := Put(old(View()).clock, MAX_VECTOR_SIZE, id, counter))
    {
      hide SlotsIn, EnvelopeQueue.Valid, EnvelopeQueue.View, ValidRing, Unique, Put;
      clock.SetById(id, counter);
    }

    method LogData(version: Record, payload: Bytes)
      requires Valid()
      modifies log`size, log`currentIdx, log.messages
      ensures Valid() && Parts() == old(Parts())
      ensures View() == old(View()).(log := Recorded(old(View()).log, version, payload))
    {
      hide SlotsIn, EnvelopeQueue.Valid, EnvelopeQueue.View, ValidRing, Unique, Recorded;
      log.Record(version, payload);
    }

    method PutMembers(ms: seq<Member>)
      requires Valid()
      modifies members, members.set_
      ensures Valid() && fresh(Parts() - old(Parts()))
      ensures View() == old(View()).(members := AddAll(old(View()).members, ms))
    {
      hide SlotsIn, EnvelopeQueue.Valid, EnvelopeQueue.View, EnvelopeQueue.NodeSet, ValidRing, Unique, AddAll;
      members.Put(ms);
    }

    method RemoveAcknowledged(s: uint32)
      requires Valid()
      modifies queue, queue.NodeSet()
      ensures Valid() && Parts() <= old(Parts())
      ensures View() == old(View()).(queue := Acknowledged(old(View()).queue, s))
    {
      hide Valid, View, EnvelopeQueue.Valid, EnvelopeQueue.View, Acknowledged;
      QueueOf();
      queue.Acknowledge(s);
      QueueChanged();
    }

    /** The clock as it is copied into a status message. */
    method CopyClock() returns (copy: seq<Record>)
      requires Valid()
      ensures Valid() && View() == old(View()) && Parts() == old(Parts())
      ensures copy == View().clock.items
    {
      hide SlotsIn, EnvelopeQueue.Valid, EnvelopeQueue.View, ValidRing, Unique;
      var version := new VectorClock();
      version.CopyFrom(clock);
      copy := version.records[..version.size];
    }

    // ----- sending one kind of message -----

    method EnqueueAck(s: uint32, to: Address)
      requires Valid()
      modifies this, Parts()
      ensures Valid() && fresh(Parts() - old(Parts()))
      ensures View() == PostOne(old(View()), Direct(Ack(s), to))
    {
      hide PostOne, Valid, View, PostCode;
      var r := EnqueueMessage(Plain(Ack(s)), ToOne(to));
    }

    /** To one node if an address is given, else to random members. */
    method EnqueueStatus(spreading: Spreading) returns (result: int)
      requires Valid() && EnoughRandom(View().members, spreading)
      modifies this, Parts()
      ensures Valid() && fresh(Parts() - old(Parts()))
      ensures var post := Post(Plain(Status(old(View()).clock.items)), Recipients(old(View()).members, spreading));
        View() == PostOne(old(View()), post) && result == PostCode([post])
    {
      hide PostOne, Valid, View, PostCode, Recipients;
      var copy := CopyClock();
      result := EnqueueMessage(Plain(Status(copy)), spreading);
    }

    /** Messages posted so far, `ps`, then one more. */
    static lemma PostNext(n: Node, ps: seq<Post>, p: Post)
      requires AllFit(ps)
      ensures PostAll(n, ps + [p]) == PostOne(PostAll(n, ps), p)
      ensures AllFit(ps + [p]) <==> Fits(p.frame.body)
      ensures PostCode(ps + [p]) == PostCode([p])
    {
      hide PostOne, Fits;
      assert (ps + [p])[..|ps|] == ps && (ps + [p])[|ps|] == p;
      assert [p][0] == p;
      assert forall i :: 0 <= i < |ps| ==> (ps + [p])[i] == ps[i];
    }

    /** A message that does not fit ends the posting. */
    static lemma {:induction false} PostStops(n: Node, ps: seq<Post>, more: seq<Post>)
      requires !AllFit(ps)
      ensures PostAll(n, ps + more) == PostAll(n, ps) && !AllFit(ps + more)
    {
      hide PostOne, Fits;
      var i :| 0 <= i < |ps| && !Fits(ps[i].frame.body);
      assert (ps + more)[i] == ps[i];
      if more == [] {
        assert ps + more == ps;
      } else {
        var front := ps + more[..|more| - 1];
        assert (ps + more)[..|ps + more| - 1] == front;
        PostStops(n, ps, more[..|more| - 1]);
      }
    }

    /** One more message for `to`, behind the messages `ps` already posted. */
    method EnqueueNext(m: Message, to: Address, ghost n: Node, ghost ps: seq<Post>) returns (result: int)
      requires Valid() && AllFit(ps) && View() == PostAll(n, ps)
      modifies this, Parts()
      ensures Valid() && fresh(Parts() - old(Parts()))
      ensures View() == PostAll(n, ps + [Direct(m, to)]) && View().log == old(View()).log
          && View().members == old(View()).members
      ensures result == (if Fits(m) then ERR_NONE else ERR_BUFFER_NOT_ENOUGH)
      ensures result == PostCode(ps + [Direct(m, to)]) && (AllFit(ps + [Direct(m, to)]) <==> Fits(m))
    {
      hide PostOne, PostAll, Valid, View, Fits, AllFit;
      PostNext(n, ps, Direct(m, to));
      PostFirst(n, Direct(m, to));
      PostOneFrame(View(), Direct(m, to));
      result := EnqueueMessage(Plain(m), ToOne(to));
    }

    method LogSize() returns (n: nat)
      requires Valid()
      ensures Valid() && View() == old(View()) && Parts() == old(Parts())
      ensures n == |View().log.items|
    {
      n := log.size;
    }

    method LogAt(i: nat) returns (entry: Entry<Logged>)
      requires Valid() && i < |View().log.items|
      ensures Valid() && View() == old(View()) && Parts() == old(Parts())
      ensures entry == View().log.items[i]
    {
      entry := log.messages[i];
    }

    static lemma DataStep(items: seq<Entry<Logged>>, version: seq<Record>, i: nat, to: Address, posted: seq<Post>)
      requires i < |items|
      ensures var p := Direct(Data(VersionOf(items[i]), items[i].val.payload), to);
        posted + DirectAll(DataReplies(items, version, i + 1), to) ==
        (posted + DirectAll(DataReplies(items, version, i), to)) +
          if CompareRecord(version, VersionOf(items[i])) == Before then [p] else []
    {
    }

    static lemma DataStart(items: seq<Entry<Logged>>, version: seq<Record>, to: Address, posted: seq<Post>)
      ensures posted + DirectAll(DataReplies(items, version, 0), to) == posted
    {
    }

    /** A message that does not fit, somewhere among the replies, ends the posting of all of them. */
    static lemma {:induction false} DataRest(items: seq<Entry<Logged>>, version: seq<Record>, i: nat, to: Address,
                                             posted: seq<Post>, n: Node, k: nat)
      requires i <= k <= |items| && !AllFit(posted + DirectAll(DataReplies(items, version, i), to))
      ensures var ps := posted + DirectAll(DataReplies(items, version, k), to);
        !AllFit(ps) && PostAll(n, ps) == PostAll(n, posted + DirectAll(DataReplies(items, version, i), to))
    {
      hide CompareRecord, AllFit, PostAll, DirectAll, DataReplies;
      if i < k {
        DataRest(items, version, i, to, posted, n, k - 1);
        DataStep(items, version, k - 1, to, posted);
        var ps := posted + DirectAll(DataReplies(items, version, k - 1), to);
        var more := if CompareRecord(version, VersionOf(items[k - 1])) == Before
          then [Direct(Data(VersionOf(items[k - 1]), items[k - 1].val.payload), to)] else [];
        PostStops(n, ps, more);
      }
    }

    /** Send the logged messages the remote clock is behind on. `posted` are the messages already posted. */
    method EnqueueDataLog(version: seq<Record>, to: Address, ghost n: Node, ghost posted: seq<Post>) returns (result: int)
      requires Valid() && AllFit(posted) && View() == PostAll(n, posted)
      modifies this, Parts()
      ensures Valid() && fresh(Parts() - old(Parts()))
      ensures var items := old(View()).log.items;
        var ps := posted + DirectAll(DataReplies(items, version, |items|), to);
        View() == PostAll(n, ps) && result == PostCode(ps)
    {
      hide PostOne, PostAll, Valid, View, CompareRecord, Fits, AllFit, DirectAll, DataReplies;
      ghost var items := View().log.items;
      ghost var ps := posted;
      DataStart(items, version, to, posted);
      var size := LogSize();
      var i := 0;
      while i < size
        invariant i <= size == |items|
        invariant Valid() && fresh(Parts() - old(Parts())) && View().log.items == items
        invariant ps == posted + DirectAll(DataReplies(items, version, i), to)
        invariant AllFit(ps) && View() == PostAll(n, ps)
      {
        DataStep(items, version, i, to, posted);
        var entry := LogAt(i);
        if CompareRecord(version, VersionOf(entry)) == Before {
          var r := EnqueueNext(Data(VersionOf(entry), entry.val.payload), to, n, ps);
          ps := ps + [Direct(Data(VersionOf(entry), entry.val.payload), to)];
          if r < 0 {
            DataRest(items, version, i + 1, to, posted, n, |items|);
            return r;
          }
        }
        i := i + 1;
      }
      return ERR_NONE;
    }

    method EnqueueWelcome(helloSeq: uint32, to: Address)
      requires Valid()
      modifies this, Parts()
      ensures Valid() && fresh(Parts() - old(Parts()))
      ensures View() == PostOne(old(View()), Direct(Welcome(helloSeq, old(View()).self), to))
    {
      hide PostOne, Valid, View, PostCode;
      Fields();
      var r := EnqueueMessage(Plain(Welcome(helloSeq, self_)), ToOne(to));
    }

    method EnqueueHello(to: Address) returns (result: int)
      requires Valid()
      modifies this, Parts()
      ensures Valid() && fresh(Parts() - old(Parts()))
      ensures var post := Direct(Hello(old(View()).self), to);
        View() == PostOne(old(View()), post) && result == PostCode([post])
    {
      hide PostOne, Valid, View, PostCode;
      Fields();
      result := EnqueueMessage(Plain(Hello(self_)), ToOne(to));
    }

    method MembersSize() returns (n: nat)
      requires Valid()
      ensures Valid() && View() == old(View()) && Parts() == old(Parts())
      ensures n == |View().members|
    {
      n := members.size;
    }

    method MemberAt(i: nat) returns (m: Member)
      requires Valid() && i < |View().members|
      ensures Valid() && View() == old(View()) && Parts() == old(Parts())
      ensures m == View().members[i]
    {
      m := members.set_[i];
    }

    /** The members from `i` on, at most as many as one message takes. */
    method NextChunk(i: nat) returns (chunk: seq<Member>, j: nat)
      requires Valid() && i < |View().members|
      ensures Valid() && View() == old(View()) && Parts() == old(Parts())
      ensures j == ChunkEnd(View().members, i) && chunk == View().members[i..j]
    {
      hide Valid, View, Parts;
      ghost var ms := View().members;
      var size := MembersSize();
      var membersNum := if size > MEMBER_LIST_SYNC_SIZE then MEMBER_LIST_SYNC_SIZE else size;
      chunk, j := [], i;
      while |chunk| < membersNum && j < size
        invariant i <= j <= size == |ms| && chunk == ms[i..j] && |chunk| <= membersNum
        invariant Valid() && View() == old(View()) && Parts() == old(Parts())
      {
        var m := MemberAt(j);
        chunk := chunk + [m];
        j := j + 1;
      }
    }

    /** Send the whole member set, split into messages. `posted` are the messages already posted. */
    method EnqueueMemberList(to: Address, ghost n: Node, ghost posted: seq<Post>)
      requires Valid() && AllFit(posted) && View() == PostAll(n, posted)
      modifies this, Parts()
      ensures Valid() && fresh(Parts() - old(Parts()))
      ensures var ps := posted + ChunkPosts(Chunks(old(View()).members, 0), to); AllFit(ps) && View() == PostAll(n, ps)
    {
      hide PostOne, PostAll, Valid, View, Fits, AllFit, Chunks, ChunkPosts, PostCode, ChunkEnd;
      ghost var ms := View().members;
      ghost var ps := posted;
      var size := MembersSize();
      var i := 0;
      while i < size
        invariant i <= size == |ms|
        invariant Valid() && fresh(Parts() - old(Parts())) && View().members == ms
        invariant AllFit(ps) && View() == PostAll(n, ps)
        invariant ps + ChunkPosts(Chunks(ms, i), to) == posted + ChunkPosts(Chunks(ms, 0), to)
      {
        ChunkStep(ms, i, to, ps);
        var chunk, j := NextChunk(i);
        var r := EnqueueNext(MemberList(chunk), to, n, ps);
        ps := ps + [Direct(MemberList(chunk), to)];
        i := j;
      }
      ChunkStop(ms, to, ps);
    }

    static lemma ChunkStep(ms: seq<Member>, i: nat, to: Address, ps: seq<Post>)
      requires i < |ms|
      ensures var j := ChunkEnd(ms, i);
        && Fits(MemberList(ms[i..j]))
        && ps + ChunkPosts(Chunks(ms, i), to) == (ps + [Direct(MemberList(ms[i..j]), to)]) + ChunkPosts(Chunks(ms, j), to)
    {
      hide Fits, Flatten, ChunkPosts, ChunkEnd, Direct;
      var j := ChunkEnd(ms, i);
      FirstChunkFits(ms, i);
      ChunkPostsFirst(ms[i..j], Chunks(ms, j), to);
      assert Chunks(ms, i) == [ms[i..j]] + Chunks(ms, j);
    }

    static lemma FirstChunkFits(ms: seq<Member>, i: nat)
      requires i < |ms|
      ensures Fits(MemberList(ms[i..ChunkEnd(ms, i)]))
    {
    }

    static lemma ChunkPostsFirst(chunk: seq<Member>, rest: seq<seq<Member>>, to: Address)
      ensures ChunkPosts([chunk] + rest, to) == [Direct(MemberList(chunk), to)] + ChunkPosts(rest, to)
    {
    }

    static lemma ChunkStop(ms: seq<Member>, to: Address, ps: seq<Post>)
      ensures ps + ChunkPosts(Chunks(ms, |ms|), to) == ps
    {
    }

    // ----- handling one message -----

    method SetPhase(p: Phase)
      requires Valid()
      modifies this`phase
      ensures Valid() && Parts() == old(Parts()) && View() == old(View()).(phase := p)
    {
      hide SlotsIn, EnvelopeQueue.Valid, EnvelopeQueue.View, ValidRing, Unique;
      phase := p;
    }

    /** A welcome, and the members known so far. */
    method WelcomeNewcomer(helloSeq: uint32, src: Address)
      requires Valid()
      modifies this, Parts()
      ensures Valid() && fresh(Parts() - old(Parts()))
      ensures var n := old(View());
        var ps := [Direct(Welcome(helloSeq, n.self), src)] + ChunkPosts(Chunks(n.members, 0), src);
        AllFit(ps) && View() == PostAll(n, ps)
    {
      hide PostOne, PostAll, Valid, View, Fits, AllFit, Chunks, ChunkPosts;
      ghost var n := View();
      ghost var ps := [Direct(Welcome(helloSeq, n.self), src)];
      PostFirst(n, ps[0]);
      PostAllFrame(n, ps);
      EnqueueWelcome(helloSeq, src);
      EnqueueMemberList(src, n, ps);
    }

    method HandleHello(src: Address, f: Frame) returns (result: int)
      requires Valid() && f.body.Hello?
      modifies this, Parts()
      ensures Valid() && fresh(Parts() - old(Parts()))
      ensures var n := old(View());
        View() == PostAll(n, HelloPosts(n, src, f)).(members := AddAll(n.members, [f.body.member])) && result == ERR_NONE
    {
      hide PostOne, PostAll, Valid, View, Fits, AllFit, Chunks, ChunkPosts, PostCode, AddAll;
      ghost var n := View();
      ghost var ps := [Direct(Welcome(f.seqNum, n.self), src)];
      WelcomeNewcomer(f.seqNum, src);
      ps := ps + ChunkPosts(Chunks(n.members, 0), src);
      PostAllFrame(n, ps);
      ghost var p := Post(Plain(MemberList([f.body.member])), Addresses(n.members));
      PostNext(n, ps, p);
      var r := EnqueueMessage(Plain(MemberList([f.body.member])), ToAll);
      PostAllFrame(n, ps + [p]);
      PutMembers([f.body.member]);
      return ERR_NONE;
    }

    method HandleWelcome(f: Frame) returns (result: int)
      requires Valid() && f.body.Welcome?
      modifies this, Parts()
      ensures Valid() && fresh(Parts() - old(Parts()))
      ensures var n := old(View());
        View() == n.(phase := Connected, members := AddAll(n.members, [f.body.member]),
                     queue := Acknowledged(n.queue, f.body.helloSeq)) && result == ERR_NONE
    {
      hide Valid, View, AddAll, Acknowledged;
      SetPhase(Connected);
      PutMembers([f.body.member]);
      RemoveAcknowledged(f.body.helloSeq);
      return ERR_NONE;
    }

    method HandleMemberList(src: Address, f: Frame) returns (result: int)
      requires Valid() && f.body.MemberList?
      modifies this, Parts()
      ensures Valid() && fresh(Parts() - old(Parts()))
      ensures var n := old(View());
        && View() == PostAll(n.(members := AddAll(n.members, f.body.members)), [Direct(Ack(f.seqNum), src)])
        && result == ERR_NONE
    {
      hide Valid, View, AddAll, PostOne, PostAll;
      PutMembers(f.body.members);
      PostFirst(View(), Direct(Ack(f.seqNum), src));
      EnqueueAck(f.seqNum, src);
      return ERR_NONE;
    }

    /** Log a version that is new, and hand it to the data receiver. */
    method Accept(version: Record, payload: Bytes)
      requires Valid()
      modifies this`accepted, this`delivered, log`size, log`currentIdx, log.messages
      ensures Valid() && Parts() == old(Parts())
      ensures var n := old(View());
        View() == n.(log := Recorded(n.log, version, payload), accepted := n.accepted + [Item(version, payload)],
                     delivered := n.delivered + [Item(version, payload)])
    {
      hide SlotsIn, EnvelopeQueue.Valid, EnvelopeQueue.View, ValidRing, Unique, Recorded;
      log.Record(version, payload);
      accepted := accepted + [Item(version, payload)];
      delivered := delivered + [Item(version, payload)];
    }

    /** Take in a version that is newer than what the clock holds. */
    method AcceptIfNew(version: Record, payload: Bytes) returns (relation: Relation)
      requires Valid()
      modifies this`accepted, this`delivered
      modifies clock`size, clock`currentIdx, clock.records, log`size, log`currentIdx, log.messages
      ensures Valid() && Parts() == old(Parts()) && relation == CompareRecord(old(View()).clock.items, version)
      ensures View() == if relation == Before then Accepting(old(View()), version, payload) else old(View())
    {
      hide Valid, View, CompareRecord, Put, Recorded;
      relation := MergeVersion(version);
      if relation == Before { Accept(version, payload); }
    }

    method HandleData(src: Address, f: Frame, random: seq<nat>) returns (result: int)
      requires Valid() && f.body.Data? && |random| >= |View().members|
      modifies this, Parts()
      ensures Valid() && fresh(Parts() - old(Parts()))
      ensures var o := Nodes.HandleData(old(View()), src, f, random); View() == o.node && result == o.code
    {
      hide Valid, View, PostOne, PostAll, PostCode, CompareRecord, MergeRecord, Recorded, RandomRecipients,
           Nodes.HandleData;
      ghost var n := View();
      DataOutcome(n, src, f, random);
      EnqueueAck(f.seqNum, src);
      var relation := AcceptIfNew(f.body.version, f.body.payload);
      result := ERR_NONE;
      if relation == Before { result := EnqueueMessage(f, ToRandom(random)); }
    }

    /** The acknowledgement first, then the version taken in, then the rumour. */
    static lemma DataOutcome(n: Node, src: Address, f: Frame, random: seq<nat>)
      requires f.body.Data? && |random| >= |n.members|
      ensures var o := Nodes.HandleData(n, src, f, random);
        var m := PostOne(n, Direct(Ack(f.seqNum), src));
        && m.members == n.members && m.clock == n.clock
        && if CompareRecord(n.clock.items, f.body.version) != Before then o == Outcome(m, ERR_NONE)
           else
             var p := Post(f, RandomRecipients(n.members, random));
             o == Outcome(PostOne(Accepting(m, f.body.version, f.body.payload), p), PostCode([p]))
    {
      hide Fits, PostAll, PostOne, AllFit, PostCode, CompareRecord, Recorded, RandomRecipients;
      var ack := Direct(Ack(f.seqNum), src);
      PostFirst(n, ack);
      PostOneFrame(n, ack);
      AckCode(f.seqNum, src);
      var a := Accepting(n, f.body.version, f.body.payload);
      AcceptingLater(n, ack, f.body.version, f.body.payload);
      var p := Post(f, RandomRecipients(n.members, random));
      assert [ack] + [p] == [ack, p];
      PostNext(a, [ack], p);
    }

    /** Accepting and posting can change places. */
    static lemma AcceptingLater(n: Node, p: Post, version: Record, payload: Bytes)
      requires Fits(p.frame.body)
      ensures PostAll(Accepting(n, version, payload), [p]) == Accepting(PostOne(n, p), version, payload)
    {
    }

    static lemma AckCode(s: uint32, to: Address)
      ensures PostCode([Direct(Ack(s), to)]) == ERR_NONE
    {
    }

    /** Compare a remote clock with the node's own. */
    method CompareWith(version: seq<Record>) returns (relation: Relation)
      requires Valid() && |version| <= MAX_VECTOR_SIZE
      modifies clock`size, clock`currentIdx, clock.records
      ensures Valid() && Parts() == old(Parts()) && View() == old(View())
      ensures relation == Compare(View().clock.items, version)
    {
      hide SlotsIn, EnvelopeQueue.Valid, EnvelopeQueue.View, ValidRing, Unique, Compare, Merge;
      relation := clock.CompareClocks(version, false);
    }

    method HandleStatus(src: Address, f: Frame) returns (result: int)
      requires Valid() && f.body.Status? && |f.body.clock| <= MAX_VECTOR_SIZE
      modifies this, Parts()
      ensures Valid() && fresh(Parts() - old(Parts()))
      ensures var n := old(View());
        var ps := [Direct(Ack(f.seqNum), src)] + DirectAll(StatusReplies(n.clock, n.log, f.body.clock), src);
        View() == PostAll(n, ps) && result == PostCode(ps)
    {
      hide Valid, View, PostOne, PostAll, PostCode, Compare, StatusReplies, DirectAll, Fits, AllFit;
      ghost var n := View();
      ghost var ps := [Direct(Ack(f.seqNum), src)];
      PostFirst(n, ps[0]);
      PostOneFrame(n, ps[0]);
      EnqueueAck(f.seqNum, src);
      var relation := CompareWith(f.body.clock);
      result := AnswerStatus(relation, f.body.clock, src, n, ps);
    }

    /** Send what the remote clock is behind on, ask for what this node is behind on. */
    method AnswerStatus(relation: Relation, version: seq<Record>, src: Address, ghost n: Node, ghost posted: seq<Post>)
      returns (result: int)
      requires Valid() && AllFit(posted) && View() == PostAll(n, posted)
      requires relation == Compare(n.clock.items, version)
      modifies this, Parts()
      ensures Valid() && fresh(Parts() - old(Parts()))
      ensures var ps := posted + DirectAll(StatusReplies(n.clock, n.log, version), src);
        View() == PostAll(n, ps) && result == PostCode(ps)
    {
      hide Valid, View, PostOne, PostAll, PostCode, Compare, StatusReplies, DataReplies, DirectAll, Fits, AllFit;
      StatusPosts(n, version, src, posted);
      PostAllFrame(n, posted);
      Posted(posted);
      ghost var status := Direct(Status(n.clock.items), src);
      result := ERR_NONE;
      if relation == After {
        result := EnqueueDataLog(version, src, n, posted);
      } else if relation == Before {
        PostNext(n, posted, status);
        result := EnqueueStatus(ToOne(src));
      } else if relation == Conflict {
        result := EnqueueDataLog(version, src, n, posted);
        ghost var ps := posted + DirectAll(DataReplies(n.log.items, version, |n.log.items|), src);
        PostAllFrame(n, ps);
        StatusLast(n, ps, status);
        if result >= 0 { result := EnqueueStatus(ToOne(src)); }
      }
    }

    static lemma Posted(ps: seq<Post>)
      ensures AllFit(ps) ==> PostCode(ps) == ERR_NONE
    {
    }

    /** The replies of each outcome as messages posted behind `ps`. */
    static lemma StatusPosts(n: Node, version: seq<Record>, to: Address, ps: seq<Post>)
      ensures var posts := ps + DirectAll(StatusReplies(n.clock, n.log, version), to);
        var data := DirectAll(DataReplies(n.log.items, version, |n.log.items|), to);
        match Compare(n.clock.items, version)
        case After => posts == ps + data
        case Before => posts == ps + [Direct(Status(n.clock.items), to)]
        case Conflict => posts == (ps + data) + [Direct(Status(n.clock.items), to)]
        case Equal => posts == ps
    {
      hide Compare, DataReplies;
    }

    static lemma StatusLast(n: Node, ps: seq<Post>, p: Post)
      ensures PostCode(ps) < 0 ==> PostAll(n, ps + [p]) == PostAll(n, ps) && PostCode(ps + [p]) == PostCode(ps)
      ensures PostCode(ps) >= 0 ==>
                PostAll(n, ps + [p]) == PostOne(PostAll(n, ps), p) && PostCode(ps + [p]) == PostCode([p])
    {
      hide PostOne, Fits, AllFit, PostAll;
      if AllFit(ps) { PostNext(n, ps, p); } else { PostStops(n, ps, [p]); }
    }

    method HandleMessage(src: Address, f: Frame, random: seq<nat>) returns (result: int)
      requires Valid() && |random| >= |View().members|
      requires f.body.Status? ==> |f.body.clock| <= MAX_VECTOR_SIZE
      modifies this, Parts()
      ensures Valid() && fresh(Parts() - old(Parts()))
      ensures var o := Handle(old(View()), src, f, random); View() == o.node && result == o.code
    {
      hide Valid, View, PostAll, PostCode, AddAll, Acknowledged, HelloPosts, StatusReplies, DirectAll, Nodes.HandleData;
      Fields();
      if f.body.Welcome? {
        result := HandleWelcome(f);
      } else if phase != Connected {
        return ERR_BAD_STATE;
      } else {
        match f.body {
          case Hello(_) => result := HandleHello(src, f);
          case MemberList(_) => result := HandleMemberList(src, f);
          case Data(_, _) => result := HandleData(src, f, random);
          case Ack(k) =>
            RemoveAcknowledged(k);
            result := ERR_NONE;
          case Status(_) => result := HandleStatus(src, f);
        }
      }
    }

    /** Handle one datagram read from the socket. */
    method ProcessReceive(src: Address, datagram: Bytes, random: seq<nat>) returns (result: int)
      requires Valid() && |random| >= |View().members|
      modifies this, Parts()
      ensures Valid() && fresh(Parts() - old(Parts()))
      ensures var o := Receive(old(View()), src, datagram, random); View() == o.node && result == o.code
    {
      hide Valid, View, Handle, DecodeSized;
      Fields();
      if phase == Initialized { return ERR_BAD_STATE; }
      if |datagram| == 0 { return ERR_READ_FAILED; }
      if |datagram| < HEADER_SIZE || !(HELLO <= datagram[5] <= STATUS) { return ERR_INVALID_MESSAGE; }
      if datagram[5] != WELCOME && phase != Connected { return ERR_BAD_STATE; }
      var decoded := DecodeMessage(datagram[5], datagram);
      match decoded {
        case Bad(code) => result := code;
        case Ok(r) =>
          DecodedClockFits(datagram[5], datagram);
          result := HandleMessage(src, r.value, random);
      }
    }

    static lemma DecodedClockFits(kind: byte, b: Bytes)
      ensures DecodeAs(kind, b).Ok? && DecodeAs(kind, b).value.body.Status? ==>
                |DecodeAs(kind, b).value.body.clock| <= MAX_VECTOR_SIZE
    {
      hide ReadMember, ReadRecords, ReadMembers, ValidPayload;
      if |b| >= HEADER_SIZE + 2 {
        var n := Read16(b, HEADER_SIZE);
        if |b| >= HEADER_SIZE + 2 + VECTOR_RECORD_SIZE * n { RecordsCount(b, HEADER_SIZE + 2, n, []); }
      }
    }

    static lemma {:induction false} RecordsCount(b: Bytes, at: nat, n: nat, got: seq<Record>)
      requires at + VECTOR_RECORD_SIZE * n <= |b|
      ensures |ReadRecords(b, at, n, got)| == |got| + n
      decreases n
    {
      hide ReadRecord;
      if n > 0 { RecordsCount(b, at + VECTOR_RECORD_SIZE, n - 1, got + [ReadRecord(b, at)]); }
    }

    // ----- the other entry points -----

    method Join(seeds: seq<Address>) returns (result: int)
      requires Valid()
      modifies this, Parts()
      ensures Valid() && fresh(Parts() - old(Parts()))
      ensures var o := Nodes.Join(old(View()), seeds); View() == o.node && result == o.code
    {
      hide Valid, View, PostAll, PostOne, PostCode, HelloToAll;
      ghost var n := View();
      Fields();
      if phase != Initialized { return ERR_BAD_STATE; }
      if |seeds| == 0 {
        SetPhase(Connected);
        return ERR_NONE;
      }
      NoHellos(n, seeds);
      for i := 0 to |seeds|
        invariant Valid() && fresh(Parts() - old(Parts()))
        invariant View() == PostAll(n, HelloToAll(n.self, seeds[..i]))
      {
        HelloNext(n, seeds, i);
        PostAllFrame(n, HelloToAll(n.self, seeds[..i]));
        var r := EnqueueHello(seeds[i]);
      }
      assert seeds[..|seeds|] == seeds;
      SetPhase(Joining);
      return ERR_NONE;
    }

    static lemma NoHellos(n: Node, seeds: seq<Address>)
      ensures PostAll(n, HelloToAll(n.self, seeds[..0])) == n
    {
    }

    static lemma HelloNext(n: Node, seeds: seq<Address>, i: nat)
      requires i < |seeds|
      ensures PostAll(n, HelloToAll(n.self, seeds[..i + 1])) ==
              PostOne(PostAll(n, HelloToAll(n.self, seeds[..i])), Direct(Hello(n.self), seeds[i]))
    {
      hide PostOne, PostAll, AllFit;
      var ps := HelloToAll(n.self, seeds[..i]);
      assert HelloToAll(n.self, seeds[..i + 1]) == ps + [Direct(Hello(n.self), seeds[i])];
      PostNext(n, ps, Direct(Hello(n.self), seeds[i]));
    }

    /** Number the node's own next version. */
    method CountVersion(data: Bytes) returns (version: Record)
      requires Valid()
      modifies this`dataCounter, this`published, this`accepted
      ensures Valid() && Parts() == old(Parts())
      ensures var n := old(View());
        && version == Entry(n.id, Increment(n.dataCounter))
        && View() == n.(dataCounter := version.val, published := n.published + [data],
                        accepted := n.accepted + [Item(version, data)])
    {
      hide SlotsIn, EnvelopeQueue.Valid, EnvelopeQueue.View, ValidRing, Unique;
      dataCounter := Increment(dataCounter);
      version := Entry(id, dataCounter);
      published := published + [data];
      accepted := accepted + [Item(version, data)];
    }

    /** Enter the node's own next version in the clock and the log. */
    method Publish(data: Bytes) returns (version: Record)
      requires Valid()
      modifies this`dataCounter, this`published, this`accepted
      modifies clock`size, clock`currentIdx, clock.records, log`size, log`currentIdx, log.messages
      ensures Valid() && Parts() == old(Parts()) && version == Entry(old(View()).id, Increment(old(View()).dataCounter))
      ensures View() == Publishing(old(View()), data)
    {
      hide Valid, View, Put, Recorded;
      version := CountVersion(data);
      Fields();
      SetOwnVersion(version.val);
      LogData(version, data);
    }

    method SendData(data: Bytes, random: seq<nat>) returns (result: int)
      requires Valid() && |random| >= |View().members|
      modifies this, Parts()
      ensures Valid() && fresh(Parts() - old(Parts()))
      ensures var o := Nodes.SendData(old(View()), data, random); View() == o.node && result == o.code
    {
      hide Valid, View, PostAll, PostOne, PostCode, Put, Recorded, RandomRecipients;
      Fields();
      if phase != Connected { return ERR_BAD_STATE; }
      var version := Publish(data);
      PostFirst(View(), Post(Plain(Data(version, data)), RandomRecipients(View().members, random)));
      result := EnqueueMessage(Plain(Data(version, data)), ToRandom(random));
    }

    method SetLastGossip(now: nat)
      requires Valid()
      modifies this`lastGossipTs
      ensures Valid() && Parts() == old(Parts()) && View() == old(View()).(lastGossipTs := now)
    {
      hide SlotsIn, EnvelopeQueue.Valid, EnvelopeQueue.View, ValidRing, Unique;
      lastGossipTs := now;
    }

    /** The time to wait before the next tick, after gossiping the clock if the interval is over. */
    method Tick(now: nat, random: seq<nat>) returns (result: int)
      requires Valid() && |random| >= |View().members|
      modifies this, Parts()
      ensures Valid() && fresh(Parts() - old(Parts()))
      ensures var o := Nodes.Tick(old(View()), now, random); View() == o.node && result == o.code
    {
      hide Valid, View, PostAll, PostOne, RandomRecipients, Fits, AllFit;
      Fields();
      if phase != Connected { return GOSSIP_TICK_INTERVAL; }
      var nextGossipTs := lastGossipTs + GOSSIP_TICK_INTERVAL;
      if nextGossipTs > now { return nextGossipTs - now; }
      ghost var p := Post(Plain(Status(View().clock.items)), RandomRecipients(View().members, random));
      PostFirst(View(), p);
      result := EnqueueStatus(ToRandom(random));
      if result < 0 { return; }
      SetLastGossip(now);
      return GOSSIP_TICK_INTERVAL;
    }

    // ----- sending what is due -----

    /** The node at position `i` of the list, or the end. */
    ghost predicate Stands(node: EnvelopeNode?, i: nat)
      reads queue
    {
      i <= |queue.nodes| && node == if i == |queue.nodes| then null else queue.nodes[i]
    }

    lemma StandsAt(node: EnvelopeNode?, i: nat)
      requires Valid() && Stands(node, i)
      ensures i <= |View().queue| && (node == null <==> i == |View().queue|)
      ensures node != null ==> node.env == View().queue[i] && node in queue.NodeSet() && Stands(node.next, i + 1)
    {
    }

    lemma Starts()
      requires Valid()
      ensures Stands(queue.head, 0)
    {
    }

    method RemoveAt(node: EnvelopeNode, ghost i: nat) returns (next: EnvelopeNode?)
      requires Valid() && Stands(node, i) && i < |View().queue|
      modifies queue, queue.NodeSet()
      ensures Valid() && Parts() <= old(Parts()) && Stands(next, i)
      ensures View() == old(View()).(queue := Without(old(View()).queue, i))
    {
      hide Valid, View, EnvelopeQueue.Valid, EnvelopeQueue.View, Without;
      StandsAt(node, i);
      QueueOf();
      EnvelopeQueue.WithoutAt(queue.nodes, i);
      next := node.next;
      queue.Remove(node, i);
      QueueChanged();
    }

    method UpdateAt(node: EnvelopeNode, ghost i: nat, env: Envelope)
      requires Valid() && Stands(node, i) && i < |View().queue|
      modifies node`env
      ensures Valid() && Parts() == old(Parts()) && Stands(node, i)
      ensures View() == old(View()).(queue := old(View()).queue[i := env])
    {
      hide Valid, View, EnvelopeQueue.Valid, EnvelopeQueue.View;
      QueueOf();
      queue.Update(node, i, env);
      QueueChanged();
    }

    method DropFollowersAt(node: EnvelopeNode, ghost i: nat) returns (next: EnvelopeNode?)
      requires Valid() && Stands(node, i) && i < |View().queue|
      modifies queue, queue.NodeSet()
      ensures Valid() && Parts() <= old(Parts()) && Stands(node, i) && Stands(next, i + 1)
      ensures View() == old(View()).(queue := WithoutFollowers(old(View()).queue, i))
    {
      hide Valid, View, EnvelopeQueue.Valid, EnvelopeQueue.View, WithoutFollowers;
      QueueOf();
      next := DropFollowers(queue, node, i);
      QueueChanged();
    }

    method ForgetMember(addr: Address)
      requires Valid()
      modifies members`size, members.set_
      ensures Valid() && Parts() == old(Parts())
      ensures View() == old(View()).(members := RemoveByAddress(old(View()).members, addr))
    {
      hide SlotsIn, EnvelopeQueue.Valid, EnvelopeQueue.View, ValidRing, Unique, RemoveByAddress, DropsFirst;
      var found := members.RemoveByAddr(addr);
    }

    method PatchSlot(env: Envelope)
      requires Valid()
      modifies this`slots, outputBuffer
      ensures Valid() && Parts() == old(Parts())
      ensures View() == old(View()).(slots := Patched(old(View()).slots, env))
    {
      hide Written, SlotsIn, EnvelopeQueue.Valid, EnvelopeQueue.View, ValidRing, Unique, Patched, Bytes32;
      SlotsLength(outputBuffer[..], slots);
      WriteInSlot(outputBuffer[..], slots, env.slot, SEQ_OFFSET, Bytes32(env.seqNum));
      PatchIsWritten(slots, env);
      CopyBytes(outputBuffer, env.slot * MESSAGE_MAX_SIZE + SEQ_OFFSET, Bytes32(env.seqNum));
      slots := Patched(slots, env);
    }

    /** The datagram handed to the socket, as the trace records it. */
    ghost method Trace(w: Write)
      requires Valid()
      modifies this`writes
      ensures Valid() && Parts() == old(Parts()) && View() == old(View()).(writes := old(View()).writes + [w])
    {
      hide SlotsIn, EnvelopeQueue.Valid, EnvelopeQueue.View, ValidRing, Unique;
      writes := writes + [w];
    }

    /** The envelope at position `i` is out of attempts. */
    method ExpireAt(node: EnvelopeNode, ghost i: nat) returns (next: EnvelopeNode?)
      requires Valid() && Stands(node, i) && i < |View().queue|
      modifies this, Parts()
      ensures Valid() && Parts() <= old(Parts()) && Stands(next, i) && i <= |View().queue|
      ensures var n := old(View());
        CursorOf(View(), i) == Expire(CursorOf(n, i)) && View() == PassView(n, CursorOf(View(), i))
    {
      hide Valid, View, Stands, Cut, Without, SameRecipientEnd, RemoveByAddress;
      ghost var n := View();
      ExpireView(n, i);
      StandsAt(node, i);
      if node.env.maxAttempts > 1 {
        ForgetMember(node.env.recipient);
        next := DropFollowersAt(node, i);
      }
      next := RemoveAt(node, i);
    }

    /** Send the envelope at position `i`; `ok` is what the socket answers. */
    method TransmitAt(node: EnvelopeNode, ghost i: nat, now: nat, ok: bool)
      returns (next: EnvelopeNode?, ghost after: nat)
      requires Valid() && Stands(node, i) && i < |View().queue|
      modifies this, Parts()
      ensures Valid() && Parts() <= old(Parts()) && Stands(next, after) && after <= |View().queue|
      ensures var n := old(View());
        && CursorOf(View(), after).(failed := !ok) == Transmit(CursorOf(n, i), now, ok)
        && View() == PassView(n, CursorOf(View(), after))
    {
      hide Valid, View, Stands, Patched, Without;
      ghost var n := View();
      TransmitView(n, i, now, ok);
      StandsAt(node, i);
      var e := node.env;
      PatchSlot(e);
      next, after := node, i;
      if ok {
        Trace(Write(e.seqNum, e.attempts, now, e.recipient, View().slots[e.slot][..e.size]));
        UpdateAt(node, i, Attempted(e, now));
        StandsAt(node, i);
        next, after := node.next, i + 1;
        if e.maxAttempts <= 1 {
          next := RemoveAt(node, i);
          after := i;
        }
      }
    }

    /** Send every envelope that is due: the number of datagrams sent, or the error of the write that failed. */
    method ProcessSend(times: seq<nat>, budget: nat) returns (result: int)
      requires Valid() && |times| >= |View().queue|
      modifies this, Parts()
      ensures Valid() && Parts() <= old(Parts())
      ensures var o := Nodes.ProcessSend(old(View()), times, budget); View() == o.node && result == o.code
    {
      hide Valid, View, Stands, Pass, Expire, Transmit, PassView, CursorOf, Along, Nodes.ProcessSend;
      ghost var n := View();
      SendOutcome(n, times, budget);
      Fields();
      if phase == Initialized { return ERR_BAD_STATE; }
      var head := queue.head;
      Starts();
      ghost var i := 0;
      var k, left, sent := 0, budget, 0;
      while head != null
        invariant Valid() && Parts() <= old(Parts()) && Stands(head, i) && k <= |times|
        invariant Along(n, View(), i, times, budget, k, left, sent)
        decreases |View().queue| - i
      {
        ghost var m := View();
        StandsAt(head, i);
        AlongAt(n, m, i, times, budget, k, left, sent);
        if head.env.attempts >= head.env.maxAttempts {
          head := ExpireAt(head, i);
          AlongExpire(n, m, View(), i, times, budget, k, left, sent);
          continue;
        }
        var now := times[k];
        k := k + 1;
        if head.env.attempts != 0 && head.env.attemptTs + MESSAGE_RETRY_INTERVAL > now {
          AlongSkip(n, m, i, times, budget, k - 1, left, sent);
          head := head.next;
          i := i + 1;
          continue;
        }
        ghost var after;
        head, after := TransmitAt(head, i, now, left > 0);
        AlongTransmit(n, m, View(), i, after, times, budget, k - 1, left, sent);
        i := after;
        if left == 0 { return ERR_WRITE_FAILED; }
        left := left - 1;
        sent := sent + 1;
      }
      StandsAt(head, i);
      AlongEnd(n, View(), i, times, budget, k, left, sent);
      return sent;
    }
  }

  /** The traversal of a pass at position `i`. */
  function CursorOf(n: Node, i: nat): Cursor
    requires i <= |n.queue|
  {
    Cursor(n.queue[..i], n.queue[i..], n.slots, n.members, n.writes, false)
  }

  /** Everything a sending pass may change. */
  function PassView(n: Node, c: Cursor): Node {
    n.(queue := c.Queue(), slots := c.slots, members := c.members, writes := c.writes)
  }

  lemma ExpireView(n: Node, i: nat)
    requires i < |n.queue|
    ensures var q, e := n.queue, n.queue[i];
      var j := if e.maxAttempts > 1 then SameRecipientEnd(q, i + 1, e.recipient) else i + 1;
      var n' := n.(queue := if e.maxAttempts > 1 then Without(Cut(q, i + 1, j), i) else Without(q, i),
                   members := if e.maxAttempts > 1 then RemoveByAddress(n.members, e.recipient) else n.members);
      && i <= |n'.queue| && CursorOf(n', i) == Expire(CursorOf(n, i)) && n' == PassView(n, CursorOf(n', i))
  {
    var q, e := n.queue, n.queue[i];
    hide RemoveByAddress, SameRecipientEnd;
    SameRecipientShift(q, i, 1, e.recipient);
    var j := if e.maxAttempts > 1 then SameRecipientEnd(q, i + 1, e.recipient) else i + 1;
    var r := Without(Cut(q, i + 1, j), i);
    CutNothing(q, i + 1);
    assert r[..i] == q[..i] && r[i..] == q[i..][j - i..] && r == r[..i] + r[i..];
  }

  lemma TransmitView(n: Node, i: nat, now: nat, ok: bool)
    requires i < |n.queue|
    ensures var q, e := n.queue, n.queue[i];
      var slots := Patched(n.slots, e);
      var e' := Attempted(e, now);
      var n' := if !ok then n.(slots := slots)
                else n.(slots := slots,
                        writes := n.writes + [Write(e.seqNum, e.attempts, now, e.recipient, slots[e.slot][..e.size])],
                        queue := if e.maxAttempts <= 1 then Without(q[i := e'], i) else q[i := e']);
      var after := if ok && e.maxAttempts > 1 then i + 1 else i;
      && after <= |n'.queue|
      && CursorOf(n', after).(failed := !ok) == Transmit(CursorOf(n, i), now, ok)
      && n' == PassView(n, CursorOf(n', after))
  {
  }

  /** A pass over `n` has come to position `i` of the queue of `m`. */
  ghost predicate Along(n: Node, m: Node, i: nat, times: seq<nat>, budget: nat, k: nat, left: nat, sent: nat) {
    && i <= |m.queue| && k <= |times| && |times| - k >= |m.queue| - i
    && |times| >= |n.queue|
    && m == PassView(n, CursorOf(m, i))
    && Pass(CursorOf(m, i), times[k..], left) == Pass(CursorOf(n, 0), times, budget)
    && sent == |m.writes| - |n.writes|
  }

  lemma SendOutcome(n: Node, times: seq<nat>, budget: nat)
    requires |times| >= |n.queue|
    ensures Along(n, n, 0, times, budget, 0, budget, 0)
    ensures Nodes.ProcessSend(n, times, budget) ==
            if n.phase == Initialized then Outcome(n, ERR_BAD_STATE)
            else
              var c := Pass(CursorOf(n, 0), times, budget);
              Outcome(PassView(n, c), if c.failed then ERR_WRITE_FAILED else |c.writes| - |n.writes|)
  {
  }

  lemma AlongAt(n: Node, m: Node, i: nat, times: seq<nat>, budget: nat, k: nat, left: nat, sent: nat)
    requires Along(n, m, i, times, budget, k, left, sent) && i < |m.queue|
    ensures k < |times|
  {
  }

  lemma AlongExpire(n: Node, m: Node, m': Node, i: nat, times: seq<nat>, budget: nat, k: nat, left: nat, sent: nat)
    requires Along(n, m, i, times, budget, k, left, sent) && i < |m.queue| && Exhausted(m.queue[i])
    requires i <= |m'.queue| && CursorOf(m', i) == Expire(CursorOf(m, i)) && m' == PassView(m, CursorOf(m', i))
    ensures Along(n, m', i, times, budget, k, left, sent) && |m'.queue| < |m.queue|
  {
  }

  lemma AlongSkip(n: Node, m: Node, i: nat, times: seq<nat>, budget: nat, k: nat, left: nat, sent: nat)
    requires Along(n, m, i, times, budget, k, left, sent) && i < |m.queue|
    requires k < |times| && !Exhausted(m.queue[i]) && Waiting(m.queue[i], times[k])
    ensures Along(n, m, i + 1, times, budget, k + 1, left, sent)
  {
    var c := CursorOf(m, i);
    assert c.rest[0] == m.queue[i] && |c.rest| == |m.queue| - i;
    assert times[k..][0] == times[k] && times[k..][1..] == times[k + 1..];
    assert m.queue[..i + 1] == m.queue[..i] + [m.queue[i]] && m.queue[i + 1..] == m.queue[i..][1..];
    assert m.queue == m.queue[..i + 1] + m.queue[i + 1..];
    assert Skip(c) == CursorOf(m, i + 1);
    assert Pass(c, times[k..], left) == Pass(Skip(c), times[k + 1..], left);
  }

  /** A failed write leaves the pass there and then. */
  lemma AlongTransmit(n: Node, m: Node, m': Node, i: nat, after: nat, times: seq<nat>, budget: nat, k: nat, left: nat,
                      sent: nat)
    requires Along(n, m, i, times, budget, k, left, sent) && i < |m.queue|
    requires k < |times| && !Exhausted(m.queue[i]) && !Waiting(m.queue[i], times[k])
    requires after <= |m'.queue| && m' == PassView(m, CursorOf(m', after))
    requires CursorOf(m', after).(failed := left == 0) == Transmit(CursorOf(m, i), times[k], left > 0)
    ensures left > 0 ==> Along(n, m', after, times, budget, k + 1, left - 1, sent + 1)
    ensures left > 0 ==> |m'.queue| - after < |m.queue| - i
    ensures var c := Pass(CursorOf(n, 0), times, budget);
      left == 0 ==> c.failed && m' == PassView(n, c)
  {
    hide Patched;
    var c := CursorOf(m, i);
    var c' := Transmit(c, times[k], left > 0);
    assert c.rest[0] == m.queue[i] && |c.rest| == |m.queue| - i;
    assert |CursorOf(m', after).rest| == |m'.queue| - after;
    assert times[k..][0] == times[k] && times[k..][1..] == times[k + 1..];
    assert Pass(c, times[k..], left) == Pass(c', times[k + 1..], if left > 0 then left - 1 else 0);
  }

  lemma AlongEnd(n: Node, m: Node, i: nat, times: seq<nat>, budget: nat, k: nat, left: nat, sent: nat)
    requires Along(n, m, i, times, budget, k, left, sent) && i == |m.queue|
    ensures var c := Pass(CursorOf(n, 0), times, budget);
      !c.failed && m == PassView(n, c) && sent == |c.writes| - |n.writes|
  {
  }
}
