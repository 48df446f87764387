/** One gossip node as a value: what each entry point does to its state.
    The object in `Gossip.dfy` computes the same, in place. */
module Nodes {
  import opened Types
  import opened Rings
  import opened ClockOrder
  import opened DataLogs
  import opened Codec
  import opened Reservoirs
  import opened Members
  import opened Outbound
  import opened Tracking

  datatype Phase = Initialized | Joining | Connected

  /** A version of an originator's data. */
  datatype Item = Item(version: Record, payload: Bytes)

  datatype Node = Node(
    queue: seq<Envelope>, slots: Slots, sequenceNum: uint32, dataCounter: uint32,
    clock: Clock, log: Log, phase: Phase, self: Member, id: MemberId, members: seq<Member>, lastGossipTs: nat,
    // History, kept by the model only: own payloads, envelopes by number, datagrams written,
    // versions spread to random members, versions handed to the data receiver, latest clock reading.
    published: seq<Bytes>, created: seq<Posting>, writes: seq<Write>,
    accepted: seq<Item>, delivered: seq<Item>, latest: nat)

  function InitialNode(self: Member, id: MemberId): Node {
    Node([], EmptySlots(), 0, 0, Ring([], 0), Ring([], 0), Initialized, self, id, [], 0, [], [], [], [], [], 0)
  }

  // ----- enqueueing messages -----

  /** A message for some recipients. The slot is acquired, evicting if it must, even when the message does not fit. */
  datatype Post = Post(frame: Frame, recipients: seq<Address>)

  function PostOne(n: Node, p: Post): Node {
    var a := Acquire(n.queue);
    if !Fits(p.frame.body) then n.(queue := a.queue)
    else
      EncodedFits(p.frame);
      var bytes := Encode(p.frame);
      var e := Enqueued(a.queue, n.sequenceNum, p.frame, a.slot, |bytes|, p.recipients);
      n.(queue := e.queue, sequenceNum := e.seqNum, slots := Stored(n.slots, a.slot, bytes),
         created := n.created + Postings(p.frame, p.recipients))
  }

  predicate AllFit(ps: seq<Post>) {
    forall i :: 0 <= i < |ps| ==> Fits(ps[i].frame.body)
  }

  /** Posting one after the other; the first message that does not fit ends it. */
  function PostAll(n: Node, ps: seq<Post>): Node {
    if ps == [] then n
    else
      var front := ps[..|ps| - 1];
      if AllFit(front) then PostOne(PostAll(n, front), ps[|ps| - 1]) else PostAll(n, front)
  }

  function PostCode(ps: seq<Post>): int {
    if AllFit(ps) then ERR_NONE else ERR_BUFFER_NOT_ENOUGH
  }

  function Plain(m: Message): Frame {
    Frame(0, 0, m)
  }

  function Direct(m: Message, to: Address): Post {
    Post(Plain(m), [to])
  }

  function DirectAll(ms: seq<Message>, to: Address): (ps: seq<Post>)
    ensures |ps| == |ms|
  {
    seq(|ms|, i requires 0 <= i < |ms| => Direct(ms[i], to))
  }

  function Addresses(ms: seq<Member>): (r: seq<Address>)
    ensures |r| == |ms|
  {
    seq(|ms|, i requires 0 <= i < |ms| => ms[i].address)
  }

  /** `random` holds one number for each known member; the first few are never drawn. */
  function RandomRecipients(members: seq<Member>, random: seq<nat>): seq<Address>
    requires |random| >= |members|
  {
    Addresses(Sample(members, MESSAGE_RUMOR_FACTOR, random))
  }

  // ----- the member list, split into messages -----

  const MEMBER_LIST_SYNC_SIZE: nat := MESSAGE_MAX_SIZE / CLUSTER_MEMBER_SIZE

  function ChunkEnd(ms: seq<Member>, i: nat): (j: nat)
    requires i < |ms|
    ensures i < j <= |ms|
  {
    if i + MEMBER_LIST_SYNC_SIZE <= |ms| then i + MEMBER_LIST_SYNC_SIZE else |ms|
  }

  /** The lists sent for the members from `i` on. */
  function Chunks(ms: seq<Member>, i: nat): seq<seq<Member>>
    requires i <= |ms|
    decreases |ms| - i
  {
    if i == |ms| then []
    else
      [ms[i..ChunkEnd(ms, i)]] + Chunks(ms, ChunkEnd(ms, i))
  }

  function Flatten<T>(ss: seq<seq<T>>): seq<T> {
    if ss == [] then [] else ss[0] + Flatten(ss[1..])
  }

  /** The lists, concatenated, are the member set in order; each holds three members, the last one to three, and fits
      a slot. */
  lemma {:induction false} ChunksCoverMembers(ms: seq<Member>, i: nat)
    requires i <= |ms|
    ensures Flatten(Chunks(ms, i)) == ms[i..]
    ensures forall k :: 0 <= k < |Chunks(ms, i)| ==>
              1 <= |Chunks(ms, i)[k]| <= 3 && Fits(MemberList(Chunks(ms, i)[k]))
    ensures forall k :: 0 <= k < |Chunks(ms, i)| - 1 ==> |Chunks(ms, i)[k]| == 3
    decreases |ms| - i
  {
    if i < |ms| {
      var j := ChunkEnd(ms, i);
      ChunksCoverMembers(ms, j);
      assert ms[i..] == ms[i..j] + ms[j..];
    }
  }

  function ChunkPosts(chunks: seq<seq<Member>>, to: Address): seq<Post> {
    seq(|chunks|, i requires 0 <= i < |chunks| => Direct(MemberList(chunks[i]), to))
  }

  // ----- answering -----

  /** The logged messages a remote clock is behind on, in log order, among the first `k`. */
  function DataReplies(items: seq<Entry<Logged>>, version: seq<Record>, k: nat): seq<Message>
    requires k <= |items|
  {
    if k == 0 then []
    else
      var e := items[k - 1];
      DataReplies(items, version, k - 1) +
        if CompareRecord(version, VersionOf(e)) == Before then [Data(VersionOf(e), e.val.payload)] else []
  }

  /** What a node answers to a remote clock, besides the acknowledgement. */
  function StatusReplies(clock: Clock, log: Log, version: seq<Record>): seq<Message> {
    match Compare(clock.items, version)
    case After => DataReplies(log.items, version, |log.items|)
    case Before => [Status(clock.items)]
    case Conflict => DataReplies(log.items, version, |log.items|) + [Status(clock.items)]
    case Equal => []
  }

  datatype Outcome = Outcome(node: Node, code: int)

  function PostsOutcome(n: Node, ps: seq<Post>): Outcome {
    Outcome(PostAll(n, ps), PostCode(ps))
  }

  function HelloPosts(n: Node, src: Address, f: Frame): seq<Post>
    requires f.body.Hello?
  {
    [Direct(Welcome(f.seqNum, n.self), src)] + ChunkPosts(Chunks(n.members, 0), src)
      + [Post(Plain(MemberList([f.body.member])), Addresses(n.members))]
  }

  function FindSeq(q: seq<Envelope>, s: uint32, i: nat): (r: int)
    requires i <= |q|
    ensures r == -1 || (i <= r < |q| && q[r].seqNum == s)
    ensures r >= 0 ==> forall j :: i <= j < r ==> q[j].seqNum != s
    ensures r < 0 ==> forall j :: i <= j < |q| ==> q[j].seqNum != s
    decreases |q| - i
  {
    if i == |q| then -1 else if q[i].seqNum == s then i else FindSeq(q, s, i + 1)
  }

  /** Drop the first envelope under a number, if there is one. */
  function Acknowledged(q: seq<Envelope>, s: uint32): seq<Envelope> {
    var i := FindSeq(q, s, 0);
    if i < 0 then q else Without(q, i)
  }

  /** The version is new: log it, hand it to the receiver, spread it. */
  function Accepting(n: Node, version: Record, payload: Bytes): Node {
    n.(clock := MergeRecord(n.clock, version), log := Recorded(n.log, version, payload),
       accepted := n.accepted + [Item(version, payload)], delivered := n.delivered + [Item(version, payload)])
  }

  function HandleData(n: Node, src: Address, f: Frame, random: seq<nat>): Outcome
    requires f.body.Data? && |random| >= |n.members|
  {
    var ack := Direct(Ack(f.seqNum), src);
    if CompareRecord(n.clock.items, f.body.version) != Before then PostsOutcome(n, [ack])
    else PostsOutcome(Accepting(n, f.body.version, f.body.payload), [ack, Post(f, RandomRecipients(n.members, random))])
  }

  function Handle(n: Node, src: Address, f: Frame, random: seq<nat>): Outcome
    requires |random| >= |n.members|
  {
    if f.body.Welcome? then
      Outcome(n.(phase := Connected, members := AddAll(n.members, [f.body.member]),
                 queue := Acknowledged(n.queue, f.body.helloSeq)), ERR_NONE)
    else if n.phase != Connected then Outcome(n, ERR_BAD_STATE)
    else
      match f.body
      case Hello(m) =>
        Outcome(PostAll(n, HelloPosts(n, src, f)).(members := AddAll(n.members, [m])), ERR_NONE)
      case MemberList(ms) =>
        Outcome(PostAll(n.(members := AddAll(n.members, ms)), [Direct(Ack(f.seqNum), src)]), ERR_NONE)
      case Data(_, _) => HandleData(n, src, f, random)
      case Ack(k) => Outcome(n.(queue := Acknowledged(n.queue, k)), ERR_NONE)
      case Status(version) =>
        PostsOutcome(n, [Direct(Ack(f.seqNum), src)] + DirectAll(StatusReplies(n.clock, n.log, version), src))
  }

  /** One datagram read from the socket. */
  function Receive(n: Node, src: Address, b: Bytes, random: seq<nat>): Outcome
    requires |random| >= |n.members|
  {
    if n.phase == Initialized then Outcome(n, ERR_BAD_STATE)
    else if |b| == 0 then Outcome(n, ERR_READ_FAILED)
    else if |b| < HEADER_SIZE || !(HELLO <= b[5] <= STATUS) then Outcome(n, ERR_INVALID_MESSAGE)
    else if b[5] != WELCOME && n.phase != Connected then Outcome(n, ERR_BAD_STATE)
    else
      match DecodeAs(b[5], b)
      case Bad(code) => Outcome(n, code)
      case Ok(f) => Handle(n, src, f, random)
  }

  // ----- the other entry points -----

  function Join(n: Node, seeds: seq<Address>): Outcome {
    if n.phase != Initialized then Outcome(n, ERR_BAD_STATE)
    else if seeds == [] then Outcome(n.(phase := Connected), ERR_NONE)
    else Outcome(PostAll(n, HelloToAll(n.self, seeds)).(phase := Joining), ERR_NONE)
  }

  function HelloToAll(self: Member, seeds: seq<Address>): (ps: seq<Post>)
    ensures |ps| == |seeds| && AllFit(ps)
  {
    seq(|seeds|, i requires 0 <= i < |seeds| => Direct(Hello(self), seeds[i]))
  }

  /** The node's own next version: counted, entered in the clock and logged. */
  function Publishing(n: Node, data: Bytes): Node {
    var version: Record := Entry(n.id, Increment(n.dataCounter));
    n.(dataCounter := version.val, clock := Put(n.clock, MAX_VECTOR_SIZE, n.id, version.val),
       log := Recorded(n.log, version, data), published := n.published + [data],
       accepted := n.accepted + [Item(version, data)])
  }

  function SendData(n: Node, data: Bytes, random: seq<nat>): Outcome
    requires |random| >= |n.members|
  {
    if n.phase != Connected then Outcome(n, ERR_BAD_STATE)
    else
      var version := Entry(n.id, Increment(n.dataCounter));
      PostsOutcome(Publishing(n, data), [Post(Plain(Data(version, data)), RandomRecipients(n.members, random))])
  }

  function ProcessSend(n: Node, times: seq<nat>, budget: nat): Outcome
    requires |times| >= |n.queue|
  {
    if n.phase == Initialized then Outcome(n, ERR_BAD_STATE)
    else
      var c := Pass(Cursor([], n.queue, n.slots, n.members, n.writes, false), times, budget);
      Outcome(n.(queue := c.Queue(), slots := c.slots, members := c.members, writes := c.writes),
              if c.failed then ERR_WRITE_FAILED else |c.writes| - |n.writes|)
  }

  function Tick(n: Node, now: nat, random: seq<nat>): Outcome
    requires |random| >= |n.members|
  {
    if n.phase != Connected then Outcome(n, GOSSIP_TICK_INTERVAL)
    else if n.lastGossipTs + GOSSIP_TICK_INTERVAL > now then Outcome(n, n.lastGossipTs + GOSSIP_TICK_INTERVAL - now)
    else
      var ps := [Post(Plain(Status(n.clock.items)), RandomRecipients(n.members, random))];
      if !AllFit(ps) then PostsOutcome(n, ps)
      else Outcome(PostAll(n, ps).(lastGossipTs := now), GOSSIP_TICK_INTERVAL)
  }

  // ----- runs -----

  datatype Event =
    | Joins(seeds: seq<Address>)
    | Sends(data: Bytes, random: seq<nat>)
    | Receives(src: Address, datagram: Bytes, random: seq<nat>)
    | Flushes(times: seq<nat>, budget: nat)
    | Ticks(now: nat, random: seq<nat>)

  /** What a call needs: enough random numbers and clock readings, a payload the log can hold, a datagram
      the input buffer can hold. */
  ghost predicate Supplied(n: Node, ev: Event) {
    match ev
    case Joins(_) => true
    case Sends(data, random) => |random| >= |n.members| && |data| <= MESSAGE_MAX_SIZE
    case Receives(_, datagram, random) => |random| >= |n.members| && |datagram| <= MESSAGE_MAX_SIZE
    case Flushes(times, _) => |times| >= |n.queue|
    case Ticks(_, random) => |random| >= |n.members|
  }

  /** Besides, the wall clock never goes back and, within one pass, stands still. */
  ghost predicate Enabled(n: Node, ev: Event): (r: bool)
    ensures r ==> Supplied(n, ev)
  {
    Supplied(n, ev) && (ev.Flushes? ==> exists now :: now >= n.latest && Steady(ev.times, now))
  }

  function LatestOf(latest: nat, times: seq<nat>): nat {
    if times == [] || times[0] < latest then latest else times[0]
  }

  ghost function Apply(n: Node, ev: Event): Node
    requires Supplied(n, ev)
  {
    match ev
    case Joins(seeds) => Join(n, seeds).node
    case Sends(data, random) => SendData(n, data, random).node
    case Receives(src, datagram, random) => Receive(n, src, datagram, random).node
    case Flushes(times, budget) => ProcessSend(n, times, budget).node.(latest := LatestOf(n.latest, times))
    case Ticks(now, random) => Tick(n, now, random).node
  }
}
