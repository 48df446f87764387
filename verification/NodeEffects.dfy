/** What one event does to a node's data and which messages it posts: the facts the network proofs use. */
module NodeEffects {
  import opened Types
  import opened Rings
  import opened ClockOrder
  import opened DataLogs
  import opened Codec
  import opened Reservoirs
  import opened Members
  import opened Outbound
  import opened Tracking
  import opened Nodes
  import opened NodeInvariants

  ghost predicate SameData(n: Node, n': Node) {
    && n'.clock == n.clock && n'.log == n.log && n'.accepted == n.accepted && n'.delivered == n.delivered
    && n'.published == n.published && n'.dataCounter == n.dataCounter
  }

  /** The node's own next version enters its clock, its log and its history. */
  ghost predicate Publishes(n: Node, n': Node, data: Bytes) {
    var version := Entry(n.id, Increment(n.dataCounter));
    && n'.clock == Put(n.clock, MAX_VECTOR_SIZE, n.id, version.val) && n'.log == Recorded(n.log, version, data)
    && n'.accepted == n.accepted + [Item(version, data)] && n'.delivered == n.delivered
    && n'.published == n.published + [data] && n'.dataCounter == version.val
  }

  /** A version the clock was behind on enters clock and log, is delivered and spread. */
  ghost predicate Accepts(n: Node, n': Node, version: Record, payload: Bytes) {
    && CompareRecord(n.clock.items, version) == Before
    && n'.clock == MergeRecord(n.clock, version) && n'.log == Recorded(n.log, version, payload)
    && n'.accepted == n.accepted + [Item(version, payload)] && n'.delivered == n.delivered + [Item(version, payload)]
    && n'.published == n.published && n'.dataCounter == n.dataCounter
  }

  function HandlePosts(n: Node, src: Address, f: Frame, random: seq<nat>): seq<Post>
    requires |random| >= |n.members|
  {
    match f.body
    case Hello(_) => HelloPosts(n, src, f)
    case Welcome(_, _) => []
    case MemberList(_) => [Direct(Ack(f.seqNum), src)]
    case Data(version, _) =>
      if CompareRecord(n.clock.items, version) == Before
      then [Direct(Ack(f.seqNum), src), Post(f, RandomRecipients(n.members, random))]
      else [Direct(Ack(f.seqNum), src)]
    case Ack(_) => []
    case Status(version) =>
      [Direct(Ack(f.seqNum), src)] + DirectAll(StatusReplies(n.clock, n.log, version), src)
  }

  /** The frame a datagram delivers to its handler. */
  function Delivered(n: Node, b: Bytes): Frame
    requires Delivers(n, b)
  {
    DecodeAs(b[5], b).value
  }

  function SendPosts(n: Node, data: Bytes, random: seq<nat>): seq<Post>
    requires |random| >= |n.members|
  {
    [Post(Plain(Data(Entry(n.id, Increment(n.dataCounter)), data)), RandomRecipients(n.members, random))]
  }

  function TickPosts(n: Node, random: seq<nat>): seq<Post>
    requires |random| >= |n.members|
  {
    [Post(Plain(Status(n.clock.items)), RandomRecipients(n.members, random))]
  }

  /** The messages an event calls for, in order. */
  ghost function EventPosts(n: Node, ev: Event): seq<Post>
    requires Supplied(n, ev)
  {
    match ev
    case Joins(seeds) => if n.phase == Initialized then HelloToAll(n.self, seeds) else []
    case Sends(data, random) => if n.phase == Connected then SendPosts(n, data, random) else []
    case Receives(src, datagram, random) =>
      if Delivers(n, datagram) then HandlePosts(n, src, Delivered(n, datagram), random) else []
    case Flushes(_, _) => []
    case Ticks(now, random) =>
      if n.phase == Connected && n.lastGossipTs + GOSSIP_TICK_INTERVAL <= now then TickPosts(n, random) else []
  }

  /** Of these, the ones enqueued: all before the first that does not fit. */
  function Sent(ps: seq<Post>): seq<Post> {
    if AllFit(ps) then ps else Sent(ps[..|ps| - 1])
  }

  function PostingsOf(ps: seq<Post>): seq<Posting> {
    if ps == [] then []
    else PostingsOf(ps[..|ps| - 1]) + Postings(ps[|ps| - 1].frame, ps[|ps| - 1].recipients)
  }

  /** Posting enqueues exactly these messages, one envelope for each recipient. */
  lemma {:induction false} PostAllCreates(n: Node, ps: seq<Post>)
    ensures PostAll(n, ps).created == n.created + PostingsOf(Sent(ps))
  {
    hide Fits, Encode, Acquire, Enqueued, Stored;
    if ps != [] {
      PostAllCreates(n, ps[..|ps| - 1]);
      assert AllFit(ps) <==> AllFit(ps[..|ps| - 1]) && Fits(ps[|ps| - 1].frame.body);
    }
  }

  /** Identity fields and histories, from one state to the next. */
  ghost predicate Extends(n: Node, n': Node) {
    && n'.self == n.self && n'.id == n.id
    && n.created <= n'.created && n.writes <= n'.writes
  }

  ghost predicate Creates(n: Node, n': Node, ps: seq<Post>) {
    n'.created == n.created + PostingsOf(Sent(ps))
  }

  lemma CreatesNothing(n: Node)
    ensures Creates(n, n, []) && NewFrom(n, n, [])
  {
  }

  lemma HandleEffect(n: Node, src: Address, f: Frame, random: seq<nat>)
    requires |random| >= |n.members| && (n.phase == Connected || f.body.Welcome?)
    ensures var n' := Handle(n, src, f, random).node;
      && Extends(n, n')
      && NewFrom(n, n', HandlePosts(n, src, f, random)) && Creates(n, n', HandlePosts(n, src, f, random))
      && if f.body.Data? && CompareRecord(n.clock.items, f.body.version) == Before
         then Accepts(n, n', f.body.version, f.body.payload)
         else SameData(n, n')
  {
    hide PostAll, HelloPosts, RandomRecipients, StatusReplies, DirectAll, Put, AddAll, Acknowledged, CompareRecord, FromSome,
         Recorded, Sent, PostingsOf;
    var ps := HandlePosts(n, src, f, random);
    CreatesNothing(n);
    if n.phase == Connected && !f.body.Welcome? {
      PostAllFrame(n, ps);
      PostAllCreates(n, ps);
      match f.body {
        case MemberList(ms) =>
          var m := n.(members := AddAll(n.members, ms));
          PostAllFrame(m, ps);
          PostAllCreates(m, ps);
        case Data(version, payload) =>
          var m := Accepting(n, version, payload);
          PostAllFrame(m, ps);
          PostAllCreates(m, ps);
        case _ =>
      }
    }
  }

  lemma SendEffect(n: Node, data: Bytes, random: seq<nat>)
    requires |random| >= |n.members|
    ensures var n' := SendData(n, data, random).node;
      if n.phase == Connected
      then Extends(n, n') && NewFrom(n, n', SendPosts(n, data, random)) && Creates(n, n', SendPosts(n, data, random))
           && Publishes(n, n', data)
      else n' == n
  {
    hide PostAll, RandomRecipients, Put, FromSome, Recorded, Sent, PostingsOf;
    if n.phase == Connected {
      PostAllFrame(Publishing(n, data), SendPosts(n, data, random));
      PostAllCreates(Publishing(n, data), SendPosts(n, data, random));
    }
  }

  /** Every event: exactly what it enqueues, and what it does to the node's data. */
  lemma EventEffect(n: Node, ev: Event)
    requires Supplied(n, ev)
    ensures var n' := Apply(n, ev);
      && Extends(n, n') && NewFrom(n, n', EventPosts(n, ev)) && Creates(n, n', EventPosts(n, ev))
      && if ev.Sends? && n.phase == Connected then Publishes(n, n', ev.data)
         else if ev.Receives? && Delivers(n, ev.datagram) && Delivered(n, ev.datagram).body.Data?
                 && CompareRecord(n.clock.items, Delivered(n, ev.datagram).body.version) == Before
         then Accepts(n, n', Delivered(n, ev.datagram).body.version, Delivered(n, ev.datagram).body.payload)
         else SameData(n, n')
  {
    hide PostAll, RandomRecipients, HandlePosts, Handle, DecodeBody, FromSome, Pass, SendData, CompareRecord, Publishes,
         Accepts, Sent, PostingsOf, Fits, AllFit, HelloToAll;
    CreatesNothing(n);
    match ev {
      case Joins(seeds) =>
        PostAllFrame(n, HelloToAll(n.self, seeds));
        PostAllCreates(n, HelloToAll(n.self, seeds));
      case Sends(data, random) => SendEffect(n, data, random);
      case Receives(src, datagram, random) =>
        if Delivers(n, datagram) {
          DecodedKind(datagram[5], datagram);
          HandleEffect(n, src, Delivered(n, datagram), random);
        }
      case Flushes(times, budget) =>
        PassExtendsWrites(Cursor([], n.queue, n.slots, n.members, n.writes, false), times, budget);
      case Ticks(now, random) =>
        PostAllFrame(n, TickPosts(n, random));
        PostAllCreates(n, TickPosts(n, random));
    }
  }

  // ----- clock and log over a run -----

  /** The originators whose data the node has taken in. */
  ghost function Seen(n: Node): set<MemberId> {
    set i | 0 <= i < |n.accepted| :: n.accepted[i].version.key
  }

  /** Clock and log hold only originators seen, and all of them while these are few. */
  ghost predicate SeenInv(n: Node) {
    && Keys(n.clock.items) <= Seen(n) && Keys(n.log.items) <= Seen(n)
    && (|Seen(n)| <= MAX_VECTOR_SIZE ==>
         forall k :: k in Seen(n) ==> Lookup(n.clock.items, k).Some? && Lookup(n.log.items, k).Some?)
  }

  lemma {:induction false} PutKeys<V>(r: Ring<V>, cap: nat, key: MemberId, val: V)
    requires ValidRing(r, cap) && cap > 0
    ensures Keys(Put(r, cap, key, val).items) <= Keys(r.items) + {key}
  {
  }

  lemma SeenGrows(n: Node, n': Node, version: Record, payload: Bytes)
    requires n'.accepted == n.accepted + [Item(version, payload)]
    ensures Seen(n') == Seen(n) + {version.key}
  {
    assert forall i :: 0 <= i < |n.accepted| ==> n'.accepted[i] == n.accepted[i];
    assert n'.accepted[|n.accepted|].version.key == version.key;
  }

  /** A write of key `k` to a ring that holds only, and while they are few all of, the `seen` keys. */
  lemma PutKeepsSeen<V>(r: Ring<V>, cap: nat, k: MemberId, val: V, seen: set<MemberId>)
    requires ValidRing(r, cap) && cap >= MAX_VECTOR_SIZE && Keys(r.items) <= seen
    requires |seen| <= MAX_VECTOR_SIZE ==> forall j :: j in seen ==> Lookup(r.items, j).Some?
    ensures Keys(Put(r, cap, k, val).items) <= seen + {k}
    ensures |seen + {k}| <= MAX_VECTOR_SIZE ==> forall j :: j in seen + {k} ==> Lookup(Put(r, cap, k, val).items, j).Some?
  {
    hide Put, Lookup, Keys;
    PutKeys(r, cap, k, val);
    if |seen + {k}| <= MAX_VECTOR_SIZE {
      SubsetCount(seen, seen + {k});
      PutForgetsNothing(r, cap, k, val, seen + {k});
    }
  }

  lemma TakingInKeepsSeen(n: Node, n': Node, version: Record, payload: Bytes)
    requires StoreInv(n) && SeenInv(n)
    requires n'.clock == Put(n.clock, MAX_VECTOR_SIZE, version.key, version.val)
    requires n'.log == Recorded(n.log, version, payload) && n'.accepted == n.accepted + [Item(version, payload)]
    ensures SeenInv(n')
  {
    hide Put, Lookup, Keys, Agree, Unique, Seen;
    SeenGrows(n, n', version, payload);
    PutKeepsSeen(n.clock, MAX_VECTOR_SIZE, version.key, version.val, Seen(n));
    PutKeepsSeen(n.log, DATA_LOG_SIZE, version.key, Logged(version.val, payload), Seen(n));
  }

  lemma ApplyKeepsSeen(n: Node, ev: Event)
    requires NodeInv(n) && SeenInv(n) && Enabled(n, ev)
    ensures SeenInv(Apply(n, ev))
  {
    hide QueueInv, StoreInv, JoinInv, Apply, Lookup, Delivered, Delivers, Enabled;
    EventEffect(n, ev);
    var n' := Apply(n, ev);
    if SameData(n, n') {
      assert Seen(n') == Seen(n);
    } else if ev.Sends? {
      TakingInKeepsSeen(n, n', Entry(n.id, Increment(n.dataCounter)), ev.data);
    } else {
      var body := Delivered(n, ev.datagram).body;
      TakingInKeepsSeen(n, n', body.version, body.payload);
    }
  }

  /** In every state of every run clock and log agree on every originator both hold; while at most 20
      originators were seen, both hold exactly those. */
  lemma {:induction false} ClockAndLogAgree(self: Member, id: MemberId, states: seq<Node>, events: seq<Event>, k: nat)
    requires NewRun(self, id, states, events) && k < |states|
    ensures SeenInv(states[k])
    ensures ValidRing(states[k].clock, MAX_VECTOR_SIZE) && ValidRing(states[k].log, DATA_LOG_SIZE)
    ensures Agree(states[k].clock.items, states[k].log.items)
  {
    hide Apply, Enabled, Lookup;
    RunKeeps(self, id, states, events, k);
    hide QueueInv, JoinInv;
    if k == 0 {
      assert Seen(states[0]) == {} && Keys(states[0].clock.items) == {} && Keys(states[0].log.items) == {};
    } else {
      RunKeeps(self, id, states, events, k - 1);
      ClockAndLogAgree(self, id, states, events, k - 1);
      hide NodeInv, SeenInv, NoWrap;
      assert Steps(states[k - 1], events[k - 1], states[k]);
      ApplyKeepsSeen(states[k - 1], events[k - 1]);
    }
  }
}
