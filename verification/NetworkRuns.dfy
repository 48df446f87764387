/** Safety over every run of the network. */
module NetworkRuns {
  import opened Types
  import opened Rings
  import opened ClockOrder
  import opened DataLogs
  import opened Codec
  import opened Reservoirs
  import opened Members
  import opened Outbound
  import opened Tracking
  import opened Nodes
  import opened NodeInvariants
  import opened NodeEffects
  import opened Network

  // ----- the messages an honest node posts are honest -----

  lemma {:induction false} RepliesFromLog(items: seq<Entry<Logged>>, version: seq<Record>, k: nat, m: Message)
    requires k <= |items| && m in DataReplies(items, version, k)
    ensures exists i :: 0 <= i < k && m == Data(VersionOf(items[i]), items[i].val.payload)
  {
    if m !in DataReplies(items, version, k - 1) {
      assert m == Data(VersionOf(items[k - 1]), items[k - 1].val.payload);
    } else {
      RepliesFromLog(items, version, k - 1, m);
    }
  }

  /** A reply to a status is the node's own clock, or a logged message. */
  lemma RepliesAreOwn(n: Node, version: seq<Record>, m: Message)
    requires m in StatusReplies(n.clock, n.log, version)
    ensures m == Status(n.clock.items) ||
            exists i :: 0 <= i < |n.log.items| && m == Data(VersionOf(n.log.items[i]), n.log.items[i].val.payload)
  {
    hide Compare, DataReplies;
    if m != Status(n.clock.items) { RepliesFromLog(n.log.items, version, |n.log.items|, m); }
  }

  /** What the acting node's next state knows about the data it just handled. */
  ghost predicate Knows(n': Node, f: Frame) {
    f.body.Data? ==> Reached(n'.clock, f.body.version)
  }

  /** Everything posted while handling a datagram is honest in the state that follows. */
  lemma HandlingPostsHonestly(net: Net, owner: Owners, a: Address, n': Node, src: Address, f: Frame, random: seq<nat>,
                              p: Posting)
    requires a in net && src in net && HonestNode(net, owner, a) && |random| >= |net[a].members|
    requires Grows(net[a], n') && Knows(n', f)
    requires HonestMessage(net, owner, src, a, f.body)
    requires 1 <= f.seqNum <= |net[src].created| && net[src].created[f.seqNum - 1].recipient == a
    requires net[src].created[f.seqNum - 1].frame.body == f.body
    requires FromSome(p, HandlePosts(net[a], src, f, random))
    ensures HonestPosting(net[a := n'], owner, a, p)
  {
    hide QueueInv, StoreInv, JoinInv, InOrder, HonestItems, Genuine, ClockGrows, RandomRecipients, Compare, DataReplies,
         StatusReplies;
    var n, net' := net[a], net[a := n'];
    var ps := HandlePosts(n, src, f, random);
    var k :| 0 <= k < |ps| && FromPost(p, ps[k]);
    match f.body {
      case Hello(_) => HelloPostsArePlain(n, src, f, p);
      case Data(version, payload) =>
        if k > 0 { GrowthKeepsGenuine(net, owner, a, n', version, payload); }
      case Status(version) =>
        if k > 0 {
          var m := StatusReplies(n.clock, n.log, version)[k - 1];
          assert p.frame == Plain(m);
          RepliesAreOwn(n, version, m);
          OwnDataIsHonest(net, owner, a, n', p.recipient, m);
        }
      case _ =>
    }
    if p.frame == Plain(Ack(f.seqNum)) && p.recipient == src {
      assert net[src].created <= net'[src].created;
    }
  }

  lemma HelloPostsArePlain(n: Node, src: Address, f: Frame, p: Posting)
    requires f.body.Hello? && FromSome(p, HelloPosts(n, src, f))
    ensures p.frame.body.Welcome? || p.frame.body.MemberList?
  {
  }

  lemma OwnDataIsHonest(net: Net, owner: Owners, a: Address, n': Node, to: Address, m: Message)
    requires a in net && HonestNode(net, owner, a) && Grows(net[a], n')
    requires m == Status(net[a].clock.items) ||
             exists i :: 0 <= i < |net[a].log.items| && m == Data(VersionOf(net[a].log.items[i]), net[a].log.items[i].val.payload)
    ensures HonestMessage(net[a := n'], owner, a, to, m)
  {
    hide QueueInv, JoinInv, InOrder, HonestItems, Genuine, Grows, Agree;
    var n := net[a];
    if m.Status? {
      GrowthKeepsClock(net, owner, a, n', n.clock.items);
    } else {
      var i :| 0 <= i < |n.log.items| && m == Data(VersionOf(n.log.items[i]), n.log.items[i].val.payload);
      GrowthKeepsGenuine(net, owner, a, n', VersionOf(n.log.items[i]), n.log.items[i].val.payload);
    }
  }

  // ----- one step -----

  /** The acting node's data stays honest, and it has reached any version it was just sent. */
  lemma ActorDataStaysHonest(net: Net, owner: Owners, a: Address, ev: Event)
    requires NetInv(net, owner) && CanHappen(net, a, ev) && Wired(Next(net, a, ev), owner)
        && Bounded(Next(net, a, ev), owner)
    ensures var n' := Apply(net[a], ev);
      && Grows(net[a], n') && HonestData(net[a := n'], owner, n')
      && (ev.Receives? && Delivers(net[a], ev.datagram) ==> Knows(n', Delivered(net[a], ev.datagram)))
      && (ev.Sends? && net[a].phase == Connected ==>
           Publishes(net[a], n', ev.data) && |n'.published| == |net[a].published| + 1 == n'.dataCounter
           && Genuine(net[a := n'], owner, Entry(n'.id, |n'.published|), ev.data))
  {
    hide Apply, Enabled, Delivers, Delivered, Extends, SameData, Publishes, Accepts, HonestPosting, Wrote, Bounded,
         Grows, HonestData, InOrder, HonestItems, HonestLog, HonestClock, Genuine, NodeInv, CompareRecord, Wired;
    var n, n' := net[a], Apply(net[a], ev);
    assert HonestNode(net, owner, a);
    EventEffect(n, ev);
    assert NoWrap(n') by { NoWrapAt(net, owner, a, ev); }
    DataFromHonest(net, owner, a);
    if ev.Sends? && n.phase == Connected {
      PublisherStaysHonest(net, owner, a, n', ev.data);
      PublishedCount(net, owner, a, n', ev.data);
    } else if ev.Receives? && Delivers(n, ev.datagram) && Delivered(n, ev.datagram).body.Data?
              && CompareRecord(n.clock.items, Delivered(n, ev.datagram).body.version) == Before {
      assert HonestNode(net, owner, ev.src);
      DeliveredWasPosted(net, owner, ev.src, a, ev.datagram);
      var body := Delivered(n, ev.datagram).body;
      AccepterStaysHonest(net, owner, a, n', body.version, body.payload);
    } else {
      IdleStaysHonest(net, owner, a, n');
      if ev.Receives? && Delivers(n, ev.datagram) { NotBehindReached(n, n', Delivered(n, ev.datagram)); }
    }
  }

  lemma NoWrapAt(net: Net, owner: Owners, a: Address, ev: Event)
    requires CanHappen(net, a, ev) && Wired(Next(net, a, ev), owner) && Bounded(Next(net, a, ev), owner)
    ensures NoWrap(Apply(net[a], ev))
  {
    hide Apply, Wired, Enabled, Wrote;
    assert Next(net, a, ev)[a] == Apply(net[a], ev);
  }

  lemma DataFromHonest(net: Net, owner: Owners, a: Address)
    requires a in net && HonestNode(net, owner, a)
    ensures HonestData(net, owner, net[a])
  {
  }

  lemma PublishedCount(net: Net, owner: Owners, a: Address, n': Node, data: Bytes)
    requires a in net && HonestNode(net, owner, a) && Publishes(net[a], n', data) && NoWrap(n')
    ensures |n'.published| == |net[a].published| + 1 == n'.dataCounter
  {
    hide InOrder, HonestItems, HonestLog, HonestClock, QueueInv, JoinInv, HonestPosting;
  }

  lemma NotBehindReached(n: Node, n': Node, f: Frame)
    requires f.body.Data? ==> CompareRecord(n.clock.items, f.body.version) != Before
    requires SameData(n, n')
    ensures Knows(n', f)
  {
  }

  /** Everything the acting node posts is honest in the state that follows. */
  lemma ActorPostsHonestly(net: Net, owner: Owners, a: Address, ev: Event, p: Posting)
    requires NetInv(net, owner) && CanHappen(net, a, ev) && Wired(Next(net, a, ev), owner)
        && Bounded(Next(net, a, ev), owner)
    requires FromSome(p, EventPosts(net[a], ev))
    ensures HonestPosting(Next(net, a, ev), owner, a, p)
  {
    hide Apply, Delivers, Delivered, Publishes, HonestPosting, Wrote, Bounded, HandlePosts, NoWrap, FromSome, ClockGrows,
         HonestData, Genuine, NodeInv, Wired, Knows, HonestNode, TickPosts, SendPosts, HelloToAll;
    ActorDataStaysHonest(net, owner, a, ev);
    FromNothing(p);
    var n' := Apply(net[a], ev);
    match ev {
      case Joins(seeds) => HelloIsHonest(net[a := n'], owner, a, net[a].self, seeds, p);
      case Sends(data, random) => OwnVersionIsHonest(net, owner, a, n', data, random, p);
      case Receives(src, datagram, random) => ReceiverPostsHonestly(net, owner, a, n', src, datagram, random, p);
      case Flushes(_, _) =>
      case Ticks(_, random) => OwnClockIsHonest(net, owner, a, n', random, p);
    }
  }

  lemma FromNothing(p: Posting)
    ensures !FromSome(p, [])
  {
  }

  lemma ReceiverPostsHonestly(net: Net, owner: Owners, a: Address, n': Node, src: Address, b: Bytes, random: seq<nat>,
                              p: Posting)
    requires a in net && src in net && HonestNode(net, owner, a) && HonestNode(net, owner, src)
    requires Wrote(net[src], a, b) && |random| >= |net[a].members| && Grows(net[a], n')
    requires Delivers(net[a], b) ==> Knows(n', Delivered(net[a], b))
    requires FromSome(p, if Delivers(net[a], b) then HandlePosts(net[a], src, Delivered(net[a], b), random) else [])
    ensures HonestPosting(net[a := n'], owner, a, p)
  {
    hide Delivers, Delivered, HonestPosting, Wrote, HandlePosts, FromSome, Grows, Knows, HonestNode;
    FromNothing(p);
    DeliveredWasPosted(net, owner, src, a, b);
    HandlingPostsHonestly(net, owner, a, n', src, Delivered(net[a], b), random, p);
  }

  lemma HelloIsHonest(net: Net, owner: Owners, a: Address, self: Member, seeds: seq<Address>, p: Posting)
    requires FromSome(p, HelloToAll(self, seeds))
    ensures HonestPosting(net, owner, a, p)
  {
  }

  lemma OwnVersionIsHonest(net: Net, owner: Owners, a: Address, n': Node, data: Bytes, random: seq<nat>, p: Posting)
    requires a in net && |random| >= |net[a].members| && Publishes(net[a], n', data)
    requires |n'.published| == n'.dataCounter && Genuine(net[a := n'], owner, Entry(n'.id, |n'.published|), data)
        && n'.id == net[a].id
    requires FromSome(p, SendPosts(net[a], data, random))
    ensures HonestPosting(net[a := n'], owner, a, p)
  {
  }

  lemma OwnClockIsHonest(net: Net, owner: Owners, a: Address, n': Node, random: seq<nat>, p: Posting)
    requires a in net && HonestNode(net, owner, a) && Grows(net[a], n') && |random| >= |net[a].members|
    requires FromSome(p, TickPosts(net[a], random))
    ensures HonestPosting(net[a := n'], owner, a, p)
  {
    hide HonestNode, Grows, RandomRecipients;
    OwnDataIsHonest(net, owner, a, n', p.recipient, p.frame.body);
  }

  lemma ActorStaysHonest(net: Net, owner: Owners, a: Address, ev: Event)
    requires NetInv(net, owner) && CanHappen(net, a, ev) && Wired(Next(net, a, ev), owner)
        && Bounded(Next(net, a, ev), owner)
    ensures HonestNode(Next(net, a, ev), owner, a)
  {
    hide Apply, Enabled, Wired, Bounded, HonestPosting, HonestData, Publishes, Knows, Wrote, NodeInv, HonestNode, NoWrap,
         Genuine, Grows;
    ActorDataStaysHonest(net, owner, a, ev);
    NoWrapAt(net, owner, a, ev);
    HonestHasInv(net, owner, a);
    ApplyKeeps(net[a], ev);
    var net' := Next(net, a, ev);
    forall i | 0 <= i < |net'[a].created| ensures HonestPosting(net', owner, a, net'[a].created[i]) {
      CreatedStaysHonest(net, owner, a, ev, i);
    }
    HonestParts(net', owner, a);
  }

  lemma HonestHasInv(net: Net, owner: Owners, a: Address)
    requires a in net && HonestNode(net, owner, a)
    ensures NodeInv(net[a])
  {
  }

  lemma HonestParts(net: Net, owner: Owners, a: Address)
    requires a in net && NodeInv(net[a]) && HonestData(net, owner, net[a])
    requires forall i :: 0 <= i < |net[a].created| ==> HonestPosting(net, owner, a, net[a].created[i])
    ensures HonestNode(net, owner, a)
  {
  }

  lemma CreatedStaysHonest(net: Net, owner: Owners, a: Address, ev: Event, i: nat)
    requires NetInv(net, owner) && CanHappen(net, a, ev) && Wired(Next(net, a, ev), owner)
        && Bounded(Next(net, a, ev), owner)
    requires i < |Apply(net[a], ev).created|
    ensures HonestPosting(Next(net, a, ev), owner, a, Apply(net[a], ev).created[i])
  {
    ActorDataStaysHonest(net, owner, a, ev);
    EventEffect(net[a], ev);
    hide Apply, Enabled, Wired, Bounded, InOrder, HonestItems, HonestLog, HonestClock, NodeInv, Publishes, Accepts,
         SameData,
         Knows, Wrote, HonestMessage, Delivers, Delivered, EventPosts, ClockGrows, Genuine, HonestData, CompareRecord, FromSome;
    var n, n' := net[a], Apply(net[a], ev);
    assert HonestNode(net, owner, a);
    if i < |n.created| {
      assert n'.created[i] == n.created[i];
      assert HonestPosting(net, owner, a, n.created[i]);
      GrowthKeepsMessage(net, owner, a, n', a, n.created[i].recipient, n.created[i].frame.body);
    } else {
      ActorPostsHonestly(net, owner, a, ev, n'.created[i]);
    }
  }

  /** Every event at any node keeps the whole network honest. */
  lemma StepKeeps(net: Net, owner: Owners, a: Address, ev: Event)
    requires NetInv(net, owner) && CanHappen(net, a, ev) && Wired(Next(net, a, ev), owner)
        && Bounded(Next(net, a, ev), owner)
    ensures NetInv(Next(net, a, ev), owner)
  {
    ActorDataStaysHonest(net, owner, a, ev);
    ActorStaysHonest(net, owner, a, ev);
    hide HonestNode, Apply, Enabled, Wired, Bounded, Grows, HonestData, Knows, Publishes, Genuine, Delivers, Wrote;
    var net' := Next(net, a, ev);
    forall x | x in net' ensures HonestNode(net', owner, x) {
      if x != a {
        assert HonestNode(net, owner, x);
        OthersStayHonest(net, owner, a, Apply(net[a], ev), x);
      }
    }
  }

  // ----- runs -----

  /** One event at one node. */
  datatype NetEvent = NetEvent(at: Address, event: Event)

  ghost predicate NetSteps(net: Net, owner: Owners, e: NetEvent, net': Net) {
    && CanHappen(net, e.at, e.event) && net' == Next(net, e.at, e.event)
    && Wired(net', owner) && Bounded(net', owner)
  }

  /** A run from new nodes: event `i` leads from state `i` to state `i + 1`, no counter wraps,
      and at most 20 nodes ever originate data. */
  ghost predicate NetRun(owner: Owners, states: seq<Net>, events: seq<NetEvent>) {
    && |states| == |events| + 1
    && Wired(states[0], owner)
    && (forall a :: a in states[0] ==> states[0][a] == InitialNode(states[0][a].self, states[0][a].id))
    && forall i {:trigger events[i]} :: 0 <= i < |events| ==> NetSteps(states[i], owner, events[i], states[i + 1])
  }

  lemma NewNodeIsHonest(net: Net, owner: Owners, a: Address)
    requires a in net && net[a] == InitialNode(net[a].self, net[a].id)
    ensures HonestNode(net, owner, a)
  {
    InitialInv(net[a].self, net[a].id);
    hide NodeInv;
  }

  /** Every state of every run is honest. */
  lemma {:induction false} RunIsHonest(owner: Owners, states: seq<Net>, events: seq<NetEvent>, k: nat)
    requires NetRun(owner, states, events) && k < |states|
    ensures NetInv(states[k], owner)
  {
    hide HonestNode, Wired, Bounded, CanHappen, InitialNode, Enabled, Apply;
    if k == 0 {
      forall a | a in states[0] ensures HonestNode(states[0], owner, a) { NewNodeIsHonest(states[0], owner, a); }
    } else {
      RunIsHonest(owner, states, events, k - 1);
      assert NetSteps(states[k - 1], owner, events[k - 1], states[k]);
      hide NetInv;
      StepKeeps(states[k - 1], owner, events[k - 1].at, events[k - 1].event);
    }
  }

  // ----- the main results -----

  /** Acknowledgement soundness: if an acknowledgement that reaches `a` removes an envelope carrying a data
      version, then the node that envelope was addressed to already holds the version or a later one. */
  lemma AckSoundness(owner: Owners, states: seq<Net>, events: seq<NetEvent>, k: nat, i: nat)
    requires NetRun(owner, states, events) && k < |events|
    requires var e := events[k];
      var n := states[k][e.at];
      && e.event.Receives? && Delivers(n, e.event.datagram) && Delivered(n, e.event.datagram).body.Ack?
      && i < |n.queue| && n.queue[i].seqNum == Delivered(n, e.event.datagram).body.ackSeq && n.queue[i].frame.body.Data?
    ensures var e := events[k];
      var envelope := states[k][e.at].queue[i];
      && envelope !in states[k + 1][e.at].queue
      && envelope.recipient in states[k] && envelope.recipient == e.event.src
      && Reached(states[k][envelope.recipient].clock, envelope.frame.body.version)
  {
    RunIsHonest(owner, states, events, k);
    assert NetSteps(states[k], owner, events[k], states[k + 1]);
    AckStep(states[k], owner, events[k].at, events[k].event, i);
  }

  lemma AckStep(net: Net, owner: Owners, a: Address, ev: Event, i: nat)
    requires NetInv(net, owner) && CanHappen(net, a, ev)
    requires ev.Receives? && Delivers(net[a], ev.datagram) && Delivered(net[a], ev.datagram).body.Ack?
    requires i < |net[a].queue| && net[a].queue[i].seqNum == Delivered(net[a], ev.datagram).body.ackSeq
        && net[a].queue[i].frame.body.Data?
    ensures var envelope := net[a].queue[i];
      && envelope !in Next(net, a, ev)[a].queue
      && envelope.recipient in net && envelope.recipient == ev.src
      && Reached(net[envelope.recipient].clock, envelope.frame.body.version)
  {
    hide HonestData, NodeInv, HonestNode, Delivers, Delivered, Apply, Enabled, Wrote, Reached, Acknowledged, Increasing;
    var n, f := net[a], Delivered(net[a], ev.datagram);
    assert HonestNode(net, owner, a) && HonestNode(net, owner, ev.src);
    DeliveredWasPosted(net, owner, ev.src, a, ev.datagram);
    QueuedAsPosted(net, owner, a, i);
    AcknowledgedRemovesOne(n.queue, f.body.ackSeq);
    AckApplies(n, ev);
  }

  lemma QueuedAsPosted(net: Net, owner: Owners, a: Address, i: nat)
    requires a in net && HonestNode(net, owner, a) && i < |net[a].queue|
    ensures var e := net[a].queue[i];
      1 <= e.seqNum <= |net[a].created| && net[a].created[e.seqNum - 1] == Posting(e.recipient, e.frame)
    ensures Increasing(net[a].queue)
  {
    hide HonestClock, HonestLog, HonestItems, HonestPosting, InOrder, PoolInv, StoreInv, Encode, Increasing;
    assert EnvelopeOk(net[a].queue[i], net[a].slots, net[a].created);
  }

  lemma AckApplies(n: Node, ev: Event)
    requires Enabled(n, ev) && ev.Receives? && Delivers(n, ev.datagram) && Delivered(n, ev.datagram).body.Ack?
    ensures Apply(n, ev).queue == Acknowledged(n.queue, Delivered(n, ev.datagram).body.ackSeq)
  {
    hide Acknowledged, DecodeBody;
    DecodedKind(ev.datagram[5], ev.datagram);
  }

  /** No invention: whatever data is in a log, was accepted, delivered, queued or ever written anywhere,
      its originator published it under that number; and no clock runs ahead of an originator. */
  lemma NoInvention(owner: Owners, states: seq<Net>, events: seq<NetEvent>, k: nat, a: Address)
    requires NetRun(owner, states, events) && k < |states| && a in states[k]
    ensures var net := states[k];
      && HonestLog(net, owner, net[a].log.items) && HonestItems(net, owner, net[a].accepted)
      && HonestItems(net, owner, net[a].delivered) && HonestClock(net, owner, net[a].clock.items)
      && (forall e :: e in net[a].queue && e.frame.body.Data? ==>
            Genuine(net, owner, e.frame.body.version, e.frame.body.payload))
      && (forall i :: 0 <= i < |net[a].writes| && DecodeAs(DATA, net[a].writes[i].bytes).Ok? ==>
            var body := DecodeAs(DATA, net[a].writes[i].bytes).value.body;
            body.Data? && Genuine(net, owner, body.version, body.payload))
  {
    RunIsHonest(owner, states, events, k);
    hide NetRun, HonestClock, HonestLog, HonestItems, HonestNode, Genuine, DecodeAs, Wired;
    var net := states[k];
    DataFromHonest(net, owner, a);
    forall e | e in net[a].queue && e.frame.body.Data?
      ensures Genuine(net, owner, e.frame.body.version, e.frame.body.payload)
    {
      QueuedDataIsGenuine(net, owner, a, e);
    }
    forall i | 0 <= i < |net[a].writes| && DecodeAs(DATA, net[a].writes[i].bytes).Ok?
      ensures var body := DecodeAs(DATA, net[a].writes[i].bytes).value.body;
        body.Data? && Genuine(net, owner, body.version, body.payload)
    {
      WrittenDataIsGenuine(net, owner, a, i);
    }
  }

  lemma QueuedDataIsGenuine(net: Net, owner: Owners, a: Address, e: Envelope)
    requires a in net && HonestNode(net, owner, a) && e in net[a].queue && e.frame.body.Data?
    ensures Genuine(net, owner, e.frame.body.version, e.frame.body.payload)
  {
    hide HonestClock, HonestLog, HonestItems, InOrder, PoolInv, StoreInv, JoinInv, Encode, Genuine, Lookup;
    var n := net[a];
    var i :| 0 <= i < |n.queue| && n.queue[i] == e;
    assert EnvelopeOk(n.queue[i], n.slots, n.created);
    assert HonestPosting(net, owner, a, n.created[e.seqNum - 1]);
  }

  lemma WrittenDataIsGenuine(net: Net, owner: Owners, a: Address, i: nat)
    requires a in net && HonestNode(net, owner, a) && i < |net[a].writes| && DecodeAs(DATA, net[a].writes[i].bytes).Ok?
    ensures var body := DecodeAs(DATA, net[a].writes[i].bytes).value.body;
      body.Data? && Genuine(net, owner, body.version, body.payload)
  {
    hide HonestClock, HonestLog, HonestItems, InOrder, PoolInv, StoreInv, JoinInv, Encode, Genuine, DecodeAs, Lookup;
    var w := net[a].writes[i];
    assert WriteOk(w, net[a].created);
    var posted := net[a].created[w.seqNum - 1];
    assert HonestPosting(net, owner, a, posted);
    StatusFits(net, owner, a, posted.recipient, posted.frame.body);
    RoundTrip(posted.frame.(seqNum := w.seqNum), DATA);
    DecodedKind(DATA, w.bytes);
  }

  /** Delivery order: each node delivers strictly increasing numbers of each originator, and never its own data. */
  lemma DeliveryOrder(owner: Owners, states: seq<Net>, events: seq<NetEvent>, k: nat, a: Address)
    requires NetRun(owner, states, events) && k < |states| && a in states[k]
    ensures var delivered := states[k][a].delivered;
      && (forall i :: 0 <= i < |delivered| ==> delivered[i].version.key != states[k][a].id)
      && forall i, j :: 0 <= i < j < |delivered| && delivered[i].version.key == delivered[j].version.key ==>
           delivered[i].version.val < delivered[j].version.val
  {
    RunIsHonest(owner, states, events, k);
    assert HonestNode(states[k], owner, a);
    hide NetRun, NetInv, HonestClock, HonestLog, HonestItems, NodeInv, HonestPosting;
  }

  // ----- bounded flooding -----

  /** How often a version was spread to random members by one node. */
  function Spreads(items: seq<Item>, version: Record): nat {
    if items == [] then 0
    else Spreads(items[..|items| - 1], version) + if items[|items| - 1].version == version then 1 else 0
  }

  function TotalSpreads(net: Net, nodes: seq<Address>, version: Record): nat
    requires forall i :: 0 <= i < |nodes| ==> nodes[i] in net
  {
    if nodes == [] then 0
    else TotalSpreads(net, nodes[..|nodes| - 1], version) + Spreads(net[nodes[|nodes| - 1]].accepted, version)
  }

  lemma {:induction false} SpreadAtMostOnce(items: seq<Item>, c: Clock, version: Record)
    requires InOrder(items, c)
    ensures Spreads(items, version) <= 1
    ensures Spreads(items, version) == 1 ==> exists i :: 0 <= i < |items| && items[i].version == version
  {
    if items != [] {
      var front := items[..|items| - 1];
      assert InOrder(front, c) by {
        forall i | 0 <= i < |front| ensures Reached(c, front[i].version) { assert Reached(c, items[i].version); }
      }
      SpreadAtMostOnce(front, c, version);
    }
  }

  /** Bounded flooding: over the whole run no node spreads a version twice, so one `send_data` makes at most
      as many random spreads as there are nodes. */
  lemma {:induction false} BoundedFlooding(owner: Owners, states: seq<Net>, events: seq<NetEvent>, k: nat,
                                           nodes: seq<Address>, version: Record)
    requires NetRun(owner, states, events) && k < |states|
    requires Unique(nodes) && forall i :: 0 <= i < |nodes| ==> nodes[i] in states[k]
    ensures TotalSpreads(states[k], nodes, version) <= |nodes|
  {
    hide NetRun, HonestClock, HonestLog, HonestItems, NodeInv, HonestPosting, InOrder, Spreads;
    if nodes != [] {
      var m := |nodes| - 1;
      BoundedFlooding(owner, states, events, k, nodes[..m], version);
      RunIsHonest(owner, states, events, k);
      assert HonestNode(states[k], owner, nodes[m]);
      SpreadAtMostOnce(states[k][nodes[m]].accepted, states[k][nodes[m]].clock, version);
    }
  }

  // ----- the rumours themselves -----

  /** `send_data`, or a data message reaching its handler: the calls that post to random members. Data sent in answer
      to a status goes to its sender alone and is no rumour. */
  predicate Rumouring(n: Node, ev: Event) {
    || (ev.Sends? && n.phase == Connected)
    || (ev.Receives? && Delivers(n, ev.datagram) && Delivered(n, ev.datagram).body.Data?)
  }

  function Copies(ps: seq<Posting>, version: Record): nat {
    if ps == [] then 0
    else
      var body := ps[|ps| - 1].frame.body;
      Copies(ps[..|ps| - 1], version) + if body.Data? && body.version == version then 1 else 0
  }

  /** The rumour envelopes one event enqueues for a version. */
  ghost function Rumours(n: Node, ev: Event, version: Record): nat
    requires Supplied(n, ev)
  {
    var n' := Apply(n, ev);
    if Rumouring(n, ev) && |n.created| <= |n'.created| then Copies(n'.created[|n.created|..], version) else 0
  }

  lemma {:induction false} CopiesOfOne(f: Frame, recipients: seq<Address>, version: Record)
    ensures Copies(Postings(f, recipients), version) ==
            if f.body.Data? && f.body.version == version then |recipients| else 0
  {
    if recipients != [] {
      var k := |recipients| - 1;
      assert Postings(f, recipients)[..k] == Postings(f, recipients[..k]);
      CopiesOfOne(f, recipients[..k], version);
    }
  }

  lemma {:induction false} CopiesAdd(ps: seq<Posting>, qs: seq<Posting>, version: Record)
    ensures Copies(ps + qs, version) == Copies(ps, version) + Copies(qs, version)
  {
    if qs == [] {
      assert ps + qs == ps;
    } else {
      var k := |qs| - 1;
      assert (ps + qs)[..|ps| + k] == ps + qs[..k];
      CopiesAdd(ps, qs[..k], version);
    }
  }

  function CopiesMeant(p: Post, version: Record): nat {
    if p.frame.body.Data? && p.frame.body.version == version then |p.recipients| else 0
  }

  /** What is enqueued of one message. */
  lemma CopiesPosted(p: Post, version: Record)
    ensures Copies(PostingsOf(Sent([p])), version) <= CopiesMeant(p, version)
  {
    hide Copies, Postings, Fits;
    CopiesOfOne(p.frame, p.recipients, version);
    NoCopies(version);
    assert [p][..0] == [];
    assert [] + Postings(p.frame, p.recipients) == Postings(p.frame, p.recipients);
  }

  /** What is enqueued of one message behind an acknowledgement. */
  lemma CopiesBehindAck(p: Post, s: uint32, to: Address, version: Record)
    ensures Copies(PostingsOf(Sent([Direct(Ack(s), to), p])), version) <= CopiesMeant(p, version)
  {
    hide Copies, Postings;
    var ack := Direct(Ack(s), to);
    CopiesPosted(ack, version);
    CopiesOfOne(p.frame, p.recipients, version);
    assert [ack, p][..1] == [ack] && AllFit([ack]);
    CopiesAdd(PostingsOf([ack]), Postings(p.frame, p.recipients), version);
  }

  lemma NoCopies(version: Record)
    ensures Copies([], version) == 0
  {
  }

  /** An event enqueues rumours for a version only when the version enters the accepted history, and then at most three. */
  lemma RumoursAreSpreads(n: Node, ev: Event, version: Record)
    requires Supplied(n, ev)
    ensures Spreads(n.accepted, version) <= Spreads(Apply(n, ev).accepted, version)
    ensures Rumours(n, ev, version) <=
            MESSAGE_RUMOR_FACTOR * (Spreads(Apply(n, ev).accepted, version) - Spreads(n.accepted, version))
  {
    hide Apply, Delivers, Delivered, Copies, Sent, PostingsOf, RandomRecipients, CompareRecord, Put, Recorded;
    EventEffect(n, ev);
    var n' := Apply(n, ev);
    var posts := EventPosts(n, ev);
    assert n'.created[|n.created|..] == PostingsOf(Sent(posts));
    if ev.Sends? && n.phase == Connected {
      var p := posts[0];
      AtMostThree(n, ev.random);
      CopiesPosted(p, version);
      SpreadsOne(n.accepted, Item(p.frame.body.version, ev.data), version);
    } else if Rumouring(n, ev) {
      var f := Delivered(n, ev.datagram);
      AtMostThree(n, ev.random);
      CopiesBehindAck(Post(f, RandomRecipients(n.members, ev.random)), f.seqNum, ev.src, version);
      CopiesPosted(Direct(Ack(f.seqNum), ev.src), version);
      SpreadsOne(n.accepted, Item(f.body.version, f.body.payload), version);
    }
  }

  lemma AtMostThree(n: Node, random: seq<nat>)
    requires |random| >= |n.members|
    ensures |RandomRecipients(n.members, random)| <= MESSAGE_RUMOR_FACTOR
  {
  }

  lemma SpreadsOne(items: seq<Item>, item: Item, version: Record)
    ensures Spreads(items + [item], version) == Spreads(items, version) + if item.version == version then 1 else 0
  {
    assert (items + [item])[..|items|] == items;
  }

  /** The rumour envelopes for a version enqueued anywhere in the first `k` events. */
  ghost function RumoursSoFar(owner: Owners, states: seq<Net>, events: seq<NetEvent>, k: nat, version: Record): nat
    requires NetRun(owner, states, events) && k <= |events|
  {
    if k == 0 then 0
    else
      assert NetSteps(states[k - 1], owner, events[k - 1], states[k]);
      RumoursSoFar(owner, states, events, k - 1, version)
        + Rumours(states[k - 1][events[k - 1].at], events[k - 1].event, version)
  }

  lemma {:induction false} SpreadsElsewhere(net: Net, net': Net, nodes: seq<Address>, a: Address, version: Record)
    requires Unique(nodes) && a in net && a in net' && net' == net[a := net'[a]]
    requires forall i :: 0 <= i < |nodes| ==> nodes[i] in net
    ensures TotalSpreads(net', nodes, version) == TotalSpreads(net, nodes, version)
              + if a in nodes then Spreads(net'[a].accepted, version) - Spreads(net[a].accepted, version) else 0
  {
    hide Spreads;
    if nodes != [] {
      var m := |nodes| - 1;
      SpreadsElsewhere(net, net', nodes[..m], a, version);
      assert nodes == nodes[..m] + [nodes[m]];
    }
  }

  /** The rumour envelopes of a version never exceed three for each time a node has taken it in. */
  lemma {:induction false} RumoursFollowSpreads(owner: Owners, states: seq<Net>, events: seq<NetEvent>, k: nat,
                                                nodes: seq<Address>, version: Record)
    requires NetRun(owner, states, events) && k <= |events|
    requires Unique(nodes) && forall a :: a in nodes <==> a in states[k]
    ensures RumoursSoFar(owner, states, events, k, version) <= MESSAGE_RUMOR_FACTOR * TotalSpreads(states[k], nodes, version)
  {
    hide Spreads, TotalSpreads, Rumours, Apply, Wired, Bounded, Supplied, Enabled;
    if k > 0 {
      var e, net, net' := events[k - 1], states[k - 1], states[k];
      assert NetSteps(net, owner, e, net');
      assert forall a :: a in net <==> a in net';
      RumoursFollowSpreads(owner, states, events, k - 1, nodes, version);
      RumoursAreSpreads(net[e.at], e.event, version);
      SpreadsElsewhere(net, net', nodes, e.at, version);
    }
  }

  /** Bounded flooding, in messages: over the whole run, one version makes at most three rumour envelopes per node. */
  lemma RumoursBounded(owner: Owners, states: seq<Net>, events: seq<NetEvent>, nodes: seq<Address>, version: Record)
    requires NetRun(owner, states, events)
    requires Unique(nodes) && forall a :: a in nodes <==> a in states[|events|]
    ensures RumoursSoFar(owner, states, events, |events|, version) <= MESSAGE_RUMOR_FACTOR * |nodes|
  {
    hide RumoursSoFar, TotalSpreads;
    RumoursFollowSpreads(owner, states, events, |events|, nodes, version);
    BoundedFlooding(owner, states, events, |events|, nodes, version);
  }
}
