/** Nodes joined by a network that loses, repeats and reorders datagrams but forges none:
    anything a node ever wrote may reach its recipient, any number of times or never. */
module Network {
  import opened Types
  import opened Rings
  import opened ClockOrder
  import opened DataLogs
  import opened Codec
  import opened Reservoirs
  import opened Members
  import opened Outbound
  import opened Tracking
  import opened Nodes
  import opened NodeInvariants
  import opened NodeEffects

  /** The nodes by address. */
  type Net = map<Address, Node>
  /** Which node an id belongs to. */
  type Owners = map<MemberId, Address>

  /** Addresses and ids tell the nodes apart. */
  ghost predicate Wired(net: Net, owner: Owners) {
    && (forall a :: a in net ==> net[a].self.address == a && net[a].id in owner && owner[net[a].id] == a)
    && (forall id :: id in owner ==> owner[id] in net && net[owner[id]].id == id)
  }

  ghost predicate Wrote(n: Node, to: Address, datagram: Bytes) {
    exists i :: 0 <= i < |n.writes| && n.writes[i].recipient == to && n.writes[i].bytes == datagram
  }

  /** An event at node `a`; a datagram received must have been written, to `a`, by its source. */
  ghost predicate CanHappen(net: Net, a: Address, ev: Event) {
    && a in net && Enabled(net[a], ev)
    && (ev.Receives? ==> ev.src in net && Wrote(net[ev.src], a, ev.datagram))
  }

  ghost function Next(net: Net, a: Address, ev: Event): Net
    requires CanHappen(net, a, ev)
  {
    net[a := Apply(net[a], ev)]
  }

  ghost function Originators(net: Net, owner: Owners): set<MemberId>
    requires Wired(net, owner)
  {
    set id | id in owner && net[owner[id]].published != []
  }

  /** No counter has wrapped, and at most 20 nodes have originated data. */
  ghost predicate Bounded(net: Net, owner: Owners)
    requires Wired(net, owner)
  {
    && (forall a :: a in net ==> NoWrap(net[a]))
    && |Originators(net, owner)| <= MAX_VECTOR_SIZE
  }

  // ----- the invariant -----

  /** The payload is what the id's owner published under that number. */
  ghost predicate Genuine(net: Net, owner: Owners, version: Record, payload: Bytes) {
    && version.key in owner && owner[version.key] in net
    && var published := net[owner[version.key]].published;
       1 <= version.val <= |published| && published[version.val - 1] == payload
  }

  ghost predicate HonestRecord(net: Net, owner: Owners, r: Record) {
    r.key in owner && owner[r.key] in net && 1 <= r.val <= |net[owner[r.key]].published|
  }

  ghost predicate HonestClock(net: Net, owner: Owners, rs: seq<Record>) {
    forall i :: 0 <= i < |rs| ==> HonestRecord(net, owner, rs[i])
  }

  ghost predicate Reached(clock: Clock, version: Record) {
    Lookup(clock.items, version.key).Some? && Lookup(clock.items, version.key).value >= version.val
  }

  /** What an acknowledgement of number `k`, by `from` to `to`, proves: `to` had enqueued that number for
      `from`, and if it carried data then `from`'s clock holds the version. */
  ghost predicate Evidence(net: Net, from: Address, to: Address, k: uint32) {
    && from in net && to in net
    && 1 <= k <= |net[to].created|
    && var sent := net[to].created[k - 1];
       && sent.recipient == from
       && (sent.frame.body.Data? ==> Reached(net[from].clock, sent.frame.body.version))
  }

  ghost predicate HonestMessage(net: Net, owner: Owners, from: Address, to: Address, m: Message) {
    match m
    case Data(version, payload) => Genuine(net, owner, version, payload)
    case Ack(k) => Evidence(net, from, to, k)
    case Status(clock) => HonestClock(net, owner, clock) && Distinct(clock) && |clock| <= MAX_VECTOR_SIZE
    case _ => true
  }

  ghost predicate HonestPosting(net: Net, owner: Owners, from: Address, p: Posting) {
    HonestMessage(net, owner, from, p.recipient, p.frame.body)
  }

  ghost predicate HonestItems(net: Net, owner: Owners, items: seq<Item>) {
    forall i :: 0 <= i < |items| ==> Genuine(net, owner, items[i].version, items[i].payload)
  }

  ghost predicate HonestLog(net: Net, owner: Owners, log: seq<Entry<Logged>>) {
    forall i :: 0 <= i < |log| ==> Genuine(net, owner, VersionOf(log[i]), log[i].val.payload)
  }

  /** Numbers of one originator strictly increase along the history, and the clock has reached them all. */
  ghost predicate InOrder(items: seq<Item>, clock: Clock) {
    && (forall i :: 0 <= i < |items| ==> Reached(clock, items[i].version))
    && (forall i, j :: 0 <= i < j < |items| && items[i].version.key == items[j].version.key ==>
         items[i].version.val < items[j].version.val)
  }

  ghost predicate HonestNode(net: Net, owner: Owners, a: Address)
    requires a in net
  {
    var n := net[a];
    && NodeInv(n)
    && (forall i :: 0 <= i < |n.created| ==> HonestPosting(net, owner, a, n.created[i]))
    && HonestClock(net, owner, n.clock.items) && HonestLog(net, owner, n.log.items)
    && HonestItems(net, owner, n.accepted) && HonestItems(net, owner, n.delivered)
    && InOrder(n.accepted, n.clock) && InOrder(n.delivered, n.clock)
    && (forall i :: 0 <= i < |n.delivered| ==> n.delivered[i].version.key != n.id)
    && Lookup(n.clock.items, n.id) == if n.published == [] then None else Some(|n.published|)
  }

  ghost predicate NetInv(net: Net, owner: Owners) {
    && Wired(net, owner)
    && forall a :: a in net ==> HonestNode(net, owner, a)
  }

  // ----- histories and clocks only grow -----

  ghost predicate ClockGrows(c: Clock, c': Clock) {
    forall k: MemberId :: Lookup(c.items, k).Some? ==>
      Lookup(c'.items, k).Some? && Lookup(c.items, k).value <= Lookup(c'.items, k).value
  }

  ghost predicate Grows(n: Node, n': Node) {
    Extends(n, n') && n.published <= n'.published && ClockGrows(n.clock, n'.clock)
  }

  /** One node grew; everything said about the network so far stays true. */
  lemma GrowthKeepsMessage(net: Net, owner: Owners, a: Address, n': Node, from: Address, to: Address, m: Message)
    requires a in net && Grows(net[a], n') && HonestMessage(net, owner, from, to, m)
    ensures HonestMessage(net[a := n'], owner, from, to, m)
  {
    var net' := net[a := n'];
    match m {
      case Data(version, payload) =>
      case Ack(k) =>
        assert net[to].created <= net'[to].created;
      case Status(clock) => GrowthKeepsClock(net, owner, a, n', clock);
      case _ =>
    }
  }

  lemma GrowthKeepsClock(net: Net, owner: Owners, a: Address, n': Node, rs: seq<Record>)
    requires a in net && Grows(net[a], n') && HonestClock(net, owner, rs)
    ensures HonestClock(net[a := n'], owner, rs)
  {
  }

  lemma GrowthKeepsGenuine(net: Net, owner: Owners, a: Address, n': Node, version: Record, payload: Bytes)
    requires a in net && Grows(net[a], n') && Genuine(net, owner, version, payload)
    ensures Genuine(net[a := n'], owner, version, payload)
  {
  }

  lemma GrowthKeepsItems(net: Net, owner: Owners, a: Address, n': Node, items: seq<Item>)
    requires a in net && Grows(net[a], n') && HonestItems(net, owner, items)
    ensures HonestItems(net[a := n'], owner, items)
  {
  }

  lemma GrowthKeepsLog(net: Net, owner: Owners, a: Address, n': Node, log: seq<Entry<Logged>>)
    requires a in net && Grows(net[a], n') && HonestLog(net, owner, log)
    ensures HonestLog(net[a := n'], owner, log)
  {
  }

  /** The nodes that do nothing stay honest. */
  lemma OthersStayHonest(net: Net, owner: Owners, a: Address, n': Node, x: Address)
    requires a in net && x in net && x != a && Grows(net[a], n') && HonestNode(net, owner, x)
    ensures HonestNode(net[a := n'], owner, x)
  {
    hide Grows, NodeInv, HonestMessage, HonestClock, HonestItems, HonestLog, InOrder;
    var n := net[x];
    GrowthKeepsClock(net, owner, a, n', n.clock.items);
    GrowthKeepsLog(net, owner, a, n', n.log.items);
    GrowthKeepsItems(net, owner, a, n', n.accepted);
    GrowthKeepsItems(net, owner, a, n', n.delivered);
    forall i | 0 <= i < |n.created| ensures HonestPosting(net[a := n'], owner, x, n.created[i]) {
      assert HonestPosting(net, owner, x, n.created[i]);
      GrowthKeepsMessage(net, owner, a, n', x, n.created[i].recipient, n.created[i].frame.body);
    }
  }

  // ----- taking in a version -----

  /** The ids a node's clock may hold fit the clock. */
  lemma ClockIdsAreOriginators(net: Net, owner: Owners, rs: seq<Record>)
    requires Wired(net, owner) && HonestClock(net, owner, rs)
    ensures Keys(rs) <= Originators(net, owner)
  {
  }

  /** Writing a newer number of an originator while the originators fit the clock: nothing is forgotten. */
  lemma PutGrows(c: Clock, version: Record, universe: set<MemberId>)
    requires ValidRing(c, MAX_VECTOR_SIZE) && Keys(c.items) + {version.key} <= universe && |universe| <= MAX_VECTOR_SIZE
    requires Lookup(c.items, version.key).Some? ==> Lookup(c.items, version.key).value < version.val
    ensures var c' := Put(c, MAX_VECTOR_SIZE, version.key, version.val);
      && ClockGrows(c, c') && Reached(c', version)
      && (forall k :: k != version.key ==> Lookup(c'.items, k) == Lookup(c.items, k))
      && Lookup(c'.items, version.key) == Some(version.val)
  {
    hide Put, Find;
    var c' := Put(c, MAX_VECTOR_SIZE, version.key, version.val);
    PutForgetsNothing(c, MAX_VECTOR_SIZE, version.key, version.val, universe);
    forall k: MemberId | Lookup(c.items, k).Some?
      ensures Lookup(c'.items, k).Some? && Lookup(c.items, k).value <= Lookup(c'.items, k).value
    {
      assert Lookup(c'.items, k) == if k == version.key then Some(version.val) else Lookup(c.items, k);
    }
  }

  lemma OrderExtends(items: seq<Item>, c: Clock, c': Clock, version: Record, payload: Bytes)
    requires InOrder(items, c) && ClockGrows(c, c') && Reached(c', version)
    requires Lookup(c.items, version.key).Some? ==> Lookup(c.items, version.key).value < version.val
    ensures InOrder(items + [Item(version, payload)], c')
  {
    var items' := items + [Item(version, payload)];
    OrderGrows(items, c, c');
    assert forall i :: 0 <= i < |items| ==> items'[i] == items[i] && Reached(c, items[i].version);
  }

  lemma OrderGrows(items: seq<Item>, c: Clock, c': Clock)
    requires InOrder(items, c) && ClockGrows(c, c')
    ensures InOrder(items, c')
  {
  }

  lemma PutKeepsHonestClock(net: Net, owner: Owners, c: Clock, version: Record)
    requires HonestClock(net, owner, c.items) && HonestRecord(net, owner, version)
    ensures HonestClock(net, owner, Put(c, MAX_VECTOR_SIZE, version.key, version.val).items)
  {
  }

  lemma PutKeepsHonestLog(net: Net, owner: Owners, l: Log, version: Record, payload: Bytes)
    requires HonestLog(net, owner, l.items) && Genuine(net, owner, version, payload)
    ensures HonestLog(net, owner, Recorded(l, version, payload).items)
  {
  }

  // ----- what a datagram proves -----

  /** Bytes that decode are the encoding of what they decode to. */
  lemma DecodesToItself(g: Frame, b: Bytes)
    requires Fits(g.body) && (g.body.Status? ==> |g.body.clock| <= MAX_VECTOR_SIZE) && b == Encode(g)
    ensures DecodeAs(b[5], b).Ok? ==> DecodeAs(b[5], b).value == g
  {
    hide Encode, DecodeAs, Fits, LongEnough;
    HeaderReadsBack(g);
    RoundTrip(g, b[5]);
  }

  /** A datagram that reaches its handler is the message its source enqueued, for this node, under the number it carries. */
  lemma DeliveredWasPosted(net: Net, owner: Owners, src: Address, a: Address, b: Bytes)
    requires src in net && HonestNode(net, owner, src) && a in net && Wrote(net[src], a, b) && Delivers(net[a], b)
    ensures var f := Delivered(net[a], b);
      && 1 <= f.seqNum <= |net[src].created|
      && net[src].created[f.seqNum - 1].recipient == a
      && net[src].created[f.seqNum - 1].frame.body == f.body
      && HonestMessage(net, owner, src, a, f.body)
  {
    hide Encode, DecodeAs, PoolInv, StoreInv, JoinInv, HonestClock, HonestLog, HonestItems, InOrder, HonestMessage, Fits,
         Lookup;
    var n := net[src];
    var i :| 0 <= i < |n.writes| && n.writes[i].recipient == a && n.writes[i].bytes == b;
    var w := n.writes[i];
    assert WriteOk(w, n.created);
    var posted := n.created[w.seqNum - 1];
    assert HonestPosting(net, owner, src, posted);
    StatusFits(net, owner, src, a, posted.frame.body);
    DecodesToItself(posted.frame.(seqNum := w.seqNum), b);
  }

  lemma StatusFits(net: Net, owner: Owners, from: Address, to: Address, m: Message)
    requires HonestMessage(net, owner, from, to, m)
    ensures m.Status? ==> |m.clock| <= MAX_VECTOR_SIZE
  {
  }

  // ----- the acting node -----

  /** The data part of a node's honesty. */
  ghost predicate HonestData(net: Net, owner: Owners, n: Node) {
    && HonestClock(net, owner, n.clock.items) && HonestLog(net, owner, n.log.items)
    && HonestItems(net, owner, n.accepted) && HonestItems(net, owner, n.delivered)
    && InOrder(n.accepted, n.clock) && InOrder(n.delivered, n.clock)
    && (forall i :: 0 <= i < |n.delivered| ==> n.delivered[i].version.key != n.id)
    && Lookup(n.clock.items, n.id) == if n.published == [] then None else Some(|n.published|)
  }

  lemma OriginatorsGrow(net: Net, owner: Owners, a: Address, n': Node)
    requires Wired(net, owner) && a in net && n'.self == net[a].self && n'.id == net[a].id
        && net[a].published <= n'.published
    ensures Wired(net[a := n'], owner)
    ensures Originators(net, owner) <= Originators(net[a := n'], owner)
    ensures n'.published != [] ==> n'.id in Originators(net[a := n'], owner)
  {
  }

  lemma IdleStaysHonest(net: Net, owner: Owners, a: Address, n': Node)
    requires a in net && Extends(net[a], n') && SameData(net[a], n') && HonestData(net, owner, net[a])
    ensures Grows(net[a], n') && HonestData(net[a := n'], owner, n')
  {
    var n := net[a];
    GrowthKeepsClock(net, owner, a, n', n.clock.items);
    GrowthKeepsLog(net, owner, a, n', n.log.items);
    GrowthKeepsItems(net, owner, a, n', n.accepted);
    GrowthKeepsItems(net, owner, a, n', n.delivered);
  }

  /** One more genuine item at the end of a history. */
  lemma ItemsExtend(net: Net, owner: Owners, items: seq<Item>, version: Record, payload: Bytes)
    requires HonestItems(net, owner, items) && Genuine(net, owner, version, payload)
    ensures HonestItems(net, owner, items + [Item(version, payload)])
  {
  }

  /** A newer version enters clock, log and the accepted history. */
  lemma TakingInStaysHonest(net: Net, owner: Owners, a: Address, n': Node, version: Record, payload: Bytes)
    requires Wired(net, owner) && a in net && HonestNode(net, owner, a)
    requires Extends(net[a], n') && net[a].published <= n'.published
    requires n'.clock == Put(net[a].clock, MAX_VECTOR_SIZE, version.key, version.val)
    requires n'.log == Recorded(net[a].log, version, payload)
    requires n'.accepted == net[a].accepted + [Item(version, payload)]
    requires Lookup(net[a].clock.items, version.key).Some? ==> Lookup(net[a].clock.items, version.key).value < version.val
    requires Genuine(net[a := n'], owner, version, payload)
    requires Wired(net[a := n'], owner) && Bounded(net[a := n'], owner)
    ensures Grows(net[a], n') && Reached(n'.clock, version)
    ensures forall k :: Lookup(n'.clock.items, k) == if k == version.key then Some(version.val) else Lookup(net[a].clock.items, k)
    ensures HonestClock(net[a := n'], owner, n'.clock.items) && HonestLog(net[a := n'], owner, n'.log.items)
    ensures HonestItems(net[a := n'], owner, n'.accepted) && InOrder(n'.accepted, n'.clock)
  {
    hide Put, Lookup, InOrder, HonestItems, HonestLog, HonestClock, HonestPosting, QueueInv, JoinInv, Agree, Unique,
         Recorded;
    var n, net' := net[a], net[a := n'];
    var universe := Originators(net', owner);
    assert version.key in universe;
    ClockIdsAreOriginators(net, owner, n.clock.items);
    OriginatorsGrow(net, owner, a, n');
    PutGrows(n.clock, version, universe);
    GrowthKeepsClock(net, owner, a, n', n.clock.items);
    GrowthKeepsLog(net, owner, a, n', n.log.items);
    GrowthKeepsItems(net, owner, a, n', n.accepted);
    PutKeepsHonestClock(net', owner, n.clock, version);
    PutKeepsHonestLog(net', owner, n.log, version, payload);
    ItemsExtend(net', owner, n.accepted, version, payload);
    OrderExtends(n.accepted, n.clock, n'.clock, version, payload);
  }

  lemma PublisherStaysHonest(net: Net, owner: Owners, a: Address, n': Node, data: Bytes)
    requires NetInv(net, owner) && a in net && Extends(net[a], n') && Publishes(net[a], n', data)
    requires NoWrap(n') && Wired(net[a := n'], owner) && Bounded(net[a := n'], owner)
    ensures Grows(net[a], n') && HonestData(net[a := n'], owner, n')
    ensures Genuine(net[a := n'], owner, Entry(n'.id, |n'.published|), data)
  {
    hide Put, InOrder, HonestItems, HonestLog, HonestClock, HonestPosting, QueueInv, JoinInv, Agree, Unique, Recorded,
         Bounded, Find;
    var n := net[a];
    assert HonestNode(net, owner, a);
    var version := Entry(n.id, |n.published| + 1);
    assert Increment(n.dataCounter) == |n.published| + 1;
    TakingInStaysHonest(net, owner, a, n', version, data);
    GrowthKeepsItems(net, owner, a, n', n.delivered);
    OrderGrows(n.delivered, n.clock, n'.clock);
  }

  lemma AccepterStaysHonest(net: Net, owner: Owners, a: Address, n': Node, version: Record, payload: Bytes)
    requires NetInv(net, owner) && a in net && Extends(net[a], n') && Accepts(net[a], n', version, payload)
    requires Genuine(net, owner, version, payload)
    requires Wired(net[a := n'], owner) && Bounded(net[a := n'], owner)
    ensures Grows(net[a], n') && HonestData(net[a := n'], owner, n') && Reached(n'.clock, version)
  {
    hide Put, InOrder, HonestItems, HonestLog, HonestClock, HonestPosting, QueueInv, JoinInv, Agree, Unique, Recorded,
         Bounded, Find;
    var n := net[a];
    assert HonestNode(net, owner, a);
    assert version.key != n.id;
    TakingInStaysHonest(net, owner, a, n', version, payload);
    GrowthKeepsItems(net, owner, a, n', n.delivered);
    ItemsExtend(net[a := n'], owner, n.delivered, version, payload);
    OrderExtends(n.delivered, n.clock, n'.clock, version, payload);
  }
}
