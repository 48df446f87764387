/** Every entry point that takes in or starts something, message by message: what it enqueues, for whom and in which
    order, what it changes in the node, and what it returns. */
module Handlers {
  import opened Types
  import opened Rings
  import opened ClockOrder
  import opened DataLogs
  import opened Codec
  import opened Reservoirs
  import opened Members
  import opened Outbound
  import opened SendingPass
  import opened Tracking
  import opened Nodes
  import opened NodeInvariants
  import opened NodeEffects
  import opened PairExchange

  function DirectPostings(ms: seq<Message>, to: Address): (ps: seq<Posting>)
    ensures |ps| == |ms|
  {
    seq(|ms|, i requires 0 <= i < |ms| => Posting(to, Frame(0, 0, ms[i])))
  }

  // ----- what posting a list of messages enqueues -----

  lemma {:induction false} SentReplies(s: uint32, ms: seq<Message>, to: Address)
    ensures Sent([Direct(Ack(s), to)] + DirectAll(ms, to)) == [Direct(Ack(s), to)] + DirectAll(Postable(ms), to)
  {
    var ack := Direct(Ack(s), to);
    var ps := [ack] + DirectAll(ms, to);
    AckFits(s);
    hide Fits;
    if AllPostable(ms) {
      forall i | 0 <= i < |ps| ensures Fits(ps[i].frame.body) { if i > 0 { assert ps[i] == Direct(ms[i - 1], to); } }
    } else {
      var k := |ms| - 1;
      var j :| 0 <= j < |ms| && !Fits(ms[j]);
      assert ps[j + 1] == Direct(ms[j], to);
      assert ps[..|ps| - 1] == [ack] + DirectAll(ms[..k], to);
      SentReplies(s, ms[..k], to);
    }
  }

  lemma AckFits(s: uint32)
    ensures Fits(Ack(s))
  {
  }

  lemma {:induction false} RepliesPosted(s: uint32, ms: seq<Message>, to: Address)
    ensures PostingsOf([Direct(Ack(s), to)] + DirectAll(ms, to)) == [Posting(to, Plain(Ack(s)))] + DirectPostings(ms, to)
  {
    var ack := Direct(Ack(s), to);
    var ps := [ack] + DirectAll(ms, to);
    if ms == [] {
      assert ps == [ack] && ps[..0] == [];
      OnePosted(ack);
    } else {
      var k := |ms| - 1;
      RepliesPosted(s, ms[..k], to);
      assert ps[..|ps| - 1] == [ack] + DirectAll(ms[..k], to) && ps[|ps| - 1] == Direct(ms[k], to);
      assert Postings(Plain(ms[k]), [to]) == [Posting(to, Plain(ms[k]))];
    }
  }

  lemma OnePosted(p: Post)
    ensures PostingsOf([p]) == Postings(p.frame, p.recipients)
  {
    assert [p][..0] == [];
    assert [] + Postings(p.frame, p.recipients) == Postings(p.frame, p.recipients);
  }

  /** An acknowledgement alone, or with a rumour behind it. */
  lemma RumourPosted(s: uint32, to: Address, p: Post)
    ensures PostingsOf(Sent([Direct(Ack(s), to)])) == [Posting(to, Plain(Ack(s)))]
    ensures PostingsOf(Sent([Direct(Ack(s), to), p])) ==
            [Posting(to, Plain(Ack(s)))] + if Fits(p.frame.body) then Postings(p.frame, p.recipients) else []
  {
    var ack := Direct(Ack(s), to);
    AckFits(s);
    hide Fits;
    OnePosted(ack);
    assert Postings(ack.frame, [to]) == [Posting(to, Plain(Ack(s)))];
    assert [ack, p][..1] == [ack] && AllFit([ack]);
    assert [ack, p][1] == p;
  }

  lemma {:induction false} PostingsOfAdd(ps: seq<Post>, qs: seq<Post>)
    ensures PostingsOf(ps + qs) == PostingsOf(ps) + PostingsOf(qs)
  {
    hide Postings;
    if qs == [] {
      assert ps + qs == ps;
    } else {
      var k := |qs| - 1;
      assert (ps + qs)[..|ps + qs| - 1] == ps + qs[..k];
      PostingsOfAdd(ps, qs[..k]);
    }
  }

  lemma {:induction false} DirectPosted(ms: seq<Message>, to: Address)
    ensures PostingsOf(DirectAll(ms, to)) == DirectPostings(ms, to)
  {
    if ms != [] {
      var k := |ms| - 1;
      DirectPosted(ms[..k], to);
      assert DirectAll(ms, to)[..k] == DirectAll(ms[..k], to);
      assert Postings(Plain(ms[k]), [to]) == [Posting(to, Plain(ms[k]))];
    }
  }

  // ----- random members -----

  /** Which of `n` members hear a rumour: all, or the three that the random numbers, as residues, leave in the
      reservoir. */
  ghost function Picked(n: nat, random: seq<nat>): seq<nat>
    requires |random| >= n
  {
    if n <= 3 then FirstPositions(n) else Continue(FirstPositions(3), 3, Residues(random, 3, n))
  }

  /** One envelope with this frame for the member at each position, in order. */
  ghost predicate SpreadTo(ps: seq<Posting>, f: Frame, members: seq<Member>, at: seq<nat>) {
    |ps| == |at| && forall i :: 0 <= i < |at| ==> at[i] < |members| && ps[i] == Posting(members[at[i]].address, f)
  }

  lemma RandomSpread(f: Frame, members: seq<Member>, random: seq<nat>)
    requires |random| >= |members|
    ensures SpreadTo(Postings(f, RandomRecipients(members, random)), f, members, Picked(|members|, random))
  {
    hide Continue, Residues, Sample;
    SampleFollowsStream(members, MESSAGE_RUMOR_FACTOR, random);
  }

  // ----- receiving -----

  /** A decodable datagram reaches the handler of its kind, if the node is active and either connected or welcomed. */
  lemma Reaches(n: Node, src: Address, b: Bytes, f: Frame, random: seq<nat>)
    requires |random| >= |n.members| && DecodeAs(KindOf(f.body), b) == Ok(f)
    requires n.phase == Connected || (n.phase == Joining && f.body.Welcome?)
    ensures Receive(n, src, b, random) == Handle(n, src, f, random)
  {
    hide Handle, DecodeBody;
  }

  /** Everything else is refused with an error and changes nothing. */
  lemma Refused(n: Node, src: Address, b: Bytes, random: seq<nat>)
    requires |random| >= |n.members|
    ensures n.phase == Initialized ==> Receive(n, src, b, random) == Outcome(n, -3)
    ensures n.phase != Initialized && b == [] ==> Receive(n, src, b, random) == Outcome(n, -8)
    ensures n.phase != Initialized && 0 < |b| && (|b| < 12 || b[5] == 0 || b[5] > 6) ==>
              Receive(n, src, b, random) == Outcome(n, -4)
    ensures n.phase == Joining && 12 <= |b| && 1 <= b[5] <= 6 && b[5] != 2 ==>
              Receive(n, src, b, random) == Outcome(n, -3)
    ensures 12 <= |b| && 1 <= b[5] <= 6 && (n.phase == Connected || (n.phase == Joining && b[5] == 2))
            && DecodeAs(b[5], b).Bad? ==>
              Receive(n, src, b, random) == Outcome(n, DecodeAs(b[5], b).code)
  {
    hide Handle, DecodeAs;
  }

  lemma AddOneMember(members: seq<Member>, m: Member)
    ensures AddAll(members, [m]) == if m in members then members else members + [m]
  {
    assert [m][..0] == [];
  }

  lemma HelloFits(m: Member, s: uint32)
    ensures Fits(Welcome(s, m)) && Fits(MemberList([m])) && Fits(Hello(m))
  {
  }

  /** A newcomer is welcomed under its own number, gets every known member in lists of three (the last may be shorter),
      and is announced to each of them; then it is a member itself. */
  lemma HelloHandled(n: Node, src: Address, b: Bytes, f: Frame, random: seq<nat>) returns (lists: seq<seq<Member>>)
    requires n.phase == Connected && |random| >= |n.members|
    requires f.body.Hello? && DecodeAs(HELLO, b) == Ok(f)
    ensures var r := Receive(n, src, b, random);
      && r.code == 0
      && r.node.created == n.created
           + [Posting(src, Frame(0, 0, Welcome(f.seqNum, n.self)))]
           + seq(|lists|, i requires 0 <= i < |lists| => Posting(src, Frame(0, 0, MemberList(lists[i]))))
           + seq(|n.members|, i requires 0 <= i < |n.members| =>
               Posting(n.members[i].address, Frame(0, 0, MemberList([f.body.member]))))
      && r.node.members == (if f.body.member in n.members then n.members else n.members + [f.body.member])
      && OnlyQueued(n, r.node.(members := n.members))
    ensures Flatten(lists) == n.members
    ensures forall i :: 0 <= i < |lists| ==> 1 <= |lists[i]| <= 3 && (i < |lists| - 1 ==> |lists[i]| == 3)
  {
    hide DecodeAs, PostAll, Fits, Encode, Flatten, Chunks, AllFit;
    lists := Chunks(n.members, 0);
    Reaches(n, src, b, f, random);
    AddOneMember(n.members, f.body.member);
    ChunksCoverMembers(n.members, 0);
    PostAllFrame(n, HelloPosts(n, src, f));
    PostAllCreates(n, HelloPosts(n, src, f));
    HelloPosted(n, src, f, lists);
  }

  lemma HelloPosted(n: Node, src: Address, f: Frame, lists: seq<seq<Member>>)
    requires f.body.Hello? && lists == Chunks(n.members, 0)
    ensures AllFit(HelloPosts(n, src, f))
    ensures PostingsOf(Sent(HelloPosts(n, src, f))) ==
            [Posting(src, Frame(0, 0, Welcome(f.seqNum, n.self)))]
            + seq(|lists|, i requires 0 <= i < |lists| => Posting(src, Frame(0, 0, MemberList(lists[i]))))
            + seq(|n.members|, i requires 0 <= i < |n.members| =>
                Posting(n.members[i].address, Frame(0, 0, MemberList([f.body.member]))))
  {
    hide Fits, Chunks;
    var welcome := Direct(Welcome(f.seqNum, n.self), src);
    var news := Post(Plain(MemberList([f.body.member])), Addresses(n.members));
    var ps := HelloPosts(n, src, f);
    var ms := seq(|lists|, i requires 0 <= i < |lists| => MemberList(lists[i]));
    ChunksCoverMembers(n.members, 0);
    HelloFits(n.self, f.seqNum);
    HelloFits(f.body.member, 0);
    assert ChunkPosts(lists, src) == DirectAll(ms, src);
    PostingsOfAdd([welcome] + DirectAll(ms, src), [news]);
    PostingsOfAdd([welcome], DirectAll(ms, src));
    OnePosted(welcome);
    OnePosted(news);
    DirectPosted(ms, src);
    assert Postings(welcome.frame, [src]) == [Posting(src, welcome.frame)];
    assert Postings(news.frame, Addresses(n.members)) ==
           seq(|n.members|, i requires 0 <= i < |n.members| => Posting(n.members[i].address, news.frame));
    assert DirectPostings(ms, src) ==
           seq(|lists|, i requires 0 <= i < |lists| => Posting(src, Frame(0, 0, MemberList(lists[i]))));
  }

  ghost predicate FirstNumbered(q: seq<Envelope>, s: uint32, i: nat) {
    i < |q| && q[i].seqNum == s && forall j :: 0 <= j < i ==> q[j].seqNum != s
  }

  /** `r` is `q` without the first envelope under number `s`, or `q` when there is none. */
  ghost predicate Unlinks(q: seq<Envelope>, s: uint32, r: seq<Envelope>) {
    if forall e :: e in q ==> e.seqNum != s then r == q
    else exists i: nat :: FirstNumbered(q, s, i) && r == q[..i] + q[i + 1..]
  }

  lemma AcknowledgedUnlinks(q: seq<Envelope>, s: uint32)
    ensures Unlinks(q, s, Acknowledged(q, s))
  {
    var i := FindSeq(q, s, 0);
    if i >= 0 { assert FirstNumbered(q, s, i) && q[i] in q; }
  }

  /** A welcome connects the node, makes its sender a member and drops the hello it answers. */
  lemma WelcomeHandled(n: Node, src: Address, b: Bytes, f: Frame, random: seq<nat>)
    requires n.phase != Initialized && |random| >= |n.members|
    requires f.body.Welcome? && DecodeAs(WELCOME, b) == Ok(f)
    ensures var r := Receive(n, src, b, random);
      && r.code == 0 && Unlinks(n.queue, f.body.helloSeq, r.node.queue)
      && r.node == n.(phase := Connected, queue := r.node.queue,
                      members := if f.body.member in n.members then n.members else n.members + [f.body.member])
  {
    hide DecodeAs, Acknowledged, Unlinks;
    Reaches(n, src, b, f, random);
    AddOneMember(n.members, f.body.member);
    AcknowledgedUnlinks(n.queue, f.body.helloSeq);
  }

  /** An acknowledgement drops the envelope it names and changes nothing else. */
  lemma AckHandled(n: Node, src: Address, b: Bytes, f: Frame, random: seq<nat>)
    requires n.phase == Connected && |random| >= |n.members|
    requires f.body.Ack? && DecodeAs(ACK, b) == Ok(f)
    ensures var r := Receive(n, src, b, random);
      r.code == 0 && Unlinks(n.queue, f.body.ackSeq, r.node.queue) && r.node == n.(queue := r.node.queue)
  {
    hide DecodeAs, Acknowledged, Unlinks;
    Reaches(n, src, b, f, random);
    AcknowledgedUnlinks(n.queue, f.body.ackSeq);
  }

  /** A member list is acknowledged under its own number, and its unknown members are added. */
  lemma MemberListHandled(n: Node, src: Address, b: Bytes, f: Frame, random: seq<nat>)
    requires n.phase == Connected && |random| >= |n.members|
    requires f.body.MemberList? && DecodeAs(MEMBER_LIST, b) == Ok(f)
    ensures var r := Receive(n, src, b, random);
      && r.code == 0
      && r.node.created == n.created + [Posting(src, Frame(0, 0, Ack(f.seqNum)))]
      && r.node.members == AddAll(n.members, f.body.members)
      && OnlyQueued(n, r.node.(members := n.members))
  {
    hide DecodeAs, PostAll, Fits, Encode, Sent, PostingsOf;
    var ps := [Direct(Ack(f.seqNum), src)];
    var m := n.(members := AddAll(n.members, f.body.members));
    Reaches(n, src, b, f, random);
    PostAllFrame(m, ps);
    PostAllCreates(m, ps);
    RumourPosted(f.seqNum, src, ps[0]);
  }

  /** The clock is behind on a version: it holds none of the originator, or a lower number. */
  predicate Lacks(clock: seq<Record>, version: Record) {
    Lookup(clock, version.key).None? || Lookup(clock, version.key).value < version.val
  }

  /** The version enters clock and log, and `ps` are its envelopes for random members, none if it is too large to send. */
  ghost predicate TakesIn(n: Node, n': Node, f: Frame, payload: Bytes, ps: seq<Posting>, random: seq<nat>, code: int)
    requires f.body.Data? && |random| >= |n.members|
  {
    && n'.clock == Put(n.clock, 20, f.body.version.key, f.body.version.val)
    && n'.log == Put(n.log, 25, f.body.version.key, Logged(f.body.version.val, payload))
    && n'.accepted == n.accepted + [Item(f.body.version, payload)]
    && if |payload| <= 486 then code == 0 && SpreadTo(ps, f, n.members, Picked(|n.members|, random))
       else code == -5 && ps == []
  }

  lemma DataFits(f: Frame)
    requires f.body.Data?
    ensures Fits(f.body) <==> |f.body.payload| <= 486
  {
  }

  /** Data is acknowledged under its own number, always. If the clock is behind on it, it is also logged, delivered, and
      sent on to random members as it came. */
  lemma DataHandled(n: Node, src: Address, b: Bytes, f: Frame, random: seq<nat>) returns (rumour: seq<Posting>)
    requires n.phase == Connected && |random| >= |n.members|
    requires f.body.Data? && DecodeAs(DATA, b) == Ok(f)
    ensures var r := Receive(n, src, b, random);
      && r.node.created == n.created + [Posting(src, Frame(0, 0, Ack(f.seqNum)))] + rumour
      && if Lacks(n.clock.items, f.body.version)
         then TakesIn(n, r.node, f, f.body.payload, rumour, random, r.code)
              && r.node.delivered == n.delivered + [Item(f.body.version, f.body.payload)]
              && OnlyQueued(n, r.node.(clock := n.clock, log := n.log, accepted := n.accepted, delivered := n.delivered))
         else rumour == [] && r.code == 0 && OnlyQueued(n, r.node)
  {
    hide DecodeAs, HandleData, TakesIn, OnlyQueued;
    Reaches(n, src, b, f, random);
    if Lacks(n.clock.items, f.body.version) {
      rumour := NewDataHandled(n, src, f, random);
    } else {
      rumour := [];
      KnownDataHandled(n, src, f, random);
    }
  }

  lemma LacksIs(clock: seq<Record>, version: Record)
    ensures Lacks(clock, version) <==> CompareRecord(clock, version) == Before
  {
  }

  lemma KnownDataHandled(n: Node, src: Address, f: Frame, random: seq<nat>)
    requires |random| >= |n.members| && f.body.Data? && !Lacks(n.clock.items, f.body.version)
    ensures var r := HandleData(n, src, f, random);
      && r.node.created == n.created + [Posting(src, Frame(0, 0, Ack(f.seqNum)))] + []
      && r.code == 0 && OnlyQueued(n, r.node)
  {
    hide PostAll, Fits, Sent, PostingsOf, RandomRecipients, Put, FromSome, Lacks, CompareRecord;
    var ack := Direct(Ack(f.seqNum), src);
    LacksIs(n.clock.items, f.body.version);
    PostAllFrame(n, [ack]);
    PostAllCreates(n, [ack]);
    RumourPosted(f.seqNum, src, ack);
    AckFits(f.seqNum);
  }

  lemma NewDataHandled(n: Node, src: Address, f: Frame, random: seq<nat>) returns (rumour: seq<Posting>)
    requires |random| >= |n.members| && f.body.Data? && Lacks(n.clock.items, f.body.version)
    ensures var r := HandleData(n, src, f, random);
      && r.node.created == n.created + [Posting(src, Frame(0, 0, Ack(f.seqNum)))] + rumour
      && TakesIn(n, r.node, f, f.body.payload, rumour, random, r.code)
      && r.node.delivered == n.delivered + [Item(f.body.version, f.body.payload)]
      && OnlyQueued(n, r.node.(clock := n.clock, log := n.log, accepted := n.accepted, delivered := n.delivered))
  {
    hide PostAll, Fits, Sent, PostingsOf, RandomRecipients, Put, FromSome, Lacks, CompareRecord, SpreadTo, Picked;
    var p := Post(f, RandomRecipients(n.members, random));
    var ps := [Direct(Ack(f.seqNum), src), p];
    var m := Accepting(n, f.body.version, f.body.payload);
    LacksIs(n.clock.items, f.body.version);
    PostAllFrame(m, ps);
    PostAllCreates(m, ps);
    RumourPosted(f.seqNum, src, p);
    RandomSpread(f, n.members, random);
    DataFits(f);
    AckFits(f.seqNum);
    assert AllFit(ps) <==> Fits(f.body) by { assert ps[1] == p; }
    rumour := if Fits(f.body) then Postings(f, p.recipients) else [];
    assert n.created + ([Posting(src, Frame(0, 0, Ack(f.seqNum)))] + rumour) ==
           n.created + [Posting(src, Frame(0, 0, Ack(f.seqNum)))] + rumour;
  }

  // ----- answering a status -----

  /** The positions, in order, of the logged messages a remote clock is behind on. */
  ghost predicate PicksAre(picks: seq<nat>, items: seq<Entry<Logged>>, version: seq<Record>, n: nat) {
    && (forall i, j :: 0 <= i < j < |picks| ==> picks[i] < picks[j])
    && (forall i :: 0 <= i < |picks| ==> picks[i] < n && picks[i] < |items|)
    && forall l :: 0 <= l < n && l < |items| ==> (l in picks <==> Lacks(version, VersionOf(items[l])))
  }

  function LoggedData(items: seq<Entry<Logged>>, picks: seq<nat>): (ms: seq<Message>)
    requires forall i :: 0 <= i < |picks| ==> picks[i] < |items|
    ensures |ms| == |picks|
  {
    seq(|picks|, i requires 0 <= i < |picks| =>
      Data(Entry(items[picks[i]].key, items[picks[i]].val.seqNum), items[picks[i]].val.payload))
  }

  lemma {:induction false} RepliesAre(items: seq<Entry<Logged>>, version: seq<Record>, n: nat) returns (picks: seq<nat>)
    requires n <= |items|
    ensures PicksAre(picks, items, version, n) && DataReplies(items, version, n) == LoggedData(items, picks)
  {
    hide Lacks, CompareRecord, PicksAre, LoggedData;
    if n == 0 {
      picks := [];
      NoPicks(items, version);
    } else {
      LacksIs(version, VersionOf(items[n - 1]));
      var front := RepliesAre(items, version, n - 1);
      picks := if Lacks(version, VersionOf(items[n - 1])) then front + [n - 1] else front;
      MorePicks(front, items, version, n - 1);
    }
  }

  lemma NoPicks(items: seq<Entry<Logged>>, version: seq<Record>)
    ensures PicksAre([], items, version, 0) && LoggedData(items, []) == []
  {
  }

  lemma MorePicks(picks: seq<nat>, items: seq<Entry<Logged>>, version: seq<Record>, n: nat)
    requires n < |items| && PicksAre(picks, items, version, n)
    ensures Lacks(version, VersionOf(items[n])) ==> PicksAre(picks + [n], items, version, n + 1)
    ensures !Lacks(version, VersionOf(items[n])) ==> PicksAre(picks, items, version, n + 1)
    ensures LoggedData(items, picks + [n]) == LoggedData(items, picks) + [Data(VersionOf(items[n]), items[n].val.payload)]
  {
    hide Behind;
    assert forall l :: l in picks + [n] <==> l in picks || l == n;
  }

  /** What a node wants to answer: the logged messages the remote clock lacks if it lacks any number the node has, and
      the node's own clock if that lacks any number the remote has, or the remote clock repeats an id. */
  ghost function Wanted(own: seq<Record>, items: seq<Entry<Logged>>, picks: seq<nat>, remote: seq<Record>): seq<Message>
    requires forall i :: 0 <= i < |picks| ==> picks[i] < |items|
  {
    (if Leq(own, remote) then [] else LoggedData(items, picks))
      + (if Leq(remote, own) && Distinct(remote) then [] else [Status(own)])
  }

  lemma {:induction false} PostableIs(ms: seq<Message>) returns (c: nat)
    ensures c <= |ms| && Postable(ms) == ms[..c]
    ensures forall i :: 0 <= i < c ==> Fits(ms[i])
    ensures c < |ms| ==> !Fits(ms[c])
  {
    hide Fits;
    c := |ms|;
    if !AllPostable(ms) {
      var k := |ms| - 1;
      c := PostableIs(ms[..k]);
      assert ms[..k][..c] == ms[..c];
    }
  }

  lemma PicksInLog(picks: seq<nat>, items: seq<Entry<Logged>>, version: seq<Record>, n: nat)
    requires PicksAre(picks, items, version, n)
    ensures forall i :: 0 <= i < |picks| ==> picks[i] < |items|
  {
  }

  lemma RepliesExactly(clock: Clock, log: Log, remote: seq<Record>) returns (picks: seq<nat>)
    requires Distinct(clock.items)
    ensures PicksAre(picks, log.items, remote, |log.items|)
    ensures StatusReplies(clock, log, remote) == Wanted(clock.items, log.items, picks, remote)
  {
    hide Leq, Compare, DataReplies, LoggedData, PicksAre, Distinct;
    picks := RepliesAre(log.items, remote, |log.items|);
    PicksInLog(picks, log.items, remote, |log.items|);
    CompareAny(clock.items, remote);
    var ms := LoggedData(log.items, picks);
    assert ms + [] == ms && [] + [Status(clock.items)] == [Status(clock.items)];
  }

  lemma ReplyFits(m: Message)
    requires m.Data? || (m.Status? && |m.clock| <= 20)
    ensures Fits(m) <==> m.Data? ==> |m.payload| <= 486
  {
  }

  /** A status is acknowledged under its own number and answered with what is wanted, in that order, up to the first
      message that cannot be sent. */
  lemma StatusHandled(n: Node, src: Address, b: Bytes, f: Frame, random: seq<nat>) returns (picks: seq<nat>, c: nat)
    requires n.phase == Connected && |random| >= |n.members|
    requires f.body.Status? && DecodeAs(STATUS, b) == Ok(f)
    requires Distinct(n.clock.items) && |n.clock.items| <= 20
    ensures PicksAre(picks, n.log.items, f.body.clock, |n.log.items|)
    ensures var r := Receive(n, src, b, random);
      var wanted := Wanted(n.clock.items, n.log.items, picks, f.body.clock);
      && c <= |wanted| && r.code == (if c == |wanted| then 0 else -5)
      && r.node.created == n.created + [Posting(src, Frame(0, 0, Ack(f.seqNum)))] + DirectPostings(wanted[..c], src)
      && (forall i :: 0 <= i < c && wanted[i].Data? ==> |wanted[i].payload| <= 486)
      && (c < |wanted| ==> wanted[c].Data? && |wanted[c].payload| > 486)
      && OnlyQueued(n, r.node)
  {
    hide DecodeAs, StatusReplies, DirectAll, DirectPostings, PostAll, Fits, Sent, PostingsOf, Postable, Leq, PicksAre,
         FromSome, Distinct, LoggedData;
    Reaches(n, src, b, f, random);
    picks := RepliesExactly(n.clock, n.log, f.body.clock);
    PicksInLog(picks, n.log.items, f.body.clock, |n.log.items|);
    var wanted := Wanted(n.clock.items, n.log.items, picks, f.body.clock);
    WantedKinds(n.clock.items, n.log.items, picks, f.body.clock);
    c := PostableIs(wanted);
    forall i | 0 <= i < |wanted| ensures Fits(wanted[i]) <==> wanted[i].Data? ==> |wanted[i].payload| <= 486 {
      ReplyFits(wanted[i]);
    }
    var ps := [Direct(Ack(f.seqNum), src)] + DirectAll(wanted, src);
    PostAllFrame(n, ps);
    PostAllCreates(n, ps);
    SentReplies(f.seqNum, wanted, src);
    RepliesPosted(f.seqNum, wanted[..c], src);
    RepliesCode(f.seqNum, wanted, src);
    assert n.created + ([Posting(src, Frame(0, 0, Ack(f.seqNum)))] + DirectPostings(wanted[..c], src)) ==
           n.created + [Posting(src, Frame(0, 0, Ack(f.seqNum)))] + DirectPostings(wanted[..c], src);
  }

  lemma WantedKinds(own: seq<Record>, items: seq<Entry<Logged>>, picks: seq<nat>, remote: seq<Record>)
    requires forall i :: 0 <= i < |picks| ==> picks[i] < |items|
    ensures forall m :: m in Wanted(own, items, picks, remote) ==> m.Data? || m == Status(own)
  {
    hide Leq, Distinct;
  }

  lemma RepliesCode(s: uint32, ms: seq<Message>, to: Address)
    ensures AllFit([Direct(Ack(s), to)] + DirectAll(ms, to)) <==> forall i :: 0 <= i < |ms| ==> Fits(ms[i])
  {
    AckFits(s);
    hide Fits;
    var ps := [Direct(Ack(s), to)] + DirectAll(ms, to);
    forall i | 0 <= i < |ms| ensures ps[i + 1].frame.body == ms[i] { }
    if forall i :: 0 <= i < |ms| ==> Fits(ms[i]) {
      forall i | 0 <= i < |ps| ensures Fits(ps[i].frame.body) { if i > 0 { assert ps[i].frame.body == ms[i - 1]; } }
    }
  }

  // ----- joining and sending -----

  /** Joining queues one hello for each seed, in order; without seeds the node is connected at once. */
  lemma JoinDone(n: Node, seeds: seq<Address>)
    ensures n.phase != Initialized ==> Join(n, seeds) == Outcome(n, -3)
    ensures var r := Join(n, seeds);
      n.phase == Initialized ==>
        && r.code == 0 && r.node.phase == (if seeds == [] then Connected else Joining)
        && r.node.created == n.created
             + seq(|seeds|, i requires 0 <= i < |seeds| => Posting(seeds[i], Frame(0, 0, Hello(n.self))))
        && OnlyQueued(n, r.node.(phase := n.phase))
  {
    hide PostAll, Fits, PostingsOf, AllFit, FromSome;
    var ps := HelloToAll(n.self, seeds);
    if seeds == [] {
      assert n.created + [] == n.created;
    } else {
      PostAllFrame(n, ps);
      PostAllCreates(n, ps);
      HellosPosted(n.self, seeds);
    }
  }

  lemma {:induction false} HellosPosted(self: Member, seeds: seq<Address>)
    ensures PostingsOf(HelloToAll(self, seeds)) ==
            seq(|seeds|, i requires 0 <= i < |seeds| => Posting(seeds[i], Frame(0, 0, Hello(self))))
  {
    hide AllFit;
    if seeds != [] {
      var k := |seeds| - 1;
      HellosPosted(self, seeds[..k]);
      assert HelloToAll(self, seeds)[..k] == HelloToAll(self, seeds[..k]);
      assert Postings(Plain(Hello(self)), [seeds[k]]) == [Posting(seeds[k], Plain(Hello(self)))];
    }
  }

  /** Own data gets the next number, enters clock and log whatever its size, and goes to random members if it can. */
  lemma DataSent(n: Node, data: Bytes, random: seq<nat>) returns (rumour: seq<Posting>)
    requires |random| >= |n.members|
    ensures n.phase != Connected ==> SendData(n, data, random) == Outcome(n, -3)
    ensures var r := SendData(n, data, random);
      var version := Entry(n.id, (n.dataCounter + 1) % 0x1_0000_0000);
      n.phase == Connected ==>
        && TakesIn(n, r.node, Frame(0, 0, Data(version, data)), data, rumour, random, r.code)
        && r.node.created == n.created + rumour
        && r.node.dataCounter == version.val && r.node.published == n.published + [data]
        && OnlyQueued(n, r.node.(clock := n.clock, log := n.log, accepted := n.accepted, dataCounter := n.dataCounter,
                                 published := n.published))
  {
    hide PostAll, Fits, Sent, PostingsOf, RandomRecipients, Put, FromSome, SpreadTo, Picked;
    var f := Plain(Data(Entry(n.id, Increment(n.dataCounter)), data));
    var p := Post(f, RandomRecipients(n.members, random));
    PostAllFrame(Publishing(n, data), [p]);
    PostAllCreates(Publishing(n, data), [p]);
    OnePostSent(p);
    RandomSpread(f, n.members, random);
    DataFits(f);
    rumour := if Fits(f.body) then Postings(f, p.recipients) else [];
  }

  lemma OnePostSent(p: Post)
    ensures PostingsOf(Sent([p])) == if Fits(p.frame.body) then Postings(p.frame, p.recipients) else []
    ensures AllFit([p]) <==> Fits(p.frame.body)
  {
    hide Fits;
    OnePosted(p);
    assert [p][..0] == [] && [p][0] == p;
  }

  // ----- enqueueing and sending -----

  /** An unsent envelope for this recipient, slot, size, message and number. */
  ghost predicate Unsent(e: Envelope, to: Address, slot: nat, size: nat, f: Frame, s: nat) {
    && e.recipient == to && e.slot == slot && e.size == size && e.frame == f && e.seqNum == s
    && e.attempts == 0 && e.maxAttempts == if f.body.Welcome? || f.body.Ack? then 1 else 3
  }

  lemma UnsentAppended(q: seq<Envelope>, n: uint32, f: Frame, slot: SlotIndex, size: DatagramSize, to: seq<Address>)
    requires n + |to| < WORD
    ensures var r := Enqueued(q, n, f, slot, size, to);
      && r.seqNum == n + |to| && |r.queue| == |q| + |to| && q == r.queue[..|q|]
      && forall i :: 0 <= i < |to| ==> Unsent(r.queue[|q| + i], to[i], slot, size, f, n + 1 + i)
  {
    hide Enqueued;
    EnqueuedAppends(q, n, f, slot, size, to);
  }

  /** One message: a slot is chosen, evicting if it must, whether or not the message fits. If it does, its bytes replace
      the beginning of the slot, and one unsent envelope for each recipient, under the next numbers, joins the queue. */
  lemma MessageQueued(n: Node, p: Post)
    requires n.sequenceNum + |p.recipients| < WORD
    ensures var n', a := PostOne(n, p), Acquire(n.queue);
      if !Fits(p.frame.body) then n' == n.(queue := a.queue)
      else
        var bytes := Encode(p.frame);
        && OnlyQueued(n, n') && n'.sequenceNum == n.sequenceNum + |p.recipients|
        && |n'.queue| == |a.queue| + |p.recipients| && a.queue == n'.queue[..|a.queue|]
        && (forall i :: 0 <= i < |p.recipients| ==>
              Unsent(n'.queue[|a.queue| + i], p.recipients[i], a.slot, |bytes|, p.frame, n.sequenceNum + 1 + i))
        && bytes <= n'.slots[a.slot]
        && (forall k :: |bytes| <= k < 512 ==> n'.slots[a.slot][k] == n.slots[a.slot][k])
        && forall s :: 0 <= s < 100 && s != a.slot ==> n'.slots[s] == n.slots[s]
  {
    hide Fits, Encode, Acquire, Enqueued, Stored, Postings, Unsent;
    if Fits(p.frame.body) {
      EncodedFits(p.frame);
      var a, bytes := Acquire(n.queue), Encode(p.frame);
      UnsentAppended(a.queue, n.sequenceNum, p.frame, a.slot, |bytes|, p.recipients);
      StoredIs(n.slots, a.slot, bytes);
    }
  }

  lemma StoredIs(slots: Slots, slot: SlotIndex, bytes: Bytes)
    requires |bytes| <= MESSAGE_MAX_SIZE
    ensures var r := Stored(slots, slot, bytes);
      && bytes <= r[slot]
      && (forall k :: |bytes| <= k < 512 ==> r[slot][k] == slots[slot][k])
      && forall s :: 0 <= s < 100 && s != slot ==> r[s] == slots[s]
  {
  }

  /** A call of `process_send`: the pass over the queue, and the number of datagrams written, unless a write failed. */
  lemma FlushDone(n: Node, times: seq<nat>, budget: nat)
    requires |times| >= |n.queue|
    ensures n.phase == Initialized ==> ProcessSend(n, times, budget) == Outcome(n, -3)
    ensures var r, due := ProcessSend(n, times, budget), |Going(n.queue, times, 0)|;
      n.phase != Initialized ==>
        && |r.node.writes| == |n.writes| + (if budget < due then budget else due)
        && r.code == (if budget < due then -7 else due)
        && r.node == n.(queue := r.node.queue, slots := r.node.slots, members := r.node.members, writes := r.node.writes)
  {
    hide Pass, Going, Goes, StopAt, Staying, Remaining;
    PassWritesExactly(n.queue, n.slots, n.members, n.writes, times, budget);
  }
}
