/** Choosing a slot by walking the linked queue, evicting envelopes when no slot is free. */
module EnvelopePools {
  import opened Types
  import opened Members
  import opened Outbound
  import opened EnvelopeQueues

  /** Mark the slots in use and find the most attempted envelope on the way. */
  method ScanQueue(queue: EnvelopeQueue, occupied: array<bool>) returns (oldest: EnvelopeNode?, ghost o: nat)
    requires queue.Valid() && occupied.Length == MAX_OUTPUT_MESSAGES
    requires forall s :: 0 <= s < MAX_OUTPUT_MESSAGES ==> !occupied[s]
    modifies occupied
    ensures forall s :: 0 <= s < MAX_OUTPUT_MESSAGES ==> (occupied[s] <==> Occupied(queue.View(), s))
    ensures queue.nodes != [] ==> o == OldestUpTo(queue.View(), |queue.View()|) && oldest == queue.nodes[o]
  {
    hide OldestUpTo;
    ghost var q := queue.View();
    oldest, o := null, 0;
    var head := queue.head;
    ghost var i := 0;
    while head != null
      invariant i <= |q| == |queue.nodes| && head == if i == |q| then null else queue.nodes[i]
      invariant i == 0 ==> oldest == null
      invariant i > 0 ==> o < i && o == OldestUpTo(q, i) && oldest == queue.nodes[o]
      invariant forall s :: 0 <= s < MAX_OUTPUT_MESSAGES ==> (occupied[s] <==> exists j :: 0 <= j < i && q[j].slot == s)
      decreases |q| - i
    {
      OldestStep(q, i);
      assert head.env == q[i];
      if oldest == null || head.env.attempts > oldest.env.attempts {
        oldest, o := head, i;
      }
      occupied[head.env.slot] := true;
      head := head.next;
      i := i + 1;
    }
  }

  lemma OldestStep(q: seq<Envelope>, i: nat)
    requires i < |q|
    ensures OldestUpTo(q, i + 1) ==
            if i == 0 || q[i].attempts > q[OldestUpTo(q, i)].attempts then i else OldestUpTo(q, i)
  {
  }

  method FirstFree(occupied: array<bool>, ghost q: seq<Envelope>) returns (i: nat)
    requires occupied.Length == MAX_OUTPUT_MESSAGES
    requires forall s :: 0 <= s < MAX_OUTPUT_MESSAGES ==> (occupied[s] <==> Occupied(q, s))
    ensures i == FreeSlotFrom(q, 0)
  {
    hide Occupied;
    i := 0;
    while i < MAX_OUTPUT_MESSAGES && occupied[i]
      invariant i <= MAX_OUTPUT_MESSAGES && FreeSlotFrom(q, i) == FreeSlotFrom(q, 0)
    {
      i := i + 1;
    }
  }

  method FindAvailableSlot(queue: EnvelopeQueue) returns (slot: SlotIndex)
    requires queue.Valid()
    modifies queue, queue.NodeSet()
    ensures queue.Valid() && Acquired(queue.View(), slot) == Acquire(old(queue.View()))
    ensures queue.NodeSet() <= old(queue.NodeSet())
  {
    hide Occupied, OldestUpTo, RunEnd, Cut, FreeSlotFrom, Acquire, EnvelopeQueue.Valid, EnvelopeQueue.View,
         EnvelopeQueue.NodeSet;
    ghost var q := queue.View();
    var occupied := new bool[MAX_OUTPUT_MESSAGES](_ => false);
    ghost var o;
    var oldest;
    oldest, o := ScanQueue(queue, occupied);
    AcquireIs(q);
    queue.Front();
    var i := FirstFree(occupied, q);
    if i < MAX_OUTPUT_MESSAGES { return i; }
    queue.At(o);
    slot := oldest.env.slot;
    EvictFrom(queue, oldest, o);
  }

  /** Drop `oldest` and the envelopes that follow it on the same slot. */
  method EvictFrom(queue: EnvelopeQueue, oldest: EnvelopeNode, ghost o: nat)
    requires queue.Valid() && o < |queue.nodes| && oldest == queue.nodes[o]
    modifies queue, queue.NodeSet()
    ensures queue.Valid()
    ensures var q := old(queue.View()); queue.View() == Cut(q, o, RunEnd(q, o, q[o].slot))
    ensures queue.NodeSet() <= old(queue.NodeSet())
  {
    hide RunEnd, Cut, EnvelopeQueue.View, EnvelopeQueue.Valid;
    ghost var q := queue.View();
    ghost var ns := queue.nodes;
    ghost var j := o;
    queue.At(o);
    var chosen := oldest.env.slot;
    var current: EnvelopeNode? := oldest;
    CutNothing(q, o);
    CutNothing(ns, o);
    while current != null && current.env.slot == chosen
      invariant o <= j <= |q| && Cutting(queue, q, ns, o, j)
      invariant queue.NodeSet() <= old(queue.NodeSet())
      invariant current == if j == |q| then null else ns[j]
      invariant current != null ==> current.env == q[j]
      invariant RunEnd(q, o, chosen) == RunEnd(q, j, chosen)
      decreases |q| - j
    {
      RunEndStep(q, j, chosen);
      current := CutOne(queue, current, q, ns, o, j);
      j := j + 1;
    }
    RunEndStep(q, j, chosen);
  }

  /** The queue without positions `o` up to `j` of the original one. */
  ghost predicate Cutting(queue: EnvelopeQueue, q: seq<Envelope>, ns: seq<EnvelopeNode>, o: nat, j: nat)
    reads queue, queue.nodes
    requires o <= j <= |q|
  {
    |q| == |ns| && queue.Valid() && queue.nodes == Cut(ns, o, j) && queue.View() == Cut(q, o, j)
  }

  method CutOne(queue: EnvelopeQueue, current: EnvelopeNode, ghost q: seq<Envelope>, ghost ns: seq<EnvelopeNode>,
                ghost o: nat, ghost j: nat)
    returns (next: EnvelopeNode?)
    requires o <= j < |q| && Cutting(queue, q, ns, o, j) && current == ns[j]
    modifies queue, queue.NodeSet()
    ensures Cutting(queue, q, ns, o, j + 1) && next == if j + 1 == |q| then null else ns[j + 1]
    ensures next != null ==> next.env == q[j + 1]
    ensures queue.NodeSet() <= old(queue.NodeSet())
  {
    CutStep(q, o, j);
    CutStep(ns, o, j);
    queue.At(o);
    next := current.next;
    hide Cut, Without, EnvelopeQueue.View, EnvelopeQueue.Valid;
    queue.Remove(current, o);
    if j + 1 < |q| {
      CutStep(q, o, j + 1);
      CutStep(ns, o, j + 1);
      queue.At(o);
    }
  }

  lemma CutNothing<T>(s: seq<T>, o: nat)
    requires o <= |s|
    ensures Cut(s, o, o) == s
  {
  }

  lemma CutStep<T>(s: seq<T>, o: nat, j: nat)
    requires o <= j < |s|
    ensures var c := Cut(s, o, j);
      && |c| == |s| - (j - o) && c[o] == s[j]
      && (j + 1 < |s| ==> c[o + 1] == s[j + 1])
      && Without(c, o) == Cut(s, o, j + 1)
  {
  }

  lemma RunEndStep(q: seq<Envelope>, j: nat, s: SlotIndex)
    requires j <= |q|
    ensures RunEnd(q, j, s) == if j < |q| && q[j].slot == s then RunEnd(q, j + 1, s) else j
  {
  }

  /** The queue without the envelopes right behind position `i` for the same recipient. */
  function WithoutFollowers(q: seq<Envelope>, i: nat): (r: seq<Envelope>)
    requires i < |q|
    ensures i < |r|
  {
    Cut(q, i + 1, SameRecipientEnd(q, i + 1, q[i].recipient))
  }

  /** Drop the envelopes right behind `current` that go to the same recipient; what follows them is next. */
  method DropFollowers(queue: EnvelopeQueue, current: EnvelopeNode, ghost i: nat) returns (next: EnvelopeNode?)
    requires queue.Valid() && i < |queue.nodes| && queue.nodes[i] == current
    modifies queue, queue.NodeSet()
    ensures queue.Valid() && queue.NodeSet() <= old(queue.NodeSet())
    ensures queue.View() == WithoutFollowers(old(queue.View()), i)
    ensures i < |queue.nodes| && queue.nodes[i] == current
    ensures next == if i + 1 == |queue.nodes| then null else queue.nodes[i + 1]
  {
    hide SameRecipientEnd, Cut, EnvelopeQueue.View, EnvelopeQueue.Valid;
    ghost var q := queue.View();
    ghost var ns := queue.nodes;
    ghost var o := i + 1;
    ghost var j := o;
    queue.At(i);
    if o < |ns| { queue.At(o); }
    var recipient := current.env.recipient;
    next := current.next;
    CutNothing(q, o);
    CutNothing(ns, o);
    while next != null && next.env.recipient <= recipient
      invariant o <= j <= |q| && Cutting(queue, q, ns, o, j)
      invariant queue.NodeSet() <= old(queue.NodeSet())
      invariant next == if j == |q| then null else ns[j]
      invariant next != null ==> next.env == q[j]
      invariant SameRecipientEnd(q, o, recipient) == SameRecipientEnd(q, j, recipient)
      decreases |q| - j
    {
      SameRecipientStep(q, j, recipient);
      next := CutOne(queue, next, q, ns, o, j);
      j := j + 1;
    }
    SameRecipientStep(q, j, recipient);
    CutKeepsFront(ns, i, j);
  }

  lemma SameRecipientStep(q: seq<Envelope>, j: nat, recipient: Address)
    requires j <= |q|
    ensures SameRecipientEnd(q, j, recipient) ==
            if j < |q| && q[j].recipient <= recipient then SameRecipientEnd(q, j + 1, recipient) else j
  {
  }

  lemma CutKeepsFront<T>(s: seq<T>, i: nat, j: nat)
    requires i + 1 <= j <= |s|
    ensures var c := Cut(s, i + 1, j);
      |c| == |s| - (j - (i + 1)) && c[i] == s[i] && (j < |s| ==> c[i + 1] == s[j])
  {
  }

  /** The run of a recipient, counted within a suffix. */
  lemma {:induction false} SameRecipientShift(q: seq<Envelope>, i: nat, k: nat, recipient: Address)
    requires i + k <= |q|
    ensures SameRecipientEnd(q, i + k, recipient) == i + SameRecipientEnd(q[i..], k, recipient)
    decreases |q| - i - k
  {
    if i + k < |q| { SameRecipientShift(q, i, k + 1, recipient); }
  }
}
