/** Interleaved segmented transfers: what the pool of nodes holds and what it delivers. */
module SegmentTransfers {
  import opened Ids
  import opened SegmentBuilder

  /** The document each sender is sending, cut into its segments. */
  type Documents = map<ComponentId, seq<string>>

  function Joined(segments: seq<string>): string {
    if |segments| == 0 then "" else Joined(segments[..|segments| - 1]) + segments[|segments| - 1]
  }

  /** A document that can be announced, in segments that fit a message. */
  predicate Sendable(segments: seq<string>) {
    1 <= |segments| <= MAX_XTEDS_SEQUENCE_VALUE
    && forall k :: 0 <= k < |segments| ==> |segments[k]| <= SEGMENT_MAX_XTEDS_SIZE
  }

  /** Segment k of the sender's document, sent now for the first time or again. */
  predicate Honest(docs: Documents, m: Message) {
    && m.source in docs && Sendable(docs[m.source])
    && m.total == |docs[m.source]| && m.seqNum < m.total && m.payload == docs[m.source][m.seqNum]
  }

  /** The node holds exactly the first k segments of the document. */
  ghost predicate Holds(n: Node, segments: seq<string>, k: nat) {
    && |n.received| == FLAGS && 1 <= k <= |segments|
    && n.numSegments == |segments| <= MAX_NUMBER_SEGMENTS
    && n.buffer == Joined(segments[..k])
    && forall i :: 0 <= i < FLAGS ==> (n.received[i] <==> i < k)
  }

  ghost predicate NodeSound(n: Node, docs: Documents) {
    n.inUse ==> n.id in docs && Sendable(docs[n.id]) && exists k: nat :: Holds(n, docs[n.id], k)
  }

  /**
   * The four slots that lookups scan: each live node is sound, and no two belong to one sender. The fifth slot, once
   * taken, holds at most a first segment.
   */
  ghost predicate PoolSound(ns: seq<Node>, docs: Documents) {
    && Shape(ns)
    && (ns[MAX_NUMBER_SEGMENTS].inUse ==> |ns[MAX_NUMBER_SEGMENTS].buffer| <= SEGMENT_MAX_XTEDS_SIZE)
    && (forall i :: 0 <= i < MAX_NUMBER_SEGMENTS ==> NodeSound(ns[i], docs))
    && (forall i, k :: 0 <= i < k < MAX_NUMBER_SEGMENTS && ns[i].inUse && ns[k].inUse ==> ns[i].id != ns[k].id)
  }

  /** What arrives for a sender that has a node with k segments: the next one extends it, others change nothing. */
  lemma {:induction false} SegmentForNode(ns: seq<Node>, docs: Documents, m: Message, k: nat)
    requires PoolSound(ns, docs) && Honest(docs, m)
    requires Find(ns, m.source, 0) < MAX_NUMBER_SEGMENTS
    requires Holds(ns[Find(ns, m.source, 0)], docs[m.source], k)
    ensures var i := Find(ns, m.source, 0);
            var r := Applied(ns, m);
            && (r.0 <==> m.seqNum <= k)
            && (m.seqNum != k ==> r.1 == ns)
            && (m.seqNum == k ==> r.1 == ns[i := r.1[i]] && r.1[i].inUse && r.1[i].id == m.source
                                  && Holds(r.1[i], docs[m.source], k + 1))
  {
    var i := Find(ns, m.source, 0);
    var segments := docs[m.source];
    if m.seqNum == k {
      assert SentInOrder(ns[i], k);
      assert segments[..k + 1][..k] == segments[..k];
    } else if m.seqNum > k {
      assert !ns[i].received[k];
    }
  }

  /** A new transfer is tracked exactly when a scanned slot is free and its document fits four segments. */
  lemma FirstSegmentIsTrackedIff(ns: seq<Node>, docs: Documents, m: Message)
    requires PoolSound(ns, docs) && Honest(docs, m) && m.seqNum == 0
    requires Find(ns, m.source, 0) == MAX_NUMBER_SEGMENTS
    ensures var r := Applied(ns, m);
            var j := Free(ns, 0);
            && (Find(r.1, m.source, 0) < MAX_NUMBER_SEGMENTS <==>
                j < MAX_NUMBER_SEGMENTS && m.total <= MAX_NUMBER_SEGMENTS)
            && (r.0 <==> j < MAX_SEGMENT_NODES && m.total <= MAX_NUMBER_SEGMENTS)
            && (j < MAX_NUMBER_SEGMENTS && m.total <= MAX_NUMBER_SEGMENTS ==>
                  r.1 == ns[j := r.1[j]] && r.1[j].inUse && r.1[j].id == m.source && Holds(r.1[j], docs[m.source], 1))
            && (!(j < MAX_NUMBER_SEGMENTS && m.total <= MAX_NUMBER_SEGMENTS) ==>
                  forall k :: 0 <= k < MAX_NUMBER_SEGMENTS ==> r.1[k] == ns[k] || (!r.1[k].inUse && !ns[k].inUse))
  {}

  datatype Event =
    | Arrive(m: Message)
    | Take(id: ComponentId, maxSize: nat)
    | Renew(id: ComponentId, segments: seq<string>)

  datatype State = State(ns: seq<Node>, docs: Documents)

  /** Messages carry the sender's current document, which changes only while no scanned node holds part of it. */
  predicate Allowed(s: State, e: Event)
    requires Shape(s.ns)
  {
    match e
    case Arrive(m) => Honest(s.docs, m)
    case Take(_, _) => true
    case Renew(id, segments) => Sendable(segments) && Find(s.ns, id, 0) == MAX_NUMBER_SEGMENTS
  }

  function After(s: State, e: Event): (r: State)
    requires Shape(s.ns)
    ensures Shape(r.ns)
  {
    match e
    case Arrive(m) => s.(ns := Applied(s.ns, m).1)
    case Take(id, maxSize) => s.(ns := Taken(s.ns, id, maxSize).1)
    case Renew(id, segments) => s.(docs := s.docs[id := segments])
  }

  lemma ReplacedNodeKeepsPool(ns: seq<Node>, docs: Documents, i: nat, n: Node)
    requires PoolSound(ns, docs) && i < MAX_NUMBER_SEGMENTS && |n.received| == FLAGS
    requires NodeSound(n, docs)
    requires n.inUse ==> forall k :: 0 <= k < MAX_NUMBER_SEGMENTS && k != i && ns[k].inUse ==> ns[k].id != n.id
    ensures PoolSound(ns[i := n], docs)
  {}

  lemma ArrivalKeepsPool(ns: seq<Node>, docs: Documents, m: Message)
    requires PoolSound(ns, docs) && Honest(docs, m)
    ensures PoolSound(Applied(ns, m).1, docs)
  {
    var i := Find(ns, m.source, 0);
    var r := Applied(ns, m);
    if i < MAX_NUMBER_SEGMENTS {
      assert NodeSound(ns[i], docs);
      var k: nat :| Holds(ns[i], docs[m.source], k);
      SegmentForNode(ns, docs, m, k);
      if m.seqNum == k { ReplacedNodeKeepsPool(ns, docs, i, r.1[i]); }
    } else if m.seqNum == 0 {
      FirstSegmentIsTrackedIff(ns, docs, m);
      var j := Free(ns, 0);
      if j < MAX_NUMBER_SEGMENTS && m.total <= MAX_NUMBER_SEGMENTS {
        ReplacedNodeKeepsPool(ns, docs, j, r.1[j]);
      } else {
        forall k | 0 <= k < MAX_NUMBER_SEGMENTS
          ensures NodeSound(r.1[k], docs)
        {
          assert NodeSound(ns[k], docs);
        }
      }
    }
  }

  lemma StepKeepsPool(s: State, e: Event)
    requires PoolSound(s.ns, s.docs) && Allowed(s, e)
    ensures PoolSound(After(s, e).ns, After(s, e).docs)
  {
    match e {
      case Arrive(m) => ArrivalKeepsPool(s.ns, s.docs, m);
      case Take(id, maxSize) =>
        var i := Find(s.ns, id, 0);
        if i < MAX_NUMBER_SEGMENTS { ReplacedNodeKeepsPool(s.ns, s.docs, i, Vacated(s.ns[i])); }
      case Renew(id, segments) =>
        forall i | 0 <= i < MAX_NUMBER_SEGMENTS
          ensures NodeSound(s.ns[i], s.docs[id := segments])
        {
          assert NodeSound(s.ns[i], s.docs);
        }
    }
  }

  ghost predicate LegalRun(s: State, es: seq<Event>)
    requires Shape(s.ns)
    decreases |es|
  {
    |es| > 0 ==> Allowed(s, es[0]) && LegalRun(After(s, es[0]), es[1..])
  }

  function Run(s: State, es: seq<Event>): (r: State)
    requires Shape(s.ns)
    ensures Shape(r.ns)
    decreases |es|
  {
    if |es| == 0 then s else Run(After(s, es[0]), es[1..])
  }

  /** In any interleaving of transfers and repeats the scanned nodes hold prefixes of their senders' documents. */
  lemma {:induction false} RunKeepsPool(s: State, es: seq<Event>)
    requires PoolSound(s.ns, s.docs) && LegalRun(s, es)
    ensures PoolSound(Run(s, es).ns, Run(s, es).docs)
    decreases |es|
  {
    if |es| > 0 {
      StepKeepsPool(s, es[0]);
      RunKeepsPool(After(s, es[0]), es[1..]);
    }
  }

  /** Nothing that arrives or is taken for one sender touches the node of another, in any of the five slots. */
  lemma OtherSendersUntouched(ns: seq<Node>, m: Message, maxSize: nat, i: nat)
    requires Shape(ns) && i < MAX_SEGMENT_NODES && ns[i].inUse && ns[i].id != m.source
    ensures Applied(ns, m).1[i] == ns[i] && Taken(ns, m.source, maxSize).1[i] == ns[i]
  {}

  /**
   * A document is delivered exactly when the sender's node holds all of it and it fits the caller's buffer;
   * what is delivered is the whole document in order, and the slot is free afterwards.
   */
  lemma {:induction false} DeliveredIffComplete(ns: seq<Node>, docs: Documents, id: ComponentId, maxSize: nat)
    requires PoolSound(ns, docs)
    ensures var r := Taken(ns, id, maxSize);
            var i := Find(ns, id, 0);
            && (r.0.Some? <==>
                && i < MAX_NUMBER_SEGMENTS && Holds(ns[i], docs[id], |docs[id]|) && |Joined(docs[id])| <= maxSize)
            && (r.0.Some? ==> r.0.value == Joined(docs[id]) && Find(r.1, id, 0) == MAX_NUMBER_SEGMENTS)
  {
    var i := Find(ns, id, 0);
    if i < MAX_NUMBER_SEGMENTS {
      assert NodeSound(ns[i], docs);
      var segments := docs[id];
      assert segments[..|segments|] == segments;
      var k: nat :| Holds(ns[i], segments, k);
      if k < |segments| { assert !ns[i].received[k]; }
      assert Finished(ns, id) <==> k == |segments|;
      var r := Deleted(ns, id);
      assert forall h :: 0 <= h < MAX_NUMBER_SEGMENTS && h != i ==> r[h] == ns[h];
    }
  }

  /** No live node, in any of the five slots, ever holds more text than its buffer. */
  lemma BufferIsNeverOverrun(ns: seq<Node>, docs: Documents, i: nat)
    requires PoolSound(ns, docs) && i < MAX_SEGMENT_NODES && ns[i].inUse
    ensures |ns[i].buffer| <= BUFFER_SIZE
  {
    if i < MAX_NUMBER_SEGMENTS {
      assert NodeSound(ns[i], docs);
      var k: nat :| Holds(ns[i], docs[ns[i].id], k);
      JoinedLength(docs[ns[i].id][..k]);
    }
  }

  lemma {:induction false} JoinedLength(segments: seq<string>)
    requires forall k :: 0 <= k < |segments| ==> |segments[k]| <= SEGMENT_MAX_XTEDS_SIZE
    ensures |Joined(segments)| <= |segments| * SEGMENT_MAX_XTEDS_SIZE
    decreases |segments|
  {
    if |segments| > 0 { JoinedLength(segments[..|segments| - 1]); }
  }

  /** The pool after segments k, k + 1, ... of the sender's document arrive in turn. */
  function ArrivedFrom(ns: seq<Node>, id: ComponentId, segments: seq<string>, k: nat): (r: seq<Node>)
    requires Shape(ns) && k <= |segments|
    ensures Shape(r)
    decreases |segments| - k
  {
    if k == |segments| then ns
    else ArrivedFrom(Applied(ns, Message(id, k, |segments|, segments[k])).1, id, segments, k + 1)
  }

  lemma {:induction false} ArrivalsComplete(ns: seq<Node>, docs: Documents, id: ComponentId, k: nat)
    requires PoolSound(ns, docs) && id in docs && Sendable(docs[id])
    requires Find(ns, id, 0) < MAX_NUMBER_SEGMENTS && Holds(ns[Find(ns, id, 0)], docs[id], k)
    ensures var r := ArrivedFrom(ns, id, docs[id], k);
            && PoolSound(r, docs)
            && Find(r, id, 0) < MAX_NUMBER_SEGMENTS && Holds(r[Find(r, id, 0)], docs[id], |docs[id]|)
    decreases |docs[id]| - k
  {
    var segments := docs[id];
    if k < |segments| {
      var m := Message(id, k, |segments|, segments[k]);
      var i := Find(ns, id, 0);
      SegmentForNode(ns, docs, m, k);
      ArrivalKeepsPool(ns, docs, m);
      var r := Applied(ns, m).1;
      assert Find(r, id, 0) == i by { assert forall h :: 0 <= h < i ==> r[h] == ns[h]; }
      ArrivalsComplete(r, docs, id, k + 1);
    }
  }

  /** Round trip: a document of at most four segments that finds a scanned slot free is delivered as it was sent. */
  lemma {:induction false} WholeTransferIsDelivered(ns: seq<Node>, docs: Documents, id: ComponentId, maxSize: nat)
    requires PoolSound(ns, docs) && id in docs && Sendable(docs[id])
    requires Find(ns, id, 0) == MAX_NUMBER_SEGMENTS && Free(ns, 0) < MAX_NUMBER_SEGMENTS
    requires |docs[id]| <= MAX_NUMBER_SEGMENTS && |Joined(docs[id])| <= maxSize
    ensures Taken(ArrivedFrom(ns, id, docs[id], 0), id, maxSize).0 == Some(Joined(docs[id]))
  {
    var segments := docs[id];
    var m := Message(id, 0, |segments|, segments[0]);
    FirstSegmentIsTrackedIff(ns, docs, m);
    ArrivalKeepsPool(ns, docs, m);
    var r := Applied(ns, m).1;
    var j := Free(ns, 0);
    assert Find(r, id, 0) == j;
    ArrivalsComplete(r, docs, id, 1);
    DeliveredIffComplete(ArrivedFrom(ns, id, segments, 0), docs, id, maxSize);
  }

  lemma StepKeepsFifthSlot(s: State, e: Event)
    requires Shape(s.ns) && s.ns[MAX_NUMBER_SEGMENTS].inUse
    ensures After(s, e).ns[MAX_NUMBER_SEGMENTS] == s.ns[MAX_NUMBER_SEGMENTS]
  {}

  /** Allocation uses a fifth slot that no lookup scans: once taken, nothing that arrives or is taken ever frees it. */
  lemma {:induction false} FifthSlotIsNeverFreed(s: State, es: seq<Event>)
    requires Shape(s.ns) && s.ns[MAX_NUMBER_SEGMENTS].inUse
    ensures Run(s, es).ns[MAX_NUMBER_SEGMENTS] == s.ns[MAX_NUMBER_SEGMENTS]
    decreases |es|
  {
    if |es| > 0 {
      StepKeepsFifthSlot(s, es[0]);
      FifthSlotIsNeverFreed(After(s, es[0]), es[1..]);
    }
  }

  // ----- any segment at all -----

  /** Slot i is the first of the four that are scanned in which the sender has a live node. */
  ghost predicate HasNode(ns: seq<Node>, id: ComponentId, i: nat) {
    i < 4 && i < |ns| && ns[i].inUse && ns[i].id == id && forall k :: 0 <= k < i ==> !(ns[k].inUse && ns[k].id == id)
  }

  /**
   * For a sender that has a node a segment is accepted exactly when its numbers make sense and it repeats one that has
   * arrived or follows the last one; it is stored if it is new, and nothing else changes.
   */
  lemma ContinuationIsAcceptedIff(ns: seq<Node>, m: Message, i: nat)
    requires Shape(ns) && HasNode(ns, m.source, i)
    ensures var r := Applied(ns, m);
            var next := m.seqNum < m.total <= 15 && forall k :: 0 <= k < 16 ==> (ns[i].received[k] <==> k < m.seqNum);
            && (r.0 <==> next || (m.seqNum < m.total <= 15 && ns[i].received[m.seqNum]))
            && r.1 == if !next then ns
                      else ns[i := Node(true, ns[i].buffer + m.payload, ns[i].numSegments,
                                        ns[i].received[m.seqNum := true], m.source)]
  {
    assert Find(ns, m.source, 0) == i;
  }

  /**
   * For a sender without a node it is accepted exactly when its numbers make sense, it is the first, some slot is free,
   * and the document is announced in at most four segments.
   */
  lemma StartIsAcceptedIff(ns: seq<Node>, m: Message)
    requires Shape(ns) && forall k :: 0 <= k < 4 ==> !(ns[k].inUse && ns[k].id == m.source)
    ensures Applied(ns, m).0 <==> m.seqNum == 0 < m.total <= 4 && exists j :: 0 <= j < 5 && !ns[j].inUse
  {
    assert Find(ns, m.source, 0) == MAX_NUMBER_SEGMENTS;
  }

  /** A first segment that is refused for its size takes the fifth slot for good, if only that one is free. */
  lemma RefusalTakesFifthSlot(ns: seq<Node>, m: Message)
    requires Shape(ns) && !Applied(ns, m).0
    requires forall k :: 0 <= k < 4 ==> !(ns[k].inUse && ns[k].id == m.source)
    ensures var r := Applied(ns, m).1;
            && (forall k :: 0 <= k < 4 ==> r[k].inUse == ns[k].inUse)
            && (r[4].inUse != ns[4].inUse <==>
                m.seqNum == 0 && 4 < m.total <= 15 && !ns[4].inUse && forall k :: 0 <= k < 4 ==> ns[k].inUse)
  {
    assert Find(ns, m.source, 0) == MAX_NUMBER_SEGMENTS;
  }
}
