/** Reassembly of xTEDS documents sent in segments (sdm/dm/xTEDSSegmentBuilder.cpp). */
module SegmentBuilder {
  import opened Ids

  const MAX_NUMBER_SEGMENTS := 4
  const SEGMENT_MAX_XTEDS_SIZE := 8070
  const MAX_SEGMENT_NODES := 5
  const MAX_XTEDS_SEQUENCE_VALUE := 15
  const FLAGS := 16
  const BUFFER_SIZE := MAX_NUMBER_SEGMENTS * SEGMENT_MAX_XTEDS_SIZE

  /** One segment: its zero-based number, the announced total, and the text after these two bytes. */
  datatype Message = Message(source: ComponentId, seqNum: nat, total: nat, payload: string)

  datatype Node = Node(inUse: bool, buffer: string, numSegments: nat, received: seq<bool>, id: ComponentId)

  const NO_FLAGS := [
    false, false, false, false, false, false, false, false,
    false, false, false, false, false, false, false, false]

  /** What AddSegmentNode leaves in the slot it takes. */
  const CLEARED := Node(true, "", 0, NO_FLAGS, NO_COMPONENT)

  /** The node of a transfer that has announced itself but stored nothing yet. */
  function Announced(m: Message): Node {
    Node(true, "", m.total, NO_FLAGS, m.source)
  }

  predicate Shape(ns: seq<Node>) {
    |ns| == MAX_SEGMENT_NODES && forall i :: 0 <= i < |ns| ==> |ns[i].received| == FLAGS
  }

  /** FindNodeEntry: the first live node of the sender among the first four slots; 4 when there is none. */
  function Find(ns: seq<Node>, id: ComponentId, from: nat): (i: nat)
    requires Shape(ns) && from <= MAX_NUMBER_SEGMENTS
    ensures from <= i <= MAX_NUMBER_SEGMENTS
    ensures i < MAX_NUMBER_SEGMENTS ==> ns[i].inUse && ns[i].id == id
    ensures forall k :: from <= k < i ==> !(ns[k].inUse && ns[k].id == id)
    decreases MAX_NUMBER_SEGMENTS - from
  {
    if from == MAX_NUMBER_SEGMENTS || (ns[from].inUse && ns[from].id == id) then from else Find(ns, id, from + 1)
  }

  /** AddSegmentNode: the first free slot among all five; 5 when there is none. */
  function Free(ns: seq<Node>, from: nat): (i: nat)
    requires Shape(ns) && from <= MAX_SEGMENT_NODES
    ensures from <= i <= MAX_SEGMENT_NODES
    ensures i < MAX_SEGMENT_NODES ==> !ns[i].inUse
    ensures forall k :: from <= k < i ==> ns[k].inUse
    decreases MAX_SEGMENT_NODES - from
  {
    if from == MAX_SEGMENT_NODES || !ns[from].inUse then from else Free(ns, from + 1)
  }

  predicate IsSegmented(m: Message) {
    m.seqNum <= MAX_XTEDS_SEQUENCE_VALUE && 0 < m.total <= MAX_XTEDS_SEQUENCE_VALUE
  }

  /** Every segment before this one has arrived and none from it on. */
  predicate SentInOrder(n: Node, seqNum: nat)
    requires |n.received| == FLAGS
  {
    forall i :: 0 <= i < FLAGS ==> (n.received[i] <==> i < seqNum)
  }

  function Extended(n: Node, m: Message): Node
    requires |n.received| == FLAGS && m.seqNum < FLAGS
  {
    Node(n.inUse, n.buffer + m.payload, n.numSegments, n.received[m.seqNum := true], n.id)
  }

  function Vacated(n: Node): Node {
    n.(inUse := false)
  }

  /** DeleteNode marks the sender's node free, if the scan of four slots finds it. */
  function Deleted(ns: seq<Node>, id: ComponentId): (r: seq<Node>)
    requires Shape(ns)
    ensures Shape(r)
  {
    var i := Find(ns, id, 0);
    if i < MAX_NUMBER_SEGMENTS then ns[i := Vacated(ns[i])] else ns
  }

  /** A segment for the sender's own node i: a repeat is accepted and ignored, a gap is refused. */
  function Continued(ns: seq<Node>, i: nat, m: Message): (r: (bool, seq<Node>))
    requires Shape(ns) && i < |ns| && m.seqNum < FLAGS
    ensures Shape(r.1)
  {
    if ns[i].received[m.seqNum] then (true, ns)
    else if !SentInOrder(ns[i], m.seqNum) then (false, ns)
    else (true, ns[i := Extended(ns[i], m)])
  }

  /** A first segment in the free slot j: refused again when the announced document cannot fit the buffer. */
  function Begun(ns: seq<Node>, j: nat, m: Message): (r: (bool, seq<Node>))
    requires Shape(ns) && j < |ns| && m.seqNum < FLAGS
    ensures Shape(r.1)
  {
    if BUFFER_SIZE < m.total * SEGMENT_MAX_XTEDS_SIZE then (false, Deleted(ns[j := Announced(m)], m.source))
    else (true, ns[j := Extended(Announced(m), m)])
  }

  /** ApplySegment: whether the segment was accepted, and the pool after it. */
  function Applied(ns: seq<Node>, m: Message): (r: (bool, seq<Node>))
    requires Shape(ns)
    ensures Shape(r.1)
  {
    if !IsSegmented(m) || m.seqNum + 1 > m.total then (false, ns)
    else if Find(ns, m.source, 0) < MAX_NUMBER_SEGMENTS then Continued(ns, Find(ns, m.source, 0), m)
    else if m.seqNum != 0 || Free(ns, 0) == MAX_SEGMENT_NODES then (false, ns)
    else Begun(ns, Free(ns, 0), m)
  }

  predicate Complete(n: Node)
    requires |n.received| == FLAGS
  {
    forall k :: 0 <= k < n.numSegments && k < FLAGS ==> n.received[k]
  }

  /** CheckIsFinished: the sender has a node and every announced segment is in it. */
  predicate Finished(ns: seq<Node>, id: ComponentId)
    requires Shape(ns)
  {
    var i := Find(ns, id, 0);
    i < MAX_NUMBER_SEGMENTS && Complete(ns[i])
  }

  /** GetFullxTEDS: the document, if it is complete and fits; the node is freed in either case. */
  function Taken(ns: seq<Node>, id: ComponentId, maxSize: nat): (r: (Option<string>, seq<Node>))
    requires Shape(ns)
    ensures Shape(r.1)
  {
    if !Finished(ns, id) then (None, ns)
    else
      var doc := ns[Find(ns, id, 0)].buffer;
      (if |doc| > maxSize then None else Some(doc), Deleted(ns, id))
  }

  class XtedsSegmentBuilder {
    const nodes: array<Node>

    ghost predicate Valid()
      reads nodes
    {
      nodes.Length == MAX_SEGMENT_NODES && Shape(nodes[..])
    }

    ghost function View(): seq<Node>
      reads nodes
    {
      nodes[..]
    }

    constructor ()
      ensures Valid() && fresh(nodes)
      ensures forall i :: 0 <= i < MAX_SEGMENT_NODES ==> !View()[i].inUse
    {
      nodes := new Node[MAX_SEGMENT_NODES](_ => Node(false, "", 0, NO_FLAGS, NO_COMPONENT));
    }

    method FindNodeEntry(id: ComponentId) returns (i: nat)
      requires Valid()
      ensures i == Find(View(), id, 0)
    {
      i := 0;
      while i < MAX_NUMBER_SEGMENTS && !(nodes[i].inUse && nodes[i].id == id)
        invariant 0 <= i <= MAX_NUMBER_SEGMENTS
        invariant forall k :: 0 <= k < i ==> !(nodes[k].inUse && nodes[k].id == id)
      {
        i := i + 1;
      }
    }

    method AddSegmentNode() returns (j: nat)
      requires Valid()
      modifies nodes
      ensures Valid() && j == Free(old(View()), 0)
      ensures View() == if j < MAX_SEGMENT_NODES then old(View())[j := CLEARED] else old(View())
    {
      j := 0;
      while j < MAX_SEGMENT_NODES && nodes[j].inUse
        invariant 0 <= j <= MAX_SEGMENT_NODES
        invariant forall k :: 0 <= k < j ==> nodes[k].inUse
      {
        j := j + 1;
      }
      if j < MAX_SEGMENT_NODES { nodes[j] := CLEARED; }
    }

    method DeleteNode(id: ComponentId) returns (deleted: bool)
      requires Valid()
      modifies nodes
      ensures Valid() && View() == Deleted(old(View()), id)
      ensures deleted <==> Find(old(View()), id, 0) < MAX_NUMBER_SEGMENTS
    {
      var i := FindNodeEntry(id);
      if i == MAX_NUMBER_SEGMENTS { return false; }
      nodes[i] := nodes[i].(inUse := false);
      return true;
    }

    method IsInOrder(i: nat, seqNum: nat) returns (inOrder: bool)
      requires Valid() && i < MAX_SEGMENT_NODES
      ensures inOrder <==> SentInOrder(nodes[i], seqNum)
    {
      for k := 0 to FLAGS
        invariant forall h :: 0 <= h < k ==> (nodes[i].received[h] <==> h < seqNum)
      {
        if k < seqNum && !nodes[i].received[k] { return false; }
        if k >= seqNum && nodes[i].received[k] { return false; }
      }
      return true;
    }

    method ApplySegment(m: Message) returns (accepted: bool)
      requires Valid()
      modifies nodes
      ensures Valid() && (accepted, View()) == Applied(old(View()), m)
    {
      if !IsSegmented(m) { return false; }
      if m.seqNum + 1 > m.total { return false; }
      var i := FindNodeEntry(m.source);
      if i == MAX_NUMBER_SEGMENTS {
        if m.seqNum != 0 { return false; }
        i := AddSegmentNode();
        if i == MAX_SEGMENT_NODES { return false; }
        nodes[i] := nodes[i].(numSegments := m.total, id := m.source);
        assert View() == old(View())[i := Announced(m)];
        if BUFFER_SIZE < m.total * SEGMENT_MAX_XTEDS_SIZE {
          var _ := DeleteNode(m.source);
          return false;
        }
      } else {
        if nodes[i].received[m.seqNum] { return true; }
        var inOrder := IsInOrder(i, m.seqNum);
        if !inOrder { return false; }
      }
      ghost var n := nodes[i];
      nodes[i] := nodes[i].(buffer := nodes[i].buffer + m.payload);
      nodes[i] := nodes[i].(received := nodes[i].received[m.seqNum := true]);
      assert View() == old(View())[i := Extended(n, m)];
      return true;
    }

    method CheckIsFinished(id: ComponentId) returns (finished: bool)
      requires Valid()
      ensures finished <==> Finished(View(), id)
    {
      var i := FindNodeEntry(id);
      if i == MAX_NUMBER_SEGMENTS { return false; }
      var k := 0;
      while k < nodes[i].numSegments && k < FLAGS
        invariant 0 <= k <= FLAGS
        invariant forall h :: 0 <= h < k ==> nodes[i].received[h]
      {
        if !nodes[i].received[k] { return false; }
        k := k + 1;
      }
      return true;
    }

    method GetFullxTEDS(id: ComponentId, maxSize: nat) returns (doc: Option<string>)
      requires Valid()
      modifies nodes
      ensures Valid() && (doc, View()) == Taken(old(View()), id, maxSize)
    {
      var finished := CheckIsFinished(id);
      if !finished { return None; }
      var i := FindNodeEntry(id);
      var text := nodes[i].buffer;
      var _ := DeleteNode(id);
      doc := if |text| > maxSize then None else Some(text);
    }
  }
}
