/** Who subscribes to which provider, and the notices when one finishes (sdm/dm/ProviderSubscriptionList.cpp). */
module ProviderSubscriptions {
  import opened Ids
  import opened Sequences

  datatype ProviderSubscription = ProviderSubscription(provider: ComponentId, subscriber: ComponentId, mid: int)

  /** SDMDeletesub: tells the provider `source` to stop sending `mid` to `destination`. */
  datatype Deletesub = Deletesub(source: ComponentId, destination: ComponentId, mid: int)

  function NoticeFor(s: ProviderSubscription): Deletesub {
    Deletesub(s.provider, s.subscriber, s.mid)
  }

  function Notices(ss: seq<ProviderSubscription>): (r: seq<Deletesub>)
    ensures |r| == |ss|
    ensures forall i :: 0 <= i < |ss| ==> r[i] == NoticeFor(ss[i])
  {
    if |ss| == 0 then [] else [NoticeFor(ss[0])] + Notices(ss[1..])
  }

  function IsPair(subscriber: ComponentId, mid: int): ProviderSubscription -> bool {
    (s: ProviderSubscription) => s.subscriber == subscriber && s.mid == mid
  }

  /** A finished subscriber is matched by address and port only. */
  function IsSubscriber(id: ComponentId): ProviderSubscription -> bool {
    (s: ProviderSubscription) => s.subscriber.address == id.address && s.subscriber.port == id.port
  }

  function IsProvider(id: ComponentId): ProviderSubscription -> bool {
    (s: ProviderSubscription) => s.provider == id
  }

  // ----- runs -----

  datatype Op =
    | Add(s: ProviderSubscription)
    | Delete(subscriber: ComponentId, mid: int)
    | SubscriberFinish(id: ComponentId)
    | ProviderFinish(id: ComponentId)

  /** The list, the notices sent so far, and the entries dropped without a notice. */
  datatype State = State(list: seq<ProviderSubscription>, sent: seq<Deletesub>, dropped: seq<ProviderSubscription>)

  function Dropped(s: State, p: ProviderSubscription -> bool): State {
    s.(list := Filter(s.list, Not(p)), dropped := s.dropped + Filter(s.list, p))
  }

  function After(s: State, op: Op): State {
    match op
    case Add(e) => s.(list := s.list + [e])
    case Delete(subscriber, mid) => Dropped(s, IsPair(subscriber, mid))
    case SubscriberFinish(id) =>
      State(Filter(s.list, Not(IsSubscriber(id))), s.sent + Notices(Filter(s.list, IsSubscriber(id))), s.dropped)
    case ProviderFinish(id) => Dropped(s, IsProvider(id))
  }

  function Run(s: State, ops: seq<Op>): State
    decreases |ops|
  {
    if |ops| == 0 then s else Run(After(s, ops[0]), ops[1..])
  }

  function AddedBy(ops: seq<Op>): seq<ProviderSubscription> {
    if |ops| == 0 then [] else (if ops[0].Add? then [ops[0].s] else []) + AddedBy(ops[1..])
  }

  /** How often the state accounts for an entry: listed, reported by a notice to its provider, or dropped. */
  function Accounted(s: State, e: ProviderSubscription): nat {
    Count(s.list, Is(e)) + Count(s.sent, Is(Deletesub(e.provider, e.subscriber, e.mid))) + Count(s.dropped, Is(e))
  }

  lemma NoticesConcat(a: seq<ProviderSubscription>, b: seq<ProviderSubscription>)
    ensures Notices(a + b) == Notices(a) + Notices(b)
  {}

  /** As many notices go to a provider about a subscriber and a message as there are entries of the three. */
  lemma {:induction false} NoticesCount(ss: seq<ProviderSubscription>, e: ProviderSubscription)
    ensures Count(Notices(ss), Is(Deletesub(e.provider, e.subscriber, e.mid))) == Count(ss, Is(e))
  {
    CountAlike(Notices(ss), ss, Is(Deletesub(e.provider, e.subscriber, e.mid)), Is(e));
  }

  lemma {:induction false} CountFiltered(ss: seq<ProviderSubscription>, p: ProviderSubscription -> bool,
                                         e: ProviderSubscription)
    ensures Count(Filter(ss, p), Is(e)) == if p(e) then Count(ss, Is(e)) else 0
  {
    if |ss| > 0 {
      CountFiltered(ss[1..], p, e);
      CountConcat(if p(ss[0]) then [ss[0]] else [], Filter(ss[1..], p), Is(e));
    }
  }

  /**
   * A finished subscriber's notices: one to the provider of each of its entries, with its own identifier and the
   * message of the entry, and none about anybody else.
   */
  lemma {:induction false} FinishNotifies(ss: seq<ProviderSubscription>, id: ComponentId, e: ProviderSubscription)
    ensures Count(Notices(Filter(ss, IsSubscriber(id))), Is(Deletesub(e.provider, e.subscriber, e.mid)))
            == if e.subscriber.address == id.address && e.subscriber.port == id.port then Count(ss, Is(e)) else 0
  {
    NoticesCount(Filter(ss, IsSubscriber(id)), e);
    CountFiltered(ss, IsSubscriber(id), e);
  }

  lemma NoticesGoTo(ss: seq<ProviderSubscription>, id: ComponentId)
    ensures var sent := Notices(Filter(ss, IsSubscriber(id)));
            forall n :: n in sent ==> n.destination.address == id.address && n.destination.port == id.port
  {
    var gone := Filter(ss, IsSubscriber(id));
    forall i | 0 <= i < |gone|
      ensures gone[i].subscriber.address == id.address && gone[i].subscriber.port == id.port
    {
      FilterPasses(ss, IsSubscriber(id), i);
    }
  }

  /** What each operation leaves of an entry in the list. */
  lemma StepLeaves(s: State, op: Op, e: ProviderSubscription)
    ensures Count(After(s, op).list, Is(e)) ==
              match op
              case Add(x) => Count(s.list, Is(e)) + (if x == e then 1 else 0)
              case Delete(subscriber, mid) =>
                if e.subscriber == subscriber && e.mid == mid then 0 else Count(s.list, Is(e))
              case SubscriberFinish(id) =>
                if e.subscriber.address == id.address && e.subscriber.port == id.port then 0 else Count(s.list, Is(e))
              case ProviderFinish(id) => if e.provider == id then 0 else Count(s.list, Is(e))
  {
    match op {
      case Add(x) => CountAppend(s.list, x, Is(e));
      case Delete(subscriber, mid) => CountFiltered(s.list, Not(IsPair(subscriber, mid)), e);
      case SubscriberFinish(id) => CountFiltered(s.list, Not(IsSubscriber(id)), e);
      case ProviderFinish(id) => CountFiltered(s.list, Not(IsProvider(id)), e);
    }
  }

  lemma StepConserves(s: State, op: Op, e: ProviderSubscription)
    ensures Accounted(After(s, op), e) == Accounted(s, e) + (if op == Add(e) then 1 else 0)
  {
    match op {
      case Add(x) => CountAppend(s.list, x, Is(e));
      case Delete(subscriber, mid) => DroppedConserves(s, IsPair(subscriber, mid), e);
      case SubscriberFinish(id) =>
        var gone := Filter(s.list, IsSubscriber(id));
        CountPartition(s.list, IsSubscriber(id), Is(e));
        CountConcat(s.sent, Notices(gone), Is(Deletesub(e.provider, e.subscriber, e.mid)));
        NoticesCount(gone, e);
      case ProviderFinish(id) => DroppedConserves(s, IsProvider(id), e);
    }
  }

  lemma DroppedConserves(s: State, p: ProviderSubscription -> bool, e: ProviderSubscription)
    ensures Accounted(Dropped(s, p), e) == Accounted(s, e)
  {
    CountPartition(s.list, p, Is(e));
    CountConcat(s.dropped, Filter(s.list, p), Is(e));
  }

  /**
   * Over any run every entry added is still listed, was reported by a Deletesub with its provider as the source and its
   * subscriber as the destination, or was dropped silently.
   */
  lemma {:induction false} RunConserves(s: State, ops: seq<Op>, e: ProviderSubscription)
    ensures Accounted(Run(s, ops), e) == Accounted(s, e) + Count(AddedBy(ops), Is(e))
    decreases |ops|
  {
    if |ops| > 0 {
      StepConserves(s, ops[0], e);
      RunConserves(After(s, ops[0]), ops[1..], e);
      CountConcat(if ops[0].Add? then [ops[0].s] else [], AddedBy(ops[1..]), Is(e));
    }
  }

  /** After a component has finished as subscriber and as provider no entry mentions it as either. */
  lemma FinishedIsGone(s: State, id: ComponentId, i: nat)
    requires i < |After(After(s, SubscriberFinish(id)), ProviderFinish(id)).list|
    ensures var e := After(After(s, SubscriberFinish(id)), ProviderFinish(id)).list[i];
            (e.subscriber.address != id.address || e.subscriber.port != id.port) && e.provider != id
  {
    var one := After(s, SubscriberFinish(id));
    FilterPasses(one.list, Not(IsProvider(id)), i);
    var e := After(one, ProviderFinish(id)).list[i];
    var j: nat :| j < |one.list| && one.list[j] == e;
    FilterPasses(s.list, Not(IsSubscriber(id)), j);
  }

  // ----- the list -----

  class ProviderNode {
    const data: ProviderSubscription
    var next: ProviderNode?

    constructor (s: ProviderSubscription)
      ensures data == s && next == null
    {
      data, next := s, null;
    }
  }

  function DataOf(ns: seq<ProviderNode>): (ss: seq<ProviderSubscription>)
    ensures |ss| == |ns|
    ensures forall i :: 0 <= i < |ns| ==> ss[i] == ns[i].data
  {
    seq(|ns|, i requires 0 <= i < |ns| => ns[i].data)
  }

  class ProviderSubscriptionList {
    var head: ProviderNode?
    ghost var nodes: seq<ProviderNode>

    ghost predicate Valid()
      reads this, nodes
    {
      && (forall i, k :: 0 <= i < k < |nodes| ==> nodes[i] != nodes[k])
      && (forall i :: 0 <= i < |nodes| ==> LinkedAt(i))
      && head == NodeAt(0)
    }

    ghost function NodeAt(i: nat): ProviderNode?
      reads this
    {
      if i < |nodes| then nodes[i] else null
    }

    ghost predicate LinkedAt(i: nat)
      reads this, nodes
      requires i < |nodes|
    {
      nodes[i].next == NodeAt(i + 1)
    }

    ghost function View(): seq<ProviderSubscription>
      reads this
    {
      DataOf(nodes)
    }

    constructor ()
      ensures Valid() && View() == []
    {
      head, nodes := null, [];
    }

    /** Walks to the last node and links a new one after it. */
    method Add(s: ProviderSubscription)
      requires Valid()
      modifies this, nodes
      ensures Valid() && View() == old(View()) + [s]
      ensures forall i :: 0 <= i < |nodes| ==> nodes[i] in old(nodes) || fresh(nodes[i])
    {
      var node := new ProviderNode(s);
      if head == null {
        head := node;
      } else {
        var cur := head;
        ghost var i := 0;
        while cur.next != null
          invariant i < |nodes| && cur == nodes[i] && LinkedAt(i)
          decreases |nodes| - i
        {
          cur, i := cur.next, i + 1;
        }
        cur.next := node;
      }
      nodes := nodes + [node];
      forall i | 0 <= i < |nodes|
        ensures LinkedAt(i)
      {
        assert i < old(|nodes|) ==> old(LinkedAt(i));
      }
    }

    /** Takes node i out of the chain. */
    method Unlink(prev: ProviderNode?, cur: ProviderNode, ghost i: nat)
      returns (after: ProviderNode?)
      requires Valid() && i < |nodes| && cur == nodes[i]
      requires prev == if i == 0 then null else nodes[i - 1]
      modifies this, prev
      ensures Valid() && nodes == old(nodes[..i] + nodes[i + 1..]) && after == NodeAt(i)
      ensures forall n :: n in nodes ==> n in old(nodes)
    {
      assert LinkedAt(i);
      after := cur.next;
      if prev == null {
        head := after;
      } else {
        prev.next := after;
      }
      nodes := nodes[..i] + nodes[i + 1..];
      forall j | 0 <= j < |nodes|
        ensures LinkedAt(j)
      {
        assert old(LinkedAt(j)) && old(LinkedAt(j + 1));
      }
    }

    /** The prev/cur loop of Delete and DeleteAll. */
    method DeleteMatching(p: ProviderSubscription -> bool)
      requires Valid()
      modifies this, nodes
      ensures Valid() && View() == Filter(old(View()), Not(p))
    {
      var cur := head;
      var prev: ProviderNode? := null;
      ghost var i := 0;
      while cur != null
        invariant Valid() && i <= |nodes| && cur == NodeAt(i)
        invariant prev == if i == 0 then null else nodes[i - 1]
        invariant forall n :: n in nodes ==> n in old(nodes)
        invariant Filter(View(), Not(p)) == old(Filter(View(), Not(p)))
        invariant forall j :: 0 <= j < i ==> !p(View()[j])
        decreases |nodes| - i
      {
        assert LinkedAt(i);
        ghost var before := View();
        if p(cur.data) {
          assert prev == null || prev in old(nodes) by { assert i > 0 ==> nodes[i - 1] in nodes; }
          cur := Unlink(prev, cur, i);
          assert View() == before[..i] + before[i + 1..];
          FilterSkips(before, Not(p), i);
        } else {
          prev, cur, i := cur, cur.next, i + 1;
        }
      }
      FilterAll(View(), Not(p));
    }

    method Delete(subscriber: ComponentId, mid: int)
      requires Valid()
      modifies this, nodes
      ensures Valid() && View() == Filter(old(View()), Not(IsPair(subscriber, mid)))
    {
      DeleteMatching(IsPair(subscriber, mid));
    }

    method DeleteAll(id: ComponentId, useProviderId: bool)
      requires Valid()
      modifies this, nodes
      ensures Valid() && View() == Filter(old(View()), Not(if useProviderId then IsProvider(id) else IsSubscriber(id)))
    {
      DeleteMatching(if useProviderId then IsProvider(id) else IsSubscriber(id));
    }

    method SubscriberFinish(id: ComponentId) returns (sent: seq<Deletesub>)
      requires Valid()
      modifies this, nodes
      ensures Valid() && View() == Filter(old(View()), Not(IsSubscriber(id)))
      ensures sent == Notices(Filter(old(View()), IsSubscriber(id)))
      ensures forall n :: n in sent ==> n.destination.address == id.address && n.destination.port == id.port
    {
      sent := [];
      var cur := head;
      ghost var i := 0;
      while cur != null
        invariant Valid() && i <= |nodes| && cur == NodeAt(i)
        invariant nodes == old(nodes)
        invariant sent == Notices(Filter(View()[..i], IsSubscriber(id)))
        decreases |nodes| - i
      {
        assert LinkedAt(i);
        KeptExtends(View(), IsSubscriber(id), i);
        NoticesConcat(Filter(View()[..i], IsSubscriber(id)), [cur.data]);
        if IsSubscriber(id)(cur.data) {
          sent := sent + [NoticeFor(cur.data)];
        }
        cur, i := cur.next, i + 1;
      }
      assert View()[..i] == View();
      NoticesGoTo(View(), id);
      DeleteAll(id, false);
    }

    method ProviderFinish(id: ComponentId)
      requires Valid()
      modifies this, nodes
      ensures Valid() && View() == Filter(old(View()), Not(IsProvider(id)))
    {
      DeleteAll(id, true);
    }
  }

  lemma {:induction false} FilterSkips<T>(s: seq<T>, p: T -> bool, i: nat)
    requires i < |s| && !p(s[i])
    ensures Filter(s[..i] + s[i + 1..], p) == Filter(s, p)
  {
    FilterConcat(s[..i], s[i + 1..], p);
    FilterConcat(s[..i], s[i..], p);
    assert s == s[..i] + s[i..] && s[i..][1..] == s[i + 1..];
  }

  lemma {:induction false} FilterAll<T>(s: seq<T>, p: T -> bool)
    requires forall i :: 0 <= i < |s| ==> p(s[i])
    ensures Filter(s, p) == s
  {
    if |s| > 0 { FilterAll(s[1..], p); }
  }

  lemma KeptExtends<T>(s: seq<T>, p: T -> bool, k: nat)
    requires k < |s|
    ensures Filter(s[..k + 1], p) == Filter(s[..k], p) + if p(s[k]) then [s[k]] else []
  {
    assert s[..k + 1] == s[..k] + [s[k]];
    FilterConcat(s[..k], [s[k]], p);
    assert [s[k]][1..] == [];
  }
}
