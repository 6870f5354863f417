/**
 * The list behind the subscription table (sdm/dm/SubscriptionList.cpp) and the DM's walks over it (sdm/dm/DM.cpp):
 * each method is proved to do to the list what its operation does to the table.
 *
 * Nodes are never unlinked; an entry that goes out of use leaves a hole that the next add fills.
 * The ghost sequence of nodes is the chain from head to tail.
 */
module SubscriptionLists {
  import opened Ids
  import opened Sequences
  import opened Subscriptions
  import opened SubscriptionEffects

  class SubscriptionListNode {
    var data: Subscription
    var next: SubscriptionListNode?

    constructor ()
      ensures data == UNFILLED && next == null
    {
      data, next := UNFILLED, null;
    }
  }

  class SubscriptionList {
    var head: SubscriptionListNode?
    var tail: SubscriptionListNode?
    ghost var nodes: seq<SubscriptionListNode>

    /** `nodes` is the chain from head to tail; no node is in it twice. */
    ghost predicate Valid()
      reads this, nodes
    {
      && (forall i, k :: 0 <= i < k < |nodes| ==> nodes[i] != nodes[k])
      && (forall i :: 0 <= i < |nodes| ==> LinkedAt(i))
      && head == NodeAt(0)
      && (|nodes| == 0 ==> tail == null)
      && (|nodes| > 0 ==> tail == nodes[|nodes| - 1])
    }

    ghost function NodeAt(i: nat): SubscriptionListNode?
      reads this
    {
      if i < |nodes| then nodes[i] else null
    }

    ghost predicate LinkedAt(i: nat)
      reads this, nodes
      requires i < |nodes|
    {
      nodes[i].next == NodeAt(i + 1)
    }

    ghost function View(): (ss: seq<Subscription>)
      reads this, nodes
      ensures |ss| == |nodes|
    {
      seq(|nodes|, i requires 0 <= i < |nodes| reads this, nodes => nodes[i].data)
    }

    constructor ()
      ensures Valid() && View() == []
    {
      head, tail, nodes := null, null, [];
    }

    /** The walk to the first entry that passes a test. */
    method Find(p: Subscription -> bool) returns (node: SubscriptionListNode?, ghost i: nat)
      requires Valid()
      ensures i == First(View(), p) && node == NodeAt(First(View(), p))
      ensures node == null <==> i == |View()|
    {
      node, i := head, 0;
      while node != null && !p(node.data)
        invariant i <= |nodes| && node == NodeAt(i)
        invariant forall k :: 0 <= k < i ==> !p(View()[k])
        decreases |nodes| - i
      {
        assert LinkedAt(i);
        node, i := node.next, i + 1;
      }
      assert i < |nodes| ==> p(View()[i]);
    }

    /** addSubscription(Subscription*): a new node after the tail. */
    method Append()
      requires Valid()
      modifies this, nodes
      ensures Valid() && View() == old(View()) + [UNFILLED]
      ensures |nodes| == old(|nodes|) + 1 && nodes[..old(|nodes|)] == old(nodes) && fresh(nodes[old(|nodes|)])
    {
      var p := new SubscriptionListNode();
      if tail == null {
        head := p;
      } else {
        tail.next := p;
      }
      tail := p;
      nodes := nodes + [p];
      forall i | 0 <= i < |nodes|
        ensures LinkedAt(i)
      {
        assert i < old(|nodes|) ==> old(LinkedAt(i));
      }
    }

    /** Changes one entry where it stands. */
    method Write(node: SubscriptionListNode, ghost i: nat, s: Subscription)
      requires Valid() && i < |nodes| && node == nodes[i]
      modifies node
      ensures Valid() && View() == old(View())[i := s]
    {
      node.data := s;
      forall k | 0 <= k < |nodes|
        ensures LinkedAt(k)
      {
        assert old(LinkedAt(k));
      }
    }

    /** No node joins the list but one just allocated. */
    twostate predicate FreshNodes()
      reads this
    {
      forall i :: 0 <= i < |nodes| ==> nodes[i] in old(nodes) || fresh(nodes[i])
    }

    /** Writes a new subscription into the first hole, or into a new node when there is none. */
    method Enter(k: Key, id: int)
      requires Valid()
      modifies this, nodes
      ensures Valid() && View() == Entered(old(View()), k, id) && FreshNodes()
    {
      var node, i := Find(IsHole());
      ghost var was := View();
      if node == null {
        Append();
        assert tail == nodes[i] && tail.data == View()[i];
        Write(tail, i, Written(tail.data, k, id));
        assert View() == was + [Written(UNFILLED, k, id)];
      } else {
        Write(node, i, Written(node.data, k, id));
      }
    }

    /** The common course of the four adds: refuse a duplicate, else enter. */
    method Add(k: Key, id: int) returns (added: bool)
      requires Valid()
      modifies this, nodes
      ensures Valid() && View() == Added(old(View()), k, id) && FreshNodes()
      ensures added <==> !HasKey(old(View()), k)
    {
      var duplicate, _ := Find(IsKey(k));
      if duplicate != null { return false; }
      Enter(k, id);
      return true;
    }

    method RetireFirst(p: Subscription -> bool)
      requires Valid()
      modifies nodes
      ensures Valid() && View() == RetiredFirst(old(View()), p)
    {
      var node, i := Find(p);
      if node != null { Write(node, i, Retired(node.data)); }
    }

    method RetireAll(p: Subscription -> bool)
      requires Valid()
      modifies nodes
      ensures Valid() && View() == RetiredAll(old(View()), p)
    {
      var node := head;
      ghost var i := 0;
      ghost var was := View();
      while node != null
        invariant Valid() && |was| == |nodes| && i <= |nodes| && node == NodeAt(i)
        invariant forall k :: 0 <= k < i ==> View()[k] == if p(was[k]) then Retired(was[k]) else was[k]
        invariant forall k :: i <= k < |nodes| ==> View()[k] == was[k]
        decreases |nodes| - i
      {
        assert LinkedAt(i) && node.data == View()[i];
        if p(node.data) { Write(node, i, Retired(node.data)); }
        assert LinkedAt(i);
        node, i := node.next, i + 1;
      }
      assert View() == RetiredAll(was, p);
    }

    /** The DM notification overload of addSubscription. */
    method AddSubscription(dest: ComponentId, mid: int) returns (added: bool)
      requires Valid()
      modifies this, nodes
      ensures Valid() && View() == After(old(View()), Subscribe(dest, mid)) && FreshNodes()
      ensures added <==> !HasKey(old(View()), Notification(dest, mid))
    {
      added := Add(Notification(dest, mid), 0);
    }

    method AddReqRegSubscription(reply: int, q: Query)
      requires Valid() && IsReqReg(q)
      modifies this, nodes
      ensures Valid() && View() == WithRequest(old(View()), reply, q) && FreshNodes()
    {
      var _ := Add(ReqRegKey(q, REQ_REG_FUTURE), q.id);
      if reply != SUB_CURRENT_AND_FUTURE { var _ := Add(ReqRegKey(q, REQ_REG_CANCELLATION), q.id); }
    }

    /** All ReqReg entries of a subscriber: one pass for each kind. */
    method RemoveAllReqReg(q: Query)
      requires Valid() && IsReqReg(q)
      modifies nodes
      ensures Valid() && View() == RetiredAll(old(View()), IsOfSubscriber(q))
    {
      RetireAll((s: Subscription) => OfSubscriber(s, q) && s.mid == REQ_REG_FUTURE);
      RetireAll((s: Subscription) => OfSubscriber(s, q) && s.mid == REQ_REG_CANCELLATION);
    }

    /** One ReqReg request: every matching FUTURE entry, then the first matching CANCELLATION entry. */
    method RemoveReqReg(q: Query)
      requires Valid() && IsReqReg(q) && !Wildcard(q)
      modifies nodes
      ensures Valid() && View() == WithoutRequest(old(View()), q)
    {
      RetireAll(IsKey(ReqRegKey(q, REQ_REG_FUTURE)));
      RetireFirst(IsKey(ReqRegKey(q, REQ_REG_CANCELLATION)));
    }

    method AddOrRemoveSubscription(reply: int, q: Query) returns (result: bool)
      requires Valid()
      modifies this, nodes
      ensures Valid() && View() == After(old(View()), AddOrRemove(reply, q)) && FreshNodes()
      ensures result <==> reply != SUB_CANCEL
    {
      if reply == SUB_CURRENT_AND_FUTURE || reply == SUB_CURRENT_FUTURE_AND_CANCELLATIONS {
        if IsReqReg(q) {
          AddReqRegSubscription(reply, q);
        } else {
          var _ := Add(KeyFor(q), q.id);
        }
      } else if reply == SUB_CANCEL {
        Remove(q);
      }
      return reply != SUB_CANCEL;
    }

    method Remove(q: Query)
      requires Valid()
      modifies nodes
      ensures Valid() && View() == WithoutRequest(old(View()), q)
    {
      if Wildcard(q) {
        if IsReqReg(q) { RemoveAllReqReg(q); } else { RetireAll(IsOfSubscriber(q)); }
      } else if IsReqReg(q) {
        RemoveReqReg(q);
      } else {
        RetireFirst(IsSelected(q));
      }
    }

    /** DM.cpp's CancelSubscription, which walks the list itself. */
    method CancelSubscription(dest: ComponentId, mid: int)
      requires Valid()
      modifies nodes
      ensures Valid() && View() == After(old(View()), Op.CancelSubscription(dest, mid))
    {
      var node, i := Find(IsKey(Notification(dest, mid)));
      if node != null { Write(node, i, Withdrawn(node.data)); }
    }

    /** DM.cpp's PublishNotification: the components it sends to, in order. */
    method PublishNotification(mid: int) returns (sent: seq<ComponentId>)
      requires Valid()
      ensures sent == Published(View(), mid)
    {
      sent := [];
      var node := head;
      ghost var i := 0;
      while node != null
        invariant i <= |nodes| && node == NodeAt(i)
        invariant sent == Published(View()[..i], mid)
        decreases |nodes| - i
      {
        assert LinkedAt(i);
        PublishedExtends(View(), mid, i);
        if node.data.inUse && node.data.mid == mid && mid in NOTIFICATIONS {
          sent := sent + [node.data.dest];
        }
        node, i := node.next, i + 1;
      }
      assert View()[..i] == View();
    }
  }

  lemma PublishedExtends(ss: seq<Subscription>, mid: int, i: nat)
    requires i < |ss|
    ensures Published(ss[..i + 1], mid) ==
            Published(ss[..i], mid) + if mid in NOTIFICATIONS && IsSubscribed(mid)(ss[i]) then [ss[i].dest] else []
  {
    assert ss[..i + 1] == ss[..i] + [ss[i]];
    FilterConcat(ss[..i], [ss[i]], IsSubscribed(mid));
    assert [ss[i]][1..] == [];
    DestinationsConcat(Filter(ss[..i], IsSubscribed(mid)), Filter([ss[i]], IsSubscribed(mid)));
  }

  lemma {:induction false} DestinationsConcat(a: seq<Subscription>, b: seq<Subscription>)
    ensures Destinations(a + b) == Destinations(a) + Destinations(b)
  {
    if |a| == 0 {
      assert a + b == b;
    } else {
      assert (a + b)[1..] == a[1..] + b;
      DestinationsConcat(a[1..], b);
    }
  }
}
