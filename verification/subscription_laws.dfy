/** What each subscription operation does, said of the keys that are live and of the messages that are then sent. */
module SubscriptionLaws {
  import opened Ids
  import opened Sequences
  import opened Subscriptions
  import opened SubscriptionEffects

  /** Entry by entry a key stays, or it is lost from all of them. */
  lemma KeysAfter(ss: seq<Subscription>, r: seq<Subscription>, k: Key, lost: bool)
    requires |r| == |ss| && forall i :: 0 <= i < |ss| ==> (IsKey(k)(r[i]) <==> IsKey(k)(ss[i]) && !lost)
    ensures HasKey(r, k) <==> HasKey(ss, k) && !lost
  {
    var f, g := First(ss, IsKey(k)), First(r, IsKey(k));
    assert f < |ss| ==> IsKey(k)(ss[f]);
    assert g < |r| ==> IsKey(k)(r[g]);
  }

  lemma {:induction false} RetiringAllSpares(ss: seq<Subscription>, p: Subscription -> bool, k: Key)
    requires forall i :: 0 <= i < |ss| && IsKey(k)(ss[i]) ==> !p(ss[i])
    ensures HasKey(RetiredAll(ss, p), k) <==> HasKey(ss, k)
    ensures forall i :: 0 <= i < |ss| && IsKey(k)(RetiredAll(ss, p)[i]) ==> RetiredAll(ss, p)[i] == ss[i]
  {
    var r := RetiredAll(ss, p);
    forall i | 0 <= i < |ss|
      ensures IsKey(k)(r[i]) <==> IsKey(k)(ss[i])
      ensures IsKey(k)(r[i]) ==> r[i] == ss[i]
    {
      assert r[i] == if p(ss[i]) then Retired(ss[i]) else ss[i];
    }
    KeysAfter(ss, r, k, false);
  }

  lemma {:induction false} RetiringFirstSpares(ss: seq<Subscription>, p: Subscription -> bool, k: Key)
    requires forall i :: 0 <= i < |ss| && IsKey(k)(ss[i]) ==> !p(ss[i])
    ensures HasKey(RetiredFirst(ss, p), k) <==> HasKey(ss, k)
  {
    KeysAfter(ss, RetiredFirst(ss, p), k, false);
  }

  // ----- notifications -----

  /** The DM's own cancel ends exactly the subscription it names, and touches no other entry. */
  lemma UnsubscribeEnds(ss: seq<Subscription>, dest: ComponentId, mid: int)
    requires Unique(ss)
    ensures var r := After(ss, CancelSubscription(dest, mid));
            && (forall k :: HasKey(r, k) <==> HasKey(ss, k) && k != Notification(dest, mid))
            && |r| == |ss|
            && forall i :: 0 <= i < |ss| && r[i] != ss[i] ==>
                             && ss[i].inUse && !ss[i].items && ss[i].dest == dest && ss[i].mid == mid
                             && !r[i].inUse
  {
    var r := After(ss, CancelSubscription(dest, mid));
    var f := First(ss, IsKey(Notification(dest, mid)));
    assert f < |ss| ==> IsKey(Notification(dest, mid))(ss[f]);
    forall k
      ensures HasKey(r, k) <==> HasKey(ss, k) && k != Notification(dest, mid)
    {
      KeysAfter(ss, r, k, k == Notification(dest, mid));
    }
  }

  /** One operation on the subscription of `dest` to a notification: only its own subscribe and cancel change it. */
  lemma StepOnNotification(ss: seq<Subscription>, op: Op, dest: ComponentId, mid: int)
    requires Sound(ss) && mid in {0x101, 0x102, 0x103, 0x104, 0x20D}
    ensures HasKey(After(ss, op), Notification(dest, mid)) <==>
              if op == Subscribe(dest, mid) then true
              else if op == CancelSubscription(dest, mid) then false
              else HasKey(ss, Notification(dest, mid))
  {
    var k := Notification(dest, mid);
    match op {
      case Subscribe(d, m) => AddedKeys(ss, Notification(d, m), 0, k);
      case CancelSubscription(d, m) => UnsubscribeEnds(ss, d, m);
      case AddOrRemove(reply, q) => RequestSparesNotification(ss, reply, q, k);
    }
  }

  lemma RequestSparesNotification(ss: seq<Subscription>, reply: int, q: Query, k: Key)
    requires k.Notification? && k.mid in {0x101, 0x102, 0x103, 0x104, 0x20D}
    ensures HasKey(After(ss, AddOrRemove(reply, q)), k) <==> HasKey(ss, k)
  {
    if reply == 5 || reply == 7 {
      RequestAsks(ss, reply, q, k);
    } else if reply == 11 {
      RemovalSparesNotification(ss, q, k);
    } else {
      OtherRepliesDoNothing(ss, reply, q);
    }
  }

  /** No cancel of a Search, VarReq or ReqReg reaches a notification of the DM. */
  lemma RemovalSparesNotification(ss: seq<Subscription>, q: Query, k: Key)
    requires k.Notification? && k.mid in {0x101, 0x102, 0x103, 0x104, 0x20D}
    ensures HasKey(WithoutRequest(ss, q), k) <==> HasKey(ss, k)
  {
    if Wildcard(q) {
      RetiringAllSpares(ss, IsOfSubscriber(q), k);
    } else if IsReqReg(q) {
      var future, cancellation := IsKey(ReqRegKey(q, REQ_REG_FUTURE)), IsKey(ReqRegKey(q, REQ_REG_CANCELLATION));
      RetiringAllSpares(ss, future, k);
      RetiringFirstSpares(RetiredAll(ss, future), cancellation, k);
    } else {
      RetiringFirstSpares(ss, IsSelected(q), k);
    }
  }

  /** Whether `dest` is subscribed to `mid` after the operations, if it was `before`: by the last word on it. */
  function LastWord(before: bool, ops: seq<Op>, dest: ComponentId, mid: int): bool
    decreases |ops|
  {
    if |ops| == 0 then before
    else
      LastWord(if ops[0] == Subscribe(dest, mid) then true
               else if ops[0] == CancelSubscription(dest, mid) then false
               else before,
               ops[1..], dest, mid)
  }

  lemma {:induction false} RunOnNotification(ss: seq<Subscription>, ops: seq<Op>, dest: ComponentId, mid: int)
    requires Sound(ss) && mid in {0x101, 0x102, 0x103, 0x104, 0x20D}
    ensures HasKey(Run(ss, ops), Notification(dest, mid)) <==>
              LastWord(HasKey(ss, Notification(dest, mid)), ops, dest, mid)
    decreases |ops|
  {
    if |ops| > 0 {
      StepOnNotification(ss, ops[0], dest, mid);
      StepKeepsSound(ss, ops[0]);
      RunOnNotification(After(ss, ops[0]), ops[1..], dest, mid);
    }
  }

  /**
   * After any run of operations by anybody, a notification is sent to a component once if the component's last word on
   * it was to subscribe, and otherwise not at all.
   */
  lemma {:induction false} LastWordIsKept(ops: seq<Op>, dest: ComponentId, mid: int)
    requires mid in {0x101, 0x102, 0x103, 0x104, 0x20D}
    ensures multiset(Published(Run([], ops), mid))[dest] == if LastWord(false, ops, dest, mid) then 1 else 0
  {
    RunOnNotification([], ops, dest, mid);
    RunKeepsSound([], ops);
    OneMessagePerSubscriber(Run([], ops), mid, dest);
  }

  // ----- requests and their cancels, through the reply value -----

  /** Replies 5 and 7 make live what was live and what the request asks for; only 7, for a ReqReg, asks for two. */
  lemma RequestAsks(ss: seq<Subscription>, reply: int, q: Query, k: Key)
    requires reply == 5 || reply == 7
    ensures HasKey(After(ss, AddOrRemove(reply, q)), k) <==>
              || HasKey(ss, k)
              || (q.mid == 0x404 && k == Search(q.dest, q.source, Some(q.itemName)))
              || (q.mid == 0x403 && k == VarReq(q.dest, q.source, Some(q.itemName), Some(q.iface)))
              || (q.mid != 0x404 && q.mid != 0x403
                  && k.ReqReg? && (k.mid == 0x401 || (k.mid == 0x402 && reply == 7))
                  && k == ReqReg(q.dest, k.mid, q.source, Some(q.itemName), Some(q.qualList), Some(q.device),
                                 Some(q.iface)))
  {
    RequestedKeys(ss, reply, q, k);
  }

  /** A reply value other than 5, 7 and 11 changes nothing. */
  lemma OtherRepliesDoNothing(ss: seq<Subscription>, reply: int, q: Query)
    requires reply != 5 && reply != 7 && reply != 11
    ensures After(ss, AddOrRemove(reply, q)) == ss
  {}

  /** An empty selector. */
  predicate SelectsAll(q: Query) {
    q.source == ComponentId(0, 0, 0) && q.itemName == q.qualList == q.device == q.iface == ""
  }

  /** The requests that a cancel with an empty selector is for: of its kind and by its component. */
  predicate Covers(q: Query, k: Key) {
    || (q.mid == 0x404 && k.Search? && k.dest == q.dest)
    || (q.mid == 0x403 && k.VarReq? && k.dest == q.dest)
    || (q.mid != 0x404 && q.mid != 0x403 && k.ReqReg?
        && k.dest.address == q.dest.address && k.dest.port == q.dest.port)
  }

  lemma CoveredEntry(s: Subscription, q: Query)
    requires s.inUse && GoodKey(KeyOf(s))
    ensures OfSubscriber(s, q) <==> Covers(q, KeyOf(s))
  {}

  /**
   * A cancel with an empty selector ends every request of its kind by the component: of a ReqReg by address and port,
   * of a Search or VarReq by the whole identifier. It spares all other components and kinds.
   */
  lemma WildcardEnds(ss: seq<Subscription>, q: Query, k: Key)
    requires SelectsAll(q) && KeysGood(ss)
    ensures HasKey(After(ss, AddOrRemove(11, q)), k) <==> HasKey(ss, k) && !Covers(q, k)
  {
    var r := RetiredAll(ss, IsOfSubscriber(q));
    forall i | 0 <= i < |ss|
      ensures IsKey(k)(r[i]) <==> IsKey(k)(ss[i]) && !Covers(q, k)
    {
      if IsKey(k)(ss[i]) { CoveredEntry(ss[i], q); }
    }
    KeysAfter(ss, r, k, Covers(q, k));
  }

  /** A cancel of one ReqReg ends its FUTURE and its CANCELLATION entry and nothing else. */
  lemma ReqRegCancelEnds(ss: seq<Subscription>, q: Query, k: Key)
    requires Unique(ss) && q.mid != 0x404 && q.mid != 0x403 && !SelectsAll(q)
    ensures HasKey(After(ss, AddOrRemove(11, q)), k) <==>
              && HasKey(ss, k)
              && !(k.ReqReg? && (k.mid == 0x401 || k.mid == 0x402)
                   && k == ReqReg(q.dest, k.mid, q.source, Some(q.itemName), Some(q.qualList), Some(q.device),
                                  Some(q.iface)))
  {
    var r := After(ss, AddOrRemove(11, q));
    SingleCancelIsExact(ss, q);
    var lost := k == ReqRegKey(q, REQ_REG_FUTURE) || k == ReqRegKey(q, REQ_REG_CANCELLATION);
    forall i | 0 <= i < |ss|
      ensures IsKey(k)(r[i]) <==> IsKey(k)(ss[i]) && !lost
    {}
    KeysAfter(ss, r, k, lost);
  }

  /**
   * A cancel of one Search or VarReq takes the first live entry that has its subscriber, message, source and item out
   * of use, and changes nothing when there is none.
   */
  lemma SearchCancelTakesFirst(ss: seq<Subscription>, q: Query) returns (n: nat)
    requires (q.mid == 0x404 || q.mid == 0x403) && !SelectsAll(q)
    ensures var r := After(ss, AddOrRemove(11, q));
            && n <= |ss| == |r|
            && (forall i :: 0 <= i < |ss| && i != n ==> r[i] == ss[i])
            && (n < |ss| ==> ss[n].inUse && !r[n].inUse && ss[n].dest == q.dest && ss[n].mid == q.mid
                             && ss[n].source == q.source && ss[n].itemName == Some(q.itemName))
            && (forall i :: 0 <= i < n && ss[i].inUse && ss[i].dest == q.dest && ss[i].mid == q.mid ==>
                              ss[i].source != q.source || ss[i].itemName != Some(q.itemName))
  {
    n := First(ss, IsSelected(q));
    assert n < |ss| ==> IsSelected(q)(ss[n]);
    assert forall i :: 0 <= i < n ==> !IsSelected(q)(ss[i]);
  }

  /** A subscription that is entered carries the identifier of the request, which the notices for it then quote. */
  lemma EntryCarriesId(ss: seq<Subscription>, reply: int, q: Query) returns (n: nat)
    requires (reply == 5 || reply == 7) && !HasKey(ss, KeyFor(q))
    ensures var r := After(ss, AddOrRemove(reply, q));
            && n < |r| && r[n].inUse && KeyOf(r[n]) == KeyFor(q) && r[n].id == q.id
            && (n < |ss| ==> !ss[n].inUse)
  {
    n := EnteredAt(ss, KeyFor(q), q.id);
    var one := Added(ss, KeyFor(q), q.id);
    assert one[n].inUse && one[n].id == q.id;
    if IsReqReg(q) && reply != SUB_CURRENT_AND_FUTURE {
      var m := EnteredAt(one, ReqRegKey(q, REQ_REG_CANCELLATION), q.id);
      assert m != n;
    }
  }
}
