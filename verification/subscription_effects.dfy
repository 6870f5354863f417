/** What runs of subscription operations achieve: table size, publishing, and cancelling what was added. */
module SubscriptionEffects {
  import opened Ids
  import opened Sequences
  import opened Subscriptions

  // ----- the table never holds more nodes than it once had live entries -----

  function Max(a: nat, b: nat): nat { if a < b then b else a }

  function LiveCount(ss: seq<Subscription>): nat {
    Count(ss, IsLive())
  }

  /** The largest number of entries live at once, from `ss` on. */
  function Peak(ss: seq<Subscription>, ops: seq<Op>): nat
    decreases |ops|
  {
    if |ops| == 0 then LiveCount(ss) else Max(LiveCount(ss), Peak(After(ss, ops[0]), ops[1..]))
  }

  /** One operation leaves max(nodes before, entries live after) nodes. */
  ghost predicate Grows(ss: seq<Subscription>, r: seq<Subscription>) {
    |r| == Max(|ss|, LiveCount(r)) && LiveCount(ss) <= |ss|
  }

  lemma AddedGrows(ss: seq<Subscription>, k: Key, id: int)
    ensures Grows(ss, Added(ss, k, id)) && LiveCount(Added(ss, k, id)) >= LiveCount(ss)
  {
    CountBounds(ss, IsLive());
    var i := First(ss, IsHole());
    if !HasKey(ss, k) {
      if i < |ss| {
        CountUpdate(ss, i, Written(ss[i], k, id), IsLive());
        CountBounds(Entered(ss, k, id), IsLive());
      } else {
        assert forall j :: 0 <= j < |ss| ==> IsLive()(ss[j]);
        CountAppend(ss, Written(UNFILLED, k, id), IsLive());
      }
    }
  }

  lemma SameNodesGrow(ss: seq<Subscription>, r: seq<Subscription>)
    requires |r| == |ss|
    ensures Grows(ss, r)
  {
    CountBounds(ss, IsLive());
    CountBounds(r, IsLive());
  }

  lemma RequestedGrows(ss: seq<Subscription>, reply: int, q: Query)
    ensures Grows(ss, Requested(ss, reply, q))
  {
    RequestGrows(ss, reply, q);
    SameNodesGrow(ss, WithoutRequest(ss, q));
    SameNodesGrow(ss, ss);
  }

  lemma RequestGrows(ss: seq<Subscription>, reply: int, q: Query)
    ensures Grows(ss, WithRequest(ss, reply, q))
  {
    AddedGrows(ss, KeyFor(q), q.id);
    AddedGrows(Added(ss, KeyFor(q), q.id), ReqRegKey(q, REQ_REG_CANCELLATION), q.id);
  }

  lemma StepGrows(ss: seq<Subscription>, op: Op)
    ensures Grows(ss, After(ss, op))
  {
    match op {
      case Subscribe(dest, mid) => AddedGrows(ss, Notification(dest, mid), 0);
      case CancelSubscription(dest, mid) => SameNodesGrow(ss, After(ss, op));
      case AddOrRemove(reply, q) => RequestedGrows(ss, reply, q);
    }
  }

  /** Every add reuses a hole before it appends and no remove unlinks, so the list is as long as its busiest moment. */
  lemma {:induction false} NodesEqualPeak(ss: seq<Subscription>, ops: seq<Op>)
    ensures |Run(ss, ops)| == Max(|ss|, Peak(ss, ops))
    decreases |ops|
  {
    CountBounds(ss, IsLive());
    if |ops| > 0 {
      StepGrows(ss, ops[0]);
      NodesEqualPeak(After(ss, ops[0]), ops[1..]);
      PeakIsReached(After(ss, ops[0]), ops[1..]);
    }
  }

  lemma PeakIsReached(ss: seq<Subscription>, ops: seq<Op>)
    ensures LiveCount(ss) <= Peak(ss, ops)
    decreases |ops|
  {}

  // ----- publishing -----

  /** The five notifications of the DM's own xTEDS. */
  const NOTIFICATIONS := {0x101, 0x102, 0x103, 0x104, 0x20D}

  function IsSubscribed(mid: int): Subscription -> bool { (s: Subscription) => s.inUse && s.mid == mid }

  function Destinations(ss: seq<Subscription>): (r: seq<ComponentId>)
    ensures |r| == |ss|
  {
    if |ss| == 0 then [] else [ss[0].dest] + Destinations(ss[1..])
  }

  /** PublishNotification: where the messages go, in the order they are sent. */
  function Published(ss: seq<Subscription>, mid: int): seq<ComponentId> {
    if mid in NOTIFICATIONS then Destinations(Filter(ss, IsSubscribed(mid))) else []
  }

  function SentTo(mid: int, dest: ComponentId): Subscription -> bool {
    (s: Subscription) => IsSubscribed(mid)(s) && s.dest == dest
  }

  lemma {:induction false} MessagesTo(ss: seq<Subscription>, mid: int, dest: ComponentId)
    ensures multiset(Destinations(Filter(ss, IsSubscribed(mid))))[dest] == Count(ss, SentTo(mid, dest))
  {
    if |ss| > 0 {
      var s, rest := ss[0], ss[1..];
      var tail := Filter(rest, IsSubscribed(mid));
      MessagesTo(rest, mid, dest);
      if IsSubscribed(mid)(s) {
        assert Filter(ss, IsSubscribed(mid)) == [s] + tail;
        assert ([s] + tail)[1..] == tail;
        assert Destinations([s] + tail) == [s.dest] + Destinations(tail);
      } else {
        assert Filter(ss, IsSubscribed(mid)) == [] + tail == tail;
      }
    }
  }

  /** Publishing sends exactly one message to each live subscriber of that notification and none to anyone else. */
  lemma OneMessagePerSubscriber(ss: seq<Subscription>, mid: int, dest: ComponentId)
    requires Unique(ss) && KeysGood(ss) && mid in NOTIFICATIONS
    ensures multiset(Published(ss, mid))[dest] == if HasKey(ss, Notification(dest, mid)) then 1 else 0
  {
    var k := Notification(dest, mid);
    MessagesTo(ss, mid, dest);
    forall i | 0 <= i < |ss|
      ensures SentTo(mid, dest)(ss[i]) == IsKey(k)(ss[i])
    {
      assert ss[i].inUse ==> GoodKey(KeyOf(ss[i]));
    }
    CountAlike(ss, ss, SentTo(mid, dest), IsKey(k));
    UniqueKeyCount(ss, k);
  }

  lemma UniqueKeyCount(ss: seq<Subscription>, k: Key)
    requires Unique(ss)
    ensures Count(ss, IsKey(k)) == if HasKey(ss, k) then 1 else 0
  {}

  // ----- adding and cancelling again -----

  function LiveEntries(ss: seq<Subscription>): seq<Subscription> {
    Filter(ss, IsLive())
  }

  /** The entries live in `r` are those live in `ss`, at the same places. */
  ghost predicate SameLive(ss: seq<Subscription>, r: seq<Subscription>) {
    && |ss| <= |r|
    && (forall i :: 0 <= i < |ss| && ss[i].inUse ==> r[i] == ss[i])
    && (forall i :: 0 <= i < |r| && r[i].inUse ==> i < |ss| && ss[i].inUse)
  }

  lemma {:induction false} SameLiveEntries(ss: seq<Subscription>, r: seq<Subscription>)
    requires SameLive(ss, r)
    ensures LiveEntries(ss) == LiveEntries(r)
    decreases |r|
  {
    if |ss| > 0 {
      SameLiveEntries(ss[1..], r[1..]);
    } else if |r| > 0 {
      SameLiveEntries(ss, r[1..]);
    }
  }

  lemma {:induction false} IsLiveEntry(ss: seq<Subscription>, i: nat)
    requires i < |ss| && ss[i].inUse
    ensures ss[i] in LiveEntries(ss)
  {
    if i > 0 { IsLiveEntry(ss[1..], i - 1); }
  }

  lemma {:induction false} LiveEntryIsThere(ss: seq<Subscription>, s: Subscription)
    requires s in LiveEntries(ss)
    ensures s in ss && s.inUse
  {
    if s in LiveEntries(ss[1..]) { LiveEntryIsThere(ss[1..], s); }
  }

  lemma {:induction false} LiveEntriesCount(ss: seq<Subscription>)
    ensures |LiveEntries(ss)| == LiveCount(ss)
  {
    if |ss| > 0 { LiveEntriesCount(ss[1..]); }
  }

  /** The first entry a single Search or VarReq cancel would pick is not before the first hole. */
  predicate NothingSelectedBeforeHole(ss: seq<Subscription>, q: Query) {
    First(ss, IsHole()) <= First(ss, IsSelected(q))
  }

  /**
   * Search and VarReq: cancelling right after adding restores the live entries exactly when the subscription was
   * not live and no other entry that the cancel accepts lies before the hole the add takes. Such an entry differs
   * from the added one in what the cancel ignores: `items`, or the interface.
   */
  lemma AddThenCancelRestoresIff(ss: seq<Subscription>, q: Query)
    requires Sound(ss) && !IsReqReg(q) && !Wildcard(q)
    ensures LiveEntries(WithoutRequest(Added(ss, KeyFor(q), q.id), q)) == LiveEntries(ss) <==>
            !HasKey(ss, KeyFor(q)) && NothingSelectedBeforeHole(ss, q)
  {
    var k := KeyFor(q);
    var a := Added(ss, k, q.id);
    var r := WithoutRequest(a, q);
    var m := First(a, IsSelected(q));
    if HasKey(ss, k) {
      var f := First(ss, IsKey(k));
      assert IsKey(k)(ss[f]) && IsSelected(q)(ss[f]);
      assert m <= f && IsSelected(q)(ss[m]);
      CountUpdate(ss, m, Retired(ss[m]), IsLive());
      LiveEntriesCount(ss);
      LiveEntriesCount(r);
    } else {
      var n := EnteredAt(ss, k, q.id);
      assert IsSelected(q)(a[n]);
      assert m <= n && IsSelected(q)(a[m]);
      if m == n {
        assert SameLive(ss, r);
        SameLiveEntries(ss, r);
        SelectedIn(ss, a, q, n);
      } else {
        OtherRetired(ss, q, n, m);
      }
    }
  }

  /** A Search subscription for "x" at any source; subscribers are known by address and port alone. */
  const SEARCH_X := Query(ComponentId(1, 1, 0), NO_COMPONENT, "", "", "x", "", 7, SEARCH_REPLY)

  /**
   * The condition can fail after a short run: a reused entry keeps the Search fields of the request cancelled in
   * it, so a notification subscription to message 0x404 placed there is cancelled in the new Search's stead.
   */
  lemma StaleFieldsAreSelected()
    ensures var ss := Run([], [AddOrRemove(SUB_CURRENT_AND_FUTURE, SEARCH_X), AddOrRemove(SUB_CANCEL, SEARCH_X),
                               Subscribe(SEARCH_X.dest, SEARCH_REPLY)]);
            !HasKey(ss, KeyFor(SEARCH_X)) && !NothingSelectedBeforeHole(ss, SEARCH_X)
  {
    var ops := [AddOrRemove(SUB_CURRENT_AND_FUTURE, SEARCH_X), AddOrRemove(SUB_CANCEL, SEARCH_X),
                Subscribe(SEARCH_X.dest, SEARCH_REPLY)];
    var one := Written(UNFILLED, KeyFor(SEARCH_X), 7);
    var two := Retired(one);
    var three := Written(two, Notification(SEARCH_X.dest, SEARCH_REPLY), 0);
    assert After([], ops[0]) == [one];
    assert IsSelected(SEARCH_X)([one][0]);
    assert After([one], ops[1]) == [two];
    assert After([two], ops[2]) == [three];
    var last := [ops[2]];
    assert ops[1..][1..] == last && last[1..] == [];
    assert Run([], ops) == Run([one], ops[1..]) == Run([two], last) == Run([three], last[1..]) == [three];
    assert IsSelected(SEARCH_X)([three][0]);
  }

  lemma SelectedIn(ss: seq<Subscription>, a: seq<Subscription>, q: Query, n: nat)
    requires First(a, IsSelected(q)) == n < |a| && n <= |ss| <= |a|
    requires forall i :: 0 <= i < n ==> a[i] == ss[i]
    ensures n <= First(ss, IsSelected(q))
  {}

  /** When an older entry is picked instead, the new one stays live in its place. */
  lemma {:induction false} OtherRetired(ss: seq<Subscription>, q: Query, n: nat, m: nat)
    requires Unique(ss) && !IsReqReg(q) && !Wildcard(q) && !HasKey(ss, KeyFor(q))
    requires n == First(ss, IsHole()) && m == First(Entered(ss, KeyFor(q), q.id), IsSelected(q)) < n
    ensures LiveEntries(WithoutRequest(Added(ss, KeyFor(q), q.id), q)) != LiveEntries(ss)
    ensures First(ss, IsSelected(q)) <= m
  {
    var k := KeyFor(q);
    var a := Added(ss, k, q.id);
    var r := WithoutRequest(a, q);
    var _ := EnteredAt(ss, k, q.id);
    assert IsSelected(q)(a[m]) && a[m] == ss[m];
    IsLiveEntry(r, n);
    if r[n] in LiveEntries(ss) {
      LiveEntryIsThere(ss, r[n]);
      HasKeyIff(ss, k);
    }
  }

  /** ReqReg: cancelling right after adding restores the live entries exactly when its FUTURE entry was not live. */
  lemma ReqRegAddThenCancelRestoresIff(ss: seq<Subscription>, reply: int, q: Query)
    requires Sound(ss) && IsReqReg(q) && !Wildcard(q)
    ensures LiveEntries(WithoutRequest(WithRequest(ss, reply, q), q)) == LiveEntries(ss) <==> !HasKey(ss, KeyFor(q))
  {
    var a := WithRequest(ss, reply, q);
    var r := WithoutRequest(a, q);
    var future, cancellation := ReqRegKey(q, REQ_REG_FUTURE), ReqRegKey(q, REQ_REG_CANCELLATION);
    RequestKeepsSound(ss, reply, q);
    SingleCancelIsExact(a, q);
    HasKeyIff(ss, future);
    HasKeyIff(ss, cancellation);
    if HasKey(ss, future) {
      var f := First(ss, IsKey(future));
      assert IsKey(future)(ss[f]);
      IsLiveEntry(ss, f);
      if ss[f] in LiveEntries(r) { LiveEntryIsThere(r, ss[f]); }
    } else {
      if HasKey(ss, cancellation) { CancellationHasFuture(ss, q); }
      OnlyNewKeys(ss, reply, q);
      SameLiveEntries(ss, r);
    }
  }

  lemma CancellationHasFuture(ss: seq<Subscription>, q: Query)
    requires Paired(ss) && HasKey(ss, ReqRegKey(q, REQ_REG_CANCELLATION))
    ensures HasKey(ss, ReqRegKey(q, REQ_REG_FUTURE))
  {}

  /** Apart from the entries of `ss`, all live and in their places, what is live in `a` has key `k` or `l`. */
  ghost predicate OnlyAdds(ss: seq<Subscription>, a: seq<Subscription>, k: Key, l: Key) {
    && |ss| <= |a|
    && (forall i :: 0 <= i < |ss| && ss[i].inUse ==> a[i] == ss[i])
    && (forall i :: 0 <= i < |a| && a[i].inUse && !(i < |ss| && ss[i].inUse) ==> KeyOf(a[i]) == k || KeyOf(a[i]) == l)
  }

  lemma RequestOnlyAdds(ss: seq<Subscription>, reply: int, q: Query)
    requires IsReqReg(q)
    ensures OnlyAdds(ss, WithRequest(ss, reply, q), ReqRegKey(q, REQ_REG_FUTURE), ReqRegKey(q, REQ_REG_CANCELLATION))
  {
    var one := Added(ss, ReqRegKey(q, REQ_REG_FUTURE), q.id);
    var _ := EnteredAt(ss, ReqRegKey(q, REQ_REG_FUTURE), q.id);
    var _ := EnteredAt(one, ReqRegKey(q, REQ_REG_CANCELLATION), q.id);
  }

  lemma OnlyNewKeys(ss: seq<Subscription>, reply: int, q: Query)
    requires Sound(ss) && IsReqReg(q) && !Wildcard(q)
    requires !HasKey(ss, ReqRegKey(q, REQ_REG_FUTURE)) && !HasKey(ss, ReqRegKey(q, REQ_REG_CANCELLATION))
    ensures SameLive(ss, WithoutRequest(WithRequest(ss, reply, q), q))
  {
    var future, cancellation := ReqRegKey(q, REQ_REG_FUTURE), ReqRegKey(q, REQ_REG_CANCELLATION);
    HasKeyIff(ss, future);
    HasKeyIff(ss, cancellation);
    RequestOnlyAdds(ss, reply, q);
    RequestKeepsSound(ss, reply, q);
    SingleCancelIsExact(WithRequest(ss, reply, q), q);
  }
}
