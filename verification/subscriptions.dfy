/** The Data Manager's subscription table (sdm/dm/SubscriptionList.cpp): entries, keys and operations. */
module Subscriptions {
  import opened Ids
  import opened Sequences

  const REQ_REG_FUTURE := 0x401
  const REQ_REG_CANCELLATION := 0x402
  const VAR_REQ_REPLY := 0x403
  const SEARCH_REPLY := 0x404

  const SUB_CURRENT_AND_FUTURE := 5
  const SUB_CURRENT_FUTURE_AND_CANCELLATIONS := 7
  const SUB_CANCEL := 11

  /** One entry. A reused entry keeps the fields its new kind does not write. */
  datatype Subscription = Subscription(
    dest: ComponentId, mid: int, inUse: bool, items: bool, id: int, source: ComponentId,
    itemName: Option<string>, qualList: Option<string>, device: Option<string>, iface: Option<string>)

  const UNFILLED := Subscription(NO_COMPONENT, 0, false, false, 0, NO_COMPONENT, None, None, None, None)

  /** What makes two live entries duplicates of each other. */
  datatype Key =
    | Notification(dest: ComponentId, mid: int)
    | ReqReg(dest: ComponentId, mid: int, source: ComponentId, itemName: Option<string>, qualList: Option<string>,
             device: Option<string>, iface: Option<string>)
    | Search(dest: ComponentId, source: ComponentId, itemName: Option<string>)
    | VarReq(dest: ComponentId, source: ComponentId, itemName: Option<string>, iface: Option<string>)

  function KeyOf(s: Subscription): Key {
    if !s.items then Notification(s.dest, s.mid)
    else if s.mid == SEARCH_REPLY then Search(s.dest, s.source, s.itemName)
    else if s.mid == VAR_REQ_REPLY then VarReq(s.dest, s.source, s.itemName, s.iface)
    else ReqReg(s.dest, s.mid, s.source, s.itemName, s.qualList, s.device, s.iface)
  }

  predicate GoodKey(k: Key) {
    k.ReqReg? ==> k.mid == REQ_REG_FUTURE || k.mid == REQ_REG_CANCELLATION
  }

  /** The entry `s` after being overwritten for a subscription with key `k`. */
  function Written(s: Subscription, k: Key, id: int): (r: Subscription)
    ensures r.inUse && (GoodKey(k) ==> KeyOf(r) == k)
  {
    match k
    case Notification(dest, mid) => s.(dest := dest, mid := mid, inUse := true, items := false)
    case ReqReg(dest, mid, source, itemName, qualList, device, iface) =>
      Subscription(dest, mid, true, true, id, source, itemName, qualList, device, iface)
    case Search(dest, source, itemName) =>
      Subscription(dest, SEARCH_REPLY, true, true, id, source, itemName, s.qualList, s.device, s.iface)
    case VarReq(dest, source, itemName, iface) =>
      Subscription(dest, VAR_REQ_REPLY, true, true, id, source, itemName, s.qualList, s.device, iface)
  }

  /** What the DM's own CancelSubscription leaves of an entry. */
  function Withdrawn(s: Subscription): Subscription {
    s.(dest := s.dest.(port := 0), mid := 0, inUse := false)
  }

  /** What the list's removal functions leave of an entry. */
  function Retired(s: Subscription): Subscription {
    Withdrawn(s).(items := false, id := 0)
  }

  function IsLive(): Subscription -> bool { (s: Subscription) => s.inUse }
  function IsHole(): Subscription -> bool { (s: Subscription) => !s.inUse }
  function IsKey(k: Key): Subscription -> bool { (s: Subscription) => s.inUse && KeyOf(s) == k }

  predicate HasKey(ss: seq<Subscription>, k: Key) {
    First(ss, IsKey(k)) < |ss|
  }

  // ----- what each operation does to the entries -----

  function Entered(ss: seq<Subscription>, k: Key, id: int): seq<Subscription> {
    var i := First(ss, IsHole());
    if i < |ss| then ss[i := Written(ss[i], k, id)] else ss + [Written(UNFILLED, k, id)]
  }

  function Added(ss: seq<Subscription>, k: Key, id: int): seq<Subscription> {
    if HasKey(ss, k) then ss else Entered(ss, k, id)
  }

  function RetiredFirst(ss: seq<Subscription>, p: Subscription -> bool): seq<Subscription> {
    var i := First(ss, p);
    if i < |ss| then ss[i := Retired(ss[i])] else ss
  }

  function RetiredAll(ss: seq<Subscription>, p: Subscription -> bool): (r: seq<Subscription>)
    ensures |r| == |ss|
    ensures forall i :: 0 <= i < |ss| ==> r[i] == if p(ss[i]) then Retired(ss[i]) else ss[i]
  {
    if |ss| == 0 then [] else [if p(ss[0]) then Retired(ss[0]) else ss[0]] + RetiredAll(ss[1..], p)
  }

  /** The selector carried by a ReqReg, Search or VarReq request. */
  datatype Query = Query(
    dest: ComponentId, source: ComponentId, device: string, iface: string, itemName: string, qualList: string,
    id: int, mid: int)

  predicate IsReqReg(q: Query) {
    q.mid != SEARCH_REPLY && q.mid != VAR_REQ_REPLY
  }

  function ReqRegKey(q: Query, mid: int): (k: Key)
    ensures k.ReqReg?
  {
    ReqReg(q.dest, mid, q.source, Some(q.itemName), Some(q.qualList), Some(q.device), Some(q.iface))
  }

  function KeyFor(q: Query): (k: Key)
    ensures GoodKey(k)
  {
    if q.mid == SEARCH_REPLY then Search(q.dest, q.source, Some(q.itemName))
    else if q.mid == VAR_REQ_REPLY then VarReq(q.dest, q.source, Some(q.itemName), Some(q.iface))
    else ReqRegKey(q, REQ_REG_FUTURE)
  }

  /** The entries a wildcard cancel removes; for ReqReg the sensor id is not compared. */
  predicate OfSubscriber(s: Subscription, q: Query) {
    && s.inUse && s.items
    && (if IsReqReg(q) then
          && s.dest.address == q.dest.address && s.dest.port == q.dest.port
          && (s.mid == REQ_REG_FUTURE || s.mid == REQ_REG_CANCELLATION)
        else s.dest == q.dest && s.mid == q.mid)
  }

  /** The entries a single Search or VarReq cancel may pick: `items` and the interface are not compared. */
  predicate Selected(s: Subscription, q: Query) {
    s.inUse && s.dest == q.dest && s.mid == q.mid && s.source == q.source && s.itemName == Some(q.itemName)
  }

  function IsOfSubscriber(q: Query): Subscription -> bool { (s: Subscription) => OfSubscriber(s, q) }
  function IsSelected(q: Query): Subscription -> bool { (s: Subscription) => Selected(s, q) }

  predicate Wildcard(q: Query) {
    q.source == NO_COMPONENT && q.itemName == "" && q.qualList == "" && q.device == "" && q.iface == ""
  }

  function WithRequest(ss: seq<Subscription>, reply: int, q: Query): seq<Subscription> {
    var one := Added(ss, KeyFor(q), q.id);
    if IsReqReg(q) && reply != SUB_CURRENT_AND_FUTURE then Added(one, ReqRegKey(q, REQ_REG_CANCELLATION), q.id) else one
  }

  function WithoutRequest(ss: seq<Subscription>, q: Query): seq<Subscription> {
    if Wildcard(q) then RetiredAll(ss, IsOfSubscriber(q))
    else if IsReqReg(q) then
      RetiredFirst(RetiredAll(ss, IsKey(ReqRegKey(q, REQ_REG_FUTURE))), IsKey(ReqRegKey(q, REQ_REG_CANCELLATION)))
    else RetiredFirst(ss, IsSelected(q))
  }

  /** addOrRemoveSubscription: any other reply value is reported and changes nothing. */
  function Requested(ss: seq<Subscription>, reply: int, q: Query): seq<Subscription> {
    if reply == SUB_CURRENT_AND_FUTURE || reply == SUB_CURRENT_FUTURE_AND_CANCELLATIONS then WithRequest(ss, reply, q)
    else if reply == SUB_CANCEL then WithoutRequest(ss, q)
    else ss
  }

  function Unsubscribed(ss: seq<Subscription>, dest: ComponentId, mid: int): seq<Subscription> {
    var i := First(ss, IsKey(Notification(dest, mid)));
    if i < |ss| then ss[i := Withdrawn(ss[i])] else ss
  }

  datatype Op =
    | Subscribe(dest: ComponentId, mid: int)
    | CancelSubscription(dest: ComponentId, mid: int)
    | AddOrRemove(reply: int, q: Query)

  function After(ss: seq<Subscription>, op: Op): seq<Subscription> {
    match op
    case Subscribe(dest, mid) => Added(ss, Notification(dest, mid), 0)
    case CancelSubscription(dest, mid) => Unsubscribed(ss, dest, mid)
    case AddOrRemove(reply, q) => Requested(ss, reply, q)
  }

  function Run(ss: seq<Subscription>, ops: seq<Op>): seq<Subscription>
    decreases |ops|
  {
    if |ops| == 0 then ss else Run(After(ss, ops[0]), ops[1..])
  }

  // ----- invariants -----

  /** No two live entries have the same key. */
  ghost predicate Unique(ss: seq<Subscription>) {
    forall i, k :: 0 <= i < k < |ss| && ss[i].inUse && ss[k].inUse ==> KeyOf(ss[i]) != KeyOf(ss[k])
  }

  ghost predicate KeysGood(ss: seq<Subscription>) {
    forall i :: 0 <= i < |ss| && ss[i].inUse ==> GoodKey(KeyOf(ss[i]))
  }

  predicate IsCancellation(s: Subscription) {
    s.inUse && s.items && s.mid == REQ_REG_CANCELLATION
  }

  /** The FUTURE entry of the ReqReg request that also made the CANCELLATION entry `c`. */
  predicate Partner(c: Subscription, f: Subscription) {
    && f.inUse && f.items && f.mid == REQ_REG_FUTURE && f.dest == c.dest && f.source == c.source
    && f.itemName == c.itemName && f.qualList == c.qualList && f.device == c.device && f.iface == c.iface
  }

  ghost predicate Paired(ss: seq<Subscription>) {
    forall i :: 0 <= i < |ss| && IsCancellation(ss[i]) ==> exists j :: 0 <= j < |ss| && Partner(ss[i], ss[j])
  }

  ghost predicate Sound(ss: seq<Subscription>) {
    Unique(ss) && KeysGood(ss) && Paired(ss)
  }

  lemma EnteredAt(ss: seq<Subscription>, k: Key, id: int) returns (i: nat)
    ensures i == First(ss, IsHole()) && i < |Entered(ss, k, id)|
    ensures |ss| <= |Entered(ss, k, id)| <= |ss| + 1
    ensures Entered(ss, k, id)[i].inUse && (GoodKey(k) ==> KeyOf(Entered(ss, k, id)[i]) == k)
    ensures forall j :: 0 <= j < |Entered(ss, k, id)| && j != i ==> j < |ss| && Entered(ss, k, id)[j] == ss[j]
    ensures i < |ss| ==> !ss[i].inUse
  {
    i := First(ss, IsHole());
  }

  lemma HasKeyIff(ss: seq<Subscription>, k: Key)
    ensures HasKey(ss, k) <==> exists i :: 0 <= i < |ss| && ss[i].inUse && KeyOf(ss[i]) == k
  {}

  lemma AddedKeepsSound(ss: seq<Subscription>, k: Key, id: int)
    requires Sound(ss) && GoodKey(k)
    requires k.ReqReg? && k.mid == REQ_REG_CANCELLATION ==> HasKey(ss, k.(mid := REQ_REG_FUTURE))
    ensures Sound(Added(ss, k, id)) && HasKey(Added(ss, k, id), k)
  {
    var r := Added(ss, k, id);
    HasKeyIff(ss, k);
    HasKeyIff(r, k);
    if !HasKey(ss, k) {
      var n := EnteredAt(ss, k, id);
      EnteredKeepsPaired(ss, k, id, n);
    }
  }

  lemma {:induction false} EnteredKeepsPaired(ss: seq<Subscription>, k: Key, id: int, n: nat)
    requires Paired(ss) && GoodKey(k)
    requires k.ReqReg? && k.mid == REQ_REG_CANCELLATION ==> HasKey(ss, k.(mid := REQ_REG_FUTURE))
    requires n == First(ss, IsHole())
    ensures Paired(Entered(ss, k, id))
  {
    var r := Entered(ss, k, id);
    var _ := EnteredAt(ss, k, id);
    forall i | 0 <= i < |r| && IsCancellation(r[i])
      ensures exists j :: 0 <= j < |r| && Partner(r[i], r[j])
    {
      var j: nat;
      if i == n {
        j := First(ss, IsKey(k.(mid := REQ_REG_FUTURE)));
        assert IsKey(k.(mid := REQ_REG_FUTURE))(ss[j]);
      } else {
        j :| j < |ss| && Partner(ss[i], ss[j]);
      }
      assert Partner(r[i], r[j]);
    }
  }

  /** A removal keeps every entry as it was or takes it out of use. */
  ghost predicate Reduced(ss: seq<Subscription>, r: seq<Subscription>) {
    |r| == |ss| && forall i :: 0 <= i < |ss| ==> r[i] == ss[i] || (ss[i].inUse && !r[i].inUse)
  }

  lemma ReducedKeepsSound(ss: seq<Subscription>, r: seq<Subscription>)
    requires Sound(ss) && Reduced(ss, r)
    requires forall i, j :: 0 <= i < |ss| && 0 <= j < |ss| && IsCancellation(ss[i]) && Partner(ss[i], ss[j]) ==>
                              (r[i].inUse ==> r[j].inUse)
    ensures Sound(r)
  {}

  /** Under unique keys the first entry with a key is the only one. */
  lemma FirstIsOnly(ss: seq<Subscription>, k: Key)
    requires Unique(ss)
    ensures RetiredFirst(ss, IsKey(k)) == RetiredAll(ss, IsKey(k))
  {}

  lemma WildcardKeepsSound(ss: seq<Subscription>, q: Query)
    requires Sound(ss)
    ensures Sound(RetiredAll(ss, IsOfSubscriber(q)))
  {
    forall i, j | 0 <= i < |ss| && 0 <= j < |ss| && IsCancellation(ss[i]) && Partner(ss[i], ss[j])
      ensures OfSubscriber(ss[i], q) == OfSubscriber(ss[j], q)
    {}
    ReducedKeepsSound(ss, RetiredAll(ss, IsOfSubscriber(q)));
  }

  /** A single ReqReg cancel takes out the FUTURE and the CANCELLATION entry with this selector and no other. */
  lemma SingleCancelIsExact(ss: seq<Subscription>, q: Query)
    requires Unique(ss) && IsReqReg(q) && !Wildcard(q)
    ensures var r := WithoutRequest(ss, q);
            && |r| == |ss|
            && forall i :: 0 <= i < |ss| ==>
                 r[i] == if IsKey(ReqRegKey(q, REQ_REG_FUTURE))(ss[i])
                            || IsKey(ReqRegKey(q, REQ_REG_CANCELLATION))(ss[i])
                         then Retired(ss[i]) else ss[i]
  {}

  lemma SingleKeepsSound(ss: seq<Subscription>, q: Query)
    requires Sound(ss) && IsReqReg(q) && !Wildcard(q)
    ensures Sound(WithoutRequest(ss, q))
  {
    SingleCancelIsExact(ss, q);
    forall i, j | 0 <= i < |ss| && 0 <= j < |ss| && IsCancellation(ss[i]) && Partner(ss[i], ss[j])
      ensures IsKey(ReqRegKey(q, REQ_REG_CANCELLATION))(ss[i]) == IsKey(ReqRegKey(q, REQ_REG_FUTURE))(ss[j])
    {}
    ReducedKeepsSound(ss, WithoutRequest(ss, q));
  }

  lemma CancelKeepsSound(ss: seq<Subscription>, q: Query)
    requires Sound(ss)
    ensures Sound(WithoutRequest(ss, q))
  {
    if Wildcard(q) {
      WildcardKeepsSound(ss, q);
    } else if IsReqReg(q) {
      SingleKeepsSound(ss, q);
    } else {
      var f := First(ss, IsSelected(q));
      assert f < |ss| ==> Selected(ss[f], q);
      ReducedKeepsSound(ss, WithoutRequest(ss, q));
    }
  }

  lemma UnsubscribedKeepsSound(ss: seq<Subscription>, dest: ComponentId, mid: int)
    requires Sound(ss)
    ensures Sound(Unsubscribed(ss, dest, mid))
  {
    var f := First(ss, IsKey(Notification(dest, mid)));
    if f < |ss| {
      assert IsKey(Notification(dest, mid))(ss[f]);
      ReducedKeepsSound(ss, Unsubscribed(ss, dest, mid));
    }
  }

  /** An add makes its key live, and no other key live or not live. */
  lemma AddedKeys(ss: seq<Subscription>, k: Key, id: int, x: Key)
    requires GoodKey(k)
    ensures HasKey(Added(ss, k, id), x) <==> HasKey(ss, x) || x == k
  {
    HasKeyIff(ss, x);
    HasKeyIff(Added(ss, k, id), x);
    if !HasKey(ss, k) {
      var n := EnteredAt(ss, k, id);
      if j :| 0 <= j < |ss| && ss[j].inUse && KeyOf(ss[j]) == x { assert Added(ss, k, id)[j] == ss[j]; }
    }
  }

  /** The keys a request is for: its own, and that of the CANCELLATION entry if a ReqReg asks for cancellations. */
  predicate AsksFor(reply: int, q: Query, k: Key) {
    || k == KeyFor(q)
    || (IsReqReg(q) && reply != SUB_CURRENT_AND_FUTURE && k == ReqRegKey(q, REQ_REG_CANCELLATION))
  }

  lemma RequestedKeys(ss: seq<Subscription>, reply: int, q: Query, k: Key)
    ensures HasKey(WithRequest(ss, reply, q), k) <==> HasKey(ss, k) || AsksFor(reply, q, k)
  {
    AddedKeys(ss, KeyFor(q), q.id, k);
    AddedKeys(Added(ss, KeyFor(q), q.id), ReqRegKey(q, REQ_REG_CANCELLATION), q.id, k);
  }

  /** A request makes live exactly what was live and what it asks for. */
  lemma RequestKeepsSound(ss: seq<Subscription>, reply: int, q: Query)
    requires Sound(ss)
    ensures Sound(WithRequest(ss, reply, q))
    ensures forall k :: HasKey(WithRequest(ss, reply, q), k) <==> HasKey(ss, k) || AsksFor(reply, q, k)
  {
    forall k
      ensures HasKey(WithRequest(ss, reply, q), k) <==> HasKey(ss, k) || AsksFor(reply, q, k)
    {
      RequestedKeys(ss, reply, q, k);
    }
    var one := Added(ss, KeyFor(q), q.id);
    AddedKeepsSound(ss, KeyFor(q), q.id);
    if IsReqReg(q) {
      var k := ReqRegKey(q, REQ_REG_CANCELLATION);
      assert k.ReqReg? && KeyFor(q) == k.(mid := REQ_REG_FUTURE);
      AddedKeepsSound(one, k, q.id);
    }
  }

  lemma StepKeepsSound(ss: seq<Subscription>, op: Op)
    requires Sound(ss)
    ensures Sound(After(ss, op))
  {
    match op {
      case Subscribe(dest, mid) => AddedKeepsSound(ss, Notification(dest, mid), 0);
      case CancelSubscription(dest, mid) => UnsubscribedKeepsSound(ss, dest, mid);
      case AddOrRemove(reply, q) =>
        CancelKeepsSound(ss, q);
        RequestKeepsSound(ss, reply, q);
    }
  }

  /** Whatever is added and removed, live keys stay unique and each CANCELLATION entry has its FUTURE entry. */
  lemma {:induction false} RunKeepsSound(ss: seq<Subscription>, ops: seq<Op>)
    requires Sound(ss)
    ensures Sound(Run(ss, ops))
    decreases |ops|
  {
    if |ops| > 0 {
      StepKeepsSound(ss, ops[0]);
      RunKeepsSound(After(ss, ops[0]), ops[1..]);
    }
  }
}
