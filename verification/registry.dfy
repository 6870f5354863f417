/** The Data Manager's list of registered xTEDS (sdm/dm/DM.cpp): slots, sensor ids and their reuse. */
module Registry {
  import opened Ids
  import opened Sequences

  const PORT_DM := 3504
  const PORT_SM := 3506
  const PORT_TM := 3510
  const PORT_SPA1_MANAGER := 3514

  /** `available` marks a slot free for reuse; `active` that its component is up. */
  datatype Slot = Slot(name: string, address: nat, port: nat, sid: nat, pid: nat, active: bool, available: bool)

  /** An SDMxTEDS message; `valid` is whether its document parses. */
  datatype Registration =
    Registration(name: string, address: nat, port: nat, id: nat, pid: nat, active: bool, valid: bool)

  datatype Cancel = Cancel(address: nat, port: nat, id: nat, full: bool)

  /** A sensor id: the slot's index above its low sixteen bits. */
  function SensorId(index: nat, low: nat): (sid: nat)
    requires low < 0x10000
    ensures sid / 0x10000 == index && sid % 0x10000 == low
  {
    low + index * 0x10000
  }

  // ----- registration -----

  /** Where the search for an earlier registration stops: a component that is down, or this very one still up. */
  predicate Known(s: Slot, r: Registration) {
    && !s.available && r.name <= s.name
    && (s.active ==>
          && r.port == s.port && r.address == s.address
          && (r.port == PORT_TM || r.id % 0x10000 == s.sid % 0x10000))
  }

  function IsKnown(r: Registration): Slot -> bool { (s: Slot) => Known(s, r) }
  function IsAvailable(): Slot -> bool { (s: Slot) => s.available }

  function Reactivated(s: Slot, index: nat, r: Registration): Slot {
    s.(active := true, address := r.address, port := r.port, pid := r.pid, sid := SensorId(index, r.id % 0x10000))
  }

  /** What StoreInfo writes. */
  function Stored(index: nat, r: Registration): Slot {
    Slot(r.name, r.address, r.port, SensorId(index, r.id % 0x100), r.pid, r.active, false)
  }

  /** A slot whose document did not parse is given back. */
  function Written(index: nat, r: Registration): Slot {
    if r.valid then Stored(index, r) else Stored(index, r).(available := true, active := false)
  }

  /** StoreInfo: the first available slot after the first one, else a new slot. */
  function StoreIndex(ss: seq<Slot>): (i: nat)
    ensures i <= |ss|
  {
    if |ss| == 0 then 0 else 1 + First(ss[1..], IsAvailable())
  }

  function Put(ss: seq<Slot>, i: nat, s: Slot): seq<Slot>
    requires i <= |ss|
  {
    if i < |ss| then ss[i := s] else ss + [s]
  }

  function Registered(ss: seq<Slot>, r: Registration): seq<Slot> {
    var i := First(ss, IsKnown(r));
    if i == |ss| then Put(ss, StoreIndex(ss), Written(StoreIndex(ss), r))
    else if ss[i].active then ss
    else ss[i := Reactivated(ss[i], i, r)]
  }

  // ----- cancellation -----

  /** Components whose xTEDS stay active until their slot is freed. */
  predicate Resident(port: nat) {
    port == PORT_SM || port == PORT_SPA1_MANAGER || port == PORT_TM || port == PORT_PM
  }

  /** The slot a CancelxTEDS is for: a PM names a task by its pid, others name a sensor by its low eight bits. */
  predicate Cancels(s: Slot, c: Cancel) {
    && !s.available
    && (c.port == s.port || (c.port == PORT_PM && c.id != 0) || (c.port == 0 && c.id == 0))
    && c.address == s.address && s.active
    && (c.id % 0x100 == s.sid % 0x100
        || (c.port == PORT_PM && s.port != PORT_DM && s.port != PORT_SM && s.port != PORT_TM
            && s.port != PORT_SPA1_MANAGER))
    && (c.port == PORT_PM ==> c.id == s.pid)
  }

  function IsCancelled(c: Cancel): Slot -> bool { (s: Slot) => Cancels(s, c) }

  function Cancelled(s: Slot, c: Cancel): Slot {
    var t := s.(active := c.full || (s.active && Resident(s.port)));
    if s.port != PORT_DM && t.active then t.(available := true, port := 0, pid := 0, active := false) else t
  }

  function IsTask(address: nat, pid: nat): Slot -> bool {
    (s: Slot) => !s.available && s.address == address && s.active && s.pid == pid
  }

  // ----- runs -----

  datatype Op =
    | Register(r: Registration)
    | CancelxTEDS(c: Cancel)
    | TaskError(address: nat, pid: nat)

  function After(ss: seq<Slot>, op: Op): seq<Slot> {
    match op
    case Register(r) => Registered(ss, r)
    case CancelxTEDS(c) =>
      var i := First(ss, IsCancelled(c));
      if i < |ss| then ss[i := Cancelled(ss[i], c)] else ss
    case TaskError(address, pid) =>
      var i := First(ss, IsTask(address, pid));
      if i < |ss| then ss[i := ss[i].(active := false)] else ss
  }

  function Run(ss: seq<Slot>, ops: seq<Op>): seq<Slot>
    decreases |ops|
  {
    if |ops| == 0 then ss else Run(After(ss, ops[0]), ops[1..])
  }

  /** Every sensor id holds its slot's index in bits 16 and up, and an available slot is never active. */
  ghost predicate Sound(ss: seq<Slot>) {
    forall i :: 0 <= i < |ss| ==> ss[i].sid / 0x10000 == i && (ss[i].available ==> !ss[i].active)
  }

  lemma StepKeepsSound(ss: seq<Slot>, op: Op)
    requires Sound(ss)
    ensures Sound(After(ss, op)) && |ss| <= |After(ss, op)| <= |ss| + 1
  {
    match op {
      case Register(r) =>
      case CancelxTEDS(c) =>
        var i := First(ss, IsCancelled(c));
        assert i < |ss| ==> Cancelled(ss[i], c).sid == ss[i].sid;
      case TaskError(address, pid) =>
    }
  }

  lemma {:induction false} RunKeepsSound(ss: seq<Slot>, ops: seq<Op>)
    requires Sound(ss)
    ensures Sound(Run(ss, ops)) && |ss| <= |Run(ss, ops)|
    decreases |ops|
  {
    if |ops| > 0 {
      StepKeepsSound(ss, ops[0]);
      RunKeepsSound(After(ss, ops[0]), ops[1..]);
    }
  }

  // ----- looking a sensor id up -----

  function HasSid(sid: nat): Slot -> bool { (s: Slot) => s.active && s.sid == sid }

  /** MatchSID, as the index of the slot found. */
  function MatchedSid(ss: seq<Slot>, sid: nat): nat {
    First(ss, HasSid(sid))
  }

  /** Sensor ids are pairwise distinct, so a lookup finds the one active slot that has the id, and only such a slot. */
  lemma MatchIsUnique(ss: seq<Slot>, sid: nat, i: nat)
    requires Sound(ss) && i < |ss|
    ensures MatchedSid(ss, sid) == i <==> ss[i].active && ss[i].sid == sid
    ensures forall k :: 0 <= k < |ss| && k != i ==> ss[k].sid != ss[i].sid
  {}

  /** The handler keeps eight bits of the index, which names the slot exactly while the list is that short. */
  lemma IndexIsRecoveredIff(ss: seq<Slot>, i: nat)
    requires Sound(ss) && i < |ss|
    ensures (ss[i].sid / 0x10000) % 0x100 == i <==> i < 0x100
  {}

  // ----- what registering does to the others -----

  /** Registering touches one slot at most, and that slot was neither active nor held by another component. */
  lemma OthersUntouched(ss: seq<Slot>, r: Registration, i: nat)
    requires Sound(ss) && i < |ss|
    ensures After(ss, Register(r))[i] != ss[i] ==> !ss[i].active && (ss[i].available || r.name <= ss[i].name)
    ensures forall k :: 0 <= k < |ss| && k != i && After(ss, Register(r))[k] != ss[k] ==>
                          After(ss, Register(r))[i] == ss[i]
  {}

  /** Where a registration ends up: the slot that was down, or the one StoreInfo uses. */
  function SlotFor(ss: seq<Slot>, r: Registration): nat {
    var i := First(ss, IsKnown(r));
    if i < |ss| then i else StoreIndex(ss)
  }

  // ----- whom a cancel or a task error takes down -----

  /**
   * Whom a cancel means, by who asks. A PM names a task by its pid, and itself with pid 0; of the resident managers it
   * only reaches one whose id it repeats. The Network Manager, with neither port nor id, means a device with id 0.
   * Anybody else means the component with the port and the low byte of the id.
   */
  predicate Meant(s: Slot, c: Cancel) {
    && s.active && !s.available && s.address == c.address
    && if c.port == 3508 then
         && s.pid == c.id
         && (s.port == 3508 || c.id != 0)
         && (s.port in {3504, 3506, 3510, 3514} ==> s.sid % 256 == c.id % 256)
       else if c.port == 0 && c.id == 0 then s.sid % 256 == 0
       else s.port == c.port && s.sid % 256 == c.id % 256
  }

  /** A cancel changes the first slot it means and no other; the DM's own survives a full cancel as it is. */
  lemma CancelChangesIff(ss: seq<Slot>, c: Cancel, i: nat)
    requires i < |ss|
    ensures |After(ss, CancelxTEDS(c))| == |ss|
    ensures After(ss, CancelxTEDS(c))[i] != ss[i] <==>
              && Meant(ss[i], c) && (forall k :: 0 <= k < i ==> !Meant(ss[k], c))
              && !(ss[i].port == 3504 && c.full)
  {
    var f := First(ss, IsCancelled(c));
    assert f < |ss| ==> IsCancelled(c)(ss[f]);
    forall k | 0 <= k < |ss|
      ensures IsCancelled(c)(ss[k]) <==> Meant(ss[k], c)
    {
      MeantIsCancelled(ss[k], c);
    }
  }

  /** The test in the loop, which is in another order, comes to that. */
  lemma MeantIsCancelled(s: Slot, c: Cancel)
    ensures Cancels(s, c) <==> Meant(s, c)
  {}

  /** A task error takes down the first component up at its address under its pid, and changes nothing else. */
  lemma TaskErrorChangesIff(ss: seq<Slot>, address: nat, pid: nat, i: nat)
    requires i < |ss|
    ensures var r := After(ss, TaskError(address, pid));
            && |r| == |ss|
            && r[i] == if ss[i].active && !ss[i].available && ss[i].address == address && ss[i].pid == pid
                          && (forall k :: 0 <= k < i ==> !(ss[k].active && !ss[k].available
                                                           && ss[k].address == address && ss[k].pid == pid))
                       then ss[i].(active := false) else ss[i]
  {
    var f := First(ss, IsTask(address, pid));
    assert f < |ss| ==> IsTask(address, pid)(ss[f]);
    assert forall k :: 0 <= k < |ss| ==>
                         IsTask(address, pid)(ss[k])
                         == (ss[k].active && !ss[k].available && ss[k].address == address && ss[k].pid == pid);
  }

  /** Only cancels and task errors, and those of other addresses. */
  predicate FromElsewhere(ops: seq<Op>, address: nat) {
    forall j :: 0 <= j < |ops| ==>
                  match ops[j]
                  case Register(_) => false
                  case CancelxTEDS(c) => c.address != address
                  case TaskError(a, _) => a != address
  }

  /** Whatever is cancelled or reported in error from other addresses, a component stays as it is. */
  lemma {:induction false} ElsewhereSpares(ss: seq<Slot>, ops: seq<Op>, i: nat)
    requires i < |ss| && FromElsewhere(ops, ss[i].address)
    ensures |Run(ss, ops)| == |ss| && Run(ss, ops)[i] == ss[i]
    decreases |ops|
  {
    if |ops| > 0 {
      assert forall j :: 0 <= j < |ops| - 1 ==> ops[1..][j] == ops[j + 1];
      match ops[0] {
        case CancelxTEDS(c) => CancelChangesIff(ss, c, i);
        case TaskError(a, pid) => TaskErrorChangesIff(ss, a, pid, i);
      }
      ElsewhereSpares(After(ss, ops[0]), ops[1..], i);
    }
  }

  /**
   * A component that has registered is up at its address, port and pid, and is found by its sensor id. A task error
   * with its address and pid, and unless it is a PM a cancel that repeats its own port and id, reach it exactly when
   * they mean no earlier slot.
   */
  lemma {:induction false} RegisteredAnswers(ss: seq<Slot>, r: Registration, full: bool)
    requires Sound(ss) && r.valid && r.active
    requires First(ss, IsKnown(r)) < |ss| ==> !ss[First(ss, IsKnown(r))].active
    ensures var up := After(ss, Register(r));
            var i := SlotFor(ss, r);
            && i < |up| && MatchedSid(up, up[i].sid) == i
            && up[i].active && up[i].address == r.address && up[i].port == r.port && up[i].pid == r.pid
            && r.name <= up[i].name
            && (After(up, TaskError(r.address, r.pid))[i] != up[i] <==>
                forall k :: 0 <= k < i ==> !(ss[k].active && !ss[k].available
                                             && ss[k].address == r.address && ss[k].pid == r.pid))
    ensures var up := After(ss, Register(r));
            var i := SlotFor(ss, r);
            var c := Cancel(r.address, r.port, r.id, full);
            r.port != PORT_PM && (r.port == PORT_DM ==> !full) ==>
              (After(up, CancelxTEDS(c))[i] != up[i] <==> forall k :: 0 <= k < i ==> !Meant(ss[k], c))
  {
    var up := After(ss, Register(r));
    var i := SlotFor(ss, r);
    var c := Cancel(r.address, r.port, r.id, full);
    StepKeepsSound(ss, Register(r));
    RegisteredSlot(ss, r);
    MatchIsUnique(up, up[i].sid, i);
    TaskErrorChangesIff(up, r.address, r.pid, i);
    CancelChangesIff(up, c, i);
  }

  lemma RegisteredSlot(ss: seq<Slot>, r: Registration)
    requires r.valid && r.active
    requires First(ss, IsKnown(r)) < |ss| ==> !ss[First(ss, IsKnown(r))].active
    ensures var up := After(ss, Register(r));
            var i := SlotFor(ss, r);
            && i < |up| && up[i].active && !up[i].available
            && up[i].address == r.address && up[i].port == r.port && up[i].pid == r.pid
            && r.name <= up[i].name && up[i].sid % 256 == r.id % 256
            && forall k :: 0 <= k < i ==> up[k] == ss[k]
  {
    assert First(ss, IsKnown(r)) < |ss| ==> IsKnown(r)(ss[First(ss, IsKnown(r))]);
    LowByte(SlotFor(ss, r), r.id);
  }

  // ----- what a registration finds -----

  /** The slot of a component of this name that is down. */
  predicate Down(s: Slot, r: Registration) {
    !s.available && !s.active && r.name <= s.name
  }

  /** The slot of this very component, up: same port, address and low sixteen bits; the Task Manager's may differ. */
  predicate Same(s: Slot, r: Registration) {
    && !s.available && s.active && r.name <= s.name && s.port == r.port && s.address == r.address
    && (r.port == 3510 || s.sid % 65536 == r.id % 65536)
  }

  lemma KnownIsDownOrSame(s: Slot, r: Registration)
    ensures Known(s, r) <==> Down(s, r) || Same(s, r)
  {}

  lemma FirstKnown(ss: seq<Slot>, r: Registration, i: nat)
    requires i <= |ss| && forall k :: 0 <= k < i ==> !Down(ss[k], r) && !Same(ss[k], r)
    requires i < |ss| ==> Down(ss[i], r) || Same(ss[i], r)
    ensures First(ss, IsKnown(r)) == i
  {
    if i < |ss| { KnownIsDownOrSame(ss[i], r); }
    assert i < |ss| ==> IsKnown(r)(ss[i]);
    forall k | 0 <= k < i
      ensures !IsKnown(r)(ss[k])
    {
      KnownIsDownOrSame(ss[k], r);
    }
  }

  /** A component that is up and registers again changes nothing, unless an earlier slot of its name is down. */
  lemma SameIsLeftAlone(ss: seq<Slot>, r: Registration, i: nat)
    requires i < |ss| && Same(ss[i], r) && forall k :: 0 <= k < i ==> !Down(ss[k], r)
    ensures After(ss, Register(r)) == ss
  {
    KnownIsDownOrSame(ss[i], r);
    assert IsKnown(r)(ss[i]);
    var f := First(ss, IsKnown(r));
    assert IsKnown(r)(ss[f]);
    KnownIsDownOrSame(ss[f], r);
  }

  /** The first slot of the name that is down is taken up again, with the new address, port, pid and sixteen bits. */
  lemma DownIsTakenUp(ss: seq<Slot>, r: Registration, i: nat)
    requires i < |ss| && Down(ss[i], r) && forall k :: 0 <= k < i ==> !Down(ss[k], r) && !Same(ss[k], r)
    ensures After(ss, Register(r)) ==
              ss[i := Slot(ss[i].name, r.address, r.port, r.id % 65536 + i * 65536, r.pid, true, false)]
  {
    FirstKnown(ss, r, i);
  }

  /** A newcomer takes the first slot after the first that is free, or a new one, and keeps eight bits of its id. */
  lemma NewcomerIsStored(ss: seq<Slot>, r: Registration) returns (i: nat)
    requires r.valid && forall k :: 0 <= k < |ss| ==> !Down(ss[k], r) && !Same(ss[k], r)
    ensures i <= |ss| && (i < |ss| ==> ss[i].available) && (i == 0 ==> ss == [])
    ensures forall k :: 1 <= k < i ==> !ss[k].available
    ensures var slot := Slot(r.name, r.address, r.port, r.id % 256 + i * 65536, r.pid, r.active, false);
            After(ss, Register(r)) == if i < |ss| then ss[i := slot] else ss + [slot]
  {
    FirstKnown(ss, r, |ss|);
    i := StoreIndex(ss);
    forall k | 1 <= k < i
      ensures !ss[k].available
    {
      assert !IsAvailable()(ss[1..][k - 1]);
    }
    assert 1 <= i < |ss| ==> IsAvailable()(ss[1..][i - 1]);
  }

  /** One whose document does not parse gives the slot back. */
  lemma InvalidGivesBack(ss: seq<Slot>, r: Registration) returns (i: nat)
    requires !r.valid && forall k :: 0 <= k < |ss| ==> !Down(ss[k], r) && !Same(ss[k], r)
    ensures var up := After(ss, Register(r));
            && i < |up| && up[i].available && !up[i].active
            && (i < |ss| ==> ss[i].available) && forall k :: 0 <= k < |ss| && k != i ==> up[k] == ss[k]
  {
    FirstKnown(ss, r, |ss|);
    i := StoreIndex(ss);
    assert 1 <= i < |ss| ==> IsAvailable()(ss[1..][i - 1]);
  }

  /** The low byte of an id survives in either kind of sensor id. */
  lemma LowByte(index: nat, id: nat)
    ensures SensorId(index, id % 0x10000) % 0x100 == id % 0x100
    ensures SensorId(index, id % 0x100) % 0x100 == id % 0x100
  {
    AddMultiple(id, 0x100 * (index - id / 0x10000));
    AddMultiple(id, 0x100 * index - id / 0x100);
  }

  lemma AddMultiple(x: int, k: int)
    ensures (x + 0x100 * k) % 0x100 == x % 0x100
  {}

  /**
   * StoreInfo keeps eight bits of the announced id and the search for an earlier registration compares sixteen: a
   * component that repeats its first registration is recognised exactly when its id fits eight bits, or it is the TM.
   */
  lemma {:induction false} RegisterTwiceIff(ss: seq<Slot>, r: Registration)
    requires Sound(ss) && r.valid && r.active && First(ss, IsKnown(r)) == |ss|
    ensures var once := After(ss, Register(r));
            After(once, Register(r)) == once <==> r.port == PORT_TM || r.id % 0x10000 < 0x100
  {
    var i := StoreIndex(ss);
    var once := After(ss, Register(r));
    assert forall k :: 0 <= k < |ss| ==> !IsKnown(r)(ss[k]);
    assert forall k :: 0 <= k < |once| && k != i ==> once[k] == ss[k];
    assert once[i] == Stored(i, r);
    assert IsKnown(r)(once[i]) <==> r.port == PORT_TM || r.id % 0x10000 < 0x100;
    var f := First(once, IsKnown(r));
    if IsKnown(r)(once[i]) {
      assert f == i;
    } else {
      assert f == |once|;
      var n := StoreIndex(once);
      assert n < |once| ==> IsAvailable()(once[1..][n - 1]);
    }
  }

  /** The list grows exactly when the component is unknown and every slot after the first is taken. */
  lemma GrowsIff(ss: seq<Slot>, r: Registration)
    ensures |After(ss, Register(r))| == |ss| + 1 <==>
            (forall i :: 0 <= i < |ss| ==> !Known(ss[i], r)) && (forall i :: 1 <= i < |ss| ==> !ss[i].available)
  {}

  /** The first slot is never handed to another component: once free it stays free. */
  lemma {:induction false} FirstSlotIsNotReused(ss: seq<Slot>, ops: seq<Op>)
    requires Sound(ss) && |ss| > 0 && ss[0].available
    ensures |Run(ss, ops)| > 0 && Run(ss, ops)[0] == ss[0]
    decreases |ops|
  {
    if |ops| > 0 {
      var r := After(ss, ops[0]);
      StepKeepsSound(ss, ops[0]);
      assert r[0] == ss[0] by { FirstSlotStays(ss, ops[0]); }
      FirstSlotIsNotReused(r, ops[1..]);
    }
  }

  lemma FirstSlotStays(ss: seq<Slot>, op: Op)
    requires Sound(ss) && |ss| > 0 && ss[0].available
    ensures |After(ss, op)| > 0 && After(ss, op)[0] == ss[0]
  {}

  /**
   * A task reported in error and registered again comes back in its own slot when no earlier slot answers to its
   * name, and then under the same sensor id exactly when it announces the same low sixteen bits.
   */
  lemma RestartKeepsSidIff(ss: seq<Slot>, address: nat, pid: nat, r: Registration)
    requires Sound(ss)
    requires var i := First(ss, IsTask(address, pid));
             i < |ss| && r.name <= ss[i].name && forall k :: 0 <= k < i ==> !Known(ss[k], r)
    ensures var i := First(ss, IsTask(address, pid));
            var down := After(ss, TaskError(address, pid));
            var up := After(down, Register(r));
            && MatchedSid(down, ss[i].sid) == |ss|
            && |up| == |ss| && up[i].active && MatchedSid(up, up[i].sid) == i
            && (up[i].sid == ss[i].sid <==> r.id % 0x10000 == ss[i].sid % 0x10000)
  {}

  /** A cancel frees its slot exactly when it is a full cancel or the component is resident, and never the DM's. */
  lemma CancelFreesIff(ss: seq<Slot>, c: Cancel)
    requires Sound(ss) && First(ss, IsCancelled(c)) < |ss|
    ensures var i := First(ss, IsCancelled(c));
            var s := After(ss, CancelxTEDS(c))[i];
            && (s.available <==> ss[i].port != 3504 && (c.full || ss[i].port in {3506, 3508, 3510, 3514}))
            && (s.active <==> ss[i].port == 3504 && c.full)
            && s.name == ss[i].name && s.address == ss[i].address && s.sid == ss[i].sid
            && (s.available ==> s.port == 0 && s.pid == 0)
            && (!s.available ==> s.port == ss[i].port && s.pid == ss[i].pid)
  {}

  /**
   * A cancelled component that registers again returns to its own slot exactly when the cancel was not a full one and
   * the component is not resident; otherwise its slot is open to others.
   */
  lemma CancelledReturnsIff(ss: seq<Slot>, c: Cancel, r: Registration)
    requires Sound(ss) && First(ss, IsCancelled(c)) < |ss|
    requires var i := First(ss, IsCancelled(c));
             ss[i].port != PORT_DM && r.name <= ss[i].name && forall k :: 0 <= k < i ==> !Known(ss[k], r)
    ensures var i := First(ss, IsCancelled(c));
            First(After(ss, CancelxTEDS(c)), IsKnown(r)) == i <==> !c.full && !Resident(ss[i].port)
  {
    var i := First(ss, IsCancelled(c));
    var gone := After(ss, CancelxTEDS(c));
    CancelFreesIff(ss, c);
    assert IsKnown(r)(gone[i]) <==> !gone[i].available;
    assert forall k :: 0 <= k < i ==> !IsKnown(r)(gone[k]);
  }

  class XtedsList {
    var list: seq<Slot>

    constructor ()
      ensures list == []
    {
      list := [];
    }

    /** Reactivates a component that was down; `spot` is -1 for one that is already up. */
    method AlreadyRegistered(r: Registration) returns (found: Option<nat>, spot: int)
      modifies this
      ensures var i := First(old(list), IsKnown(r));
              if i == |old(list)| then found == None && spot == 0 && list == old(list)
              else
                && found == Some(i)
                && (spot == -1 <==> old(list)[i].active && r.port != PORT_TM) && (spot == -1 || spot == i)
                && list == Registered(old(list), r)
    {
      var count := 0;
      while count < |list|
        invariant count <= |list| && list == old(list)
        invariant forall k :: 0 <= k < count ==> !IsKnown(r)(list[k])
      {
        if !list[count].available && r.name <= list[count].name {
          if !list[count].active {
            list := list[count := Reactivated(list[count], count, r)];
            return Some(count), count;
          } else if r.port == list[count].port && r.address == list[count].address {
            if r.id % 0x10000 == list[count].sid % 0x10000 && r.port != PORT_TM { return Some(count), -1; }
            if r.port == PORT_TM { return Some(count), count; }
          }
        }
        count := count + 1;
      }
      return None, 0;
    }

    method StoreInfo(r: Registration) returns (spot: nat)
      modifies this
      ensures spot == StoreIndex(old(list)) && list == Put(old(list), spot, Stored(spot, r))
    {
      spot := 0;
      if |list| > 0 {
        spot := 1;
        while spot < |list| && !list[spot].available
          invariant 1 <= spot <= |list|
          invariant forall k :: 0 <= k < spot - 1 ==> !IsAvailable()(list[1..][k])
        {
          assert list[1..][spot - 1] == list[spot];
          spot := spot + 1;
        }
        assert spot < |list| ==> IsAvailable()(list[1..][spot - 1]);
      }
      if spot == |list| {
        list := list + [Stored(spot, r)];
      } else {
        list := list[spot := Stored(spot, r)];
      }
    }

    /** The xTEDS handler; the result is the slot's index, or -1 for a component that is already up. */
    method RegisterXteds(r: Registration) returns (spot: int)
      modifies this
      ensures list == After(old(list), Register(r))
      ensures var i := First(old(list), IsKnown(r));
              spot == if i == |old(list)| then StoreIndex(old(list))
                      else if old(list)[i].active && r.port != PORT_TM then -1 else i
    {
      var found: Option<nat>;
      found, spot := AlreadyRegistered(r);
      if found.None? {
        spot := StoreInfo(r);
        if !r.valid { list := list[spot := list[spot].(available := true, active := false)]; }
      }
    }

    method CancelXteds(c: Cancel) returns (known: bool)
      modifies this
      ensures list == After(old(list), CancelxTEDS(c))
      ensures known <==> First(old(list), IsCancelled(c)) < |old(list)|
    {
      var i := Find(IsCancelled(c));
      if i == |list| { return false; }
      var port := list[i].port;
      if !Resident(port) { list := list[i := list[i].(active := false)]; }
      if c.full { list := list[i := list[i].(active := true)]; }
      if port == PORT_DM { return true; }
      if list[i].active {
        list := list[i := list[i].(available := true, port := 0, pid := 0, active := false)];
      }
      return true;
    }

    method ReportTaskError(address: nat, pid: nat) returns (known: bool)
      modifies this
      ensures list == After(old(list), TaskError(address, pid))
      ensures known <==> First(old(list), IsTask(address, pid)) < |old(list)|
    {
      var i := Find(IsTask(address, pid));
      if i == |list| { return false; }
      list := list[i := list[i].(active := false)];
      return true;
    }

    method MatchSid(sid: nat) returns (i: nat)
      ensures i == MatchedSid(list, sid)
    {
      i := Find(HasSid(sid));
    }

    method Find(p: Slot -> bool) returns (i: nat)
      ensures i == First(list, p)
    {
      i := 0;
      while i < |list| && !p(list[i])
        invariant i <= |list|
        invariant forall k :: 0 <= k < i ==> !p(list[k])
      {
        i := i + 1;
      }
    }
  }
}
