/** The Task Manager's table of Process Managers (sdm/tm/pm_record_list.cpp). */
module PmRecords {
  import opened Ids
  import opened Sequences

  const MAX_PM := 8
  const MAX_JOBS := 50
  const HEARTBEAT_INACTIVE := -1

  datatype PmRecord = PmRecord(id: ComponentId, resources: Resources, tasks: int, inUse: bool)

  const UNUSED := PmRecord(NO_COMPONENT, NO_RESOURCES, 0, false)

  /** The value held by the list: records, unanswered heartbeats, and the persistent scan index. */
  datatype BookState = Book(pms: seq<PmRecord>, beats: seq<int>, index: nat)

  predicate WellFormed(b: BookState) {
    |b.pms| == MAX_PM && |b.beats| == MAX_PM && b.index <= MAX_PM
  }

  const BLANK_BOOK := Book(Repeated(UNUSED, MAX_PM), Repeated(0, MAX_PM), 0)

  type Book = b: BookState | WellFormed(b) witness BLANK_BOOK

  const EMPTY_BOOK: Book := BLANK_BOOK

  // ----- the tests made by the scan loops -----

  function IsFree(): PmRecord -> bool { (r: PmRecord) => !r.inUse }
  function IsUsed(): PmRecord -> bool { (r: PmRecord) => r.inUse }
  function AtAddress(a: nat): PmRecord -> bool { (r: PmRecord) => r.inUse && r.id.address == a }
  function Prefers(resources: Resources): PmRecord -> bool {
    (r: PmRecord) => resources.pmId == r.resources.pmId
  }

  /** Whether the resources of a registered PM satisfy those of a task. */
  predicate Suits(r: PmRecord, resources: Resources) {
    r.inUse && r.resources.arch == resources.arch && r.resources.os == resources.os && r.resources.mem >= resources.mem
  }

  predicate Eligible(r: PmRecord, load: int, resources: Resources) {
    Suits(r, resources) && r.tasks <= load
  }

  /** First slot that has left two heartbeats unanswered. */
  function FirstFailed(b: Book): (i: nat)
    ensures i <= MAX_PM
    ensures i < MAX_PM ==> b.pms[i].inUse && b.beats[i] >= 2
    ensures forall j :: 0 <= j < i ==> !(b.pms[j].inUse && b.beats[j] >= 2)
  {
    FailedFrom(b, 0)
  }

  function FailedFrom(b: Book, k: nat): (i: nat)
    requires k <= MAX_PM
    ensures k <= i <= MAX_PM
    ensures i < MAX_PM ==> b.pms[i].inUse && b.beats[i] >= 2
    ensures forall j :: k <= j < i ==> !(b.pms[j].inUse && b.beats[j] >= 2)
    decreases MAX_PM - k
  {
    if k == MAX_PM || (b.pms[k].inUse && b.beats[k] >= 2) then k else FailedFrom(b, k + 1)
  }

  /** Where the persistent scan stops: the first eligible slot at or after `k`. */
  function EligibleFrom(b: Book, k: nat, load: int, resources: Resources): (i: nat)
    requires k <= MAX_PM
    ensures k <= i <= MAX_PM
    ensures i < MAX_PM ==> Eligible(b.pms[i], load, resources)
    ensures forall j :: k <= j < i ==> !Eligible(b.pms[j], load, resources)
    decreases MAX_PM - k
  {
    if k == MAX_PM || Eligible(b.pms[k], load, resources) then k else EligibleFrom(b, k + 1, load, resources)
  }

  // ----- what each operation does to the book -----

  function Registered(b: Book, id: ComponentId, resources: Resources): Book
  {
    var i := First(b.pms, IsFree());
    if i < MAX_PM then b.(pms := b.pms[i := PmRecord(id.(port := PORT_PM), resources, 0, true)]) else b
  }

  /** TaskHasStarted and TaskFinished: one more, or one fewer, on the PM at this address. */
  function Loaded(b: Book, address: nat, delta: int): Book
  {
    var i := First(b.pms, AtAddress(address));
    if i < MAX_PM then b.(pms := b.pms[i := b.pms[i].(tasks := b.pms[i].tasks + delta)]) else b
  }

  function Unloaded(b: Book): Book {
    b.(pms := seq(|b.pms|, i requires 0 <= i < |b.pms| => b.pms[i].(tasks := 0)))
  }

  function Beaten(b: Book): Book
  {
    b.(beats := seq(MAX_PM, i requires 0 <= i < MAX_PM =>
      if b.pms[i].inUse then b.beats[i] + 1 else HEARTBEAT_INACTIVE))
  }

  function Answered(b: Book, address: nat): Book
  {
    b.(beats := seq(MAX_PM, i requires 0 <= i < MAX_PM =>
      if AtAddress(address)(b.pms[i]) then 0 else b.beats[i]))
  }

  function WithoutFailed(b: Book): Book
  {
    var i := FirstFailed(b);
    if i < MAX_PM then b.(pms := b.pms[i := b.pms[i].(inUse := false, tasks := 0, resources := NO_RESOURCES)]) else b
  }

  /** One call of FindEligiblePM: the slot found, or none, and the book with its index moved. */
  function Scanned(b: Book, load: int, resources: Resources): (r: (Option<nat>, Book))
    ensures r.1.pms == b.pms && r.1.beats == b.beats
    ensures r.0.Some? ==> r.0.value < MAX_PM
  {
    var i := EligibleFrom(b, b.index, load, resources);
    if i < MAX_PM then (Some(i), b.(index := i + 1)) else (None, b.(index := 0))
  }

  /** The Scheduler's loop over loads j, j + 1, ... MAX_JOBS - 1. */
  function Chosen(b: Book, j: nat, resources: Resources): (r: (Option<nat>, Book))
    requires j <= MAX_JOBS
    ensures r.1.pms == b.pms && r.1.beats == b.beats
    ensures r.0.Some? ==> r.0.value < MAX_PM
    decreases MAX_JOBS - j
  {
    if j == MAX_JOBS then (None, b) else
      var s := Scanned(b, j, resources);
      if s.0.Some? then s else Chosen(s.1, j + 1, resources)
  }

  /** The PM for a task: the preferred node if the task names one, otherwise the least loaded that suits. */
  function Choice(b: Book, resources: Resources): (r: (Option<nat>, Book))
    ensures r.1.pms == b.pms && r.1.beats == b.beats
    ensures r.0.Some? ==> r.0.value < MAX_PM
  {
    if resources.pmId != 0 then
      var i := First(b.pms, Prefers(resources));
      (if i < MAX_PM then Some(i) else None, b)
    else Chosen(b, 0, resources)
  }

  class PMRecordList {
    const records: array<PmRecord>
    const beats: array<int>
    var index: nat

    ghost predicate Valid()
      reads this
    {
      records.Length == MAX_PM && beats.Length == MAX_PM && index <= MAX_PM
    }

    ghost function View(): (b: BookState)
      reads this, records, beats
      ensures Valid() ==> WellFormed(b)
    {
      Book(records[..], beats[..], index)
    }

    constructor ()
      ensures Valid() && fresh(records) && fresh(beats)
      ensures View() == EMPTY_BOOK
    {
      records := new PmRecord[MAX_PM](_ => UNUSED);
      beats := new int[MAX_PM](_ => 0);
      index := 0;
      new;
      assert records[..] == EMPTY_BOOK.pms;
      assert beats[..] == EMPTY_BOOK.beats;
    }

    /** The scan shared by every lookup by address. */
    method FindAddress(address: nat) returns (i: nat)
      requires Valid()
      ensures i == First(View().pms, AtAddress(address))
    {
      i := 0;
      while i < MAX_PM && !(records[i].inUse && records[i].id.address == address)
        invariant 0 <= i <= MAX_PM
        invariant forall k :: 0 <= k < i ==> !AtAddress(address)(records[k])
      {
        i := i + 1;
      }
    }

    method AlreadyRegistered(id: ComponentId) returns (known: bool)
      requires Valid()
      ensures known <==> First(View().pms, AtAddress(id.address)) < MAX_PM
    {
      var i := FindAddress(id.address);
      known := i < MAX_PM;
    }

    method RegisterPM(id: ComponentId, resources: Resources) returns (registered: bool)
      requires Valid()
      modifies records
      ensures Valid() && View() == Registered(old(View()), id, resources)
      ensures registered <==> exists i :: 0 <= i < MAX_PM && !old(records[i]).inUse
    {
      var i := 0;
      while i < MAX_PM && records[i].inUse
        invariant 0 <= i <= MAX_PM
        invariant forall k :: 0 <= k < i ==> records[k].inUse
      {
        i := i + 1;
      }
      assert i == First(records[..], IsFree());
      if i == MAX_PM { return false; }
      records[i] := PmRecord(id.(port := PORT_PM), resources, 0, true);
      return true;
    }

    method ClearAllRunningTasks()
      requires Valid()
      modifies records
      ensures Valid() && View() == Unloaded(old(View()))
    {
      for i := 0 to MAX_PM
        invariant forall k :: 0 <= k < i ==> records[k] == old(records[k]).(tasks := 0)
        invariant forall k :: i <= k < MAX_PM ==> records[k] == old(records[k])
      {
        records[i] := records[i].(tasks := 0);
      }
      assert records[..] == Unloaded(old(View())).pms;
    }

    method TaskFinished(id: ComponentId) returns (known: bool)
      requires Valid()
      modifies records
      ensures Valid() && View() == Loaded(old(View()), id.address, -1)
      ensures known <==> First(old(View()).pms, AtAddress(id.address)) < MAX_PM
    {
      var i := FindAddress(id.address);
      known := i < MAX_PM;
      if known { records[i] := records[i].(tasks := records[i].tasks - 1); }
    }

    method TaskHasStarted(id: ComponentId) returns (known: bool)
      requires Valid()
      modifies records
      ensures Valid() && View() == Loaded(old(View()), id.address, 1)
      ensures known <==> First(old(View()).pms, AtAddress(id.address)) < MAX_PM
    {
      var i := FindAddress(id.address);
      known := i < MAX_PM;
      if known { records[i] := records[i].(tasks := records[i].tasks + 1); }
    }

    /** Finds the preferred PM by node id; the loop does not look at `in_use`. */
    method FindPMID(resources: Resources) returns (i: nat)
      requires Valid()
      ensures i == if resources.pmId == 0 then MAX_PM else First(View().pms, Prefers(resources))
    {
      if resources.pmId == 0 { return MAX_PM; }
      i := 0;
      while i < MAX_PM && resources.pmId != records[i].resources.pmId
        invariant 0 <= i <= MAX_PM
        invariant forall k :: 0 <= k < i ==> !Prefers(resources)(records[k])
      {
        i := i + 1;
      }
    }

    method FindEligiblePM(load: int, resources: Resources) returns (found: Option<nat>)
      requires Valid()
      modifies this`index
      ensures Valid() && (found, View()) == Scanned(old(View()), load, resources)
      ensures found.Some? ==>
                var p := records[found.value];
                && p.inUse && p.tasks <= load
                && p.resources.arch == resources.arch && p.resources.os == resources.os
                && p.resources.mem >= resources.mem
    {
      while index < MAX_PM
        invariant Valid() && old(index) <= index
        invariant forall k :: old(index) <= k < index ==> !Eligible(records[k], load, resources)
        decreases MAX_PM - index
      {
        if Eligible(records[index], load, resources) {
          found := Some(index);
          index := index + 1;
          return;
        }
        index := index + 1;
      }
      if index >= MAX_PM { index := 0; }
      found := None;
    }

    /** The Scheduler's search: the load limit grows until some PM fits under it. */
    method ChoosePM(resources: Resources) returns (found: Option<nat>)
      requires Valid()
      modifies this`index
      ensures Valid() && (found, View()) == Chosen(old(View()), 0, resources)
    {
      found := None;
      for j := 0 to MAX_JOBS
        invariant Valid() && found.None?
        invariant Chosen(old(View()), 0, resources) == Chosen(View(), j, resources)
      {
        found := FindEligiblePM(j, resources);
        if found.Some? { return; }
      }
    }

    /** FindPMID or the load search, as the Scheduler decides by the task's resources. */
    method Choose(resources: Resources) returns (found: Option<nat>)
      requires Valid()
      modifies this`index
      ensures Valid() && (found, View()) == Choice(old(View()), resources)
    {
      if resources.pmId != 0 {
        var i := FindPMID(resources);
        found := if i < MAX_PM then Some(i) else None;
      } else {
        found := ChoosePM(resources);
      }
    }

    method SendHeartbeatToAll() returns (sent: seq<ComponentId>)
      requires Valid()
      modifies beats
      ensures Valid() && View() == Beaten(old(View()))
      ensures sent == IdsOf(Filter(View().pms, IsUsed()))
    {
      sent := [];
      assert records[..0] == [];
      for i := 0 to MAX_PM
        invariant forall k :: 0 <= k < i ==> beats[k] == Beaten(old(View())).beats[k]
        invariant forall k :: i <= k < MAX_PM ==> beats[k] == old(beats[k])
        invariant sent == IdsOf(Filter(records[..i], IsUsed()))
      {
        assert records[..i + 1] == records[..i] + [records[i]];
        FilterConcat(records[..i], [records[i]], IsUsed());
        assert [records[i]][1..] == [];
        if records[i].inUse {
          sent := sent + [records[i].id];
          beats[i] := beats[i] + 1;
        } else {
          beats[i] := HEARTBEAT_INACTIVE;
        }
      }
      assert records[..MAX_PM] == records[..];
      assert beats[..] == Beaten(old(View())).beats;
    }

    method HeartbeatReceived(id: ComponentId)
      requires Valid()
      modifies beats
      ensures Valid() && View() == Answered(old(View()), id.address)
    {
      ghost var was := View();
      for i := 0 to MAX_PM
        invariant forall k :: 0 <= k < i ==>
          beats[k] == if AtAddress(id.address)(was.pms[k]) then 0 else was.beats[k]
        invariant forall k :: i <= k < MAX_PM ==> beats[k] == old(beats[k])
      {
        if records[i].inUse && records[i].id.address == id.address { beats[i] := 0; }
      }
      assert beats[..] == Answered(old(View()), id.address).beats;
    }

    method RemoveAnyFailed() returns (removed: Option<ComponentId>)
      requires Valid()
      modifies records
      ensures Valid() && View() == WithoutFailed(old(View()))
      ensures var i := FirstFailed(old(View()));
              removed == if i < MAX_PM then Some(old(records[i]).id) else None
    {
      for i := 0 to MAX_PM
        invariant forall k :: 0 <= k < i ==> !(records[k].inUse && beats[k] >= 2)
        invariant records[..] == old(records[..])
      {
        if records[i].inUse && beats[i] >= 2 {
          assert i == FirstFailed(View());
          removed := Some(records[i].id);
          records[i] := records[i].(inUse := false, tasks := 0, resources := NO_RESOURCES);
          return;
        }
      }
      removed := None;
    }

    method IsEmpty() returns (empty: bool)
      requires Valid()
      ensures empty <==> First(View().pms, IsUsed()) == MAX_PM
    {
      for i := 0 to MAX_PM
        invariant forall k :: 0 <= k < i ==> !IsUsed()(records[k])
      {
        if records[i].inUse {
          assert IsUsed()(records[..][i]);
          return false;
        }
      }
      return true;
    }
  }

  function IdsOf(rs: seq<PmRecord>): seq<ComponentId> {
    seq(|rs|, i requires 0 <= i < |rs| => rs[i].id)
  }

  function HasId(id: ComponentId): PmRecord -> bool { (r: PmRecord) => r.inUse && r.id == id }

  /** A round sends to each identifier as many heartbeats as there are registered PMs with it, and to nobody else. */
  lemma {:induction false} HeartbeatsReachRegistered(rs: seq<PmRecord>, id: ComponentId)
    ensures Count(IdsOf(Filter(rs, IsUsed())), Is(id)) == Count(rs, HasId(id))
  {
    if |rs| > 0 {
      var rest := Filter(rs[1..], IsUsed());
      HeartbeatsReachRegistered(rs[1..], id);
      if rs[0].inUse {
        assert Filter(rs, IsUsed()) == [rs[0]] + rest;
        assert IdsOf([rs[0]] + rest) == [rs[0].id] + IdsOf(rest) && ([rs[0].id] + IdsOf(rest))[1..] == IdsOf(rest);
      } else {
        assert Filter(rs, IsUsed()) == [] + rest == rest;
      }
    }
  }

  /** A PM that registers takes a free record: its address, the PM port, the resources it announces, and no tasks. */
  lemma RegisteredRecord(b: Book, id: ComponentId, resources: Resources) returns (i: nat)
    requires exists k :: 0 <= k < MAX_PM && !b.pms[k].inUse
    ensures var r := Registered(b, id, resources);
            && i < MAX_PM && !b.pms[i].inUse
            && r.pms[i] == PmRecord(ComponentId(id.address, 3508, id.sensorId), resources, 0, true)
            && r.beats == b.beats && r.index == b.index
            && forall k :: 0 <= k < MAX_PM && k != i ==> r.pms[k] == b.pms[k]
  {
    i := First(b.pms, IsFree());
    var k :| 0 <= k < MAX_PM && !b.pms[k].inUse;
    assert IsFree()(b.pms[k]);
  }

  /** The lookup by preferred node finds a record with that node id, or there is none. */
  lemma PreferredHasNode(b: Book, resources: Resources)
    ensures var i := First(b.pms, Prefers(resources));
            if i < MAX_PM then b.pms[i].resources.pmId == resources.pmId
            else forall k :: 0 <= k < MAX_PM ==> b.pms[k].resources.pmId != resources.pmId
  {
    assert forall k :: 0 <= k < MAX_PM ==> (Prefers(resources)(b.pms[k]) <==>
                                            resources.pmId == b.pms[k].resources.pmId);
  }
}
