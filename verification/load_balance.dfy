/** How evenly the Scheduler's search spreads tasks over the Process Managers. */
module LoadBalance {
  import opened Ids
  import opened Sequences
  import opened PmRecords

  ghost predicate NonNegative(b: Book) {
    forall i :: 0 <= i < |b.pms| && b.pms[i].inUse ==> b.pms[i].tasks >= 0
  }

  /** One registered PM per address, as RegPMHandler maintains. */
  ghost predicate UniqueAddresses(b: Book) {
    forall i, k :: 0 <= i < k < |b.pms| && b.pms[i].inUse && b.pms[k].inUse ==>
                     b.pms[i].id.address != b.pms[k].id.address
  }

  /** Under unique addresses a count is changed on the addressed record and nowhere else. */
  lemma LoadedAt(b: Book, i: nat, delta: int)
    requires UniqueAddresses(b) && i < MAX_PM && b.pms[i].inUse
    ensures Loaded(b, b.pms[i].id.address, delta) == b.(pms := b.pms[i := b.pms[i].(tasks := b.pms[i].tasks + delta)])
  {}

  /** Some PM that suits the task carries fewer than MAX_JOBS tasks. */
  ghost predicate HasRoom(b: Book, resources: Resources) {
    exists i :: 0 <= i < |b.pms| && Suits(b.pms[i], resources) && b.pms[i].tasks < MAX_JOBS
  }

  /** Slot i suits the task, has room, and carries no more than `floor` or than any other PM that suits. */
  ghost predicate LeastAbove(b: Book, i: nat, floor: int, resources: Resources) {
    && i < |b.pms| && Suits(b.pms[i], resources) && b.pms[i].tasks < MAX_JOBS
    && forall k :: 0 <= k < |b.pms| && Suits(b.pms[k], resources) ==>
                     b.pms[i].tasks <= floor || b.pms[i].tasks <= b.pms[k].tasks
  }

  /** A find exists exactly when a suitable PM has room, and then is one of the least loaded above `floor`. */
  ghost predicate GoodFind(b: Book, found: Option<nat>, floor: int, resources: Resources) {
    && (found.Some? <==> HasRoom(b, resources))
    && (found.Some? ==> LeastAbove(b, found.value, floor, resources))
  }

  /** A search whose index is at the start of the table. */
  lemma {:induction false} ChosenFromStart(b: Book, j: nat, resources: Resources)
    requires b.index == 0 && j <= MAX_JOBS
    requires j == MAX_JOBS ==> !HasRoom(b, resources)
    ensures GoodFind(b, Chosen(b, j, resources).0, j, resources)
    decreases MAX_JOBS - j
  {
    if j < MAX_JOBS {
      OneScan(b, j, resources);
      if EligibleFrom(b, b.index, j, resources) == MAX_PM {
        assert b.(index := 0) == b;
        NoneEligible(b, b.index, j, resources);
        ChosenFromStart(b, j + 1, resources);
        LowerFloor(b, Chosen(b, j + 1, resources).0, j, resources);
      }
    }
  }

  lemma LowerFloor(b: Book, found: Option<nat>, j: nat, resources: Resources)
    requires GoodFind(b, found, j + 1, resources)
    requires forall k :: 0 <= k < MAX_PM && Suits(b.pms[k], resources) ==> b.pms[k].tasks > j
    ensures GoodFind(b, found, j, resources)
  {}

  /** The search at load j either stops at the scan's find or starts over at load j + 1. */
  lemma OneScan(b: Book, j: nat, resources: Resources)
    requires j < MAX_JOBS
    ensures var i := EligibleFrom(b, b.index, j, resources);
            Chosen(b, j, resources) ==
            if i < MAX_PM then (Some(i), b.(index := i + 1)) else Chosen(b.(index := 0), j + 1, resources)
  {}

  lemma NoneEligible(b: Book, from: nat, j: int, resources: Resources)
    requires from <= MAX_PM && EligibleFrom(b, from, j, resources) == MAX_PM
    ensures forall k :: from <= k < MAX_PM && Suits(b.pms[k], resources) ==> b.pms[k].tasks > j
  {}

  /**
   * From any value of the persistent index the search succeeds exactly when a suitable PM has room, and the
   * PM it picks carries at most one task or no more than any other suitable PM: at most one more than the
   * least loaded, and no more than it when every suitable PM is busy.
   */
  lemma {:induction false} ChosenIsNearMinimum(b: Book, resources: Resources)
    requires NonNegative(b)
    ensures GoodFind(b, Chosen(b, 0, resources).0, 1, resources)
  {
    OneScan(b, 0, resources);
    if EligibleFrom(b, b.index, 0, resources) == MAX_PM {
      var c := b.(index := 0);
      ChosenFromStart(c, 1, resources);
      assert HasRoom(b, resources) <==> HasRoom(c, resources);
    }
  }

  /** What that means for the load of the picked PM. */
  lemma {:induction false} PickedLoad(b: Book, resources: Resources, k: nat)
    requires NonNegative(b) && Chosen(b, 0, resources).0.Some?
    requires k < MAX_PM && Suits(b.pms[k], resources)
    ensures var i := Chosen(b, 0, resources).0.value;
            && b.pms[i].tasks <= b.pms[k].tasks + 1
            && (b.pms[k].tasks > 0 ==> b.pms[i].tasks <= b.pms[k].tasks)
  {
    ChosenIsNearMinimum(b, resources);
  }

  // ----- suitability, field by field -----

  /**
   * What one lookup finds is registered, has the architecture and operating system that the task asks for and at least
   * its memory, and is within the load. When it finds nobody, nobody from the index on is all of that.
   */
  lemma LookupFits(b: Book, load: int, t: Resources)
    ensures var c := Scanned(b, load, t).0;
            c.Some? ==>
              var p := b.pms[c.value];
              && b.index <= c.value && p.inUse && p.tasks <= load
              && p.resources.arch == t.arch && p.resources.os == t.os && p.resources.mem >= t.mem
    ensures Scanned(b, load, t).0.None? ==>
              forall k :: b.index <= k < MAX_PM && b.pms[k].inUse && b.pms[k].tasks <= load ==>
                var p := b.pms[k];
                p.resources.arch != t.arch || p.resources.os != t.os || p.resources.mem < t.mem
  {
    assert forall k :: b.index <= k < EligibleFrom(b, b.index, load, t) ==> !Eligible(b.pms[k], load, t);
  }

  /** An uninterrupted search succeeds exactly when a PM that has all of that carries fewer than fifty tasks. */
  lemma ChosenSucceedsIff(b: Book, t: Resources)
    requires NonNegative(b)
    ensures Chosen(b, 0, t).0.Some? <==>
              exists k :: 0 <= k < MAX_PM && b.pms[k].inUse && b.pms[k].tasks < 50
                          && b.pms[k].resources.arch == t.arch && b.pms[k].resources.os == t.os
                          && b.pms[k].resources.mem >= t.mem
  {
    ChosenIsNearMinimum(b, t);
    if k :| 0 <= k < MAX_PM && b.pms[k].inUse && b.pms[k].tasks < 50 && b.pms[k].resources.arch == t.arch
            && b.pms[k].resources.os == t.os && b.pms[k].resources.mem >= t.mem {
      assert Suits(b.pms[k], t);
    }
  }

  /** More memory anywhere, for PMs that stay registered with their loads, never turns a find into a miss. */
  lemma MoreMemoryFinds(b: Book, c: Book, t: Resources)
    requires NonNegative(b) && NonNegative(c) && Chosen(b, 0, t).0.Some?
    requires forall k :: 0 <= k < MAX_PM ==>
                           c.pms[k] == b.pms[k].(resources := b.pms[k].resources.(mem := c.pms[k].resources.mem))
                           && c.pms[k].resources.mem >= b.pms[k].resources.mem
    ensures Chosen(c, 0, t).0.Some?
  {
    ChosenSucceedsIff(b, t);
    ChosenSucceedsIff(c, t);
    var k :| 0 <= k < MAX_PM && b.pms[k].inUse && b.pms[k].tasks < 50 && b.pms[k].resources.arch == t.arch
             && b.pms[k].resources.os == t.os && b.pms[k].resources.mem >= t.mem;
    assert c.pms[k].inUse && c.pms[k].tasks < 50 && c.pms[k].resources.mem >= t.mem;
  }

  // ----- scheduling decisions -----

  /** One scheduling decision: search, then count the task on the chosen PM. */
  function Placed(b: Book, resources: Resources): (r: Book)
  {
    var c := Chosen(b, 0, resources);
    if c.0.Some? then Loaded(c.1, c.1.pms[c.0.value].id.address, 1) else c.1
  }

  function PlacedAll(b: Book, rs: seq<Resources>): (r: Book)
    decreases |rs|
  {
    if |rs| == 0 then b else PlacedAll(Placed(b, rs[0]), rs[1..])
  }

  ghost predicate SpreadWithin(b: Book, d: int) {
    forall i, k :: 0 <= i < |b.pms| && 0 <= k < |b.pms| && b.pms[i].inUse && b.pms[k].inUse ==>
                     b.pms[i].tasks <= b.pms[k].tasks + d
  }

  /** Every registered PM can run every one of these tasks. */
  ghost predicate EquallyEligible(b: Book, rs: seq<Resources>) {
    forall i, k :: 0 <= i < |b.pms| && b.pms[i].inUse && 0 <= k < |rs| ==> Suits(b.pms[i], rs[k])
  }

  /** A decision leaves the table alone or adds one task to one nearly least loaded PM. */
  lemma PlacedEffect(b: Book, resources: Resources) returns (i: nat)
    requires NonNegative(b) && UniqueAddresses(b)
    requires EquallyEligible(b, [resources])
    ensures i <= MAX_PM
    ensures i == MAX_PM ==> Placed(b, resources).pms == b.pms
    ensures i < MAX_PM ==>
              && b.pms[i].inUse
              && Placed(b, resources).pms == b.pms[i := b.pms[i].(tasks := b.pms[i].tasks + 1)]
              && (forall k :: 0 <= k < MAX_PM && b.pms[k].inUse ==> b.pms[i].tasks <= b.pms[k].tasks + 1)
  {
    var c := Chosen(b, 0, resources);
    ChosenIsNearMinimum(b, resources);
    i := MAX_PM;
    if c.0.Some? {
      i := c.0.value;
      assert b.pms[i].tasks <= b.pms[i].tasks + 1 && b.pms[i].inUse;
      forall k | 0 <= k < MAX_PM && b.pms[k].inUse
        ensures Suits(b.pms[k], resources)
      {
        assert Suits(b.pms[k], [resources][0]);
      }
      LoadedAt(c.1, i, 1);
    }
  }

  lemma PlacedKeepsSpread(b: Book, resources: Resources)
    requires NonNegative(b) && UniqueAddresses(b) && SpreadWithin(b, 2)
    requires EquallyEligible(b, [resources])
    ensures var r := Placed(b, resources);
            && NonNegative(r) && UniqueAddresses(r) && SpreadWithin(r, 2)
            && forall i :: 0 <= i < MAX_PM ==> r.pms[i] == b.pms[i].(tasks := r.pms[i].tasks)
  {
    var i := PlacedEffect(b, resources);
    var r := Placed(b, resources);
    assert |r.pms| == MAX_PM;
  }

  /** A spread of two is kept by any run of scheduling decisions over equally eligible PMs. */
  lemma {:induction false} RunKeepsSpread(b: Book, rs: seq<Resources>)
    requires NonNegative(b) && UniqueAddresses(b) && SpreadWithin(b, 2)
    requires EquallyEligible(b, rs)
    ensures SpreadWithin(PlacedAll(b, rs), 2) && NonNegative(PlacedAll(b, rs))
    decreases |rs|
  {
    if |rs| > 0 {
      assert [rs[0]][0] == rs[0];
      PlacedKeepsSpread(b, rs[0]);
      var r := Placed(b, rs[0]);
      forall i, k | 0 <= i < MAX_PM && r.pms[i].inUse && 0 <= k < |rs| - 1
        ensures Suits(r.pms[i], rs[1..][k])
      {
        assert rs[1..][k] == rs[k + 1];
        assert Suits(b.pms[i], rs[k + 1]);
      }
      RunKeepsSpread(r, rs[1..]);
    }
  }

  /** Two registered PMs with loads 1 and 0, and the scan index past both of them. */
  ghost predicate BusyThenIdle(b: Book) {
    && b.index == 2
    && b.pms[0] == PmRecord(ComponentId(1, PORT_PM, 0), NO_RESOURCES, 1, true)
    && b.pms[1] == PmRecord(ComponentId(2, PORT_PM, 0), NO_RESOURCES, 0, true)
    && forall i :: 2 <= i < MAX_PM ==> !b.pms[i].inUse
  }

  lemma BusyThenIdleIsFair(b: Book)
    requires BusyThenIdle(b)
    ensures NonNegative(b) && UniqueAddresses(b) && SpreadWithin(b, 1) && EquallyEligible(b, [NO_RESOURCES])
  {}

  lemma BusierPmWins(b: Book)
    requires BusyThenIdle(b)
    ensures !SpreadWithin(Placed(b, NO_RESOURCES), 1)
  {}

  /** Two is the best bound: from loads 1 and 0 the persistent index can make the busier PM win. */
  lemma SpreadOfOneIsNotKept() returns (b: Book)
    ensures NonNegative(b) && UniqueAddresses(b) && SpreadWithin(b, 1)
    ensures EquallyEligible(b, [NO_RESOURCES]) && !SpreadWithin(Placed(b, NO_RESOURCES), 1)
  {
    var busy := PmRecord(ComponentId(1, PORT_PM, 0), NO_RESOURCES, 1, true);
    var idle := PmRecord(ComponentId(2, PORT_PM, 0), NO_RESOURCES, 0, true);
    b := Book([busy, idle] + seq(MAX_PM - 2, i => UNUSED), seq(MAX_PM, i => 0), 2);
    BusyThenIdleIsFair(b);
    BusierPmWins(b);
  }
}
