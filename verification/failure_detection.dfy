/** When a silent Process Manager is removed: the heartbeat rounds of sdm/tm/tm.cpp over the PM table. */
module FailureDetection {
  import opened Ids
  import opened Sequences
  import opened PmRecords

  /**
   * The book together with what an observer counts: the rounds each slot's PM has left unanswered since
   * it last replied or registered, and whether the slot was vacated since the last round began.
   */
  datatype WatchState = Watch(book: Book, missed: seq<nat>, vacated: seq<bool>)

  datatype Event =
    | Register(id: ComponentId, resources: Resources)
    | Round
    | Reply(address: nat)
    | Sweep

  const START := Watch(EMPTY_BOOK, Repeated(0, MAX_PM), Repeated(false, MAX_PM))

  type Watch = w: WatchState | |w.missed| == MAX_PM && |w.vacated| == MAX_PM witness START

  /** The slot RegisterPM will use; MAX_PM when the table is full. */
  function FreeSlot(w: Watch): nat { First(w.book.pms, IsFree()) }

  /** The removal loop has run until RemoveAnyFailed found nobody. */
  predicate Swept(w: Watch)
  {
    FirstFailed(w.book) == MAX_PM
  }

  function After(w: Watch, e: Event): (r: Watch)
  {
    match e
    case Register(id, resources) =>
      var i := FreeSlot(w);
      Watch(Registered(w.book, id, resources), if i < MAX_PM then w.missed[i := 0] else w.missed, w.vacated)
    case Round =>
      Watch(Beaten(w.book),
            seq(MAX_PM, i requires 0 <= i < MAX_PM => if w.book.pms[i].inUse then w.missed[i] + 1 else w.missed[i]),
            seq(MAX_PM, i => false))
    case Reply(address) =>
      Watch(Answered(w.book, address),
            seq(MAX_PM, i requires 0 <= i < MAX_PM => if AtAddress(address)(w.book.pms[i]) then 0 else w.missed[i]),
            w.vacated)
    case Sweep =>
      var i := FirstFailed(w.book);
      Watch(WithoutFailed(w.book), w.missed, if i < MAX_PM then w.vacated[i := true] else w.vacated)
  }

  /** A round starts only after the removal loop ended; a vacated slot rests until the next round. */
  predicate Allowed(w: Watch, e: Event)
  {
    match e
    case Register(_, _) => FreeSlot(w) < MAX_PM ==> !w.vacated[FreeSlot(w)]
    case Round => Swept(w)
    case _ => true
  }

  ghost predicate SlotConsistent(w: Watch, i: nat)
    requires i < MAX_PM
  {
    if w.book.pms[i].inUse then
      && !w.vacated[i]
      && w.missed[i] - 1 <= w.book.beats[i] <= w.missed[i]
      && w.book.beats[i] <= 2
    else if w.vacated[i] then w.book.beats[i] >= 2
    else HEARTBEAT_INACTIVE <= w.book.beats[i] <= 0
  }

  ghost predicate Consistent(w: Watch) {
    forall i :: 0 <= i < MAX_PM ==> SlotConsistent(w, i)
  }

  lemma StepKeepsConsistent(w: Watch, e: Event)
    requires Consistent(w) && Allowed(w, e)
    ensures Consistent(After(w, e))
  {
    var r := After(w, e);
    forall i | 0 <= i < MAX_PM
      ensures SlotConsistent(r, i)
    {
      assert SlotConsistent(w, i);
      match e {
        case Register(_, _) =>
          assert IsFree()(w.book.pms[i]) <==> !w.book.pms[i].inUse;
          assert i < FreeSlot(w) ==> w.book.pms[i].inUse;
        case Round =>
        case Reply(address) =>
          assert AtAddress(address)(w.book.pms[i]) ==> w.book.pms[i].inUse;
        case Sweep =>
      }
    }
  }

  ghost predicate LegalRun(w: Watch, es: seq<Event>)
    decreases |es|
  {
    |es| > 0 ==> Allowed(w, es[0]) && LegalRun(After(w, es[0]), es[1..])
  }

  function Run(w: Watch, es: seq<Event>): (r: Watch)
    decreases |es|
  {
    if |es| == 0 then w else Run(After(w, es[0]), es[1..])
  }

  lemma {:induction false} RunKeepsConsistent(w: Watch, es: seq<Event>)
    requires Consistent(w) && LegalRun(w, es)
    ensures Consistent(Run(w, es))
    decreases |es|
  {
    if |es| > 0 {
      StepKeepsConsistent(w, es[0]);
      RunKeepsConsistent(After(w, es[0]), es[1..]);
    }
  }

  /**
   * Both sides of detection, after any legal run: the PM the next removal takes has missed exactly two or
   * three rounds, and once the removal loop ends nobody who missed three rounds is left.
   */
  lemma DetectionIsTwoSided(es: seq<Event>)
    requires LegalRun(START, es)
    ensures var w := Run(START, es);
            && (FirstFailed(w.book) < MAX_PM ==> 2 <= w.missed[FirstFailed(w.book)] <= 3)
            && (Swept(w) ==> forall i :: 0 <= i < MAX_PM && w.book.pms[i].inUse ==> w.missed[i] <= 2)
  {
    RunKeepsConsistent(START, es);
    var w := Run(START, es);
    forall i | 0 <= i < MAX_PM
      ensures w.book.pms[i].inUse ==> w.book.beats[i] <= w.missed[i] <= 3 && (w.missed[i] == 3 ==> w.book.beats[i] == 2)
    {
      assert SlotConsistent(w, i);
    }
  }

  /** How many PMs the removal loop still has to take. */
  function FailedCount(b: Book, k: nat): (n: nat)
    requires k <= MAX_PM
    decreases MAX_PM - k
  {
    if k == MAX_PM then 0 else (if b.pms[k].inUse && b.beats[k] >= 2 then 1 else 0) + FailedCount(b, k + 1)
  }

  lemma {:induction false} FailedCountWithout(b: Book, k: nat)
    requires k <= FirstFailed(b) < MAX_PM
    ensures FailedCount(b, k) == FailedCount(WithoutFailed(b), k) + 1
    decreases MAX_PM - k
  {
    var i := FirstFailed(b);
    if k < i {
      FailedCountWithout(b, k + 1);
    } else {
      FailedCountAlike(b, WithoutFailed(b), k + 1);
    }
  }

  lemma {:induction false} FailedCountAlike(b: Book, c: Book, k: nat)
    requires k <= MAX_PM
    requires forall j :: k <= j < MAX_PM ==> (b.pms[j].inUse && b.beats[j] >= 2) == (c.pms[j].inUse && c.beats[j] >= 2)
    ensures FailedCount(b, k) == FailedCount(c, k)
    decreases MAX_PM - k
  {
    if k < MAX_PM {
      FailedCountAlike(b, c, k + 1);
    }
  }

  lemma {:induction false} FailedCountMonotone(b: Book, c: Book, k: nat)
    requires k <= MAX_PM
    requires forall j :: k <= j < MAX_PM && c.pms[j].inUse && c.beats[j] >= 2 ==> b.pms[j].inUse && b.beats[j] >= 2
    ensures FailedCount(c, k) <= FailedCount(b, k)
    decreases MAX_PM - k
  {
    if k < MAX_PM {
      FailedCountMonotone(b, c, k + 1);
    }
  }

  /**
   * The removal loop makes progress under interference: every removal takes one PM off the remaining work,
   * and neither a reply nor an allowed registration adds to it.
   */
  lemma SweepTerminates(w: Watch, e: Event)
    requires Consistent(w) && Allowed(w, e) && !e.Round?
    ensures FailedCount(After(w, e).book, 0) <= FailedCount(w.book, 0)
    ensures e.Sweep? && !Swept(w) ==> FailedCount(After(w, e).book, 0) == FailedCount(w.book, 0) - 1
  {
    var r := After(w, e);
    if e.Sweep? && !Swept(w) {
      FailedCountWithout(w.book, 0);
    } else {
      forall j | 0 <= j < MAX_PM && r.book.pms[j].inUse && r.book.beats[j] >= 2
        ensures w.book.pms[j].inUse && w.book.beats[j] >= 2
      {
        assert SlotConsistent(w, j);
      }
      FailedCountMonotone(w.book, r.book, 0);
    }
  }

  /**
   * RegisterPM leaves the heartbeat count of its slot alone, so a newly registered PM is already due for
   * removal, with no round missed, exactly when its slot was vacated since the last round began.
   */
  lemma FreshPmIsDueIffSlotWasVacated(w: Watch, id: ComponentId, resources: Resources)
    requires Consistent(w) && FreeSlot(w) < MAX_PM
    ensures var i := FreeSlot(w);
            var r := After(w, Register(id, resources));
            && r.book.pms[i].inUse && r.missed[i] == 0
            && (r.book.beats[i] >= 2 <==> w.vacated[i])
            && (w.vacated[i] ==> !Swept(r))
  {
    assert SlotConsistent(w, FreeSlot(w));
    assert IsFree()(w.book.pms[FreeSlot(w)]);
  }

  /** That case arises: a PM registers, stays silent for two rounds, is removed, and its slot is taken at once. */
  lemma VacatedSlotArises(a: ComponentId) returns (es: seq<Event>)
    ensures LegalRun(START, es)
    ensures FreeSlot(Run(START, es)) == 0 && Run(START, es).vacated[0]
  {
    var w0 := START;
    var w1 := After(w0, Register(a, NO_RESOURCES));
    assert FreeSlot(w0) == 0;
    var w2 := After(w1, Round);
    assert Swept(w1);
    var w3 := After(w2, Round);
    assert Swept(w2);
    assert FirstFailed(w3.book) == 0;
    var w4 := After(w3, Sweep);
    assert FreeSlot(w4) == 0;
    es := [Register(a, NO_RESOURCES), Round, Round, Sweep];
    assert es[1..][1..][1..][1..] == [];
    assert es[1..][1..][1..] == [Sweep];
    assert es[1..][1..] == [Round, Sweep];
    assert es[1..] == [Round, Round, Sweep];
    assert LegalRun(w3, [Sweep]) && Run(w3, [Sweep]) == w4 by { assert [Sweep][1..] == []; }
    assert LegalRun(w2, [Round, Sweep]) && Run(w2, [Round, Sweep]) == w4;
  }

  /**
   * Three rounds can pass: a round marks the free slots, and a PM that registers in one then starts a count below
   * zero. A PM that takes a slot never marked is due after two.
   */
  lemma ThreeRoundsArise(a: ComponentId) returns (es: seq<Event>)
    ensures LegalRun(START, es)
    ensures var w := Run(START, es);
            FirstFailed(w.book) == 0 && w.book.pms[0].inUse && w.missed[0] == 3
  {
    var w1 := After(START, Round);
    assert Swept(START);
    var w2 := After(w1, Register(a, NO_RESOURCES));
    assert FreeSlot(w1) == 0;
    var w3 := After(w2, Round);
    assert Swept(w2);
    var w4 := After(w3, Round);
    assert Swept(w3);
    var w5 := After(w4, Round);
    assert Swept(w4);
    assert FirstFailed(w5.book) == 0;
    es := [Round, Register(a, NO_RESOURCES), Round, Round, Round];
    assert es[1..] == [Register(a, NO_RESOURCES), Round, Round, Round];
    assert es[1..][1..] == [Round, Round, Round];
    assert es[1..][1..][1..] == [Round, Round];
    assert LegalRun(w4, [Round]) && Run(w4, [Round]) == w5 by { assert [Round][1..] == []; }
    assert LegalRun(w3, [Round, Round]) && Run(w3, [Round, Round]) == w5 by { assert [Round, Round][1..] == [Round]; }
    assert LegalRun(w2, [Round, Round, Round]) && Run(w2, [Round, Round, Round]) == w5;
  }
}
