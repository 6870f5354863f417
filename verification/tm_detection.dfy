/** Failure detection in the runs of the whole Task Manager: its heartbeat rounds are those of the observed table. */
module TmDetection {
  import opened Ids
  import opened Sequences
  import opened TmProtocol
  import opened Books = PmRecords
  import Rounds = FailureDetection

  /** The two books hold the same PMs in the same slots, with the same heartbeat counts. */
  ghost predicate SameWatched(b: Book, c: Book) {
    && b.beats == c.beats
    && forall i :: 0 <= i < MAX_PM ==> b.pms[i].inUse == c.pms[i].inUse && b.pms[i].id == c.pms[i].id
  }

  /** The observer's state for `s`: a round starts only after the removal loop found nobody left to remove. */
  ghost predicate Observes(w: Rounds.Watch, s: Tm) {
    Rounds.Consistent(w) && SameWatched(s.book, w.book) && (!s.sweeping ==> Rounds.Swept(w))
  }

  /** What the observer sees of a step: registrations of unknown addresses, rounds, replies and removals. */
  function Observed(w: Rounds.Watch, s: Tm, e: Step): (r: Rounds.Watch)
  {
    match e
    case Register(id, resources) =>
      if First(s.book.pms, AtAddress(id.address)) < MAX_PM then w else Rounds.After(w, Rounds.Register(id, resources))
    case Heartbeat => Rounds.After(w, Rounds.Round)
    case Reply(address) => Rounds.After(w, Rounds.Reply(address))
    case RemoveFailed => Rounds.After(w, Rounds.Sweep)
    case _ => w
  }

  /** A vacated slot rests until the next round. */
  ghost predicate SlotsRest(w: Rounds.Watch, s: Tm, e: Step)
  {
    e.Register? && First(s.book.pms, AtAddress(e.id.address)) == MAX_PM ==>
      Rounds.Allowed(w, Rounds.Register(e.id, e.resources))
  }

  lemma SameScans(b: Book, c: Book)
    requires SameWatched(b, c)
    ensures FirstFailed(b) == FirstFailed(c) && First(b.pms, IsFree()) == First(c.pms, IsFree())
  {
    var i, k := First(b.pms, IsFree()), First(c.pms, IsFree());
    assert i < MAX_PM ==> IsFree()(b.pms[i]) && IsFree()(c.pms[i]);
    assert k < MAX_PM ==> IsFree()(c.pms[k]) && IsFree()(b.pms[k]);
  }

  /** Steps the observer does not see change no slot's PM and no heartbeat count. */
  lemma UnseenStepIsQuiet(s: Tm, e: Step)
    requires !e.Register? && !e.Heartbeat? && !e.Reply? && !e.RemoveFailed?
    ensures SameWatched(Next(s, e).book, s.book) && Next(s, e).sweeping == s.sweeping
  {}

  /** Between rounds nobody becomes due. */
  lemma StillSwept(w: Rounds.Watch, e: Rounds.Event)
    requires Rounds.Consistent(w) && Rounds.Allowed(w, e) && Rounds.Swept(w) && (e.Register? || e.Reply?)
    ensures Rounds.Swept(Rounds.After(w, e))
  {
    var r := Rounds.After(w, e);
    forall i | 0 <= i < MAX_PM
      ensures !(r.book.pms[i].inUse && r.book.beats[i] >= 2)
    {
      assert Rounds.SlotConsistent(w, i);
    }
  }

  lemma RegisterIsSame(b: Book, c: Book, id: ComponentId, resources: Resources)
    requires SameWatched(b, c)
    ensures SameWatched(Registered(b, id, resources), Registered(c, id, resources))
  {
    SameScans(b, c);
  }

  lemma RoundIsSame(b: Book, c: Book)
    requires SameWatched(b, c)
    ensures SameWatched(Beaten(b), Beaten(c))
  {
    assert forall i :: 0 <= i < MAX_PM ==> Beaten(b).beats[i] == Beaten(c).beats[i];
  }

  lemma ReplyIsSame(b: Book, c: Book, address: nat)
    requires SameWatched(b, c)
    ensures SameWatched(Answered(b, address), Answered(c, address))
  {
    assert forall i :: 0 <= i < MAX_PM ==> AtAddress(address)(b.pms[i]) == AtAddress(address)(c.pms[i]);
    assert forall i :: 0 <= i < MAX_PM ==> Answered(b, address).beats[i] == Answered(c, address).beats[i];
  }

  lemma RemovalIsSame(b: Book, c: Book)
    requires SameWatched(b, c)
    ensures SameWatched(WithoutFailed(b), WithoutFailed(c))
  {
    SameScans(b, c);
  }

  lemma RegisterIsObserved(w: Rounds.Watch, s: Tm, id: ComponentId, resources: Resources)
    requires Observes(w, s) && SlotsRest(w, s, Register(id, resources))
    ensures Observes(Observed(w, s, Register(id, resources)), Next(s, Register(id, resources)))
  {
    if First(s.book.pms, AtAddress(id.address)) == MAX_PM {
      RegisterIsSame(s.book, w.book, id, resources);
      Rounds.StepKeepsConsistent(w, Rounds.Register(id, resources));
      if Rounds.Swept(w) { StillSwept(w, Rounds.Register(id, resources)); }
    }
  }

  lemma ReplyIsObserved(w: Rounds.Watch, s: Tm, address: nat)
    requires Observes(w, s)
    ensures Observes(Observed(w, s, Reply(address)), Next(s, Reply(address)))
  {
    ReplyIsSame(s.book, w.book, address);
    assert Next(s, Reply(address)) == s.(book := Answered(s.book, address));
    assert Observed(w, s, Reply(address)).book == Answered(w.book, address);
    Rounds.StepKeepsConsistent(w, Rounds.Reply(address));
    if Rounds.Swept(w) { StillSwept(w, Rounds.Reply(address)); }
  }

  lemma RoundIsObserved(w: Rounds.Watch, s: Tm)
    requires Observes(w, s) && Enabled(s, Heartbeat)
    ensures Observes(Observed(w, s, Heartbeat), Next(s, Heartbeat))
  {
    RoundIsSame(s.book, w.book);
    Rounds.StepKeepsConsistent(w, Rounds.Round);
  }

  lemma RemovalIsObserved(w: Rounds.Watch, s: Tm)
    requires Observes(w, s) && Enabled(s, RemoveFailed)
    ensures Observes(Observed(w, s, RemoveFailed), Next(s, RemoveFailed))
  {
    SameScans(s.book, w.book);
    RemovalIsSame(s.book, w.book);
    Rounds.StepKeepsConsistent(w, Rounds.Sweep);
  }

  lemma StepIsObserved(w: Rounds.Watch, s: Tm, e: Step)
    requires Observes(w, s) && Enabled(s, e) && SlotsRest(w, s, e)
    ensures Observes(Observed(w, s, e), Next(s, e))
  {
    if e.Register? {
      RegisterIsObserved(w, s, e.id, e.resources);
    } else if e.Heartbeat? {
      RoundIsObserved(w, s);
    } else if e.Reply? {
      ReplyIsObserved(w, s, e.address);
    } else if e.RemoveFailed? {
      RemovalIsObserved(w, s);
    } else {
      UnseenStepIsQuiet(s, e);
    }
  }

  function ObservedRun(w: Rounds.Watch, s: Tm, es: seq<Step>): (r: Rounds.Watch)
    decreases |es|
  {
    if |es| == 0 then w else ObservedRun(Observed(w, s, es[0]), Next(s, es[0]), es[1..])
  }

  ghost predicate RestingRun(w: Rounds.Watch, s: Tm, es: seq<Step>)
    decreases |es|
  {
    |es| > 0 ==> SlotsRest(w, s, es[0]) && RestingRun(Observed(w, s, es[0]), Next(s, es[0]), es[1..])
  }

  lemma {:induction false} RunIsObserved(w: Rounds.Watch, s: Tm, es: seq<Step>)
    requires Observes(w, s) && EnabledRun(s, es) && RestingRun(w, s, es)
    ensures Observes(ObservedRun(w, s, es), Run(s, es))
    decreases |es|
  {
    if |es| > 0 {
      StepIsObserved(w, s, es[0]);
      RunIsObserved(Observed(w, s, es[0]), Next(s, es[0]), es[1..]);
    }
  }

  /**
   * In every interleaving of the three threads: the PM that the next removal takes has left two or three rounds
   * unanswered, and when the removal loop has ended no registered PM has left more than two.
   */
  lemma {:induction false} DetectionIsTwoSided(es: seq<Step>)
    requires EnabledRun(START, es) && RestingRun(Rounds.START, START, es)
    ensures var s := Run(START, es);
            var w := ObservedRun(Rounds.START, START, es);
            && (FirstFailed(s.book) < MAX_PM ==> 2 <= w.missed[FirstFailed(s.book)] <= 3)
            && (!s.sweeping ==> forall i :: 0 <= i < MAX_PM && s.book.pms[i].inUse ==> w.missed[i] <= 2)
  {
    RunIsObserved(Rounds.START, START, es);
    var s, w := Run(START, es), ObservedRun(Rounds.START, START, es);
    SameScans(s.book, w.book);
    forall i | 0 <= i < MAX_PM
      ensures s.book.pms[i].inUse ==> w.book.beats[i] <= w.missed[i] <= 3 && (w.missed[i] == 3 ==> w.book.beats[i] == 2)
    {
      assert Rounds.SlotConsistent(w, i);
    }
  }
}
