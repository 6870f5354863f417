/** The load counted for each Process Manager against the tasks scheduled on it, in every interleaving. */
module TmLoad {
  import opened Ids
  import opened Sequences
  import opened Tasks
  import opened LoadBalance
  import opened TmProtocol
  import opened TmConservation
  import opened Books = PmRecords

  function OnAddress(a: nat): Task -> bool { (t: Task) => t.state.Scheduled? && t.pm.address == a }

  /** Task i is scheduled on the PM at `a`, or the Scheduler has just sent it there. */
  predicate Assigned(s: Tm, i: nat, a: nat) {
    && i < |s.tasks|
    && (OnAddress(a)(s.tasks[i])
        || ((s.phase.Sent? || s.phase.Counted?) && s.phase.n == i && s.phase.pm.address == a))
  }

  /** The PM at `a` was already discounted for a task that is still on the list. */
  ghost predicate Discounted(s: Tm, a: nat) {
    s.finishing.Some? && s.finishing.value.address == a
    && exists i :: 0 <= i < |s.tasks| && s.tasks[i].pid == s.finishing.value.pid && Assigned(s, i, a)
  }

  /** What the counter of a PM at `a` should be, with a start or a finish that is half counted taken into account. */
  ghost function Expected(s: Tm, a: nat): int {
    Count(s.tasks, OnAddress(a))
    + (if s.phase.Counted? && s.phase.pm.address == a then 1 else 0)
    - (if Discounted(s, a) then 1 else 0)
  }

  /** By how much the counter of the PM in slot k is off. */
  ghost function Drift(s: Tm, k: nat): int
    requires k < |s.book.pms|
  {
    s.book.pms[k].tasks - Expected(s, s.book.pms[k].id.address)
  }

  ghost predicate NoDrift(s: Tm) {
    forall k :: 0 <= k < |s.book.pms| && s.book.pms[k].inUse ==> Drift(s, k) == 0
  }

  /** Every counter is right, unless a reset has cleared the list and not yet the counters. */
  ghost predicate LoadSound(s: Tm) {
    s.resets == 0 ==> NoDrift(s)
  }

  /** The PM whose failure is half handled shares its address with no registered PM. */
  ghost predicate FailingApart(s: Tm) {
    s.failing.Some? ==> NobodyAt(s.book, s.failing.value.address)
  }

  ghost predicate TasksPlain(s: Tm) {
    forall i :: 0 <= i < |s.tasks| ==>
                  && s.tasks[i].mode in {MODE_NORMAL, MODE_ALWAYS_RUNNING}
                  && (s.tasks[i].state.Scheduled? ==> s.tasks[i].pm != NO_COMPONENT)
  }

  /** A report in hand carries a valid old pid, and no slot holds that pid for another address. */
  ghost predicate ReportSound(s: Tm) {
    s.finishing.Some? ==>
      && s.finishing.value.pid != PID_INVALID && s.finishing.value.pid < s.nextPid
      && forall i, a :: 0 <= i < |s.tasks| && s.tasks[i].pid == s.finishing.value.pid && Assigned(s, i, a) ==>
                          a == s.finishing.value.address
  }

  /** What the Scheduler works on is pending; after a sleep the slot may have been given up, but is not scheduled. */
  ghost predicate TaskInHand(s: Tm)
  {
    && (!s.phase.Idle? ==> s.tasks[s.phase.n].state.Pending? || s.tasks[s.phase.n].state.Inactive?)
    && (s.phase.Busy() && !s.phase.Ready? ==> s.tasks[s.phase.n].state.Pending?)
  }

  /**
   * What the environment is trusted with: posts use one of the two modes, a PM does not register again while its own
   * failure is half handled, finish reports name a pid assigned to the reporting PM, and the Task Manager started
   * fresh, so nothing is recovered. A Scheduler that sleeps wakes to a PM still accounted for.
   */
  ghost predicate Faithful(s: Tm, e: Step)
  {
    match e
    case Post(t) => t.mode in {MODE_NORMAL, MODE_ALWAYS_RUNNING}
    case Register(id, _) => s.failing.Some? ==> s.failing.value.address != id.address
    case CountFinish(a, pid) =>
      pid != PID_INVALID && exists i :: 0 <= i < |s.tasks| && s.tasks[i].pid == pid && Assigned(s, i, a)
    case Recover(_, _) => false
    case Resume => WakesSafely(s, e)
    case _ => true
  }

  /** Everything the counters depend on is in order. */
  ghost predicate Ordered(s: Tm) {
    && Sound(s)
    && PidsSound(s)
    && TaskInHand(s)
    && FailingApart(s)
    && TasksPlain(s)
    && ReportSound(s)
    && s.recovering.None?
  }

  ghost predicate Balanced(s: Tm) {
    Ordered(s) && LoadSound(s)
  }

  // ----- the order is kept by every step -----

  lemma SchedulerKeepsTaskInHand(s: Tm, e: Step)
    requires BookSound(s.book) && TaskInHand(s) && Enabled(s, e) && OfScheduler(e)
    ensures TaskInHand(Next(s, e))
  {
    match e {
      case Look =>
        var n := First(s.tasks, IsPending());
        if n < NUMTASKS { assert IsPending()(s.tasks[n]); }
      case Search => SearchFindsRegistered(s);
      case _ =>
    }
  }

  /** Nothing but a recovery schedules a task while the Scheduler sleeps. */
  lemma StepKeepsTaskInHand(s: Tm, e: Step)
    requires BookSound(s.book) && TaskInHand(s) && Enabled(s, e) && s.recovering.None?
    ensures TaskInHand(Next(s, e))
  {
    if OfScheduler(e) {
      SchedulerKeepsTaskInHand(s, e);
    } else if OnPmTable(e) {
      assert Next(s, e).tasks == s.tasks && Next(s, e).phase == s.phase;
    } else {
      TaskListKeepsTaskInHand(s, e);
    }
  }

  lemma TaskListKeepsTaskInHand(s: Tm, e: Step)
    requires TaskInHand(s) && Enabled(s, e) && s.recovering.None? && !OfScheduler(e) && !OnPmTable(e)
    ensures TaskInHand(Next(s, e))
  {
    match e {
      case HandleFailure =>
        assert forall i :: 0 <= i < NUMTASKS ==> Next(s, e).tasks[i] == Unbound(s.tasks[i], s.failing.value);
      case DropPreference(resources) =>
        assert forall i :: 0 <= i < NUMTASKS ==> Next(s, e).tasks[i] == Unpreferred(s.tasks[i], resources);
      case _ =>
    }
  }

  lemma RemovalSetsApart(s: Tm)
    requires BookSound(s.book) && s.failing.None?
    ensures FailingApart(Next(s, RemoveFailed))
  {
    if FirstFailed(s.book) < MAX_PM { RemovalKeepsBook(s.book); }
  }

  lemma RegistrationKeepsApart(s: Tm, id: ComponentId, resources: Resources)
    requires FailingApart(s) && (s.failing.Some? ==> s.failing.value.address != id.address)
    ensures FailingApart(Next(s, Register(id, resources)))
  {}

  lemma StepKeepsFailingApart(s: Tm, e: Step)
    requires BookSound(s.book) && FailingApart(s) && Enabled(s, e) && Faithful(s, e)
    ensures FailingApart(Next(s, e))
  {
    if e.RemoveFailed? {
      RemovalSetsApart(s);
    } else if e.Register? {
      RegistrationKeepsApart(s, e.id, e.resources);
    } else if s.failing.Some? {
      UnknownStaysUnknown(s, e, s.failing.value.address);
      assert Next(s, e).failing.Some? ==> Next(s, e).failing == s.failing;
    }
  }

  lemma TaskListKeepsTasksPlain(s: Tm, e: Step)
    requires TasksPlain(s) && s.recovering.None? && Enabled(s, e) && Faithful(s, e)
    requires !OfScheduler(e) && !OnPmTable(e)
    ensures TasksPlain(Next(s, e))
  {
    var r := Next(s, e);
    match e {
      case HandleFailure =>
        assert forall i :: 0 <= i < NUMTASKS ==> r.tasks[i] == Unbound(s.tasks[i], s.failing.value);
      case DropPreference(resources) =>
        assert forall i :: 0 <= i < NUMTASKS ==> r.tasks[i] == Unpreferred(s.tasks[i], resources);
      case _ =>
    }
  }

  lemma StepKeepsTasksPlain(s: Tm, e: Step)
    requires SlotsSound(s) && TasksPlain(s) && s.recovering.None? && Enabled(s, e) && Faithful(s, e)
    ensures TasksPlain(Next(s, e))
  {
    if OfScheduler(e) {
      if !e.Send? && !e.Commit? { assert Next(s, e).tasks == s.tasks; }
    } else if OnPmTable(e) {
      assert Next(s, e).tasks == s.tasks;
    } else {
      TaskListKeepsTasksPlain(s, e);
    }
  }

  /** Slots keep their assignment or lose it, and no slot takes up the reported pid. */
  lemma ReportStaysSound(s: Tm, r: Tm)
    requires ReportSound(s) && r.finishing == s.finishing && r.nextPid >= s.nextPid && |r.tasks| == |s.tasks|
    requires forall i, a ::
               0 <= i < |s.tasks| && r.tasks[i].pid == s.tasks[i].pid && Assigned(r, i, a) ==> Assigned(s, i, a)
    requires forall i :: 0 <= i < |s.tasks| ==>
                           || r.tasks[i].pid == s.tasks[i].pid
                           || r.tasks[i].pid == PID_INVALID || r.tasks[i].pid == s.nextPid
    ensures ReportSound(r)
  {}

  lemma NewReportIsSound(s: Tm, a: nat, pid: nat)
    requires Ordered(s) && Faithful(s, CountFinish(a, pid))
    ensures ReportSound(Next(s, CountFinish(a, pid)))
  {
    var r := Next(s, CountFinish(a, pid));
    var i :| 0 <= i < |s.tasks| && s.tasks[i].pid == pid && Assigned(s, i, a);
    forall k, b | 0 <= k < |r.tasks| && r.tasks[k].pid == pid && Assigned(r, k, b)
      ensures b == a
    {
      assert k == i;
    }
  }

  lemma TaskListKeepsReportSound(s: Tm, e: Step)
    requires Ordered(s) && Enabled(s, e) && Faithful(s, e) && !OfScheduler(e) && !OnPmTable(e)
    ensures ReportSound(Next(s, e))
  {
    var r := Next(s, e);
    match e {
      case HandleFailure =>
        assert forall i :: 0 <= i < NUMTASKS ==> r.tasks[i] == Unbound(s.tasks[i], s.failing.value);
        ReportStaysSound(s, r);
      case DropPreference(resources) =>
        assert forall i :: 0 <= i < NUMTASKS ==> r.tasks[i] == Unpreferred(s.tasks[i], resources);
        ReportStaysSound(s, r);
      case ListFinish =>
      case _ => ReportStaysSound(s, r);
    }
  }

  lemma SendKeepsReportSound(s: Tm)
    requires ReportSound(s) && PidsDistinct(s) && Enabled(s, Send)
    ensures ReportSound(Next(s, Send))
  {
    var r := Next(s, Send);
    assert forall i :: 0 <= i < NUMTASKS && i != s.phase.n ==> r.tasks[i] == s.tasks[i];
    assert s.tasks[s.phase.n].pid < s.nextPid && r.tasks[s.phase.n].pid == s.nextPid;
    ReportStaysSound(s, r);
  }

  lemma CommitKeepsReportSound(s: Tm)
    requires ReportSound(s) && Enabled(s, Commit)
    ensures ReportSound(Next(s, Commit))
  {
    var r := Next(s, Commit);
    assert forall i :: 0 <= i < NUMTASKS && i != s.phase.n ==> r.tasks[i] == s.tasks[i];
    ReportStaysSound(s, r);
  }

  lemma SchedulerKeepsReportSound(s: Tm, e: Step)
    requires ReportSound(s) && PidsDistinct(s) && Enabled(s, e) && OfScheduler(e)
    ensures ReportSound(Next(s, e))
  {
    if e.Send? {
      SendKeepsReportSound(s);
    } else if e.Commit? {
      CommitKeepsReportSound(s);
    } else {
      assert Next(s, e).tasks == s.tasks;
      ReportStaysSound(s, Next(s, e));
    }
  }

  lemma StepKeepsReportSound(s: Tm, e: Step)
    requires Ordered(s) && Enabled(s, e) && Faithful(s, e)
    ensures ReportSound(Next(s, e))
  {
    if OfScheduler(e) {
      SchedulerKeepsReportSound(s, e);
    } else if e.CountFinish? {
      NewReportIsSound(s, e.address, e.pid);
    } else if OnPmTable(e) {
      ReportStaysSound(s, Next(s, e));
    } else {
      TaskListKeepsReportSound(s, e);
    }
  }

  lemma StepKeepsOrdered(s: Tm, e: Step)
    requires Ordered(s) && Enabled(s, e) && Faithful(s, e)
    ensures Ordered(Next(s, e))
  {
    StepKeepsSound(s, e);
    StepKeepsPids(s, e);
    StepKeepsTaskInHand(s, e);
    StepKeepsFailingApart(s, e);
    StepKeepsTasksPlain(s, e);
    StepKeepsReportSound(s, e);
  }

  // ----- what each step does to the expected load -----

  /** Expected depends on the tasks, the phase and the report in hand, not on the PM table. */
  lemma ExpectedAlike(s: Tm, r: Tm, a: nat)
    requires |r.tasks| == |s.tasks| && r.finishing == s.finishing
    requires forall i :: 0 <= i < |s.tasks| ==> OnAddress(a)(r.tasks[i]) == OnAddress(a)(s.tasks[i])
    requires forall i :: 0 <= i < |s.tasks| && s.finishing.Some? ==>
               (r.tasks[i].pid == s.finishing.value.pid && Assigned(r, i, a))
               == (s.tasks[i].pid == s.finishing.value.pid && Assigned(s, i, a))
    requires (s.phase.Counted? && s.phase.pm.address == a) == (r.phase.Counted? && r.phase.pm.address == a)
    ensures Expected(r, a) == Expected(s, a)
  {
    CountAlike(s.tasks, r.tasks, OnAddress(a), OnAddress(a));
  }

  lemma SamePartsExpectSame(s: Tm, r: Tm, a: nat)
    requires r.tasks == s.tasks && r.phase == s.phase && r.finishing == s.finishing
    ensures Expected(r, a) == Expected(s, a)
  {}

  /** Putting the tasks of a failed PM back to pending changes the expected load at no other address. */
  lemma FailureKeepsExpectation(s: Tm, a: nat)
    requires Ordered(s) && Enabled(s, HandleFailure) && s.failing.value.address != a
    ensures Expected(Next(s, HandleFailure), a) == Expected(s, a)
  {
    var r := Next(s, HandleFailure);
    assert forall i :: 0 <= i < NUMTASKS ==> r.tasks[i] == Unbound(s.tasks[i], s.failing.value);
    ExpectedAlike(s, r, a);
  }

  /** Taking the task off the list settles the discount that was made when its report arrived. */
  lemma FinishMeetsExpectation(s: Tm, b: nat)
    requires Ordered(s) && Enabled(s, ListFinish)
    ensures Expected(Next(s, ListFinish), b) == Expected(s, b)
  {
    var r := Next(s, ListFinish);
    var pid := s.finishing.value.pid;
    var n := First(s.tasks, HasPid(pid));
    if n < NUMTASKS {
      assert HasPid(pid)(s.tasks[n]);
      CountUpdate(s.tasks, n, r.tasks[n], OnAddress(b));
      assert r.tasks == s.tasks[n := r.tasks[n]];
      assert !OnAddress(b)(r.tasks[n]);
      assert forall i :: 0 <= i < NUMTASKS && s.tasks[i].pid == pid ==> i == n;
      assert Assigned(s, n, b) == OnAddress(b)(s.tasks[n]);
      if OnAddress(b)(s.tasks[n]) {
        assert b == s.finishing.value.address;
        assert Discounted(s, b);
      } else {
        assert !Discounted(s, b);
      }
    } else {
      assert forall i :: 0 <= i < NUMTASKS ==> !HasPid(pid)(s.tasks[i]);
      assert !Discounted(s, b);
    }
  }

  lemma TaskListKeepsExpectation(s: Tm, e: Step, a: nat)
    requires Ordered(s) && Enabled(s, e) && Faithful(s, e) && !OfScheduler(e) && !OnPmTable(e) && !e.ResetList?
    requires e.HandleFailure? ==> s.failing.value.address != a
    ensures Expected(Next(s, e), a) == Expected(s, a)
  {
    var r := Next(s, e);
    match e {
      case HandleFailure => FailureKeepsExpectation(s, a);
      case ListFinish => FinishMeetsExpectation(s, a);
      case Post(_) =>
        var n := First(s.tasks, IsInactive());
        assert n < NUMTASKS ==> IsInactive()(s.tasks[n]);
        ExpectedAlike(s, r, a);
      case DropPreference(resources) =>
        assert forall i :: 0 <= i < NUMTASKS ==> r.tasks[i] == Unpreferred(s.tasks[i], resources);
        ExpectedAlike(s, r, a);
    }
  }

  lemma CommitKeepsExpectation(s: Tm, a: nat)
    requires Ordered(s) && Enabled(s, Commit)
    ensures Expected(Next(s, Commit), a) == Expected(s, a)
  {
    var r := Next(s, Commit);
    CountUpdate(s.tasks, s.phase.n, r.tasks[s.phase.n], OnAddress(a));
    assert forall i :: Assigned(r, i, a) == Assigned(s, i, a);
    assert forall i :: 0 <= i < NUMTASKS ==> r.tasks[i].pid == s.tasks[i].pid;
    assert Discounted(r, a) == Discounted(s, a);
  }

  lemma SeekingKeepsExpectation(s: Tm, e: Step, a: nat)
    requires Enabled(s, e) && (e.Look? || e.Search? || e.Sleep? || e.CheckReset? || e.Resume?)
    ensures Expected(Next(s, e), a) == Expected(s, a)
  {
    var r := Next(s, e);
    assert r.tasks == s.tasks && r.finishing == s.finishing;
    assert !r.phase.Sent? && !r.phase.Counted? && !s.phase.Sent? && !s.phase.Counted?;
    ExpectedAlike(s, r, a);
  }

  lemma SchedulerChangesExpectation(s: Tm, e: Step, a: nat)
    requires Ordered(s) && Enabled(s, e) && OfScheduler(e)
    ensures Expected(Next(s, e), a) == Expected(s, a) + Counting(s, e, a)
  {
    if e.CountStart? {
      assert forall i :: Assigned(Next(s, e), i, a) == Assigned(s, i, a);
    } else if e.Commit? {
      CommitKeepsExpectation(s, a);
    } else if e.Send? {
      ExpectedAlike(s, Next(s, e), a);
    } else {
      SeekingKeepsExpectation(s, e, a);
    }
  }

  /** What a step counts for the PM at `a`: a start, or a finish. */
  function Counting(s: Tm, e: Step, a: nat): int {
    match e
    case CountStart => if s.phase.Sent? && s.phase.pm.address == a then 1 else 0
    case CountFinish(address, _) => if address == a then -1 else 0
    case _ => 0
  }

  lemma NewReportChangesExpectation(s: Tm, e: Step, a: nat)
    requires Ordered(s) && Enabled(s, e) && Faithful(s, e) && e.CountFinish?
    ensures Expected(Next(s, e), a) == Expected(s, a) + Counting(s, e, a)
  {
    var r := Next(s, e);
    var i :| 0 <= i < |s.tasks| && s.tasks[i].pid == e.pid && Assigned(s, i, e.address);
    assert r.tasks[i].pid == e.pid && Assigned(r, i, e.address);
    assert Discounted(r, e.address);
  }

  /** Every step but the first half of a reset changes the expected load by what it counts. */
  lemma StepChangesExpectation(s: Tm, e: Step, a: nat)
    requires Ordered(s) && Enabled(s, e) && Faithful(s, e) && !e.ResetList?
    requires e.HandleFailure? ==> s.failing.value.address != a
    ensures Expected(Next(s, e), a) == Expected(s, a) + Counting(s, e, a)
  {
    if OfScheduler(e) {
      SchedulerChangesExpectation(s, e, a);
    } else if e.CountFinish? {
      NewReportChangesExpectation(s, e, a);
    } else if OnPmTable(e) {
      SamePartsExpectSame(s, Next(s, e), a);
    } else {
      TaskListKeepsExpectation(s, e, a);
    }
  }

  lemma CountingAt(b: Book, k: nat, a: nat, delta: int)
    requires BookSound(b) && k < MAX_PM && b.pms[k].inUse
    ensures var p, q := b.pms[k], Loaded(b, a, delta).pms[k];
            q == p.(tasks := p.tasks + if p.id.address == a then delta else 0)
  {
    if b.pms[k].id.address == a { LoadedAt(b, k, delta); }
  }

  /** A counter changes by what is counted at its address, except when a reset clears it. */
  lemma StepChangesCounter(s: Tm, e: Step, k: nat)
    requires BookSound(s.book) && s.recovering.None? && Enabled(s, e) && !e.ResetCounters?
    requires k < MAX_PM && s.book.pms[k].inUse && Next(s, e).book.pms[k].inUse
    ensures var p, q := s.book.pms[k], Next(s, e).book.pms[k];
            q.id == p.id && q.tasks == p.tasks + Counting(s, e, p.id.address)
  {
    if e.CountStart? {
      CountingAt(s.book, k, s.phase.pm.address, 1);
    } else if e.CountFinish? {
      CountingAt(s.book, k, e.address, -1);
    } else {
      OthersCountNothing(s, e, k);
    }
  }

  lemma OthersCountNothing(s: Tm, e: Step, k: nat)
    requires Enabled(s, e) && s.recovering.None?
    requires !e.CountStart? && !e.CountFinish? && !e.ResetCounters?
    requires k < MAX_PM && s.book.pms[k].inUse && Next(s, e).book.pms[k].inUse
    ensures Next(s, e).book.pms[k] == s.book.pms[k]
  {
    if e.Register? {
      var i := First(s.book.pms, IsFree());
      assert i < MAX_PM ==> IsFree()(s.book.pms[i]);
    }
  }

  /** As long as a PM stays registered, no step but the two halves of a reset changes by how much its counter is off. */
  lemma StepKeepsDrift(s: Tm, e: Step, k: nat)
    requires Ordered(s) && Enabled(s, e) && Faithful(s, e) && !e.ResetList? && !e.ResetCounters?
    requires k < MAX_PM && s.book.pms[k].inUse && Next(s, e).book.pms[k].inUse
    ensures Drift(Next(s, e), k) == Drift(s, k)
  {
    StepChangesCounter(s, e, k);
    StepChangesExpectation(s, e, s.book.pms[k].id.address);
  }

  /** At an address where nobody is registered and no failure is half handled, nothing is scheduled. */
  lemma NothingExpectedAt(s: Tm, a: nat)
    requires Ordered(s) && NobodyAt(s.book, a)
    requires s.failing.Some? ==> s.failing.value.address != a
    ensures Expected(s, a) == 0
    ensures forall i :: 0 <= i < NUMTASKS ==> !OnAddress(a)(s.tasks[i])
  {
    forall id | Accounted(s, id)
      ensures id.address != a
    {
      if IsRegistered(s.book, id) {
        var k :| 0 <= k < |s.book.pms| && s.book.pms[k].inUse && s.book.pms[k].id == id;
      }
    }
    forall i | 0 <= i < NUMTASKS
      ensures !OnAddress(a)(s.tasks[i]) && !Assigned(s, i, a)
    {
      if s.tasks[i].state.Scheduled? { assert Accounted(s, s.tasks[i].pm); }
    }
    CountNone(s.tasks, OnAddress(a));
  }

  lemma OnlyRegisterAdds(s: Tm, e: Step, k: nat)
    requires k < MAX_PM && !s.book.pms[k].inUse && Next(s, e).book.pms[k].inUse
    ensures e.Register? && First(s.book.pms, AtAddress(e.id.address)) == MAX_PM
    ensures Next(s, e).book.pms[k].tasks == 0 && Next(s, e).book.pms[k].id.address == e.id.address
  {
    if !e.Register? { OthersAddNobody(s, e, k); }
  }

  lemma NewPmHasNoDrift(s: Tm, e: Step, k: nat)
    requires Ordered(s) && Enabled(s, e) && Faithful(s, e)
    requires k < MAX_PM && !s.book.pms[k].inUse && Next(s, e).book.pms[k].inUse
    ensures Drift(Next(s, e), k) == 0
  {
    OnlyRegisterAdds(s, e, k);
    NobodyIsFound(s.book, e.id.address);
    NothingExpectedAt(s, e.id.address);
    SamePartsExpectSame(s, Next(s, e), e.id.address);
  }

  // ----- resets -----

  /** Task i counts at `a`: it is scheduled there, or its start has been counted there. */
  predicate Charged(s: Tm, i: nat, a: nat) {
    && i < |s.tasks|
    && (OnAddress(a)(s.tasks[i]) || (s.phase.Counted? && s.phase.n == i && s.phase.pm.address == a))
  }

  /**
   * No task counts at `a`, or exactly one does and the report in hand has been discounted there. When the Scheduler
   * is idle and no report is in hand this says that no slot is scheduled at `a`.
   */
  ghost predicate SettledAt(s: Tm, a: nat) {
    if Discounted(s, a) then
      exists i :: 0 <= i < |s.tasks| && Charged(s, i, a)
                  && forall k :: 0 <= k < |s.tasks| && k != i ==> !Charged(s, k, a)
    else forall i :: 0 <= i < |s.tasks| ==> !Charged(s, i, a)
  }

  /** The table with the task whose start has been counted already taken as scheduled. */
  function ChargedTasks(s: Tm): (ts: seq<Task>)
    ensures |ts| == NUMTASKS
  {
    if !s.phase.Counted? then s.tasks
    else s.tasks[s.phase.n := s.tasks[s.phase.n].(state := Scheduled, pm := s.phase.pm)]
  }

  lemma ChargedCount(s: Tm, a: nat)
    requires TaskInHand(s)
    ensures Expected(s, a) == Count(ChargedTasks(s), OnAddress(a)) - (if Discounted(s, a) then 1 else 0)
    ensures forall i :: 0 <= i < NUMTASKS ==> OnAddress(a)(ChargedTasks(s)[i]) == Charged(s, i, a)
  {
    if s.phase.Counted? { CountUpdate(s.tasks, s.phase.n, ChargedTasks(s)[s.phase.n], OnAddress(a)); }
  }

  lemma ExpectedIsZeroIff(s: Tm, a: nat)
    requires TaskInHand(s)
    ensures Expected(s, a) == 0 <==> SettledAt(s, a)
    ensures s.phase.Idle? && s.finishing.None? ==>
              (SettledAt(s, a) <==> forall i :: 0 <= i < NUMTASKS ==> !OnAddress(a)(s.tasks[i]))
  {
    var ts := ChargedTasks(s);
    ChargedCount(s, a);
    CountZeroIff(ts, OnAddress(a));
    CountOneIff(ts, OnAddress(a));
    if Discounted(s, a) { OnlyOneIff(s, a); }
  }

  lemma OnlyOneIff(s: Tm, a: nat)
    requires TaskInHand(s) && Discounted(s, a)
    ensures SettledAt(s, a) <==> exists i: nat :: OnlyAt(ChargedTasks(s), OnAddress(a), i)
  {
    ChargedCount(s, a);
    if i: nat :| OnlyAt(ChargedTasks(s), OnAddress(a), i) { assert Charged(s, i, a); }
    if SettledAt(s, a) {
      var i :| 0 <= i < |s.tasks| && Charged(s, i, a) && forall k :: 0 <= k < |s.tasks| && k != i ==> !Charged(s, k, a);
      assert OnlyAt(ChargedTasks(s), OnAddress(a), i);
    }
  }

  /** Nothing that is scheduled or counted on a registered PM would be forgotten. */
  ghost predicate AllSettled(s: Tm) {
    forall k :: 0 <= k < |s.book.pms| && s.book.pms[k].inUse ==> SettledAt(s, s.book.pms[k].id.address)
  }

  /** The first half leaves nothing to expect anywhere, and the counters as they were. */
  lemma ResetListEmpties(s: Tm, a: nat)
    requires Ordered(s) && Enabled(s, ResetList)
    ensures Expected(Next(s, ResetList), a) == 0 && Next(s, ResetList).book == s.book
  {
    var r := Next(s, ResetList);
    assert forall i :: 0 <= i < NUMTASKS ==> r.tasks[i] == BLANK;
    CountNone(r.tasks, OnAddress(a));
  }

  /** The second half clears every counter, so each is off by what is expected at its address. */
  lemma ResetCountersDrift(s: Tm, k: nat)
    requires Enabled(s, ResetCounters) && k < MAX_PM
    ensures var r := Next(s, ResetCounters);
            && r.book.pms[k].tasks == 0 && r.book.pms[k].inUse == s.book.pms[k].inUse
            && Drift(r, k) == -Expected(s, s.book.pms[k].id.address)
  {
    SamePartsExpectSame(s, Next(s, ResetCounters), s.book.pms[k].id.address);
  }

  /**
   * The second half of the last reset in hand leaves the counters right exactly when nothing is scheduled or counted
   * on a registered PM: whatever was since the list was cleared is forgotten.
   */
  lemma ResetKeepsLoadIff(s: Tm)
    requires TaskInHand(s) && s.resets == 1
    ensures LoadSound(Next(s, ResetCounters)) <==> AllSettled(s)
  {
    var r := Next(s, ResetCounters);
    forall k | 0 <= k < MAX_PM && s.book.pms[k].inUse
      ensures Drift(r, k) == 0 <==> SettledAt(s, s.book.pms[k].id.address)
    {
      ResetCountersDrift(s, k);
      ExpectedIsZeroIff(s, s.book.pms[k].id.address);
    }
  }

  /** When the last reset in hand clears the counters, nothing is scheduled or counted on a registered PM. */
  ghost predicate Clean(s: Tm, e: Step) {
    e.ResetCounters? && s.resets == 1 ==> AllSettled(s)
  }

  // ----- runs -----

  lemma StepKeepsNoDrift(s: Tm, e: Step)
    requires Ordered(s) && NoDrift(s) && Enabled(s, e) && Faithful(s, e) && !e.ResetList? && !e.ResetCounters?
    ensures NoDrift(Next(s, e))
  {
    forall k | 0 <= k < MAX_PM && Next(s, e).book.pms[k].inUse
      ensures Drift(Next(s, e), k) == 0
    {
      if s.book.pms[k].inUse { StepKeepsDrift(s, e, k); } else { NewPmHasNoDrift(s, e, k); }
    }
  }

  lemma StepKeepsLoadSound(s: Tm, e: Step)
    requires Ordered(s) && LoadSound(s) && Enabled(s, e) && Faithful(s, e) && Clean(s, e)
    ensures LoadSound(Next(s, e))
  {
    if e.ResetCounters? {
      if s.resets == 1 { ResetKeepsLoadIff(s); }
    } else if !e.ResetList? && s.resets == 0 {
      StepKeepsNoDrift(s, e);
    } else {
      assert Next(s, e).resets > 0;
    }
  }

  lemma StepKeepsBalanced(s: Tm, e: Step)
    requires Balanced(s) && Enabled(s, e) && Faithful(s, e) && Clean(s, e)
    ensures Balanced(Next(s, e))
  {
    StepKeepsOrdered(s, e);
    StepKeepsLoadSound(s, e);
  }

  ghost predicate FaithfulRun(s: Tm, es: seq<Step>)
    decreases |es|
  {
    |es| > 0 ==> Faithful(s, es[0]) && FaithfulRun(Next(s, es[0]), es[1..])
  }

  lemma {:induction false} FaithfulExtends(s: Tm, es: seq<Step>, e: Step)
    ensures FaithfulRun(s, es + [e]) <==> FaithfulRun(s, es) && Faithful(Run(s, es), e)
    decreases |es|
  {
    if |es| == 0 {
      assert es + [e] == [e] && [e][1..] == [];
    } else {
      assert (es + [e])[1..] == es[1..] + [e];
      FaithfulExtends(Next(s, es[0]), es[1..], e);
    }
  }

  ghost predicate CleanRun(s: Tm, es: seq<Step>)
    decreases |es|
  {
    |es| > 0 ==> Clean(s, es[0]) && CleanRun(Next(s, es[0]), es[1..])
  }

  lemma {:induction false} RunKeepsBalanced(s: Tm, es: seq<Step>)
    requires Balanced(s) && EnabledRun(s, es) && FaithfulRun(s, es) && CleanRun(s, es)
    ensures Balanced(Run(s, es))
    decreases |es|
  {
    if |es| > 0 {
      StepKeepsBalanced(s, es[0]);
      RunKeepsBalanced(Next(s, es[0]), es[1..]);
    }
  }

  /** Neither a start nor a finish is half counted, and no reset is half done. */
  predicate AtRest(s: Tm) {
    !s.phase.Counted? && s.finishing.None? && s.resets == 0
  }

  /** The counter of slot k is the number of tasks scheduled at its address. */
  predicate CounterMatches(s: Tm, k: nat) {
    k < |s.book.pms| && s.book.pms[k].tasks == Count(s.tasks, OnAddress(s.book.pms[k].id.address))
  }

  /**
   * At rest, the counter of every registered PM is the number of tasks scheduled on it, in every run whose resets
   * find nothing scheduled or counted when they clear the counters.
   */
  lemma {:induction false} CountersMatchTasks(es: seq<Step>, k: nat)
    requires EnabledRun(START, es) && FaithfulRun(START, es) && CleanRun(START, es)
    requires k < MAX_PM && Run(START, es).book.pms[k].inUse && AtRest(Run(START, es))
    ensures CounterMatches(Run(START, es), k)
  {
    assert Balanced(START);
    RunKeepsBalanced(START, es);
    assert Drift(Run(START, es), k) == 0;
  }

  // ----- resets that nothing comes between -----

  /** Neither a start nor a finish is counted while a reset is half done. */
  predicate Quiet(s: Tm, e: Step) {
    s.resets > 0 ==> !e.CountStart? && !e.CountFinish?
  }

  /** While a reset is half done nothing is scheduled or counted, and a report in hand names no slot. */
  ghost predicate Bare(s: Tm) {
    s.resets > 0 ==>
      && !s.phase.Counted? && (forall i :: 0 <= i < |s.tasks| ==> !s.tasks[i].state.Scheduled?)
      && (s.finishing.Some? ==> !PidHeld(s, s.finishing.value.pid))
  }

  lemma TaskListKeepsBare(s: Tm, e: Step)
    requires Ordered(s) && Bare(s) && Enabled(s, e) && Faithful(s, e) && !OfScheduler(e) && !OnPmTable(e)
    ensures Bare(Next(s, e))
  {
    var r := Next(s, e);
    match e {
      case HandleFailure =>
        assert forall i :: 0 <= i < NUMTASKS ==> r.tasks[i] == Unbound(s.tasks[i], s.failing.value);
      case DropPreference(resources) =>
        assert forall i :: 0 <= i < NUMTASKS ==> r.tasks[i] == Unpreferred(s.tasks[i], resources);
      case _ =>
    }
  }

  lemma SendKeepsBare(s: Tm)
    requires Bare(s) && Enabled(s, Send) && (s.finishing.Some? ==> s.finishing.value.pid < s.nextPid)
    ensures Bare(Next(s, Send))
  {
    var r := Next(s, Send);
    assert forall i :: 0 <= i < NUMTASKS && i != s.phase.n ==> r.tasks[i] == s.tasks[i];
    assert r.tasks[s.phase.n] == s.tasks[s.phase.n].(pid := s.nextPid);
  }

  lemma SchedulerKeepsBare(s: Tm, e: Step)
    requires Bare(s) && Enabled(s, e) && Quiet(s, e) && OfScheduler(e)
    requires s.finishing.Some? ==> s.finishing.value.pid < s.nextPid
    ensures Bare(Next(s, e))
  {
    var r := Next(s, e);
    if e.Send? {
      SendKeepsBare(s);
    } else if !e.Commit? {
      assert r.tasks == s.tasks && (r.phase.Counted? ==> e.CountStart?);
    }
  }

  lemma PmTableKeepsBare(s: Tm, e: Step)
    requires Bare(s) && Enabled(s, e) && Quiet(s, e) && OnPmTable(e)
    ensures Bare(Next(s, e))
  {
    assert Next(s, e).tasks == s.tasks && Next(s, e).phase == s.phase && Next(s, e).resets <= s.resets;
  }

  lemma StepKeepsBare(s: Tm, e: Step)
    requires Ordered(s) && Bare(s) && Enabled(s, e) && Faithful(s, e) && Quiet(s, e)
    ensures Bare(Next(s, e))
  {
    if OfScheduler(e) {
      SchedulerKeepsBare(s, e);
    } else if OnPmTable(e) {
      PmTableKeepsBare(s, e);
    } else {
      TaskListKeepsBare(s, e);
    }
  }

  ghost predicate QuietRun(s: Tm, es: seq<Step>)
    decreases |es|
  {
    |es| > 0 ==> Quiet(s, es[0]) && QuietRun(Next(s, es[0]), es[1..])
  }

  /** If no start and no finish is counted between the two halves of any reset, every reset is clean. */
  lemma {:induction false} QuietRunIsClean(s: Tm, es: seq<Step>)
    requires Ordered(s) && Bare(s) && EnabledRun(s, es) && FaithfulRun(s, es) && QuietRun(s, es)
    ensures CleanRun(s, es)
    decreases |es|
  {
    if |es| > 0 {
      StepKeepsOrdered(s, es[0]);
      StepKeepsBare(s, es[0]);
      QuietRunIsClean(Next(s, es[0]), es[1..]);
    }
  }

  lemma {:induction false} QuietCountersMatch(es: seq<Step>, k: nat)
    requires EnabledRun(START, es) && FaithfulRun(START, es) && QuietRun(START, es)
    requires k < MAX_PM && Run(START, es).book.pms[k].inUse && AtRest(Run(START, es))
    ensures CounterMatches(Run(START, es), k)
  {
    QuietRunIsClean(START, es);
    CountersMatchTasks(es, k);
  }

  // ----- errors that stay -----

  /** Slot k is in use all along, and nobody resets. */
  ghost predicate StaysRegistered(s: Tm, es: seq<Step>, k: nat)
    requires k < MAX_PM
    decreases |es|
  {
    && s.book.pms[k].inUse
    && (|es| > 0 ==> !es[0].ResetList? && !es[0].ResetCounters? && StaysRegistered(Next(s, es[0]), es[1..], k))
  }

  lemma OtherStepKeepsDrift(s: Tm, e: Step, k: nat)
    requires Ordered(s) && Enabled(s, e) && Faithful(s, e) && !e.ResetList? && !e.ResetCounters?
    requires k < MAX_PM && s.book.pms[k].inUse && Next(s, e).book.pms[k].inUse
    ensures Drift(Next(s, e), k) == Drift(s, k) && Ordered(Next(s, e)) && Next(s, e).resets == s.resets
  {
    StepKeepsDrift(s, e, k);
    StepKeepsOrdered(s, e);
  }

  lemma {:induction false} RunKeepsDrift(s: Tm, es: seq<Step>, k: nat)
    requires Ordered(s) && EnabledRun(s, es) && FaithfulRun(s, es) && k < MAX_PM && StaysRegistered(s, es, k)
    ensures Drift(Run(s, es), k) == Drift(s, k) && Ordered(Run(s, es))
    ensures Run(s, es).resets == s.resets
    decreases |es|
  {
    if |es| > 0 {
      OtherStepKeepsDrift(s, es[0], k);
      RunKeepsDrift(Next(s, es[0]), es[1..], k);
    }
  }

  /**
   * What the second half of a reset gets wrong is never put right: until the next reset, and for as long as the PM
   * stays registered, its counter is right at rest exactly when nothing was scheduled or counted on it at that moment.
   */
  lemma {:induction false} ResetErrorStaysIff(s: Tm, es: seq<Step>, k: nat)
    requires Ordered(s) && s.resets == 1 && k < MAX_PM
    requires var c := Next(s, ResetCounters);
             && EnabledRun(c, es) && FaithfulRun(c, es) && StaysRegistered(c, es, k) && AtRest(Run(c, es))
    ensures CounterMatches(Run(Next(s, ResetCounters), es), k) <==> SettledAt(s, s.book.pms[k].id.address)
  {
    var c := Next(s, ResetCounters);
    StepKeepsOrdered(s, ResetCounters);
    ResetCountersDrift(s, k);
    ExpectedIsZeroIff(s, s.book.pms[k].id.address);
    RunKeepsDrift(c, es, k);
  }

  // ----- the search for a PM in reachable states -----

  /** Only a task that finishes before its start is counted takes a counter below zero. */
  lemma CountersAreNonNegative(s: Tm)
    requires Balanced(s) && s.resets == 0 && !s.phase.Sent? && !s.phase.Counted?
    ensures NonNegative(s.book)
  {
    forall k | 0 <= k < MAX_PM && s.book.pms[k].inUse
      ensures s.book.pms[k].tasks >= 0
    {
      var a := s.book.pms[k].id.address;
      assert Drift(s, k) == 0;
      DiscountIsCovered(s, a);
    }
  }

  lemma DiscountIsCovered(s: Tm, a: nat)
    requires !s.phase.Sent? && !s.phase.Counted?
    ensures Expected(s, a) >= 0
  {
    CountZeroIff(s.tasks, OnAddress(a));
    if Discounted(s, a) {
      var i: nat :| i < |s.tasks| && s.tasks[i].pid == s.finishing.value.pid && Assigned(s, i, a);
      assert OnAddress(a)(s.tasks[i]);
    }
  }

  /**
   * In every such run, when the Scheduler looks for a PM, no counter is negative; so an uninterrupted search for a
   * task without a preference succeeds exactly when a suitable PM has room, and picks a nearly least loaded one.
   */
  lemma {:induction false} ReachableSearchIsFair(es: seq<Step>)
    requires EnabledRun(START, es) && FaithfulRun(START, es) && CleanRun(START, es)
    requires Run(START, es).resets == 0 && Run(START, es).phase.Seeking? && Run(START, es).phase.load == 0
    requires Run(START, es).tasks[Run(START, es).phase.n].resources.pmId == 0
    ensures var s := Run(START, es);
            var resources := s.tasks[s.phase.n].resources;
            var c := Chosen(s.book, 0, resources);
            && NonNegative(s.book) && GoodFind(s.book, c.0, 1, resources)
            && (Sought(s).phase.Picked? <==> c.0.Some?)
            && (c.0.Some? ==> Sought(s).phase.pm == s.book.pms[c.0.value].id)
  {
    var s := Run(START, es);
    assert Balanced(START);
    RunKeepsBalanced(START, es);
    CountersAreNonNegative(s);
    ChosenIsNearMinimum(s.book, s.tasks[s.phase.n].resources);
    SoughtIsChosen(s);
  }

  // ----- where the other assumptions are needed -----

  /** The report takes the slot that holds the pid, and no other. */
  lemma KnownFinishClears(s: Tm, n: nat)
    requires TaskInHand(s) && PidsSound(s) && ReportSound(s) && Enabled(s, ListFinish)
    requires n < NUMTASKS && s.tasks[n].state.Scheduled? && s.tasks[n].pid == s.finishing.value.pid
    requires s.tasks[n].mode in {MODE_NORMAL, MODE_ALWAYS_RUNNING}
    ensures var r := Next(s, ListFinish);
            && r.tasks == s.tasks[n := r.tasks[n]] && !r.tasks[n].state.Scheduled?
            && r.book == s.book && r.phase == s.phase && r.finishing.None?
  {
    assert HasPid(s.finishing.value.pid)(s.tasks[n]) && First(s.tasks, HasPid(s.finishing.value.pid)) == n;
  }

  /** The finish of a task that leaves its slot settles every counter. */
  lemma KnownFinishKeepsDrift(s: Tm, n: nat, j: nat)
    requires TaskInHand(s) && PidsSound(s) && ReportSound(s) && Enabled(s, ListFinish)
    requires n < NUMTASKS && s.tasks[n].state.Scheduled? && s.tasks[n].pid == s.finishing.value.pid
    requires s.tasks[n].mode in {MODE_NORMAL, MODE_ALWAYS_RUNNING} && j < MAX_PM
    ensures Drift(Next(s, ListFinish), j) == Drift(s, j)
  {
    var r := Next(s, ListFinish);
    var a, b := s.tasks[n].pm.address, s.book.pms[j].id.address;
    KnownFinishClears(s, n);
    CountUpdate(s.tasks, n, r.tasks[n], OnAddress(b));
    assert Assigned(s, n, a);
    assert Discounted(s, b) <==> b == a;
  }

  /** One that stays in its slot is expected again where it was discounted. */
  lemma UnknownFinishDrifts(s: Tm, n: nat, k: nat)
    requires PidsSound(s) && ReportSound(s) && Enabled(s, ListFinish)
    requires n < NUMTASKS && s.tasks[n].state.Scheduled? && s.tasks[n].pid == s.finishing.value.pid
    requires s.tasks[n].mode !in {MODE_NORMAL, MODE_ALWAYS_RUNNING}
    requires k < MAX_PM && s.book.pms[k].id.address == s.tasks[n].pm.address
    ensures Drift(Next(s, ListFinish), k) == Drift(s, k) - 1
  {
    assert HasPid(s.finishing.value.pid)(s.tasks[n]) && First(s.tasks, HasPid(s.finishing.value.pid)) == n;
    assert Assigned(s, n, s.tasks[n].pm.address) && Discounted(s, s.tasks[n].pm.address);
    assert Next(s, ListFinish).tasks == s.tasks;
  }

  /**
   * TaskList::TaskFinished ignores a task whose mode is neither normal nor always-running, after the PM was
   * already discounted for it: the counters survive a finish report exactly when the mode is one of the two.
   */
  lemma FinishKeepsLoadIffModeIsKnown(s: Tm, n: nat, k: nat)
    requires TaskInHand(s) && PidsSound(s) && ReportSound(s) && NoDrift(s) && Enabled(s, ListFinish)
    requires n < NUMTASKS && s.tasks[n].state.Scheduled? && s.tasks[n].pid == s.finishing.value.pid
    requires k < MAX_PM && s.book.pms[k].inUse && s.book.pms[k].id.address == s.tasks[n].pm.address
    ensures NoDrift(Next(s, ListFinish)) <==> s.tasks[n].mode in {MODE_NORMAL, MODE_ALWAYS_RUNNING}
  {
    if s.tasks[n].mode in {MODE_NORMAL, MODE_ALWAYS_RUNNING} {
      forall j | 0 <= j < MAX_PM && s.book.pms[j].inUse
        ensures Drift(Next(s, ListFinish), j) == 0
      {
        KnownFinishKeepsDrift(s, n, j);
      }
    } else {
      UnknownFinishDrifts(s, n, k);
    }
  }

  // ----- reports that need not be true -----

  /** A finish report, both halves of it, with no other step in between. */
  function Reported(s: Tm, a: nat, pid: nat): (r: Tm)
  {
    Next(Next(s, CountFinish(a, pid)), ListFinish)
  }

  lemma ReportedParts(s: Tm, a: nat, pid: nat)
    ensures Reported(s, a, pid)
            == s.(book := Loaded(s.book, a, -1), tasks := AfterFinish(s.tasks, pid), finishing := None)
  {}

  /** With no start and no report in hand, what is expected is what is scheduled. */
  lemma RestExpects(s: Tm, a: nat)
    requires s.finishing.None? && !s.phase.Counted?
    ensures Expected(s, a) == Count(s.tasks, OnAddress(a))
  {}

  /** The first slot with the reported pid is scheduled at `b`, in a mode in which it then gives up the PM. */
  predicate ReportNames(s: Tm, pid: nat, b: nat) {
    var n := First(s.tasks, HasPid(pid));
    n < |s.tasks| && OnAddress(b)(s.tasks[n]) && s.tasks[n].mode in {MODE_NORMAL, MODE_ALWAYS_RUNNING}
  }

  /** The counter falls where the report comes from; the expected load falls where the pid is scheduled. */
  lemma ReportChangesDrift(s: Tm, a: nat, pid: nat, k: nat)
    requires BookSound(s.book) && s.finishing.None? && !s.phase.Busy()
    requires k < MAX_PM && s.book.pms[k].inUse
    ensures var b, r := s.book.pms[k].id.address, Reported(s, a, pid);
            && r.book.pms[k].inUse && r.book.pms[k].id.address == b
            && Drift(r, k) == Drift(s, k) - One(b == a) + One(ReportNames(s, pid, b))
  {
    var b := s.book.pms[k].id.address;
    var n := First(s.tasks, HasPid(pid));
    ReportedParts(s, a, pid);
    var r := Reported(s, a, pid);
    RestExpects(s, b);
    RestExpects(r, b);
    CountingAt(s.book, k, a, -1);
    if n < NUMTASKS { CountUpdate(s.tasks, n, AfterFinish(s.tasks, pid)[n], OnAddress(b)); }
  }

  /**
   * A finish report from the PM at `a`, whatever it says, keeps the counters right exactly when of all registered PMs
   * the one at `a`, and no other, is where the reported pid is scheduled.
   */
  lemma ReportKeepsLoadIff(s: Tm, a: nat, pid: nat)
    requires BookSound(s.book) && NoDrift(s) && s.finishing.None? && !s.phase.Busy()
    ensures NoDrift(Reported(s, a, pid)) <==>
              forall k :: 0 <= k < MAX_PM && s.book.pms[k].inUse ==>
                            (ReportNames(s, pid, s.book.pms[k].id.address) <==> s.book.pms[k].id.address == a)
  {
    forall k | 0 <= k < MAX_PM && s.book.pms[k].inUse
      ensures Drift(Reported(s, a, pid), k)
              == One(ReportNames(s, pid, s.book.pms[k].id.address)) - One(s.book.pms[k].id.address == a)
    {
      ReportChangesDrift(s, a, pid, k);
    }
    ReportedParts(s, a, pid);
  }

  lemma ReportKeepsOrdered(s: Tm, a: nat, pid: nat)
    requires Ordered(s) && s.finishing.None? && !s.phase.Busy()
    ensures Ordered(Reported(s, a, pid))
  {
    var c := Next(s, CountFinish(a, pid));
    StepKeepsSound(s, CountFinish(a, pid));
    StepKeepsSound(c, ListFinish);
    StepKeepsPids(s, CountFinish(a, pid));
    StepKeepsPids(c, ListFinish);
    StepKeepsTaskInHand(s, CountFinish(a, pid));
    StepKeepsTaskInHand(c, ListFinish);
    if s.failing.Some? {
      UnknownStaysUnknown(s, CountFinish(a, pid), s.failing.value.address);
      UnknownStaysUnknown(c, ListFinish, s.failing.value.address);
    }
  }

  /**
   * What a report gets wrong is never put right: as long as the PM stays registered and nobody resets, its counter is
   * right at rest exactly when the report named a task scheduled on it and came from it, or neither.
   */
  lemma {:induction false} ReportErrorStaysIff(s: Tm, a: nat, pid: nat, es: seq<Step>, k: nat)
    requires Ordered(s) && NoDrift(s) && s.finishing.None? && !s.phase.Busy() && k < MAX_PM && s.book.pms[k].inUse
    requires var r := Reported(s, a, pid);
             && EnabledRun(r, es) && FaithfulRun(r, es) && StaysRegistered(r, es, k) && AtRest(Run(r, es))
    ensures CounterMatches(Run(Reported(s, a, pid), es), k) <==>
              (ReportNames(s, pid, s.book.pms[k].id.address) <==> s.book.pms[k].id.address == a)
  {
    ReportKeepsOrdered(s, a, pid);
    ReportChangesDrift(s, a, pid, k);
    RunKeepsDrift(Reported(s, a, pid), es, k);
  }

  // ----- recovery -----

  /** A running-task report, its three regions, with no other step in between. */
  function RecoveredBy(s: Tm, a: nat, t: Task): (r: Tm)
  {
    Next(Next(Next(s, Recover(a, t)), RecoverList), RecoverCount)
  }

  lemma RecoveredParts(s: Tm, a: nat, t: Task)
    ensures var r := RecoveredBy(s, a, t);
            r == s.(book := Loaded(s.book, a, 1), tasks := Added(s.tasks, Recovered(t)), recovering := None,
                    nextPid := r.nextPid)
  {}

  /** A recovered task counts on its PM and is bound to none: if listed, it is scheduled at the address of no PM. */
  lemma RecoveryChangesDrift(s: Tm, a: nat, t: Task, k: nat)
    requires BookSound(s.book) && s.finishing.None? && !s.phase.Busy()
    requires k < MAX_PM && s.book.pms[k].inUse
    ensures var b, r := s.book.pms[k].id.address, RecoveredBy(s, a, t);
            && r.book.pms[k].inUse && r.book.pms[k].id.address == b
            && Drift(r, k) == Drift(s, k) + One(b == a)
                              - One(First(s.tasks, IsInactive()) < NUMTASKS && NO_COMPONENT.address == b)
  {
    var n, b := First(s.tasks, IsInactive()), s.book.pms[k].id.address;
    RecoveredParts(s, a, t);
    RestExpects(s, b);
    RestExpects(RecoveredBy(s, a, t), b);
    CountingAt(s.book, k, a, 1);
    if n < NUMTASKS {
      assert IsInactive()(s.tasks[n]);
      CountUpdate(s.tasks, n, Copied(Recovered(t)), OnAddress(b));
    }
  }

  /**
   * A running-task report keeps the counters equal to the bound tasks exactly when its PM is not registered, or has
   * the address of no PM and the task is listed. From any other the recovered task is counted and not bound.
   */
  lemma RecoveryKeepsLoadIff(s: Tm, a: nat, t: Task)
    requires BookSound(s.book) && NoDrift(s) && s.finishing.None? && !s.phase.Busy()
    ensures NoDrift(RecoveredBy(s, a, t)) <==>
              forall k :: 0 <= k < MAX_PM && s.book.pms[k].inUse ==>
                            (s.book.pms[k].id.address == a <==>
                             First(s.tasks, IsInactive()) < NUMTASKS
                             && s.book.pms[k].id.address == NO_COMPONENT.address)
  {
    forall k | 0 <= k < MAX_PM && s.book.pms[k].inUse
      ensures Drift(RecoveredBy(s, a, t), k)
              == One(s.book.pms[k].id.address == a)
                 - One(First(s.tasks, IsInactive()) < NUMTASKS && NO_COMPONENT.address == s.book.pms[k].id.address)
    {
      RecoveryChangesDrift(s, a, t, k);
    }
    RecoveredParts(s, a, t);
  }

  /** Round trip: a task recovered under a fresh pid and then reported finished by its PM leaves the counters alone. */
  lemma RecoveredFinishSettles(s: Tm, a: nat, t: Task, k: nat)
    requires BookSound(s.book) && s.finishing.None? && !s.phase.Busy()
    requires First(s.tasks, IsInactive()) < NUMTASKS && !PidHeld(s, t.pid)
    requires k < MAX_PM && s.book.pms[k].inUse
    ensures Drift(Reported(RecoveredBy(s, a, t), a, t.pid), k) == Drift(s, k)
  {
    var r := RecoveredBy(s, a, t);
    var n := First(s.tasks, IsInactive());
    RecoveredParts(s, a, t);
    LoadedKeepsBook(s.book, a, 1);
    RecoveryChangesDrift(s, a, t, k);
    ReportChangesDrift(r, a, t.pid, k);
    assert r.tasks == s.tasks[n := Copied(Recovered(t))];
    assert HasPid(t.pid)(r.tasks[n]) && First(r.tasks, HasPid(t.pid)) == n;
  }

  /**
   * A PM that registers starts its counter at zero, which is right exactly when no task counts at its address. That
   * fails for a PM that returns before its own failure has been handled.
   */
  lemma RegisterKeepsLoadIff(s: Tm, id: ComponentId, resources: Resources)
    requires TaskInHand(s) && NoDrift(s)
    requires NobodyAt(s.book, id.address) && First(s.book.pms, IsFree()) < MAX_PM
    ensures NoDrift(Next(s, Register(id, resources))) <==> SettledAt(s, id.address)
  {
    var r := Next(s, Register(id, resources));
    var i := First(s.book.pms, IsFree());
    NobodyIsFound(s.book, id.address);
    ExpectedIsZeroIff(s, id.address);
    assert r.book.pms[i].inUse && r.book.pms[i].id.address == id.address && r.book.pms[i].tasks == 0;
    forall k | 0 <= k < MAX_PM && r.book.pms[k].inUse
      ensures Drift(r, k) == if k == i then -Expected(s, id.address) else Drift(s, k)
    {
      SamePartsExpectSame(s, r, r.book.pms[k].id.address);
    }
  }

  /** Scheduled at `a`, under another identifier than `id`. */
  function OnAddressAs(a: nat, id: ComponentId): Task -> bool {
    (t: Task) => OnAddress(a)(t) && t.pm != id
  }

  /**
   * Handling the failure of a PM that has already registered again makes its counter right exactly when the counter
   * is the number of tasks bound at its address under another identifier: for a PM that returns under its old one,
   * exactly when no start was counted since.
   */
  lemma HandlingRepairsIff(s: Tm, k: nat)
    requires Enabled(s, HandleFailure) && s.finishing.None?
    requires k < MAX_PM && s.book.pms[k].inUse && s.book.pms[k].id.address == s.failing.value.address
    ensures Drift(Next(s, HandleFailure), k) == 0 <==>
              s.book.pms[k].tasks == Count(s.tasks, OnAddressAs(s.failing.value.address, s.failing.value))
  {
    var r := Next(s, HandleFailure);
    var a := s.failing.value.address;
    assert forall i :: 0 <= i < NUMTASKS ==> r.tasks[i] == Unbound(s.tasks[i], s.failing.value);
    CountAlike(r.tasks, s.tasks, OnAddress(a), OnAddressAs(a, s.failing.value));
  }
}
