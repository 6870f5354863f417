/** What every run of the Task Manager conserves: distinct pids, and the tasks it accepted. */
module TmConservation {
  import opened Ids
  import opened Sequences
  import opened Tasks
  import opened LoadBalance
  import opened TmProtocol
  import opened Books = PmRecords

  // ----- pids -----

  /** Valid pids are pairwise distinct and below the next one to be given out. */
  ghost predicate PidsDistinct(s: Tm) {
    && s.nextPid >= 1
    && (forall i :: 0 <= i < |s.tasks| ==> s.tasks[i].pid < s.nextPid)
    && (forall i, k :: 0 <= i < k < |s.tasks| && s.tasks[i].pid != PID_INVALID ==> s.tasks[i].pid != s.tasks[k].pid)
  }

  ghost predicate PidHeld(s: Tm, pid: nat) {
    exists i :: 0 <= i < |s.tasks| && s.tasks[i].pid == pid
  }

  ghost predicate PidFresh(s: Tm, pid: nat) {
    pid == PID_INVALID || !PidHeld(s, pid)
  }

  /** A reported task that is not yet listed has a pid already passed by, which no slot takes up meanwhile. */
  ghost predicate PidsSound(s: Tm) {
    && PidsDistinct(s)
    && (s.recovering.Some? && !s.recovering.value.listed ==>
          s.recovering.value.t.pid < s.nextPid && PidFresh(s, s.recovering.value.t.pid))
  }

  /** A PM reports a running task only under a pid that no slot holds. */
  ghost predicate ReportsFreshPid(s: Tm, e: Step) {
    e.Recover? ==> PidFresh(s, e.t.pid)
  }

  /** Slots keep or lose their pids. */
  lemma PidsAlike(s: Tm, r: Tm)
    requires PidsSound(s) && |r.tasks| == |s.tasks| && r.nextPid == s.nextPid && r.recovering == s.recovering
    requires forall i :: 0 <= i < |s.tasks| ==> r.tasks[i].pid == s.tasks[i].pid || r.tasks[i].pid == PID_INVALID
    ensures PidsSound(r)
  {}

  lemma AddedPids(s: Tm, r: Tm, t: Task)
    requires PidsDistinct(s) && r.tasks == Added(s.tasks, t) && r.nextPid == s.nextPid
    requires t.pid < s.nextPid && PidFresh(s, t.pid)
    ensures PidsDistinct(r)
    ensures forall pid :: PidHeld(r, pid) ==> PidHeld(s, pid) || pid == t.pid
  {
    var n := First(s.tasks, IsInactive());
    assert forall i :: 0 <= i < NUMTASKS ==> r.tasks[i] == if i == n then Copied(t) else s.tasks[i];
  }

  lemma TaskListKeepsPids(s: Tm, e: Step)
    requires PidsSound(s) && Enabled(s, e) && !OfScheduler(e) && !OnPmTable(e)
    ensures PidsSound(Next(s, e))
  {
    var r := Next(s, e);
    match e {
      case Post(t) => AddedPids(s, r, Posted(t));
      case RecoverList => AddedPids(s, r, Recovered(s.recovering.value.t));
      case HandleFailure =>
        assert forall i :: 0 <= i < NUMTASKS ==> r.tasks[i].pid == Unbound(s.tasks[i], s.failing.value).pid;
        PidsAlike(s, r);
      case DropPreference(resources) =>
        assert forall i :: 0 <= i < NUMTASKS ==> r.tasks[i].pid == Unpreferred(s.tasks[i], resources).pid;
        PidsAlike(s, r);
      case _ => PidsAlike(s, r);
    }
  }

  lemma SchedulerKeepsPids(s: Tm, e: Step)
    requires PidsSound(s) && Enabled(s, e) && OfScheduler(e)
    ensures PidsSound(Next(s, e))
  {
    var r := Next(s, e);
    if e.Send? {
      assert forall i :: 0 <= i < NUMTASKS && i != s.phase.n ==> r.tasks[i] == s.tasks[i];
    } else {
      assert forall i :: 0 <= i < NUMTASKS ==> r.tasks[i].pid == s.tasks[i].pid;
      PidsAlike(s, r);
    }
  }

  /** Pids stay distinct whatever the scheduling intervals, also when the Scheduler resumes after a sleep. */
  lemma StepKeepsPids(s: Tm, e: Step)
    requires PidsSound(s) && Enabled(s, e) && ReportsFreshPid(s, e)
    ensures PidsSound(Next(s, e))
  {
    if OfScheduler(e) {
      SchedulerKeepsPids(s, e);
    } else if OnPmTable(e) {
      PmTableKeepsPids(s, e);
    } else {
      TaskListKeepsPids(s, e);
    }
  }

  lemma PmTableKeepsPids(s: Tm, e: Step)
    requires PidsSound(s) && Enabled(s, e) && ReportsFreshPid(s, e) && OnPmTable(e)
    ensures PidsSound(Next(s, e))
  {
    var r := Next(s, e);
    assert r.tasks == s.tasks && r.nextPid >= s.nextPid;
    if !e.Recover? && !e.RecoverCount? { assert r.nextPid == s.nextPid && r.recovering == s.recovering; }
  }

  /** Listing a reported task keeps pids distinct exactly when its pid is fresh or the table has no room. */
  lemma RecoverKeepsPidsIff(s: Tm)
    requires PidsDistinct(s) && Enabled(s, RecoverList) && s.recovering.value.t.pid < s.nextPid
    requires First(s.tasks, IsInactive()) < NUMTASKS ==> s.tasks[First(s.tasks, IsInactive())].pid == PID_INVALID
    ensures PidsDistinct(Next(s, RecoverList)) <==>
              PidFresh(s, s.recovering.value.t.pid) || First(s.tasks, IsInactive()) == NUMTASKS
  {
    var r := Next(s, RecoverList);
    var t := s.recovering.value.t;
    var n := First(s.tasks, IsInactive());
    if n < NUMTASKS && !PidFresh(s, t.pid) {
      var i :| 0 <= i < |s.tasks| && s.tasks[i].pid == t.pid;
      assert r.tasks[i].pid == r.tasks[n].pid == t.pid && i != n;
    } else if n < NUMTASKS {
      AddedPids(s, r, Recovered(t));
    }
  }

  ghost predicate FreshPidRun(s: Tm, es: seq<Step>)
    decreases |es|
  {
    |es| > 0 ==> ReportsFreshPid(s, es[0]) && FreshPidRun(Next(s, es[0]), es[1..])
  }

  lemma {:induction false} RunKeepsPids(s: Tm, es: seq<Step>)
    requires PidsSound(s) && EnabledRun(s, es) && FreshPidRun(s, es)
    ensures PidsSound(Run(s, es))
    decreases |es|
  {
    if |es| > 0 {
      StepKeepsPids(s, es[0]);
      RunKeepsPids(Next(s, es[0]), es[1..]);
    }
  }

  /** In every run a lookup by a valid pid stops at the only slot that holds it. */
  lemma {:induction false} PidLookupIsUnambiguous(es: seq<Step>, i: nat)
    requires EnabledRun(START, es) && FreshPidRun(START, es)
    requires i < NUMTASKS && Run(START, es).tasks[i].pid != PID_INVALID
    ensures First(Run(START, es).tasks, HasPid(Run(START, es).tasks[i].pid)) == i
    ensures Run(START, es).tasks[i].pid < Run(START, es).nextPid
  {
    RunKeepsPids(START, es);
    var s := Run(START, es);
    assert HasPid(s.tasks[i].pid)(s.tasks[i]);
  }

  // ----- task names -----

  /** A task of this name is in the table. */
  function Named(name: string): Task -> bool { (t: Task) => !t.state.Inactive? && t.filename == name }

  function One(b: bool): nat { if b then 1 else 0 }

  /** What a step brings into the table under a name: a posted or recovered task, if a slot is free. */
  function Entering(s: Tm, e: Step, name: string): nat {
    match e
    case Post(t) => One(First(s.tasks, IsInactive()) < |s.tasks| && t.filename == name)
    case RecoverList =>
      One(s.recovering.Some? && First(s.tasks, IsInactive()) < |s.tasks| && s.recovering.value.t.filename == name)
    case _ => 0
  }

  /** What a step takes out under a name: a normal task reported finished, or everything at a reset. */
  function Leaving(s: Tm, e: Step, name: string): nat {
    match e
    case ListFinish =>
      if s.finishing.None? then 0 else
        var n := First(s.tasks, HasPid(s.finishing.value.pid));
        One(n < |s.tasks| && s.tasks[n].mode == MODE_NORMAL && Named(name)(s.tasks[n]))
    case ResetList => Count(s.tasks, Named(name))
    case _ => 0
  }

  /** What the balance rests on: inactive slots are blank, and so carry no PM that could fail. */
  ghost predicate SlotsKept(s: Tm) {
    && BookSound(s.book)
    && (forall i :: 0 <= i < NUMTASKS && s.tasks[i].state.Inactive? ==> s.tasks[i] == BLANK)
    && (s.failing.Some? ==> s.failing.value.port == PORT_PM)
  }

  lemma HandlingKeepsSlots(s: Tm)
    requires SlotsKept(s) && Enabled(s, HandleFailure)
    ensures SlotsKept(Next(s, HandleFailure))
  {
    var r := Next(s, HandleFailure);
    assert forall i :: 0 <= i < NUMTASKS ==> r.tasks[i] == Unbound(s.tasks[i], s.failing.value);
  }

  /** Whatever the Scheduler wakes to. */
  lemma StepKeepsSlots(s: Tm, e: Step)
    requires SlotsKept(s) && Enabled(s, e)
    ensures SlotsKept(Next(s, e))
  {
    StepKeepsBook(s, e);
    if e.HandleFailure? {
      HandlingKeepsSlots(s);
    } else if !OfScheduler(e) && !OnPmTable(e) {
      TaskListKeepsBlanks(s, e);
    } else if !e.Send? && !e.Commit? {
      assert Next(s, e).tasks == s.tasks;
    }
  }

  lemma TaskListKeepsBlanks(s: Tm, e: Step)
    requires !OfScheduler(e) && !OnPmTable(e) && !e.HandleFailure?
    requires forall i :: 0 <= i < NUMTASKS && s.tasks[i].state.Inactive? ==> s.tasks[i] == BLANK
    ensures var r := Next(s, e);
            forall i :: 0 <= i < NUMTASKS && r.tasks[i].state.Inactive? ==> r.tasks[i] == BLANK
    ensures Next(s, e).failing == s.failing
  {
    if e.DropPreference? {
      assert forall i :: 0 <= i < NUMTASKS ==> Next(s, e).tasks[i] == Unpreferred(s.tasks[i], e.resources);
    }
  }

  lemma SchedulerKeepsTasks(s: Tm, e: Step, name: string)
    requires Enabled(s, e) && OfScheduler(e)
    ensures Count(Next(s, e).tasks, Named(name)) == Count(s.tasks, Named(name))
  {
    var r := Next(s, e);
    if e.Send? || e.Commit? {
      CountUpdate(s.tasks, s.phase.n, r.tasks[s.phase.n], Named(name));
    } else {
      assert r.tasks == s.tasks;
    }
  }

  lemma TaskListConservesTasks(s: Tm, e: Step, name: string)
    requires SlotsKept(s) && Enabled(s, e) && !OfScheduler(e) && !OnPmTable(e)
    ensures Count(Next(s, e).tasks, Named(name)) + Leaving(s, e, name)
            == Count(s.tasks, Named(name)) + Entering(s, e, name)
  {
    var r := Next(s, e);
    match e {
      case Post(t) => AddedTask(s.tasks, Posted(t), name);
      case RecoverList => AddedTask(s.tasks, Recovered(s.recovering.value.t), name);
      case ListFinish => FinishedTask(s, name);
      case HandleFailure =>
        FailureKeepsInactive(s);
        CountAlike(s.tasks, r.tasks, Named(name), Named(name));
      case DropPreference(resources) => DroppedPreference(s.tasks, resources, name);
      case ResetList => CountNone(r.tasks, Named(name));
    }
  }

  /**
   * One step changes how many tasks of each name the table holds by exactly what enters and leaves. In
   * particular scheduling, the finish of an always-running task and the failure of a PM change nothing.
   */
  lemma StepConservesTasks(s: Tm, e: Step, name: string)
    requires SlotsKept(s) && Enabled(s, e)
    ensures Count(Next(s, e).tasks, Named(name)) + Leaving(s, e, name)
            == Count(s.tasks, Named(name)) + Entering(s, e, name)
  {
    if OfScheduler(e) {
      SchedulerKeepsTasks(s, e, name);
    } else if !OnPmTable(e) {
      TaskListConservesTasks(s, e, name);
    }
  }

  lemma FinishedTask(s: Tm, name: string)
    requires s.finishing.Some?
    requires forall i :: 0 <= i < NUMTASKS && s.tasks[i].state.Inactive? ==> s.tasks[i] == BLANK
    ensures Count(Next(s, ListFinish).tasks, Named(name)) + Leaving(s, ListFinish, name) == Count(s.tasks, Named(name))
  {
    var n := First(s.tasks, HasPid(s.finishing.value.pid));
    if n < NUMTASKS { CountUpdate(s.tasks, n, Next(s, ListFinish).tasks[n], Named(name)); }
  }

  lemma {:induction false} DroppedPreference(ts: seq<Task>, resources: Resources, name: string)
    ensures Count(WithoutPreference(ts, resources), Named(name)) == Count(ts, Named(name))
  {
    var us := WithoutPreference(ts, resources);
    assert forall i :: 0 <= i < |ts| ==> us[i] == Unpreferred(ts[i], resources);
    CountAlike(ts, us, Named(name), Named(name));
  }

  lemma {:induction false} AddedTask(ts: seq<Task>, t: Task, name: string)
    requires !t.state.Inactive?
    ensures Count(Added(ts, t), Named(name))
            == Count(ts, Named(name)) + One(First(ts, IsInactive()) < |ts| && t.filename == name)
  {
    var n := First(ts, IsInactive());
    if n < |ts| {
      assert IsInactive()(ts[n]);
      CountUpdate(ts, n, Copied(t), Named(name));
    }
  }

  /** PMFailure matches slots by PM alone; no inactive slot matches, because those carry a cleared PM. */
  lemma FailureKeepsInactive(s: Tm)
    requires SlotsKept(s) && s.failing.Some?
    ensures forall i :: 0 <= i < NUMTASKS ==>
                          && (Next(s, HandleFailure).tasks[i].state.Inactive? <==> s.tasks[i].state.Inactive?)
                          && Next(s, HandleFailure).tasks[i].filename == s.tasks[i].filename
  {}

  function AllEntering(s: Tm, es: seq<Step>, name: string): nat
    decreases |es|
  {
    if |es| == 0 then 0 else Entering(s, es[0], name) + AllEntering(Next(s, es[0]), es[1..], name)
  }

  function AllLeaving(s: Tm, es: seq<Step>, name: string): nat
    decreases |es|
  {
    if |es| == 0 then 0 else Leaving(s, es[0], name) + AllLeaving(Next(s, es[0]), es[1..], name)
  }

  lemma {:induction false} RunConservesTasks(s: Tm, es: seq<Step>, name: string)
    requires SlotsKept(s) && EnabledRun(s, es)
    ensures Count(Run(s, es).tasks, Named(name)) + AllLeaving(s, es, name)
            == Count(s.tasks, Named(name)) + AllEntering(s, es, name)
    decreases |es|
  {
    if |es| > 0 {
      StepConservesTasks(s, es[0], name);
      StepKeepsSlots(s, es[0]);
      RunConservesTasks(Next(s, es[0]), es[1..], name);
    }
  }

  /** No task is lost in any run at all: what was accepted is in the table unless it finished or was reset. */
  lemma {:induction false} NoTaskIsLost(es: seq<Step>, name: string)
    requires EnabledRun(START, es)
    ensures Count(Run(START, es).tasks, Named(name)) + AllLeaving(START, es, name) == AllEntering(START, es, name)
  {
    RunConservesTasks(START, es, name);
    CountNone(START.tasks, Named(name));
  }
}
