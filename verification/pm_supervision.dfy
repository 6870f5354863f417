/** The Process Manager's supervision of its tasks (sdm/pm/pm_main.cpp), one step for each critical section. */
module PmSupervision {
  import opened Ids
  import opened Sequences
  import opened PmProcesses

  const MAX_TASK_FAILURES := 5

  /**
   * What a step sends: SDMTaskFinished, for an entry that leaves the list or, as `NotFetched`, for a pid whose code
   * could not be fetched; SDMCancelxTEDS; SDMTaskError; the SDMTask that makes the PM launch the task again; or the
   * signal that kills a process.
   */
  datatype Sent =
    | Finished(birth: nat, pid: nat)
    | NotFetched(pid: nat)
    | CancelXteds(birth: nat, pid: nat, full: bool)
    | Error(birth: nat, pid: nat)
    | Relaunch(birth: nat, pid: nat)
    | Signal(birth: nat, osPid: int)

  /** The task that the signal thread is launching, and the index that Add gave it. */
  datatype Launching = Launching(pid: nat, index: nat)

  /**
   * The running tasks, how many entries were ever made, what was sent, how many entries went without a report, and
   * what the signal thread holds between adding a task to the list and knowing whether its fork succeeded.
   */
  datatype State =
    State(ps: seq<Process>, births: nat, log: seq<Sent>, dropped: nat, launching: Option<Launching>)

  const BOOTED := State([], 0, [], 0, None)

  function HasPid(pid: nat): Process -> bool { (p: Process) => p.sdmPid == pid }
  function HasOs(osPid: int): Process -> bool { (p: Process) => p.osPid == osPid }

  // ----- what each critical section does to the list -----

  /** Add: a restart finds its entry by pid and only loses the old process number. */
  function Launched(ps: seq<Process>, name: string, pid: nat, osPid: int, birth: nat): seq<Process> {
    var i := First(ps, HasPid(pid));
    if i < |ps| then ps[i := ps[i].(osPid := osPid)] else ps + [Started(name, pid, osPid, birth)]
  }

  function Numbered(ps: seq<Process>, pid: nat, osPid: int): seq<Process> {
    var i := First(ps, HasPid(pid));
    if i < |ps| then ps[i := ps[i].(osPid := osPid)] else ps
  }

  function HeardFrom(ps: seq<Process>, pid: nat, now: nat): seq<Process> {
    var i := First(ps, HasPid(pid));
    if i < |ps| then ps[i := Beaten(ps[i], now)] else ps
  }

  function Without(ps: seq<Process>, i: nat): seq<Process> {
    if i < |ps| then ps[..i] + ps[i + 1..] else ps
  }

  /** The poll finds the process unresponsive and it is not already waiting to be restarted. */
  predicate Alarms(p: Process, now: nat) {
    Polled(p, now).0 && !p.failed
  }

  function SignalTo(p: Process): Sent { Signal(p.birth, p.osPid) }
  function ErrorOf(p: Process): Sent { Error(p.birth, p.sdmPid) }

  /** What a reset sends: every process is killed and reported in error. */
  function Errors(ps: seq<Process>): (r: seq<Sent>)
    ensures forall i :: 0 <= i < |r| ==> r[i].Error? || r[i].Signal?
  {
    if |ps| == 0 then [] else [SignalTo(ps[0]), ErrorOf(ps[0])] + Errors(ps[1..])
  }

  // ----- the machine -----

  datatype Step =
    | Launch(name: string, pid: nat)
    | SetOsPid(osPid: int)
    | LaunchFailed
    | FetchFailed(pid: nat)
    | Heartbeat(pid: nat, now: nat)
    | Monitor(times: seq<nat>)
    | ChildExits(osPid: int)
    | Kill(pid: nat, level: nat)
    | Reset

  /** Steps of the one thread that handles signals; it launches queued tasks and collects children, in turn. */
  predicate OfSignalThread(step: Step) {
    step.Launch? || step.SetOsPid? || step.LaunchFailed? || step.ChildExits?
  }

  /**
   * The signal thread does nothing else between a launch and its end. A pass of the monitor reads the clock once a
   * turn. A failed launch removes whatever now stands at the index it was given, or nothing if the index is too large;
   * an index one past the end passes the guard and has no meaning.
   */
  predicate Enabled(s: State, step: Step) {
    match step
    case Launch(_, _) => s.launching.None?
    case ChildExits(_) => s.launching.None?
    case SetOsPid(_) => s.launching.Some?
    case LaunchFailed => s.launching.Some? && s.launching.value.index != |s.ps|
    case Monitor(times) => |s.ps| <= |times|
    case _ => true
  }

  /** The entry is reported finished, its xTEDS cancelled, and it leaves the list. */
  function Reported(s: State, i: nat, full: bool): State
    requires i < |s.ps|
  {
    var p := s.ps[i];
    s.(ps := Without(s.ps, i), log := s.log + [Finished(p.birth, p.sdmPid)] + [CancelXteds(p.birth, p.sdmPid, full)])
  }

  /** The turn of the monitor's loop for entry i: poll it, and fail it or, over its budget, drop it. */
  function Turned(s: State, i: nat, now: nat): (r: State)
    requires i < |s.ps|
    ensures |r.ps| <= |s.ps| && r.births == s.births
  {
    var p := Polled(s.ps[i], now).1;
    if !Alarms(s.ps[i], now) then s.(ps := s.ps[i := p])
    else if p.failCount < MAX_TASK_FAILURES then
      s.(ps := s.ps[i := Failed(p)], log := s.log + [SignalTo(p)] + [ErrorOf(p)])
    else s.(ps := Without(s.ps, i), log := s.log + [SignalTo(p)], dropped := s.dropped + 1)
  }

  /** The turns from index i on. The index advances past a dropped entry too, so the entry after it is not polled. */
  function Swept(s: State, i: nat, times: seq<nat>): State
    requires |s.ps| <= |times|
    decreases |times| - i
  {
    if i >= |s.ps| then s else Swept(Turned(s, i, times[i]), i + 1, times)
  }

  /** SigChldHandler: a task that failed is relaunched under its pid, any other is reported and removed. */
  function Exited(s: State, osPid: int): State {
    var i := First(s.ps, HasOs(osPid));
    if i == |s.ps| then s
    else if s.ps[i].failed then
      s.(ps := s.ps[i := Restarted(s.ps[i])], log := s.log + [Relaunch(s.ps[i].birth, s.ps[i].sdmPid)])
    else Reported(s, i, false)
  }

  /** KillHandler: the process is killed, but only a kill of level 1 takes the task off the list. */
  function Killed(s: State, pid: nat, level: nat): State {
    var i := First(s.ps, HasPid(pid));
    if i == |s.ps| then s
    else
      var hit := s.(log := s.log + [SignalTo(s.ps[i])]);
      if level == 1 then Reported(hit, i, true) else hit
  }

  function Next(s: State, step: Step): State
    requires Enabled(s, step)
  {
    match step
    case Launch(name, pid) =>
      s.(ps := Launched(s.ps, name, pid, 0, s.births),
         births := s.births + (if First(s.ps, HasPid(pid)) < |s.ps| then 0 else 1),
         launching := Some(Launching.Launching(pid, First(s.ps, HasPid(pid)))))
    case SetOsPid(osPid) => s.(ps := Numbered(s.ps, s.launching.value.pid, osPid), launching := None)
    case LaunchFailed =>
      var index := s.launching.value.index;
      s.(ps := Without(s.ps, index), dropped := s.dropped + (if index < |s.ps| then 1 else 0), launching := None)
    case FetchFailed(pid) => s.(log := s.log + [NotFetched(pid)])
    case Heartbeat(pid, now) => s.(ps := HeardFrom(s.ps, pid, now))
    case Monitor(times) => Swept(s, 0, times)
    case ChildExits(osPid) => Exited(s, osPid)
    case Kill(pid, level) => Killed(s, pid, level)
    case Reset => s.(ps := [], log := s.log + Errors(s.ps), dropped := s.dropped + |s.ps|)
  }

  predicate Legal(s: State, steps: seq<Step>)
    decreases |steps|
  {
    |steps| > 0 ==> Enabled(s, steps[0]) && Legal(Next(s, steps[0]), steps[1..])
  }

  function Run(s: State, steps: seq<Step>): State
    requires Legal(s, steps)
    decreases |steps|
  {
    if |steps| == 0 then s else Run(Next(s, steps[0]), steps[1..])
  }

  lemma {:induction false} RunExtends(s: State, steps: seq<Step>, step: Step)
    requires Legal(s, steps) && Enabled(Run(s, steps), step)
    ensures Legal(s, steps + [step]) && Run(s, steps + [step]) == Next(Run(s, steps), step)
    decreases |steps|
  {
    if |steps| == 0 {
      assert steps + [step] == [step] && [step][1..] == [];
    } else {
      assert (steps + [step])[1..] == steps[1..] + [step];
      RunExtends(Next(s, steps[0]), steps[1..], step);
    }
  }

  // ----- invariants -----

  ghost predicate Distinct(ps: seq<Process>) {
    forall i, k :: 0 <= i < k < |ps| ==> ps[i].birth != ps[k].birth && ps[i].sdmPid != ps[k].sdmPid
  }

  /** Every failure but the one being dealt with has been answered by a restart. */
  predicate InBudget(p: Process) {
    p.failCount == p.restarts + (if p.failed then 1 else 0) && p.failCount <= MAX_TASK_FAILURES
  }

  ghost predicate ListSound(ps: seq<Process>, births: nat) {
    Distinct(ps) && forall i :: 0 <= i < |ps| ==> InBudget(ps[i]) && ps[i].birth < births
  }

  function FinishedFor(birth: nat): Sent -> bool { (m: Sent) => m.Finished? && m.birth == birth }
  function RelaunchFor(birth: nat): Sent -> bool { (m: Sent) => m.Relaunch? && m.birth == birth }
  function IsFinished(): Sent -> bool { (m: Sent) => m.Finished? }

  /** One entry's messages: at most one report and five relaunches, none before it exists, no report while listed. */
  ghost predicate EntrySound(s: State, birth: nat) {
    && Count(s.log, FinishedFor(birth)) <= 1
    && Count(s.log, RelaunchFor(birth)) <= MAX_TASK_FAILURES
    && (birth >= s.births ==>
          && Count(s.log, FinishedFor(birth)) == 0
          && Count(s.log, RelaunchFor(birth)) == 0)
    && (forall i :: 0 <= i < |s.ps| && s.ps[i].birth == birth ==>
                      Count(s.log, FinishedFor(birth)) == 0 && Count(s.log, RelaunchFor(birth)) == s.ps[i].restarts)
  }

  /** Every entry ever made is on the list, was reported, or went without a report. */
  ghost predicate Accounted(s: State) {
    s.births == |s.ps| + Count(s.log, IsFinished()) + s.dropped
  }

  lemma WithoutKeepsList(ps: seq<Process>, i: nat, births: nat)
    requires ListSound(ps, births)
    ensures ListSound(Without(ps, i), births)
  {}

  lemma UpdateKeepsList(ps: seq<Process>, i: nat, q: Process, births: nat)
    requires ListSound(ps, births) && i < |ps|
    requires q.birth == ps[i].birth && q.sdmPid == ps[i].sdmPid && InBudget(q)
    ensures ListSound(ps[i := q], births)
  {}

  lemma LaunchKeepsList(ps: seq<Process>, name: string, pid: nat, births: nat)
    requires ListSound(ps, births)
    ensures ListSound(Launched(ps, name, pid, 0, births), births + if First(ps, HasPid(pid)) < |ps| then 0 else 1)
  {
    var i := First(ps, HasPid(pid));
    if i < |ps| {
      UpdateKeepsList(ps, i, ps[i].(osPid := 0), births);
    } else {
      assert forall k :: 0 <= k < |ps| ==> !HasPid(pid)(ps[k]);
    }
  }

  lemma {:induction false} SweepKeepsList(s: State, i: nat, times: seq<nat>)
    requires |s.ps| <= |times| && ListSound(s.ps, s.births)
    ensures ListSound(Swept(s, i, times).ps, Swept(s, i, times).births)
    decreases |times| - i
  {
    if i < |s.ps| {
      TurnKeepsList(s, i, times[i]);
      SweepKeepsList(Turned(s, i, times[i]), i + 1, times);
    }
  }

  lemma TurnKeepsList(s: State, i: nat, now: nat)
    requires i < |s.ps| && ListSound(s.ps, s.births)
    ensures ListSound(Turned(s, i, now).ps, s.births)
  {}

  lemma StepKeepsList(s: State, step: Step)
    requires Enabled(s, step) && ListSound(s.ps, s.births)
    ensures ListSound(Next(s, step).ps, Next(s, step).births)
  {
    match step {
      case Monitor(times) => SweepKeepsList(s, 0, times);
      case Launch(name, pid) => LaunchKeepsList(s.ps, name, pid, s.births);
      case SetOsPid(osPid) =>
        var i := First(s.ps, HasPid(s.launching.value.pid));
        if i < |s.ps| { UpdateKeepsList(s.ps, i, s.ps[i].(osPid := osPid), s.births); }
      case Heartbeat(pid, now) =>
        var i := First(s.ps, HasPid(pid));
        if i < |s.ps| { UpdateKeepsList(s.ps, i, Beaten(s.ps[i], now), s.births); }
      case ChildExits(osPid) =>
        var i := First(s.ps, HasOs(osPid));
        if i < |s.ps| && s.ps[i].failed { UpdateKeepsList(s.ps, i, Restarted(s.ps[i]), s.births); }
        WithoutKeepsList(s.ps, i, s.births);
      case Kill(pid, level) => WithoutKeepsList(s.ps, First(s.ps, HasPid(pid)), s.births);
      case LaunchFailed => WithoutKeepsList(s.ps, s.launching.value.index, s.births);
      case FetchFailed(_) =>
      case Reset =>
    }
  }

  lemma {:induction false} NoReports(log: seq<Sent>, more: seq<Sent>, birth: nat)
    requires forall i :: 0 <= i < |more| ==> more[i].Error? || more[i].Signal? || more[i].NotFetched?
    ensures Count(log + more, FinishedFor(birth)) == Count(log, FinishedFor(birth))
    ensures Count(log + more, RelaunchFor(birth)) == Count(log, RelaunchFor(birth))
    ensures Count(log + more, IsFinished()) == Count(log, IsFinished())
  {
    CountConcat(log, more, FinishedFor(birth));
    CountConcat(log, more, RelaunchFor(birth));
    CountConcat(log, more, IsFinished());
    CountNone(more, FinishedFor(birth));
    CountNone(more, RelaunchFor(birth));
    CountNone(more, IsFinished());
  }

  lemma {:induction false} OneMore(log: seq<Sent>, m: Sent, birth: nat)
    ensures Count(log + [m], FinishedFor(birth))
            == Count(log, FinishedFor(birth)) + (if FinishedFor(birth)(m) then 1 else 0)
    ensures Count(log + [m], RelaunchFor(birth))
            == Count(log, RelaunchFor(birth)) + (if RelaunchFor(birth)(m) then 1 else 0)
    ensures Count(log + [m], IsFinished()) == Count(log, IsFinished()) + (if m.Finished? then 1 else 0)
  {
    CountAppend(log, m, FinishedFor(birth));
    CountAppend(log, m, RelaunchFor(birth));
    CountAppend(log, m, IsFinished());
  }

  lemma ReportKeepsEntry(s: State, i: nat, full: bool, birth: nat)
    requires ListSound(s.ps, s.births) && EntrySound(s, birth) && Accounted(s) && i < |s.ps|
    ensures EntrySound(Reported(s, i, full), birth)
    ensures Accounted(Reported(s, i, full))
  {
    var p := s.ps[i];
    OneMore(s.log, Finished(p.birth, p.sdmPid), birth);
    OneMore(s.log + [Finished(p.birth, p.sdmPid)], CancelXteds(p.birth, p.sdmPid, full), birth);
  }

  lemma KillKeepsEntry(s: State, pid: nat, level: nat, birth: nat)
    requires ListSound(s.ps, s.births) && EntrySound(s, birth) && Accounted(s)
    ensures EntrySound(Killed(s, pid, level), birth)
    ensures Accounted(Killed(s, pid, level))
  {
    var i := First(s.ps, HasPid(pid));
    if i < |s.ps| {
      var hit := s.(log := s.log + [SignalTo(s.ps[i])]);
      OneMore(s.log, SignalTo(s.ps[i]), birth);
      assert EntrySound(hit, birth);
      if level == 1 { ReportKeepsEntry(hit, i, true, birth); }
    }
  }

  lemma ExitKeepsEntry(s: State, osPid: int, birth: nat)
    requires ListSound(s.ps, s.births) && EntrySound(s, birth) && Accounted(s)
    ensures EntrySound(Exited(s, osPid), birth)
    ensures Accounted(Exited(s, osPid))
  {
    var i := First(s.ps, HasOs(osPid));
    if i < |s.ps| {
      OneMore(s.log, Relaunch(s.ps[i].birth, s.ps[i].sdmPid), birth);
      assert InBudget(s.ps[i]);
      ReportKeepsEntry(s, i, false, birth);
    }
  }

  lemma TurnKeepsEntry(s: State, i: nat, now: nat, birth: nat)
    requires i < |s.ps| && ListSound(s.ps, s.births) && EntrySound(s, birth) && Accounted(s)
    ensures EntrySound(Turned(s, i, now), birth)
    ensures Accounted(Turned(s, i, now))
    ensures Count(Turned(s, i, now).log, IsFinished()) == Count(s.log, IsFinished())
  {
    var p := Polled(s.ps[i], now).1;
    OneMore(s.log, SignalTo(p), birth);
    OneMore(s.log + [SignalTo(p)], ErrorOf(p), birth);
  }

  lemma {:induction false} SweepKeepsEntry(s: State, i: nat, times: seq<nat>, birth: nat)
    requires |s.ps| <= |times| && ListSound(s.ps, s.births) && EntrySound(s, birth) && Accounted(s)
    ensures EntrySound(Swept(s, i, times), birth)
    ensures Accounted(Swept(s, i, times))
    ensures Count(Swept(s, i, times).log, IsFinished()) == Count(s.log, IsFinished())
    decreases |times| - i
  {
    if i < |s.ps| {
      TurnKeepsList(s, i, times[i]);
      TurnKeepsEntry(s, i, times[i], birth);
      SweepKeepsEntry(Turned(s, i, times[i]), i + 1, times, birth);
    }
  }

  lemma StepKeepsEntry(s: State, step: Step, birth: nat)
    requires Enabled(s, step) && ListSound(s.ps, s.births) && EntrySound(s, birth) && Accounted(s)
    ensures EntrySound(Next(s, step), birth)
    ensures Accounted(Next(s, step))
  {
    match step {
      case Monitor(times) => SweepKeepsEntry(s, 0, times, birth);
      case ChildExits(osPid) => ExitKeepsEntry(s, osPid, birth);
      case Kill(pid, level) => KillKeepsEntry(s, pid, level, birth);
      case Reset => NoReports(s.log, Errors(s.ps), birth);
      case FetchFailed(pid) => NoReports(s.log, [NotFetched(pid)], birth);
      case _ =>
    }
  }

  /** In every reachable state the list is sound and each entry's messages stay within their bounds. */
  lemma {:induction false} RunKeepsSound(s: State, steps: seq<Step>, birth: nat)
    requires Legal(s, steps) && ListSound(s.ps, s.births) && EntrySound(s, birth) && Accounted(s)
    ensures var r := Run(s, steps);
            ListSound(r.ps, r.births) && EntrySound(r, birth) && Accounted(r)
    decreases |steps|
  {
    if |steps| > 0 {
      StepKeepsList(s, steps[0]);
      StepKeepsEntry(s, steps[0], birth);
      RunKeepsSound(Next(s, steps[0]), steps[1..], birth);
    }
  }

  /**
   * Since the PM booted: pids are unique, no task was restarted more than five times, no entry was reported finished
   * twice or while still listed, and every entry made is listed, reported or dropped.
   */
  lemma {:induction false} SupervisionBudget(steps: seq<Step>, birth: nat)
    requires Legal(BOOTED, steps)
    ensures var r := Run(BOOTED, steps);
            && Distinct(r.ps) && (forall i :: 0 <= i < |r.ps| ==> InBudget(r.ps[i]))
            && Count(r.log, RelaunchFor(birth)) <= MAX_TASK_FAILURES && Count(r.log, FinishedFor(birth)) <= 1
            && (Count(r.log, FinishedFor(birth)) == 1 ==> forall i :: 0 <= i < |r.ps| ==> r.ps[i].birth != birth)
            && r.births == |r.ps| + Count(r.log, IsFinished()) + r.dropped
  {
    RunKeepsSound(BOOTED, steps, birth);
  }

  // ----- round trips -----

  /** A new task that is launched, numbered and exits leaves the list as it was and one report behind. */
  lemma LaunchThenExit(s: State, name: string, pid: nat, osPid: int)
    requires First(s.ps, HasPid(pid)) == |s.ps| && First(s.ps, HasOs(osPid)) == |s.ps| && s.launching.None?
    ensures Run3(s, Launch(name, pid), SetOsPid(osPid), ChildExits(osPid))
            == s.(births := s.births + 1,
                  log := s.log + [Finished(s.births, pid)] + [CancelXteds(s.births, pid, false)])
  {
    var p := Started(name, pid, 0, s.births);
    var q := p.(osPid := osPid);
    FirstAppended(s.ps, p, HasPid(pid));
    FirstAppended(s.ps, q, HasOs(osPid));
    assert Numbered(s.ps + [p], pid, osPid) == s.ps + [q];
    assert Without(s.ps + [q], |s.ps|) == s.ps;
  }

  function Run3(s: State, a: Step, b: Step, c: Step): State
    requires Enabled(s, a) && Enabled(Next(s, a), b) && Enabled(Next(Next(s, a), b), c)
  {
    Next(Next(Next(s, a), b), c)
  }

  /** Up and once heard from, ten seconds past the time at which the last poll left it, and for the sixth time. */
  predicate Silent(p: Process, now: nat) {
    !p.failed && p.lastBeat > 0 && now >= p.lastBeat + 10 && p.misses >= 5
  }

  lemma SilentIsAlarm(p: Process, now: nat)
    ensures Alarms(p, now) <==> Silent(p, now)
  {}

  /**
   * A task found unresponsive within its budget comes back in its own entry once its killed process is collected and
   * the relaunch it asks for is carried out: one failure and one restart more, its heartbeats starting over.
   */
  lemma FailureThenRelaunch(s: State, i: nat, now: nat, name: string, osPid: int)
    requires ListSound(s.ps, s.births) && i < |s.ps| && First(s.ps, HasOs(s.ps[i].osPid)) == i && s.launching.None?
    requires Silent(s.ps[i], now) && s.ps[i].failCount < 5
    ensures var p := s.ps[i];
            Run3(Turned(s, i, now), ChildExits(p.osPid), Launch(name, p.sdmPid), SetOsPid(osPid))
            == s.(ps := s.ps[i := p.(osPid := osPid, failCount := p.failCount + 1, restarts := p.restarts + 1,
                                     lastBeat := 0, misses := 0)],
                  log := s.log + [Signal(p.birth, p.osPid)] + [Error(p.birth, p.sdmPid)]
                         + [Relaunch(p.birth, p.sdmPid)])
  {
    var p := s.ps[i];
    SilentIsAlarm(p, now);
    FailureThenExit(s, i, now);
    var up := Next(Turned(s, i, now), ChildExits(p.osPid));
    TurnKeepsList(s, i, now);
    StepKeepsList(Turned(s, i, now), ChildExits(p.osPid));
    LaunchAgain(up, i, name, osPid);
  }

  /** The process is killed and collected, and its relaunch asked for. */
  lemma FailureThenExit(s: State, i: nat, now: nat)
    requires ListSound(s.ps, s.births) && i < |s.ps| && First(s.ps, HasOs(s.ps[i].osPid)) == i && s.launching.None?
    requires Alarms(s.ps[i], now) && s.ps[i].failCount < MAX_TASK_FAILURES
    ensures var p := s.ps[i];
            Next(Turned(s, i, now), ChildExits(p.osPid))
            == s.(ps := s.ps[i := Restarted(Failed(p))],
                  log := s.log + [SignalTo(p)] + [ErrorOf(p)] + [Relaunch(p.birth, p.sdmPid)])
  {
    var p := s.ps[i];
    var down := Turned(s, i, now);
    assert down.ps[i].osPid == p.osPid && HasOs(p.osPid)(down.ps[i]);
    assert forall k :: 0 <= k < i ==> down.ps[k] == s.ps[k] && !HasOs(p.osPid)(s.ps[k]);
    assert First(down.ps, HasOs(p.osPid)) == i;
  }

  /** A launch under the pid of entry i only gives the entry its new process number. */
  lemma LaunchAgain(s: State, i: nat, name: string, osPid: int)
    requires ListSound(s.ps, s.births) && i < |s.ps| && s.launching.None?
    ensures Next(Next(s, Launch(name, s.ps[i].sdmPid)), SetOsPid(osPid))
            == s.(ps := s.ps[i := s.ps[i].(osPid := osPid)])
  {
    var pid := s.ps[i].sdmPid;
    assert HasPid(pid)(s.ps[i]) && First(s.ps, HasPid(pid)) == i;
    var once := Next(s, Launch(name, pid));
    assert HasPid(pid)(once.ps[i]) && First(once.ps, HasPid(pid)) == i;
  }

  // ----- launches that fail -----

  function Births(ps: seq<Process>): (bs: seq<nat>)
    ensures |bs| == |ps| && forall i :: 0 <= i < |bs| ==> bs[i] == ps[i].birth
  {
    seq(|ps|, i requires 0 <= i < |ps| => ps[i].birth)
  }

  /** No step in the run is the signal thread's: it is still waiting for its fork. */
  predicate OthersOnly(steps: seq<Step>) {
    forall i :: 0 <= i < |steps| ==> !OfSignalThread(steps[i])
  }

  /** The other threads only take entries off the list. */
  lemma {:induction false} SweepOnlyRemoves(s: State, i: nat, times: seq<nat>)
    requires |s.ps| <= |times|
    ensures Sublist(Births(Swept(s, i, times).ps), Births(s.ps)) && Swept(s, i, times).launching == s.launching
    decreases |times| - i
  {
    if i < |s.ps| {
      var r := Turned(s, i, times[i]);
      TurnOnlyRemoves(s, i, times[i]);
      SweepOnlyRemoves(r, i + 1, times);
      SublistTransitive(Births(Swept(s, i, times).ps), Births(r.ps), Births(s.ps));
    } else {
      SublistReflexive(Births(s.ps));
    }
  }

  lemma TurnOnlyRemoves(s: State, i: nat, now: nat)
    requires i < |s.ps|
    ensures Sublist(Births(Turned(s, i, now).ps), Births(s.ps)) && Turned(s, i, now).launching == s.launching
  {
    var qs := Turned(s, i, now).ps;
    assert qs != Without(s.ps, i) ==> Births(qs) == Births(s.ps);
    RemovedIsSublist(s.ps, qs, i);
  }

  /** What keeps every entry, or takes out the one at i, leaves a sublist. */
  lemma RemovedIsSublist(ps: seq<Process>, qs: seq<Process>, i: nat)
    requires Births(qs) == Births(ps) || (i < |ps| && Births(qs) == Births(Without(ps, i)))
    ensures Sublist(Births(qs), Births(ps))
  {
    if Births(qs) == Births(ps) {
      SublistReflexive(Births(ps));
    } else {
      SublistWithout(Births(ps), i);
      assert Births(Without(ps, i)) == Births(ps)[..i] + Births(ps)[i + 1..];
    }
  }

  lemma KillOnlyRemoves(s: State, pid: nat, level: nat)
    ensures Sublist(Births(Killed(s, pid, level).ps), Births(s.ps)) && Killed(s, pid, level).launching == s.launching
  {
    var i := First(s.ps, HasPid(pid));
    RemovedIsSublist(s.ps, Killed(s, pid, level).ps, i);
  }

  lemma OtherStepOnlyRemoves(s: State, step: Step)
    requires Enabled(s, step) && !OfSignalThread(step)
    ensures Sublist(Births(Next(s, step).ps), Births(s.ps)) && Next(s, step).launching == s.launching
  {
    match step {
      case Monitor(times) => SweepOnlyRemoves(s, 0, times);
      case Kill(pid, level) => KillOnlyRemoves(s, pid, level);
      case Heartbeat(pid, now) =>
        assert Births(HeardFrom(s.ps, pid, now)) == Births(s.ps);
        SublistReflexive(Births(s.ps));
      case FetchFailed(_) => SublistReflexive(Births(s.ps));
      case Reset => SublistEmpty(Births(s.ps));
    }
  }

  lemma {:induction false} OthersOnlyRemove(s: State, steps: seq<Step>)
    requires Legal(s, steps) && OthersOnly(steps)
    ensures Sublist(Births(Run(s, steps).ps), Births(s.ps)) && Run(s, steps).launching == s.launching
    decreases |steps|
  {
    if |steps| == 0 {
      SublistReflexive(Births(s.ps));
    } else {
      assert forall i :: 0 <= i < |steps| - 1 ==> steps[1..][i] == steps[i + 1];
      OtherStepOnlyRemoves(s, steps[0]);
      OthersOnlyRemove(Next(s, steps[0]), steps[1..]);
      SublistTransitive(Births(Run(s, steps).ps), Births(Next(s, steps[0]).ps), Births(s.ps));
    }
  }

  /** The entry at the index that the launch was given is the one the launch made or found. */
  predicate RemovesItsOwn(s: State, birth: nat) {
    s.launching.Some? && s.launching.value.index < |s.ps| && s.ps[s.launching.value.index].birth == birth
  }

  /**
   * Whatever the other threads do while a task is being launched: if the launch fails it removes its own entry exactly
   * when that entry and every one before it are still on the list.
   */
  lemma {:induction false} FailedLaunchRemovesItsOwnIff(s: State, name: string, pid: nat, steps: seq<Step>)
    requires ListSound(s.ps, s.births) && s.launching.None?
    requires Legal(Next(s, Launch(name, pid)), steps) && OthersOnly(steps)
    ensures var up := Next(s, Launch(name, pid));
            var r := Run(up, steps);
            var i := First(s.ps, HasPid(pid));
            RemovesItsOwn(r, up.ps[i].birth) <==> forall k :: 0 <= k <= i ==> up.ps[k].birth in Births(r.ps)
  {
    var up := Next(s, Launch(name, pid));
    var r := Run(up, steps);
    var i := First(s.ps, HasPid(pid));
    LaunchKeepsList(s.ps, name, pid, s.births);
    OthersOnlyRemove(up, steps);
    SublistPlaceIff(Births(r.ps), Births(up.ps), i);
  }

  /**
   * For a new task: its entry was the last one, so a failed launch removes it exactly when no entry has left since.
   * When one has left, the index is one past the end; when more have, nothing is removed. Never another's entry.
   */
  lemma {:induction false} NewLaunchFails(s: State, name: string, pid: nat, steps: seq<Step>)
    requires ListSound(s.ps, s.births) && s.launching.None? && First(s.ps, HasPid(pid)) == |s.ps|
    requires Legal(Next(s, Launch(name, pid)), steps) && OthersOnly(steps)
    ensures var r := Run(Next(s, Launch(name, pid)), steps);
            && (RemovesItsOwn(r, s.births) <==> |r.ps| == |s.ps| + 1)
            && (!Enabled(r, LaunchFailed) <==> |r.ps| == |s.ps|)
            && (|r.ps| < |s.ps| ==> Next(r, LaunchFailed).ps == r.ps)
            && |r.ps| <= |s.ps| + 1
  {
    var up := Next(s, Launch(name, pid));
    var r := Run(up, steps);
    OthersOnlyRemove(up, steps);
    SublistLength(Births(r.ps), Births(up.ps));
  }

  /**
   * The index given to a launch can be one past the end when the launch fails: a second task is being launched, at
   * index 1, when the first one is killed for good.
   */
  lemma LaunchIndexGoesStale(a: string, b: string) returns (steps: seq<Step>)
    ensures steps == [Launch(a, 1)] + [SetOsPid(7)] + [Launch(b, 2)] + [Kill(1, 1)]
    ensures Legal(BOOTED, steps)
    ensures var r := Run(BOOTED, steps);
            |r.ps| == 1 && r.launching == Some(Launching.Launching(2, 1)) && !Enabled(r, LaunchFailed)
  {
    var one := Started(a, 1, 0, 0);
    var s1 := Next(BOOTED, Launch(a, 1));
    assert s1.ps == [one] && HasPid(1)(s1.ps[0]);
    var s2 := Next(s1, SetOsPid(7));
    assert s2.ps == [one.(osPid := 7)] && !HasPid(2)(s2.ps[0]);
    var s3 := Next(s2, Launch(b, 2));
    assert s3.ps == [one.(osPid := 7), Started(b, 2, 0, 1)] && HasPid(1)(s3.ps[0]);
    RunExtends(BOOTED, [], Launch(a, 1));
    assert [] + [Launch(a, 1)] == [Launch(a, 1)];
    RunExtends(BOOTED, [Launch(a, 1)], SetOsPid(7));
    RunExtends(BOOTED, [Launch(a, 1)] + [SetOsPid(7)], Launch(b, 2));
    RunExtends(BOOTED, [Launch(a, 1)] + [SetOsPid(7)] + [Launch(b, 2)], Kill(1, 1));
    steps := [Launch(a, 1)] + [SetOsPid(7)] + [Launch(b, 2)] + [Kill(1, 1)];
  }

  /** A removal takes off its own entry and no other. */
  lemma WithoutForgets(ps: seq<Process>, j: nat, k: nat)
    requires Distinct(ps) && j < |ps| && k < |ps|
    ensures ps[k].birth in Births(Without(ps, j)) <==> k != j
  {
    var qs := Without(ps, j);
    assert forall m :: 0 <= m < |qs| ==> qs[m] == ps[if m < j then m else m + 1];
    if k != j { assert qs[if k < j then k else k - 1] == ps[k]; }
    assert k != j ==> Births(qs)[if k < j then k else k - 1] == ps[k].birth;
  }

  /**
   * A task launched again stands in an earlier place: if the first entry is killed meanwhile and the launch fails, it
   * is the entry after its own that is taken off the list.
   */
  lemma FailedLaunchTakesAnother(s: State, i: nat, name: string)
    requires ListSound(s.ps, s.births) && s.launching.None? && 0 < i && i + 1 < |s.ps|
    ensures var up := Next(Next(s, Launch(name, s.ps[i].sdmPid)), Kill(s.ps[0].sdmPid, 1));
            && Enabled(up, LaunchFailed)
            && s.ps[i + 1].birth !in Births(Next(up, LaunchFailed).ps)
            && s.ps[i].birth in Births(Next(up, LaunchFailed).ps)
  {
    LaunchFinds(s, i, name);
    var once := Next(s, Launch(name, s.ps[i].sdmPid));
    KillTakesFirst(once);
    var up := once.ps[1..];
    WithoutForgets(up, i, i);
    WithoutForgets(up, i, i - 1);
  }

  lemma LaunchFinds(s: State, i: nat, name: string)
    requires ListSound(s.ps, s.births) && i < |s.ps| && s.launching.None?
    ensures var r := Next(s, Launch(name, s.ps[i].sdmPid));
            && r.ps == s.ps[i := s.ps[i].(osPid := 0)] && Distinct(r.ps)
            && r.launching == Some(Launching.Launching(s.ps[i].sdmPid, i))
  {
    var pid := s.ps[i].sdmPid;
    assert HasPid(pid)(s.ps[i]) && First(s.ps, HasPid(pid)) == i;
  }

  lemma KillTakesFirst(s: State)
    requires |s.ps| > 0 && Distinct(s.ps)
    ensures var r := Next(s, Kill(s.ps[0].sdmPid, 1));
            r.ps == s.ps[1..] && r.launching == s.launching && Distinct(s.ps[1..])
  {
    assert HasPid(s.ps[0].sdmPid)(s.ps[0]) && First(s.ps, HasPid(s.ps[0].sdmPid)) == 0;
  }

  // ----- fetches that fail -----

  function ReportOf(pid: nat): Sent -> bool { (m: Sent) => (m.Finished? || m.NotFetched?) && m.pid == pid }

  /**
   * A task whose code cannot be fetched for a relaunch is reported finished while it stays on the list, and once more
   * when it is killed for good: this is not among the reports that the budget bounds.
   */
  lemma FetchFailureReportsTwice(s: State, i: nat)
    requires ListSound(s.ps, s.births) && i < |s.ps|
    ensures var pid := s.ps[i].sdmPid;
            var once := Next(s, FetchFailed(pid));
            var twice := Next(once, Kill(pid, 1));
            && once.ps == s.ps && Count(once.log, ReportOf(pid)) == Count(s.log, ReportOf(pid)) + 1
            && Count(twice.log, ReportOf(pid)) == Count(s.log, ReportOf(pid)) + 2
  {
    var p := s.ps[i];
    var pid := p.sdmPid;
    assert HasPid(pid)(p) && First(s.ps, HasPid(pid)) == i;
    var one := s.log + [NotFetched(pid)];
    CountAppend(s.log, NotFetched(pid), ReportOf(pid));
    CountAppend(one, SignalTo(p), ReportOf(pid));
    CountAppend(one + [SignalTo(p)], Finished(p.birth, pid), ReportOf(pid));
    CountAppend(one + [SignalTo(p)] + [Finished(p.birth, pid)], CancelXteds(p.birth, pid, true), ReportOf(pid));
  }

  // ----- what single steps do to the entries, and what they send -----

  /** A heartbeat reaches the entry with its pid and no other. */
  lemma HeartbeatIsHeard(s: State, pid: nat, now: nat, i: nat)
    requires Distinct(s.ps) && i < |s.ps|
    ensures var r := Next(s, Heartbeat(pid, now));
            && |r.ps| == |s.ps| && r.log == s.log
            && r.ps[i] == if s.ps[i].sdmPid == pid then s.ps[i].(lastBeat := now, misses := 0) else s.ps[i]
  {
    var f := First(s.ps, HasPid(pid));
    assert f < |s.ps| ==> HasPid(pid)(s.ps[f]);
    assert s.ps[i].sdmPid == pid ==> HasPid(pid)(s.ps[i]);
  }

  /** The process number goes to the entry that was launched and to no other. */
  lemma NumberIsGiven(s: State, osPid: int, i: nat)
    requires Distinct(s.ps) && i < |s.ps| && s.launching.Some?
    ensures Next(s, SetOsPid(osPid)).ps[i]
            == if s.ps[i].sdmPid == s.launching.value.pid then s.ps[i].(osPid := osPid) else s.ps[i]
  {
    var pid := s.launching.value.pid;
    var f := First(s.ps, HasPid(pid));
    assert f < |s.ps| ==> HasPid(pid)(s.ps[f]);
    assert s.ps[i].sdmPid == pid ==> HasPid(pid)(s.ps[i]);
  }

  /** What the turn of the monitor makes of an entry, if it stays. */
  function Watched(p: Process, now: nat): Process {
    if Silent(p, now) then p.(failed := true, failCount := p.failCount + 1, lastBeat := 0, misses := 0)
    else if (p.lastBeat > 0 || p.failed) && now >= p.lastBeat + 10 then
      p.(lastBeat := p.lastBeat + 10, misses := p.misses + 1)
    else p
  }

  /**
   * One turn of the monitor: a silent task is killed, and reported in error and marked as failed up to its fifth
   * failure; after that it is dropped. Any other has its poll counted.
   */
  lemma TurnOfMonitor(s: State, i: nat, now: nat)
    requires i < |s.ps|
    ensures var p := s.ps[i];
            Turned(s, i, now) ==
            if !Silent(p, now) then s.(ps := s.ps[i := Watched(p, now)])
            else if p.failCount < 5 then
              s.(ps := s.ps[i := Watched(p, now)],
                 log := s.log + [Signal(p.birth, p.osPid)] + [Error(p.birth, p.sdmPid)])
            else
              s.(ps := s.ps[..i] + s.ps[i + 1..], log := s.log + [Signal(p.birth, p.osPid)], dropped := s.dropped + 1)
  {
    SilentIsAlarm(s.ps[i], now);
  }

  /** A pass that drops nobody gives each entry from i on its turn, in order, and leaves those before it alone. */
  lemma {:induction false} PassWatchesEach(s: State, i: nat, times: seq<nat>, k: nat)
    requires |s.ps| <= |times| && k < |s.ps|
    requires forall j :: i <= j < |s.ps| ==> s.ps[j].failCount < 5
    ensures var r := Swept(s, i, times);
            && |r.ps| == |s.ps| && r.dropped == s.dropped
            && r.ps[k] == if k < i then s.ps[k] else Watched(s.ps[k], times[k])
    decreases |times| - i
  {
    if i < |s.ps| {
      TurnOfMonitor(s, i, times[i]);
      PassWatchesEach(Turned(s, i, times[i]), i + 1, times, k);
    }
  }

  /** A kill signals the process of the task with the pid; at level 1 the task is reported, cancelled and removed. */
  lemma KillSends(s: State, pid: nat, level: nat, i: nat)
    requires Distinct(s.ps) && i < |s.ps| && s.ps[i].sdmPid == pid
    ensures var p := s.ps[i];
            var signalled := s.log + [Signal(p.birth, p.osPid)];
            Next(s, Kill(pid, level)) ==
            if level == 1 then
              s.(ps := s.ps[..i] + s.ps[i + 1..],
                 log := signalled + [Finished(p.birth, pid)] + [CancelXteds(p.birth, pid, true)])
            else s.(log := signalled)
  {
    assert HasPid(pid)(s.ps[i]);
  }

  lemma UnknownKillDoesNothing(s: State, pid: nat, level: nat)
    requires forall i :: 0 <= i < |s.ps| ==> s.ps[i].sdmPid != pid
    ensures Next(s, Kill(pid, level)) == s
  {
    assert forall i :: 0 <= i < |s.ps| ==> !HasPid(pid)(s.ps[i]);
  }

  /** A process exits: its task is asked for again if it had failed, and otherwise reported, cancelled and removed. */
  lemma ExitSends(s: State, osPid: int, i: nat)
    requires s.launching.None? && i < |s.ps| && s.ps[i].osPid == osPid
    requires forall k :: 0 <= k < i ==> s.ps[k].osPid != osPid
    ensures var p := s.ps[i];
            Next(s, ChildExits(osPid)) ==
            if p.failed then
              s.(ps := s.ps[i := p.(osPid := 0, failed := false, restarts := p.restarts + 1)],
                 log := s.log + [Relaunch(p.birth, p.sdmPid)])
            else
              s.(ps := s.ps[..i] + s.ps[i + 1..],
                 log := s.log + [Finished(p.birth, p.sdmPid)] + [CancelXteds(p.birth, p.sdmPid, false)])
  {
    assert HasOs(osPid)(s.ps[i]) && First(s.ps, HasOs(osPid)) == i;
  }

  function Names(birth: nat, pid: nat): Process -> bool { (p: Process) => p.birth == birth && p.sdmPid == pid }
  function RunsAs(birth: nat, osPid: int): Process -> bool { (p: Process) => p.birth == birth && p.osPid == osPid }

  /** A reset kills each process and reports each task in error, once for each entry, and empties the list. */
  lemma {:induction false} ResetSends(ps: seq<Process>, birth: nat, pid: nat, osPid: int)
    ensures Count(Errors(ps), Is(Error(birth, pid))) == Count(ps, Names(birth, pid))
    ensures Count(Errors(ps), Is(Signal(birth, osPid))) == Count(ps, RunsAs(birth, osPid))
    ensures |Errors(ps)| == 2 * |ps|
  {
    if |ps| > 0 {
      ResetSends(ps[1..], birth, pid, osPid);
      var head := [Signal(ps[0].birth, ps[0].osPid), Error(ps[0].birth, ps[0].sdmPid)];
      assert Errors(ps) == head + Errors(ps[1..]);
      CountConcat(head, Errors(ps[1..]), Is(Error(birth, pid)));
      CountConcat(head, Errors(ps[1..]), Is(Signal(birth, osPid)));
      assert head[1..] == [head[1]] && [head[1]][1..] == [];
    }
  }

  /** A launch under a new pid appends an entry with that name and pid, and nothing known of its process yet. */
  lemma LaunchAdds(s: State, name: string, pid: nat)
    requires s.launching.None? && forall i :: 0 <= i < |s.ps| ==> s.ps[i].sdmPid != pid
    ensures Next(s, Launch(name, pid))
            == s.(ps := s.ps + [Process(name, pid, 0, 0, 0, 0, false, s.births, 0)], births := s.births + 1,
                  launching := Some(Launching.Launching(pid, |s.ps|)))
  {
    assert forall i :: 0 <= i < |s.ps| ==> !HasPid(pid)(s.ps[i]);
  }
}
