/**
 * Stages of runs of the Task Manager with one task and one Process Manager, from the start. Each stage extends a run by
 * a few steps: a PM registers, a task is posted and a PM picked for it, the task is sent, its start counted, and so
 * on. The state that a stage ends in is given in full, so that stages can be put together.
 *
 * The runs that are made of these stages are in tm_traces.dfy.
 */
module TmStages {
  import opened Ids
  import opened Sequences
  import opened Tasks
  import opened LoadBalance
  import opened TmProtocol
  import opened TmLoad
  import opened Books = PmRecords

  /** Only the first slot of either table is taken. */
  ghost predicate Lone(s: Tm, t: Task, p: PmRecord) {
    && s.tasks[0] == t
    && (forall i :: 1 <= i < NUMTASKS ==> s.tasks[i] == BLANK)
    && s.book.pms[0] == p
    && (forall i :: 1 <= i < MAX_PM ==> s.book.pms[i] == UNUSED && s.book.beats[i] <= 0)
  }

  /** The steps `es` lead from `s0` to `s`. */
  ghost predicate Leads(s0: Tm, es: seq<Step>, s: Tm)
  {
    && EnabledRun(s0, es)
    && Run(s0, es) == s
  }

  lemma {:induction false} Then(es: seq<Step>, s: Tm, e: Step)
    requires Leads(START, es, s) && Enabled(s, e)
    ensures Leads(START, es + [e], Next(s, e))
    ensures FaithfulRun(START, es) && Faithful(s, e) ==> FaithfulRun(START, es + [e])
  {
    RunExtends(START, es, e);
    FaithfulExtends(START, es, e);
  }

  /** A task that any PM without resources suits. */
  function Job(mode: int, timeout: int): Task {
    Task(NO_COMPONENT, Pending, 0, PID_INVALID, NO_RESOURCES, "job", timeout, mode, 0)
  }

  function Host(id: ComponentId): PmRecord {
    PmRecord(id.(port := PORT_PM), NO_RESOURCES, 0, true)
  }

  lemma LoneCount(s: Tm, t: Task, p: PmRecord, a: nat)
    requires Lone(s, t, p)
    ensures Count(s.tasks, OnAddress(a)) == if OnAddress(a)(t) then 1 else 0
  {
    CountNone(s.tasks[1..], OnAddress(a));
  }

  // ----- single steps on such a state -----

  lemma RegisterLone(s: Tm, t: Task, p: PmRecord, id: ComponentId)
    requires Lone(s, t, p) && !p.inUse
    ensures Lone(Next(s, Register(id, NO_RESOURCES)), t, Host(id))
    ensures Next(s, Register(id, NO_RESOURCES)).book.beats == s.book.beats
  {
    NobodyIsFound(s.book, id.address);
    assert IsFree()(s.book.pms[0]);
  }

  /** A posted task is looked at, and the only PM is found for it at the first lookup. */
  lemma PickLone(s: Tm, t: Task, p: PmRecord)
    requires Lone(s, t, p) && t.state.Pending? && t.resources == NO_RESOURCES
    requires p.inUse && p.resources == NO_RESOURCES && p.tasks == 0 && s.book.index == 0 && s.phase.Idle?
    ensures Next(s, Look) == s.(phase := Seeking(0, 0))
    ensures Next(Next(s, Look), Search) == s.(phase := Picked(0, p.id), book := s.book.(index := 1))
  {
    assert IsPending()(s.tasks[0]) && IsUsed()(s.book.pms[0]) && Eligible(s.book.pms[0], 0, NO_RESOURCES);
  }

  lemma CountLone(s: Tm, t: Task, p: PmRecord, delta: int)
    requires Lone(s, t, p) && p.inUse
    ensures Loaded(s.book, p.id.address, delta) == s.book.(pms := s.book.pms[0 := p.(tasks := p.tasks + delta)])
  {
    assert AtAddress(p.id.address)(s.book.pms[0]);
  }

  /** The PM leaves one more heartbeat unanswered; after the second it is removed. */
  lemma SilentRound(s: Tm, t: Task, p: PmRecord)
    requires Lone(s, t, p) && p.inUse && 0 <= s.book.beats[0] <= 1 && !s.sweeping && s.failing.None?
    ensures var r := Next(Next(s, Heartbeat), RemoveFailed);
            && r == s.(book := r.book, sweeping := r.sweeping, failing := r.failing) && r.book.index == s.book.index
            && r.book.beats[0] == s.book.beats[0] + 1
            && (if s.book.beats[0] == 0 then Lone(r, t, p) && !r.sweeping && r.failing.None?
                else Lone(r, t, p.(inUse := false, tasks := 0, resources := NO_RESOURCES)) && r.failing == Some(p.id))
  {
    var one := Next(s, Heartbeat);
    assert forall i :: 1 <= i < MAX_PM ==> one.book.beats[i] == HEARTBEAT_INACTIVE;
    assert FirstFailed(one.book) == if s.book.beats[0] == 0 then MAX_PM else 0;
  }

  // ----- the stages the runs share -----

  /** A PM registers. */
  lemma Registering(id: ComponentId) returns (es: seq<Step>, s: Tm)
    ensures Leads(START, es, s)
    ensures FaithfulRun(START, es) && Lone(s, BLANK, Host(id))
    ensures s == START.(book := s.book) && s.book.index == 0 && s.book.beats[0] == 0
  {
    es, s := [Register(id, NO_RESOURCES)], Next(START, Register(id, NO_RESOURCES));
    RegisterLone(START, BLANK, UNUSED, id);
    Then([], START, es[0]);
    assert [] + [es[0]] == es;
  }

  /** A task is posted and a PM picked for it. */
  lemma Picking(es0: seq<Step>, s0: Tm, p: PmRecord, mode: int, timeout: int) returns (es: seq<Step>, s: Tm)
    requires Leads(START, es0, s0) && Lone(s0, BLANK, p) && p.inUse && p.resources == NO_RESOURCES && p.tasks == 0
    requires s0.book.index == 0 && s0.phase.Idle? && ListenerFree(s0)
    ensures Leads(START, es, s)
    ensures Lone(s, Job(mode, timeout), p)
    ensures s == s0.(tasks := s.tasks, book := s.book, phase := Picked(0, p.id)) && s.book.beats == s0.book.beats
    ensures FaithfulRun(START, es0) && mode == MODE_NORMAL && timeout == 0 ==> FaithfulRun(START, es)
  {
    var t := Job(mode, timeout);
    assert IsInactive()(s0.tasks[0]);
    var s1 := Next(s0, Post(t));
    assert Lone(s1, t, p);
    PickLone(s1, t, p);
    s := Next(Next(s1, Look), Search);
    es := es0 + [Post(t)] + [Look] + [Search];
    Then(es0, s0, Post(t));
    Then(es0 + [Post(t)], s1, Look);
    Then(es0 + [Post(t)] + [Look], Next(s1, Look), Search);
  }

  lemma Sending(es0: seq<Step>, s0: Tm, t: Task, p: PmRecord) returns (es: seq<Step>, s: Tm)
    requires Leads(START, es0, s0) && Lone(s0, t, p) && Enabled(s0, Send) && s0.phase.n == 0
    ensures Leads(START, es, s)
    ensures Lone(s, t.(pid := s0.nextPid), p)
    ensures s == s0.(tasks := s.tasks, nextPid := s0.nextPid + 1, phase := Sent(0, s0.phase.pm))
    ensures FaithfulRun(START, es0) ==> FaithfulRun(START, es)
  {
    es, s := es0 + [Send], Next(s0, Send);
    Then(es0, s0, Send);
  }

  /** The start is counted on the registered PM, and the task is scheduled on it. */
  lemma Starting(es0: seq<Step>, s0: Tm, t: Task, p: PmRecord) returns (es: seq<Step>, s: Tm)
    requires Leads(START, es0, s0) && Lone(s0, t, p) && p.inUse && s0.phase == Sent(0, p.id) && !t.state.Inactive?
    ensures Leads(START, es, s)
    ensures Lone(s, t.(state := Scheduled, timeout := 0, pm := p.id), p.(tasks := p.tasks + 1))
    ensures s == s0.(tasks := s.tasks, book := s.book, phase := Idle) && s.book.beats == s0.book.beats
    ensures FaithfulRun(START, es0) ==> FaithfulRun(START, es)
  {
    CountLone(s0, t, p, 1);
    var s1 := Next(s0, CountStart);
    s := Next(s1, Commit);
    es := es0 + [CountStart] + [Commit];
    Then(es0, s0, CountStart);
    Then(es0 + [CountStart], s1, Commit);
  }

  /** Two rounds pass without an answer, and the PM is removed. */
  lemma Failing(es0: seq<Step>, s0: Tm, t: Task, p: PmRecord) returns (es: seq<Step>, s: Tm)
    requires Leads(START, es0, s0) && Lone(s0, t, p) && p.inUse
    requires s0.book.beats[0] == 0 && !s0.sweeping && s0.failing.None?
    ensures Leads(START, es, s)
    ensures Lone(s, t, p.(inUse := false, tasks := 0, resources := NO_RESOURCES))
    ensures s == s0.(book := s.book, sweeping := s.sweeping, failing := Some(p.id))
    ensures FaithfulRun(START, es0) ==> FaithfulRun(START, es)
  {
    SilentRound(s0, t, p);
    var s1 := Next(s0, Heartbeat);
    var s2 := Next(s1, RemoveFailed);
    SilentRound(s2, t, p);
    var s3 := Next(s2, Heartbeat);
    s := Next(s3, RemoveFailed);
    es := es0 + [Heartbeat] + [RemoveFailed] + [Heartbeat] + [RemoveFailed];
    Then(es0, s0, Heartbeat);
    Then(es0 + [Heartbeat], s1, RemoveFailed);
    Then(es0 + [Heartbeat] + [RemoveFailed], s2, Heartbeat);
    Then(es0 + [Heartbeat] + [RemoveFailed] + [Heartbeat], s3, RemoveFailed);
  }

  /** What a task posted by these runs has become once it is scheduled. */
  function Underway(mode: int, pid: nat, id: ComponentId): Task {
    Job(mode, 0).(pid := pid, state := Scheduled, pm := Host(id).id)
  }

  /** A task is posted and scheduled on the idle PM. */
  lemma Scheduling(es0: seq<Step>, s0: Tm, id: ComponentId, mode: int) returns (es: seq<Step>, s: Tm)
    requires Leads(START, es0, s0) && Lone(s0, BLANK, Host(id)) && ListenerFree(s0)
    requires s0.book.index == 0 && s0.phase.Idle?
    ensures Leads(START, es, s)
    ensures Lone(s, Underway(mode, s0.nextPid, id), Host(id).(tasks := 1))
    ensures s == s0.(tasks := s.tasks, book := s.book, nextPid := s0.nextPid + 1) && s.book.beats == s0.book.beats
    ensures FaithfulRun(START, es0) && mode == MODE_NORMAL ==> FaithfulRun(START, es)
  {
    var s1, s2;
    es, s1 := Picking(es0, s0, Host(id), mode, 0);
    es, s2 := Sending(es, s1, Job(mode, 0), Host(id));
    es, s := Starting(es, s2, Job(mode, 0).(pid := s0.nextPid), Host(id));
  }

  /** The second half of a reset that finds a task scheduled and counted. */
  lemma ClearingForgets(s0: Tm, pid: nat, id: ComponentId) returns (s: Tm)
    requires Lone(s0, Underway(MODE_NORMAL, pid, id), Host(id).(tasks := 1))
    requires s0.resets == 1 && ListenerFree(s0) && s0.phase.Idle? && pid != PID_INVALID
    ensures s == Next(s0, ResetCounters) && Lone(s, Underway(MODE_NORMAL, pid, id), Host(id))
    ensures AtRest(s) && !CounterMatches(s, 0)
    ensures Enabled(s, CountFinish(id.address, pid)) && Faithful(s, CountFinish(id.address, pid))
  {
    s := Next(s0, ResetCounters);
    LoneCount(s, Underway(MODE_NORMAL, pid, id), Host(id), id.address);
    assert s.tasks[0].pid == pid && TmLoad.Assigned(s, 0, id.address);
  }

  /** The finish of a task that was never counted takes the counter below zero. */
  lemma FinishUnderflows(s: Tm, t: Task, id: ComponentId, pid: nat)
    requires Lone(s, t, Host(id))
    ensures !NonNegative(Next(Next(s, CountFinish(id.address, pid)), ListFinish).book)
  {
    CountLone(s, t, Host(id), -1);
    assert Next(s, CountFinish(id.address, pid)).book.pms[0].tasks == -1;
  }

  /** A task that is sent and not yet counted is reported finished, and then the counters are cleared. */
  lemma ReportForgotten(es0: seq<Step>, s0: Tm, t: Task, id: ComponentId) returns (es: seq<Step>, s: Tm)
    requires Leads(START, es0, s0) && Lone(s0, t, Host(id)) && FaithfulRun(START, es0) && t.pid != PID_INVALID
    requires s0.phase == Sent(0, Host(id).id) && ListenerFree(s0) && s0.resets == 1
    ensures Leads(START, es, s)
    ensures Lone(s, t, Host(id)) && FaithfulRun(START, es)
    ensures s == s0.(book := s.book, finishing := Some(Report.Report(id.address, t.pid)), resets := 0)
  {
    var report := CountFinish(id.address, t.pid);
    assert s0.tasks[0].pid == t.pid && TmLoad.Assigned(s0, 0, id.address);
    var s1 := Next(s0, report);
    CountLone(s0, t, Host(id), -1);
    s := Next(s1, ResetCounters);
    Then(es0, s0, report);
    Then(es0 + [report], s1, ResetCounters);
    es := es0 + [report] + [ResetCounters];
  }

  /** The task of the report in hand leaves the list. */
  lemma Leaving(es0: seq<Step>, s0: Tm, t: Task, p: PmRecord) returns (es: seq<Step>, s: Tm)
    requires Leads(START, es0, s0) && Lone(s0, t, p) && t.mode == MODE_NORMAL && s0.phase.Idle?
    requires s0.finishing.Some? && s0.finishing.value.pid == t.pid
    ensures Leads(START, es, s)
    ensures Lone(s, BLANK, p) && s == s0.(tasks := s.tasks, finishing := None)
    ensures FaithfulRun(START, es0) ==> FaithfulRun(START, es)
  {
    assert HasPid(t.pid)(s0.tasks[0]) && First(s0.tasks, HasPid(t.pid)) == 0;
    s := Next(s0, ListFinish);
    es := es0 + [ListFinish];
    Then(es0, s0, ListFinish);
  }

  lemma RecoveryLeads(es0: seq<Step>, s0: Tm, t: Task, a: nat) returns (es: seq<Step>)
    requires Leads(START, es0, s0) && ListenerFree(s0) && s0.phase.Idle?
    ensures Leads(START, es, RecoveredBy(s0, a, t))
  {
    var s1 := Next(s0, Recover(a, t));
    Then(es0, s0, Recover(a, t));
    Then(es0 + [Recover(a, t)], s1, RecoverList);
    Then(es0 + [Recover(a, t)] + [RecoverList], Next(s1, RecoverList), RecoverCount);
    es := es0 + [Recover(a, t)] + [RecoverList] + [RecoverCount];
  }

  /** A running task is reported: it is listed, and counted on the PM that runs it. */
  lemma Recovering(es0: seq<Step>, s0: Tm, t: Task, id: ComponentId) returns (es: seq<Step>, s: Tm)
    requires Leads(START, es0, s0) && Lone(s0, BLANK, Host(id)) && ListenerFree(s0) && s0.phase.Idle?
    ensures Leads(START, es, s)
    ensures Lone(s, Copied(Recovered(t)), Host(id).(tasks := 1))
    ensures s == s0.(tasks := s.tasks, book := s.book, nextPid := s.nextPid)
  {
    CountLone(s0, BLANK, Host(id), 1);
    assert IsInactive()(s0.tasks[0]);
    RecoveredParts(s0, id.address, t);
    s := RecoveredBy(s0, id.address, t);
    es := RecoveryLeads(es0, s0, t, id.address);
  }

  /** The report of a task in a mode that the table does not handle. */
  lemma FinishIgnored(s: Tm, mode: int, pid: nat, id: ComponentId)
    requires mode !in {MODE_NORMAL, MODE_ALWAYS_RUNNING}
    requires Lone(s, Underway(mode, pid, id), Host(id).(tasks := 1)) && AtRest(s) && ListenerFree(s) && s.phase.Idle?
    ensures Enabled(s, CountFinish(id.address, pid)) && Enabled(Next(s, CountFinish(id.address, pid)), ListFinish)
    ensures var r := Next(Next(s, CountFinish(id.address, pid)), ListFinish);
            r.book.pms[0].inUse && AtRest(r) && !CounterMatches(r, 0)
  {
    var one := Next(s, CountFinish(id.address, pid));
    CountLone(s, Underway(mode, pid, id), Host(id).(tasks := 1), -1);
    assert HasPid(pid)(one.tasks[0]) && First(one.tasks, HasPid(pid)) == 0;
    LoneCount(Next(one, ListFinish), Underway(mode, pid, id), Host(id), id.address);
  }

  lemma HandledLone(s: Tm, t: Task, p: PmRecord)
    requires Lone(s, t, p) && s.failing == Some(t.pm) && t.pm.port == PORT_PM
    ensures Lone(Next(s, HandleFailure), t.(state := Pending), p)
  {
    var r := Next(s, HandleFailure);
    assert forall i :: 0 <= i < NUMTASKS ==> r.tasks[i] == Unbound(s.tasks[i], t.pm);
  }

  /** The Scheduler falls asleep with the PM in mind, and the PM is removed. */
  lemma SleepingThrough(id: ComponentId, interval: int) returns (es: seq<Step>, s: Tm, gone: PmRecord)
    requires interval != 0
    ensures Leads(START, es, s)
    ensures Lone(s, Job(MODE_NORMAL, interval), gone) && !gone.inUse
    ensures s.phase == Asleep(0, Host(id).id) && s.failing == Some(Host(id).id) && !s.resetFlag
    ensures s.resets == 0 && s.finishing.None?
  {
    var s0, s1;
    es, s0 := Registering(id);
    es, s1 := Picking(es, s0, Host(id), MODE_NORMAL, interval);
    Then(es, s1, Sleep);
    es, s := Failing(es + [Sleep], Next(s1, Sleep), Job(MODE_NORMAL, interval), Host(id));
    gone := s.book.pms[0];
  }

  /** The failure is handled, and the Scheduler goes on. */
  lemma Waking(es0: seq<Step>, s0: Tm, t: Task, gone: PmRecord, pm: ComponentId) returns (es: seq<Step>, s: Tm)
    requires Leads(START, es0, s0) && Lone(s0, t, gone) && t.pm == NO_COMPONENT
    requires s0.phase == Asleep(0, pm) && s0.failing == Some(pm) && pm.port == PORT_PM && !s0.resetFlag
    ensures Leads(START, es, s)
    ensures Lone(s, t, gone)
    ensures s == s0.(tasks := s.tasks, phase := Ready(0, pm), failing := None)
  {
    var s1 := Next(s0, HandleFailure);
    assert s1.tasks == s0.tasks by {
      assert forall i :: 0 <= i < NUMTASKS ==> s1.tasks[i] == Unbound(s0.tasks[i], pm);
    }
    var s2 := Next(s1, CheckReset);
    s := Next(s2, Resume);
    es := es0 + [HandleFailure] + [CheckReset] + [Resume];
    Then(es0, s0, HandleFailure);
    Then(es0 + [HandleFailure], s1, CheckReset);
    Then(es0 + [HandleFailure] + [CheckReset], s2, Resume);
  }

  /** Nobody is registered when the start is counted and the task scheduled. */
  lemma StartingNowhere(es0: seq<Step>, s0: Tm, t: Task, gone: PmRecord, pm: ComponentId)
    returns (es: seq<Step>, s: Tm)
    requires Leads(START, es0, s0) && Lone(s0, t, gone) && !gone.inUse && s0.failing.None?
    requires s0.phase == Sent(0, pm) && pm != NO_COMPONENT && !t.state.Inactive?
    ensures Leads(START, es, s)
    ensures Lone(s, t.(state := Scheduled, timeout := 0, pm := pm), gone)
    ensures s == s0.(tasks := s.tasks, phase := Idle) && !BoundToRegistered(s)
  {
    NobodyIsFound(s0.book, pm.address);
    var s1 := Next(s0, CountStart);
    s := Next(s1, Commit);
    Then(es0, s0, CountStart);
    Then(es0 + [CountStart], s1, Commit);
    es := es0 + [CountStart] + [Commit];
    assert s.tasks[0].state.Scheduled? && s.tasks[0].pm == pm;
    assert forall i :: 0 <= i < MAX_PM ==> !s.book.pms[i].inUse;
  }
}
