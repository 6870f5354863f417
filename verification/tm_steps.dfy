/** What the steps of the Task Manager's machine do to the fields of tasks, records and messages. */
module TmSteps {
  import opened Ids
  import opened Sequences
  import opened Tasks
  import opened LoadBalance
  import opened TmProtocol
  import opened Books = PmRecords

  // ----- the Listener -----

  /** A posted task enters an inactive slot with all that it was posted with, pending, without a pid or a PM. */
  lemma PostedTaskEnters(s: Tm, t: Task) returns (n: nat)
    requires exists i :: 0 <= i < NUMTASKS && s.tasks[i].state.Inactive?
    ensures n < NUMTASKS && s.tasks[n].state.Inactive?
    ensures Next(s, Post(t)).tasks
            == s.tasks[n := Task(NO_COMPONENT, Pending, t.priority, 0, t.resources, t.filename, t.timeout, t.mode,
                                 t.version)]
  {
    n := First(s.tasks, IsInactive());
    var i :| 0 <= i < NUMTASKS && s.tasks[i].state.Inactive?;
    assert IsInactive()(s.tasks[i]);
  }

  /** A task reported running enters as a normal task, scheduled under its pid and on no PM. */
  lemma RecoveredTaskEnters(s: Tm) returns (n: nat)
    requires s.recovering.Some? && exists i :: 0 <= i < NUMTASKS && s.tasks[i].state.Inactive?
    ensures n < NUMTASKS && s.tasks[n].state.Inactive?
    ensures var t := s.recovering.value.t;
            Next(s, RecoverList).tasks
            == s.tasks[n := Task(NO_COMPONENT, Scheduled, t.priority, t.pid, Resources(0, 0, 0, 0), t.filename, 0,
                                 MODE_NORMAL, 0)]
  {
    n := First(s.tasks, IsInactive());
    var i :| 0 <= i < NUMTASKS && s.tasks[i].state.Inactive?;
    assert IsInactive()(s.tasks[i]);
  }

  /**
   * A finish report takes a normal task off the list and leaves an always-running one to be scheduled again, without a
   * pid and otherwise as it was; no other task changes.
   */
  lemma FinishedTaskLeaves(s: Tm, i: nat)
    requires s.finishing.Some? && i < NUMTASKS && s.tasks[i].pid == s.finishing.value.pid
    requires forall k :: 0 <= k < i ==> s.tasks[k].pid != s.finishing.value.pid
    ensures var r, t := Next(s, ListFinish), s.tasks[i];
            && (forall k :: 0 <= k < NUMTASKS && k != i ==> r.tasks[k] == s.tasks[k])
            && (t.mode == 0 ==> r.tasks[i].state.Inactive? && r.tasks[i].pid == 0)
            && (t.mode == 1 ==> r.tasks[i] == t.(state := Pending, pid := 0))
            && (t.mode != 0 && t.mode != 1 ==> r.tasks[i] == t)
  {
    assert HasPid(s.finishing.value.pid)(s.tasks[i]);
    assert First(s.tasks, HasPid(s.finishing.value.pid)) == i;
  }

  /** Removing a task by its pid blanks the first slot that has the pid, and no other. */
  lemma RemovedTaskIsBlank(ts: seq<Task>, pid: nat, i: nat)
    requires i < |ts|
    ensures |Removed(ts, pid)| == |ts|
    ensures Removed(ts, pid)[i] ==
            if ts[i].pid == pid && forall k :: 0 <= k < i ==> ts[k].pid != pid
            then Task(NO_COMPONENT, Inactive, 0, 0, Resources(0, 0, 0, 0), "", 0, 0, 0) else ts[i]
  {
    var n := First(ts, HasPid(pid));
    assert n < |ts| ==> HasPid(pid)(ts[n]);
    assert ts[i].pid == pid ==> HasPid(pid)(ts[i]);
  }

  // ----- PMHeartbeat -----

  /** The failure of a PM puts exactly the tasks bound to it back to pending, and keeps all else about them. */
  lemma FailureRequeues(s: Tm, i: nat)
    requires s.failing.Some? && i < NUMTASKS
    ensures Next(s, HandleFailure).tasks[i]
            == if s.tasks[i].pm == s.failing.value then s.tasks[i].(state := Pending) else s.tasks[i]
  {}

  /** Each task error names the failed PM's address and port as its source, and the task's pid as both ids. */
  lemma {:induction false} ErrorsNameTheFailedPm(ts: seq<Task>, id: ComponentId, e: TaskError)
    requires e in FailureErrors(ts, id)
    ensures e.source == ComponentId(id.address, id.port, e.pid)
    ensures exists i :: 0 <= i < |ts| && ts[i].pm == id && ts[i].pid == e.pid
    decreases |ts|
  {
    var n := |ts| - 1;
    if e in FailureErrors(ts[..n], id) {
      ErrorsNameTheFailedPm(ts[..n], id, e);
      var i :| 0 <= i < n && ts[..n][i].pm == id && ts[..n][i].pid == e.pid;
      assert ts[i].pm == id;
    } else {
      assert ts[n].pm == id && ts[n].pid == e.pid;
    }
  }

  // ----- the Scheduler -----

  /** An idle Scheduler takes up the first pending task exactly when there is one and some PM is registered. */
  lemma LookTakesFirstPending(s: Tm, n: nat)
    requires s.phase.Idle? && n < NUMTASKS
    ensures Next(s, Look).phase == Seeking(n, 0) <==>
              && s.tasks[n].state.Pending? && (forall k :: 0 <= k < n ==> !s.tasks[k].state.Pending?)
              && exists i :: 0 <= i < MAX_PM && s.book.pms[i].inUse
    ensures Next(s, Look).phase.Idle? || Next(s, Look).phase.Seeking?
  {
    var f, u := First(s.tasks, IsPending()), First(s.book.pms, IsUsed());
    assert f < NUMTASKS ==> IsPending()(s.tasks[f]);
    assert s.tasks[n].state.Pending? ==> IsPending()(s.tasks[n]);
    assert forall k :: 0 <= k < f ==> !IsPending()(s.tasks[k]);
    assert u < MAX_PM ==> IsUsed()(s.book.pms[u]);
    assert forall i :: 0 <= i < MAX_PM && s.book.pms[i].inUse ==> IsUsed()(s.book.pms[i]);
  }

  /** A task that prefers a node is picked for it exactly when a PM with that node id is registered. */
  lemma PreferenceIsMetIff(s: Tm)
    requires BookSound(s.book) && s.phase.Seeking? && s.tasks[s.phase.n].resources.pmId != 0
    ensures Next(s, Search).phase.Picked? <==>
              exists i :: 0 <= i < MAX_PM && s.book.pms[i].inUse
                          && s.book.pms[i].resources.pmId == s.tasks[s.phase.n].resources.pmId
  {
    var t := s.tasks[s.phase.n].resources;
    PreferredHasNode(s.book, t);
    if First(s.book.pms, Prefers(t)) < MAX_PM { PreferredPmIsRegistered(s.book, t); }
  }

  /** A lookup only picks a record that is in use and fits the task or, for a task with a preference, is that node. */
  lemma SearchPicksFitting(s: Tm)
    requires BookSound(s.book) && s.phase.Seeking? && Next(s, Search).phase.Picked?
    ensures var t := s.tasks[s.phase.n].resources;
            exists i :: 0 <= i < MAX_PM && s.book.pms[i].inUse && s.book.pms[i].id == Next(s, Search).phase.pm
                        && var p := s.book.pms[i].resources;
                           if t.pmId != 0 then p.pmId == t.pmId
                           else
                             && p.arch == t.arch && p.os == t.os && p.mem >= t.mem
                             && s.book.pms[i].tasks <= s.phase.load
  {
    var t := s.tasks[s.phase.n].resources;
    if t.pmId != 0 {
      PreferredHasNode(s.book, t);
      PreferredPmIsRegistered(s.book, t);
      assert s.book.pms[First(s.book.pms, Prefers(t))].inUse;
    } else {
      LookupFits(s.book, s.phase.load, t);
    }
  }

  /**
   * From the pick to the commit: the task is scheduled on the picked PM under the next pid, without its interval and
   * otherwise as it was; the PM at that address carries one task more.
   */
  lemma SchedulingBinds(s: Tm)
    requires Enabled(s, Send) && UniqueAddresses(s.book)
    ensures var r, n := Next(Next(Next(s, Send), CountStart), Commit), s.phase.n;
            && r.tasks ==
               s.tasks[n := s.tasks[n].(state := Scheduled, pid := s.nextPid, timeout := 0, pm := s.phase.pm)]
            && r.nextPid == s.nextPid + 1 && r.phase.Idle?
            && forall k :: 0 <= k < MAX_PM ==>
                 var p := s.book.pms[k];
                 r.book.pms[k] ==
                 if p.inUse && p.id.address == s.phase.pm.address then p.(tasks := p.tasks + 1) else p
  {
    CountedAtAddress(s.book, s.phase.pm.address);
  }

  /** Under unique addresses a start is counted on the PM registered at the address, if there is one, and only there. */
  lemma CountedAtAddress(b: Book, a: nat)
    requires UniqueAddresses(b)
    ensures forall k :: 0 <= k < MAX_PM ==>
              var p := b.pms[k];
              Loaded(b, a, 1).pms[k] == if p.inUse && p.id.address == a then p.(tasks := p.tasks + 1) else p
  {
    var i := First(b.pms, AtAddress(a));
    assert i < MAX_PM ==> AtAddress(a)(b.pms[i]);
    forall k | 0 <= k < MAX_PM && b.pms[k].inUse && b.pms[k].id.address == a
      ensures k == i
    {
      assert AtAddress(a)(b.pms[k]);
    }
  }

  /** Dropping a preference clears it on every task that has it, and changes nothing else. */
  lemma PreferenceIsDropped(s: Tm, resources: Resources, i: nat)
    requires i < NUMTASKS
    ensures var t := s.tasks[i];
            Next(s, DropPreference(resources)).tasks[i] ==
            if !t.state.Inactive? && t.resources.pmId == resources.pmId
            then t.(resources := Resources(t.resources.arch, t.resources.mem, t.resources.os, 0)) else t
  {}

  // ----- resets -----

  predicate NoScheduler(es: seq<Step>) {
    forall i :: 0 <= i < |es| ==> !OfScheduler(es[i])
  }

  predicate HasReset(es: seq<Step>) {
    exists i :: 0 <= i < |es| && es[i].ResetList?
  }

  lemma {:induction false} SleepSeesReset(s: Tm, es: seq<Step>)
    requires s.phase.Asleep? && NoScheduler(es)
    ensures Run(s, es).phase == s.phase && (Run(s, es).resetFlag <==> s.resetFlag || HasReset(es))
    decreases |es|
  {
    if |es| > 0 {
      var r, rest := Next(s, es[0]), es[1..];
      assert forall i :: 0 <= i < |rest| ==> rest[i] == es[i + 1];
      assert r.phase == s.phase && (r.resetFlag <==> s.resetFlag || es[0].ResetList?);
      SleepSeesReset(r, rest);
      if HasReset(rest) {
        var i :| 0 <= i < |rest| && rest[i].ResetList?;
        assert es[i + 1].ResetList?;
      }
    }
  }

  /**
   * A reset during the sleep is not missed: the Scheduler starts over exactly when the mark was set before the sleep or
   * the list was cleared during it, and clears the mark.
   */
  lemma SleeperStartsOverIff(s: Tm, es: seq<Step>)
    requires s.phase.Asleep? && NoScheduler(es)
    ensures var r := Next(Run(s, es), CheckReset);
            && (r.phase.Idle? <==> s.resetFlag || HasReset(es))
            && (!r.phase.Idle? <==> r.phase == Awake(s.phase.n, s.phase.pm))
            && !r.resetFlag && r.tasks == Run(s, es).tasks
  {
    SleepSeesReset(s, es);
  }
}
