/** One supervised process of the Process Manager (sdm/pm/PMProcess.cpp): heartbeats, timeouts and failures. */
module PmProcesses {
  import opened Sequences

  const TASK_HEARTBEAT_TIMEOUT := 10
  const TASK_TIMEOUT_ATTEMPTS := 6
  const PATIENCE := TASK_HEARTBEAT_TIMEOUT * TASK_TIMEOUT_ATTEMPTS

  /** `birth` numbers list entries in order of creation and `restarts` counts resets; both are history only. */
  datatype Process = Process(
    name: string, sdmPid: nat, osPid: int, lastBeat: nat, misses: nat, failCount: nat, failed: bool,
    birth: nat, restarts: nat)

  function Started(name: string, sdmPid: nat, osPid: int, birth: nat): Process {
    Process(name, sdmPid, osPid, 0, 0, 0, false, birth, 0)
  }

  function Beaten(p: Process, now: nat): Process {
    p.(lastBeat := now, misses := 0)
  }

  /** IsUnresponsive: a late poll counts a miss and moves the stored time one interval on. */
  function Polled(p: Process, now: nat): (r: (bool, Process))
    ensures r.1 == p.(lastBeat := r.1.lastBeat, misses := r.1.misses)
  {
    if p.lastBeat == 0 && !p.failed then (false, p)
    else if now < p.lastBeat || now - p.lastBeat < TASK_HEARTBEAT_TIMEOUT then (false, p)
    else
      (p.misses + 1 >= TASK_TIMEOUT_ATTEMPTS,
       p.(lastBeat := p.lastBeat + TASK_HEARTBEAT_TIMEOUT, misses := p.misses + 1))
  }

  function Failed(p: Process): Process {
    p.(failed := true, failCount := p.failCount + 1, lastBeat := 0, misses := 0)
  }

  /** Reset, for the restart of a failed process. */
  function Restarted(p: Process): Process {
    p.(osPid := 0, failed := false, restarts := p.restarts + 1)
  }

  // ----- timing -----

  function PolledAll(p: Process, times: seq<nat>): Process
    decreases |times|
  {
    if |times| == 0 then p else PolledAll(Polled(p, times[0]).1, times[1..])
  }

  /** Which of a series of polls first finds the process unresponsive; their number when none does. */
  function FirstAlarm(p: Process, times: seq<nat>): (k: nat)
    ensures k <= |times|
    decreases |times|
  {
    if |times| == 0 || Polled(p, times[0]).0 then 0 else 1 + FirstAlarm(Polled(p, times[0]).1, times[1..])
  }

  /** The stored time runs TIMEOUT past the last heartbeat for every miss. */
  predicate OnSchedule(p: Process, t: nat) {
    p.lastBeat == t + TASK_HEARTBEAT_TIMEOUT * p.misses && p.lastBeat > 0
  }

  lemma {:induction false} PollsKeepSchedule(p: Process, t: nat, times: seq<nat>)
    requires OnSchedule(p, t)
    ensures OnSchedule(PolledAll(p, times), t)
    decreases |times|
  {
    if |times| > 0 { PollsKeepSchedule(Polled(p, times[0]).1, t, times[1..]); }
  }

  /** A process is found unresponsive no sooner than sixty seconds after its last heartbeat. */
  lemma {:induction false} AlarmIsNotEarly(p: Process, t: nat, times: seq<nat>)
    requires OnSchedule(p, t)
    ensures FirstAlarm(p, times) < |times| ==> times[FirstAlarm(p, times)] >= t + PATIENCE
    decreases |times|
  {
    if |times| > 0 && !Polled(p, times[0]).0 { AlarmIsNotEarly(Polled(p, times[0]).1, t, times[1..]); }
  }

  function IsLate(deadline: nat): nat -> bool { (now: nat) => now >= deadline }

  /** Polls made sixty seconds after the last heartbeat or later: six of them, wherever they fall, are enough. */
  lemma {:induction false} AlarmIsNotMissed(p: Process, t: nat, times: seq<nat>)
    requires OnSchedule(p, t) && p.misses < TASK_TIMEOUT_ATTEMPTS
    requires Count(times, IsLate(t + PATIENCE)) >= TASK_TIMEOUT_ATTEMPTS - p.misses
    ensures FirstAlarm(p, times) < |times|
    decreases |times|
  {
    if !Polled(p, times[0]).0 { AlarmIsNotMissed(Polled(p, times[0]).1, t, times[1..]); }
  }

  /** Both bounds for a process that has just been heard from. */
  lemma {:induction false} DetectionWindow(p: Process, t: nat, times: seq<nat>)
    requires t > 0
    ensures var k := FirstAlarm(Beaten(p, t), times);
            && (k < |times| ==> times[k] >= t + PATIENCE)
            && (Count(times, IsLate(t + PATIENCE)) >= TASK_TIMEOUT_ATTEMPTS ==> k < |times|)
  {
    AlarmIsNotEarly(Beaten(p, t), t, times);
    if Count(times, IsLate(t + PATIENCE)) >= TASK_TIMEOUT_ATTEMPTS { AlarmIsNotMissed(Beaten(p, t), t, times); }
  }

  /** A process that has neither failed nor been heard from is never found unresponsive. */
  lemma {:induction false} SilentStartIsTolerated(p: Process, times: seq<nat>)
    requires p.lastBeat == 0 && !p.failed
    ensures PolledAll(p, times) == p && FirstAlarm(p, times) == |times|
  {
    if |times| > 0 { SilentStartIsTolerated(p, times[1..]); }
  }

  lemma {:induction false} PollsOfFailed(p: Process, times: seq<nat>)
    requires p.failed
    ensures PolledAll(p, times).failed
    ensures p.lastBeat > 0 ==> PolledAll(p, times).lastBeat > 0
    ensures p.lastBeat == 0 ==>
              (PolledAll(p, times).lastBeat == 0 <==>
               forall i :: 0 <= i < |times| ==> times[i] < TASK_HEARTBEAT_TIMEOUT)
    decreases |times|
  {
    if |times| > 0 {
      PollsOfFailed(Polled(p, times[0]).1, times[1..]);
      assert forall i :: 1 <= i < |times| ==> times[i] == times[1..][i - 1];
      assert forall i :: 0 <= i < |times| - 1 ==> times[1..][i] == times[i + 1];
    }
  }

  /**
   * Reset leaves the time and the misses that polls counted while the process was in its failed state. The restarted
   * process gets the grace of a new one exactly when no such poll came ten seconds or more after time zero.
   */
  lemma {:induction false} RestartIsToleratedIff(p: Process, times: seq<nat>)
    ensures (forall later: seq<nat> :: FirstAlarm(Restarted(PolledAll(Failed(p), times)), later) == |later|) <==>
            (forall i :: 0 <= i < |times| ==> times[i] < TASK_HEARTBEAT_TIMEOUT)
  {
    var q := Restarted(PolledAll(Failed(p), times));
    PollsOfFailed(Failed(p), times);
    if q.lastBeat == 0 {
      forall later: seq<nat>
        ensures FirstAlarm(q, later) == |later|
      {
        SilentStartIsTolerated(q, later);
      }
    } else {
      var n := q.lastBeat + PATIENCE;
      var later: seq<nat> := [n, n, n, n, n, n];
      LatePollsAlarm(q, n, later);
    }
  }

  lemma {:induction false} LatePollsAlarm(p: Process, n: nat, later: seq<nat>)
    requires p.lastBeat > 0 && |later| <= TASK_TIMEOUT_ATTEMPTS && |later| + p.misses >= TASK_TIMEOUT_ATTEMPTS
    requires |later| > 0 && forall i :: 0 <= i < |later| ==> later[i] == n
    requires n >= p.lastBeat + TASK_HEARTBEAT_TIMEOUT * |later|
    ensures FirstAlarm(p, later) < |later|
    decreases |later|
  {
    if !Polled(p, later[0]).0 { LatePollsAlarm(Polled(p, later[0]).1, n, later[1..]); }
  }

  class PMProcess {
    const name: string
    const sdmPid: nat
    var osPid: int
    var lastBeat: nat
    var misses: nat
    var failCount: nat
    var failed: bool
    const birth: nat
    ghost var restarts: nat

    ghost function View(): Process
      reads this
    {
      Process(name, sdmPid, osPid, lastBeat, misses, failCount, failed, birth, restarts)
    }

    constructor (name: string, sdmPid: nat, osPid: int, birth: nat)
      ensures View() == Started(name, sdmPid, osPid, birth)
    {
      this.name, this.sdmPid, this.osPid := name, sdmPid, osPid;
      lastBeat, misses, failCount, failed := 0, 0, 0, false;
      this.birth := birth;
      restarts := 0;
    }

    method SetOsPid(osPid: int)
      modifies this
      ensures View() == old(View()).(osPid := osPid)
    {
      this.osPid := osPid;
    }

    method HeartbeatReceived(now: nat)
      modifies this
      ensures View() == Beaten(old(View()), now)
    {
      lastBeat := now;
      misses := 0;
    }

    method IsUnresponsive(now: nat) returns (unresponsive: bool)
      modifies this
      ensures (unresponsive, View()) == Polled(old(View()), now)
    {
      if lastBeat == 0 && !failed { return false; }
      if now < lastBeat { return false; }
      if now - lastBeat < TASK_HEARTBEAT_TIMEOUT { return false; }
      lastBeat := lastBeat + TASK_HEARTBEAT_TIMEOUT;
      misses := misses + 1;
      return misses >= TASK_TIMEOUT_ATTEMPTS;
    }

    method Failure()
      modifies this
      ensures View() == Failed(old(View()))
    {
      failed := true;
      failCount := failCount + 1;
      lastBeat := 0;
      misses := 0;
    }

    method Reset()
      modifies this
      ensures View() == Restarted(old(View()))
    {
      osPid := 0;
      failed := false;
      restarts := restarts + 1;
    }
  }
}
