/**
 * The list of supervised processes (sdm/pm/PMProcessList.cpp) and the handlers of sdm/pm/pm_main.cpp that use it, each
 * proved to be a step of the supervision machine.
 *
 * A handler takes the messages sent so far and returns them with its own.
 * The ghost argument is the machine's state before the step.
 */
module PmProcessLists {
  import opened Ids
  import opened Sequences
  import opened PmProcesses
  import opened PmSupervision

  /** How a removal ends. `PastEnd` stands for an erase that is not defined; the model leaves the list alone. */
  datatype Removal = Erased | Refused | PastEnd

  class PMProcessList {
    var procs: seq<PMProcess>

    ghost predicate Valid()
      reads this
    {
      forall i, k :: 0 <= i < k < |procs| ==> procs[i] != procs[k]
    }

    ghost function View(): (ps: seq<Process>)
      reads this, procs
      ensures |ps| == |procs|
    {
      seq(|procs|, i requires 0 <= i < |procs| reads this, procs => procs[i].View())
    }

    constructor ()
      ensures Valid() && View() == []
    {
      procs := [];
    }

    method GetIndexOfSdmPid(pid: nat) returns (index: int)
      requires Valid()
      ensures var i := First(View(), HasPid(pid));
              index == if i < |View()| then i else -1
    {
      index := 0;
      while index < |procs| && procs[index].sdmPid != pid
        invariant 0 <= index <= |procs|
        invariant forall k :: 0 <= k < index ==> !HasPid(pid)(View()[k])
      {
        index := index + 1;
      }
      assert index < |procs| ==> HasPid(pid)(View()[index]);
      if index == |procs| { index := -1; }
    }

    method GetIndexOfOsPid(osPid: int) returns (index: int)
      requires Valid()
      ensures var i := First(View(), HasOs(osPid));
              index == if i < |View()| then i else -1
    {
      index := 0;
      while index < |procs| && procs[index].osPid != osPid
        invariant 0 <= index <= |procs|
        invariant forall k :: 0 <= k < index ==> !HasOs(osPid)(View()[k])
      {
        index := index + 1;
      }
      assert index < |procs| ==> HasOs(osPid)(View()[index]);
      if index == |procs| { index := -1; }
    }

    method Add(name: string, pid: nat, osPid: int, birth: nat) returns (index: nat)
      requires Valid()
      modifies this, procs
      ensures Valid() && View() == Launched(old(View()), name, pid, osPid, birth)
      ensures index == First(old(View()), HasPid(pid)) < |View()|
    {
      var i := GetIndexOfSdmPid(pid);
      if i == -1 {
        var p := new PMProcess(name, pid, osPid, birth);
        index := |procs|;
        procs := procs + [p];
        assert View() == old(View()) + [p.View()];
      } else {
        index := i;
        procs[i].SetOsPid(osPid);
        assert View() == old(View())[i := procs[i].View()];
      }
    }

    /** The guard lets an index one past the end through to the erase; what that does is undefined. */
    method Remove(index: nat) returns (r: Removal)
      requires Valid()
      modifies this
      ensures Valid() && View() == Without(old(View()), index)
      ensures procs == old(if index < |procs| then procs[..index] + procs[index + 1..] else procs)
      ensures r == if index > old(|procs|) then Refused else if index == old(|procs|) then PastEnd else Erased
    {
      if index > |procs| { return Refused; }
      if index == |procs| { return PastEnd; }
      procs := procs[..index] + procs[index + 1..];
      return Erased;
    }

    method UpdateOsPid(pid: nat, osPid: int)
      requires Valid()
      modifies procs
      ensures View() == Numbered(old(View()), pid, osPid)
    {
      var i := GetIndexOfSdmPid(pid);
      if i != -1 { procs[i].SetOsPid(osPid); }
    }

    method HeartbeatReceived(pid: nat, now: nat)
      requires Valid()
      modifies procs
      ensures View() == HeardFrom(old(View()), pid, now)
    {
      var i := GetIndexOfSdmPid(pid);
      if i != -1 { procs[i].HeartbeatReceived(now); }
    }

    method RemoveAll()
      modifies this
      ensures Valid() && View() == []
    {
      procs := [];
    }

    // ----- operations on the element at an index -----

    method IsUnresponsive(i: nat, now: nat) returns (unresponsive: bool)
      requires Valid() && i < |procs|
      modifies procs[i]
      ensures unresponsive == Polled(old(View())[i], now).0
      ensures View() == old(View())[i := Polled(old(View())[i], now).1]
    {
      unresponsive := procs[i].IsUnresponsive(now);
    }

    method Fail(i: nat)
      requires Valid() && i < |procs|
      modifies procs[i]
      ensures View() == old(View())[i := Failed(old(View())[i])]
    {
      procs[i].Failure();
    }

    method Restart(i: nat)
      requires Valid() && i < |procs|
      modifies procs[i]
      ensures View() == old(View())[i := Restarted(old(View())[i])]
    {
      procs[i].Reset();
    }
  }

  /** The list and the log are those of the machine's state `s`. */
  ghost predicate Shows(list: PMProcessList, sent: seq<Sent>, s: State)
    reads list, list.procs
  {
    list.Valid() && list.View() == s.ps && sent == s.log
  }

  /** The body of TaskHeartbeatMonitor's loop for entry i. */
  method Watch(list: PMProcessList, i: nat, now: nat, sent: seq<Sent>, ghost s: State) returns (all: seq<Sent>)
    requires Shows(list, sent, s) && i < |list.procs|
    modifies list, list.procs
    ensures Shows(list, all, Turned(s, i, now))
    ensures forall k :: 0 <= k < |list.procs| ==> list.procs[k] in old(list.procs)
  {
    var unresponsive := list.IsUnresponsive(i, now);
    var p := list.procs[i];
    assert p.View() == list.View()[i] == Polled(s.ps[i], now).1;
    all := sent;
    if unresponsive && !p.failed {
      all := all + [Signal(p.birth, p.osPid)];
      if p.failCount >= MAX_TASK_FAILURES {
        var _ := list.Remove(i);
      } else {
        all := all + [Error(p.birth, p.sdmPid)];
        list.Fail(i);
      }
    }
  }

  /** One pass of TaskHeartbeatMonitor; times[i] is the clock in turn i. */
  method TaskHeartbeatMonitor(list: PMProcessList, times: seq<nat>, sent: seq<Sent>, ghost s: State)
    returns (all: seq<Sent>)
    requires Shows(list, sent, s) && |list.procs| <= |times|
    modifies list, list.procs
    ensures Shows(list, all, Next(s, Monitor(times)))
  {
    all := sent;
    var i := 0;
    ghost var now := s;
    while i < |list.procs|
      invariant Shows(list, all, now) && |now.ps| <= |times|
      invariant forall k :: 0 <= k < |list.procs| ==> list.procs[k] in old(list.procs)
      invariant Swept(now, i, times) == Swept(s, 0, times)
      decreases |times| - i
    {
      all := Watch(list, i, times[i], all, now);
      now := Turned(now, i, times[i]);
      i := i + 1;
    }
  }

  /** LaunchTask up to the fork: the task is on the list before its process exists. */
  method LaunchTask(list: PMProcessList, name: string, pid: nat, birth: nat, sent: seq<Sent>, ghost s: State)
    returns (index: nat)
    requires Shows(list, sent, s) && Enabled(s, Launch(name, pid)) && birth == s.births
    modifies list, list.procs
    ensures Shows(list, sent, Next(s, Launch(name, pid)))
    ensures Next(s, Launch(name, pid)).launching == Some(Launching.Launching(pid, index))
  {
    index := list.Add(name, pid, 0, birth);
  }

  /** The fork succeeded. */
  method LaunchSucceeds(list: PMProcessList, pid: nat, osPid: int, sent: seq<Sent>, ghost s: State)
    requires Shows(list, sent, s) && s.launching.Some? && s.launching.value.pid == pid
    modifies list, list.procs
    ensures Shows(list, sent, Next(s, SetOsPid(osPid)))
  {
    list.UpdateOsPid(pid, osPid);
  }

  /** The fork failed: whatever stands at the index is removed, with no effect that is defined one past the end. */
  method LaunchFails(list: PMProcessList, index: nat, sent: seq<Sent>, ghost s: State) returns (r: Removal)
    requires Shows(list, sent, s) && s.launching.Some? && s.launching.value.index == index
    modifies list
    ensures r == PastEnd <==> !Enabled(s, LaunchFailed)
    ensures r != PastEnd ==> Shows(list, sent, Next(s, LaunchFailed))
  {
    r := list.Remove(index);
  }

  /** SigChldHandler, once the process that exited is known. */
  method SigChldHandler(list: PMProcessList, osPid: int, sent: seq<Sent>, ghost s: State) returns (all: seq<Sent>)
    requires Shows(list, sent, s) && Enabled(s, ChildExits(osPid))
    modifies list, list.procs
    ensures Shows(list, all, Next(s, ChildExits(osPid)))
  {
    var i := list.GetIndexOfOsPid(osPid);
    if i == -1 { return sent; }
    var p := list.procs[i];
    assert p.View() == s.ps[i];
    if p.failed {
      list.Restart(i);
      all := sent + [Relaunch(p.birth, p.sdmPid)];
    } else {
      all := sent + [Finished(p.birth, p.sdmPid)] + [CancelXteds(p.birth, p.sdmPid, false)];
      var _ := list.Remove(i);
    }
  }

  method KillHandler(list: PMProcessList, pid: nat, level: nat, sent: seq<Sent>, ghost s: State)
    returns (all: seq<Sent>)
    requires Shows(list, sent, s)
    modifies list
    ensures Shows(list, all, Next(s, Kill(pid, level)))
  {
    all := sent;
    var i := list.GetIndexOfSdmPid(pid);
    if i == -1 { return; }
    var p := list.procs[i];
    assert p.View() == s.ps[i];
    all := all + [Signal(p.birth, p.osPid)];
    if level == 1 {
      all := all + [Finished(p.birth, p.sdmPid)] + [CancelXteds(p.birth, p.sdmPid, true)];
      var _ := list.Remove(i);
    }
  }

  method DoReset(list: PMProcessList, sent: seq<Sent>, ghost s: State) returns (all: seq<Sent>)
    requires Shows(list, sent, s)
    modifies list
    ensures Shows(list, all, Next(s, Reset))
  {
    all := sent;
    var i := 0;
    while i < |list.procs|
      invariant i <= |list.procs| && Shows(list, sent, s)
      invariant all + Errors(s.ps[i..]) == sent + Errors(s.ps)
    {
      var p := list.procs[i];
      assert p.View() == s.ps[i] && s.ps[i..][1..] == s.ps[i + 1..];
      ConcatAssociates(all, [SignalTo(s.ps[i]), ErrorOf(s.ps[i])], Errors(s.ps[i + 1..]));
      all := all + [Signal(p.birth, p.osPid), Error(p.birth, p.sdmPid)];
      i := i + 1;
    }
    list.RemoveAll();
  }
}
