/** The Task Manager's fixed task table (sdm/tm/task.cpp and sdm/tm/tasklist.cpp). */
module Tasks {
  import opened Ids
  import opened Sequences

  const NUMTASKS := 50
  const PID_INVALID := 0
  const MODE_NORMAL := 0
  const MODE_ALWAYS_RUNNING := 1

  datatype TaskState = Inactive | Active | Assigned | Scheduled | Pending | Finished | Running

  datatype Task = Task(
    pm: ComponentId, state: TaskState, priority: int, pid: nat, resources: Resources,
    filename: string, timeout: int, mode: int, version: int)

  /** What InitTask and Delete leave in a slot. */
  const BLANK := Task(NO_COMPONENT, Inactive, 0, PID_INVALID, NO_RESOURCES, "", 0, MODE_NORMAL, 0)

  /** Assignment deletes the target and then copies every field except the PM binding. */
  function Copied(t: Task): Task { t.(pm := NO_COMPONENT) }

  function IsInactive(): Task -> bool { (t: Task) => t.state.Inactive? }
  function IsPending(): Task -> bool { (t: Task) => t.state.Pending? }
  function HasPid(p: nat): Task -> bool { (t: Task) => t.pid == p }

  // ----- what each operation does to the table -----

  function Added(ts: seq<Task>, t: Task): seq<Task> {
    var n := First(ts, IsInactive());
    if n < |ts| then ts[n := Copied(t)] else ts
  }

  function Removed(ts: seq<Task>, p: nat): seq<Task> {
    var n := First(ts, HasPid(p));
    if n < |ts| then ts[n := BLANK] else ts
  }

  /** A finish report: normal tasks leave the table, always-running ones wait to be rescheduled. */
  function AfterFinish(ts: seq<Task>, p: nat): seq<Task> {
    var n := First(ts, HasPid(p));
    if n == |ts| then ts
    else if ts[n].mode == MODE_NORMAL then ts[n := BLANK]
    else if ts[n].mode == MODE_ALWAYS_RUNNING then ts[n := ts[n].(state := Pending, pid := PID_INVALID)]
    else ts
  }

  function Unbound(t: Task, id: ComponentId): Task {
    if t.pm == id then t.(state := Pending) else t
  }

  function AfterPmFailure(ts: seq<Task>, id: ComponentId): seq<Task> {
    seq(|ts|, i requires 0 <= i < |ts| => Unbound(ts[i], id))
  }

  /** SDMTask, which tells a PM to run a task under a pid. */
  datatype TaskMessage = TaskMessage(destination: ComponentId, priority: int, filename: string, pid: nat, version: int)

  /** SDMTaskError, which tells the Data Manager to cancel the xTEDS of a task. */
  datatype TaskError = TaskError(source: ComponentId, pid: nat)

  function ErrorFor(pid: nat): TaskError -> bool { (e: TaskError) => e.pid == pid }
  function BoundTo(id: ComponentId, pid: nat): Task -> bool { (t: Task) => t.pm == id && t.pid == pid }

  /** One error for each slot bound to the failed PM, in table order. */
  function FailureErrors(ts: seq<Task>, id: ComponentId): seq<TaskError> {
    if |ts| == 0 then []
    else
      var t := ts[|ts| - 1];
      FailureErrors(ts[..|ts| - 1], id) + if t.pm == id then [TaskError(id.(sensorId := t.pid), t.pid)] else []
  }

  lemma {:induction false} OneErrorPerTask(ts: seq<Task>, id: ComponentId, pid: nat)
    ensures Count(FailureErrors(ts, id), ErrorFor(pid)) == Count(ts, BoundTo(id, pid))
    decreases |ts|
  {
    if |ts| > 0 {
      var n := |ts| - 1;
      var before := FailureErrors(ts[..n], id);
      OneErrorPerTask(ts[..n], id, pid);
      assert ts == ts[..n] + [ts[n]];
      CountAppend(ts[..n], ts[n], BoundTo(id, pid));
      CountAppend(before, TaskError(id.(sensorId := ts[n].pid), ts[n].pid), ErrorFor(pid));
      assert ts[n].pm != id ==> FailureErrors(ts, id) == before;
    }
  }

  function Unpreferred(t: Task, resources: Resources): Task {
    if !t.state.Inactive? && t.resources.pmId == resources.pmId
    then t.(resources := t.resources.(pmId := 0)) else t
  }

  function WithoutPreference(ts: seq<Task>, resources: Resources): seq<Task> {
    seq(|ts|, i requires 0 <= i < |ts| => Unpreferred(ts[i], resources))
  }

  function Cleared(ts: seq<Task>): seq<Task> {
    seq(|ts|, i => BLANK)
  }

  /** The table itself: an array of NUMTASKS task records, scanned and overwritten in place. */
  class TaskList {
    const tasks: array<Task>

    ghost predicate Valid() { tasks.Length == NUMTASKS }

    ghost function View(): seq<Task>
      reads tasks
    {
      tasks[..]
    }

    constructor ()
      ensures Valid() && fresh(tasks)
      ensures View() == Repeated(BLANK, NUMTASKS)
    {
      tasks := new Task[NUMTASKS](_ => BLANK);
    }

    method AnyInactive() returns (any: bool)
      requires Valid()
      ensures any <==> exists n :: 0 <= n < NUMTASKS && tasks[n].state.Inactive?
    {
      for n := 0 to NUMTASKS
        invariant forall k :: 0 <= k < n ==> !tasks[k].state.Inactive?
      {
        if tasks[n].state.Inactive? { return true; }
      }
      return false;
    }

    method AddTo(t: Task) returns (added: bool)
      requires Valid()
      modifies tasks
      ensures added <==> exists n :: 0 <= n < NUMTASKS && old(tasks[n]).state.Inactive?
      ensures View() == Added(old(View()), t)
    {
      var any := AnyInactive();
      if !any { return false; }
      var n := 0;
      while n < NUMTASKS && !tasks[n].state.Inactive?
        invariant 0 <= n <= NUMTASKS
        invariant forall k :: 0 <= k < n ==> !tasks[k].state.Inactive?
      {
        n := n + 1;
      }
      assert n == First(tasks[..], IsInactive());
      tasks[n] := Copied(t);
      return true;
    }

    /** The scan shared by every lookup by pid. */
    method FindPid(p: nat) returns (n: nat)
      requires Valid()
      ensures n == First(View(), HasPid(p))
    {
      n := 0;
      while n < NUMTASKS && tasks[n].pid != p
        invariant 0 <= n <= NUMTASKS
        invariant forall k :: 0 <= k < n ==> tasks[k].pid != p
      {
        n := n + 1;
      }
    }

    method RemoveFrom(p: nat) returns (removed: bool)
      requires Valid()
      modifies tasks
      ensures removed <==> exists n :: 0 <= n < NUMTASKS && old(tasks[n]).pid == p
      ensures View() == Removed(old(View()), p)
    {
      var n := FindPid(p);
      if n >= NUMTASKS { return false; }
      tasks[n] := BLANK;
      return true;
    }

    method TaskFinished(p: nat) returns (known: bool)
      requires Valid()
      modifies tasks
      ensures View() == AfterFinish(old(View()), p)
      ensures known <==> exists n :: 0 <= n < NUMTASKS && n == First(old(View()), HasPid(p))
                                     && old(tasks[n]).mode in {MODE_NORMAL, MODE_ALWAYS_RUNNING}
    {
      var n := FindPid(p);
      if n == NUMTASKS { return false; }
      if tasks[n].mode == MODE_NORMAL {
        known := RemoveFrom(p);
      } else if tasks[n].mode == MODE_ALWAYS_RUNNING {
        tasks[n] := tasks[n].(state := Pending, pid := PID_INVALID);
        known := true;
      } else {
        known := false;
      }
    }

    method FindPendingTask() returns (n: nat)
      requires Valid()
      ensures n == First(View(), IsPending())
    {
      n := 0;
      while n < NUMTASKS && !tasks[n].state.Pending?
        invariant 0 <= n <= NUMTASKS
        invariant forall k :: 0 <= k < n ==> !tasks[k].state.Pending?
      {
        n := n + 1;
      }
    }

    method PMFailure(id: ComponentId) returns (sent: seq<TaskError>)
      requires Valid()
      modifies tasks
      ensures View() == AfterPmFailure(old(View()), id)
      ensures sent == FailureErrors(old(View()), id)
    {
      sent := [];
      ghost var was := View();
      for n := 0 to NUMTASKS
        invariant sent == FailureErrors(was[..n], id)
        invariant forall k :: 0 <= k < n ==> tasks[k] == Unbound(old(tasks[k]), id)
        invariant forall k :: n <= k < NUMTASKS ==> tasks[k] == old(tasks[k])
      {
        assert was[..n + 1][..n] == was[..n];
        if tasks[n].pm == id {
          sent := sent + [TaskError(id.(sensorId := tasks[n].pid), tasks[n].pid)];
          tasks[n] := tasks[n].(state := Pending);
        }
      }
      assert was[..NUMTASKS] == was;
    }

    method RemovePreferredPmId(resources: Resources)
      requires Valid()
      modifies tasks
      ensures View() == WithoutPreference(old(View()), resources)
    {
      for n := 0 to NUMTASKS
        invariant forall k :: 0 <= k < n ==> tasks[k] == Unpreferred(old(tasks[k]), resources)
        invariant forall k :: n <= k < NUMTASKS ==> tasks[k] == old(tasks[k])
      {
        if !tasks[n].state.Inactive? && tasks[n].resources.pmId == resources.pmId {
          tasks[n] := tasks[n].(resources := tasks[n].resources.(pmId := 0));
        }
      }
    }

    method ClearList()
      requires Valid()
      modifies tasks
      ensures View() == Cleared(old(View()))
    {
      for n := 0 to NUMTASKS
        invariant forall k :: 0 <= k < n ==> tasks[k] == BLANK
      {
        tasks[n] := BLANK;
      }
    }

    method GetPMAddress(p: nat) returns (id: ComponentId)
      requires Valid()
      ensures (exists n :: 0 <= n < NUMTASKS && tasks[n].pid == p) ==>
                First(View(), HasPid(p)) < NUMTASKS && id == View()[First(View(), HasPid(p))].pm
      ensures (forall n :: 0 <= n < NUMTASKS ==> tasks[n].pid != p) ==> id == NO_COMPONENT
    {
      var n := FindPid(p);
      id := if n < NUMTASKS then tasks[n].pm else NO_COMPONENT;
    }
  }
}
