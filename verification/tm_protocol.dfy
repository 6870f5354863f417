/** The threads of sdm/tm/tm.cpp as one state machine, a step for each region that they run under a mutex. */
module TmProtocol {
  import opened Ids
  import opened Sequences
  import opened Tasks
  import opened LoadBalance
  import PmRecords
  import opened Books = PmRecords

  /**
   * Where the Scheduler stands, and what it remembers: the index of a pending task, and the identifier copied from
   * the PM it found. It holds the list mutex except when it is idle, asleep or just awake.
   */
  datatype Phase =
    | Idle
    | Seeking(n: nat, load: nat)
    | Picked(n: nat, pm: ComponentId)
    | Asleep(n: nat, pm: ComponentId)
    | Awake(n: nat, pm: ComponentId)
    | Ready(n: nat, pm: ComponentId)
    | Sent(n: nat, pm: ComponentId)
    | Counted(n: nat, pm: ComponentId)
  {
    /** The list mutex is held. */
    predicate Busy() { !Idle? && !Sleeping() }
    predicate Sleeping() { Asleep? || Awake? }
    predicate HasPm() { Picked? || Ready? || Sent? || Counted? }
  }

  /** A finish report whose PM has been discounted but whose task is not yet off the list. */
  datatype Report = Report(address: nat, pid: nat)

  /** A running-task report that has moved the next pid; `listed` once its task is on the list and its PM uncounted. */
  datatype Recovery = Recovery(address: nat, t: Task, listed: bool)

  datatype TmState = Tm(
    tasks: seq<Task>, book: Book, nextPid: nat, phase: Phase,
    sweeping: bool,                // the removal loop of a heartbeat round is still running
    failing: Option<ComponentId>,  // removed by RemoveAnyFailed, PMFailure still to come
    finishing: Option<Report>,
    recovering: Option<Recovery>,
    resets: nat,                   // commands that have cleared the list and not yet the counters
    resetFlag: bool)               // set by a reset for a Scheduler that sleeps

  datatype Step =
    | Post(t: Task)
    | Register(id: ComponentId, resources: Resources)
    | Heartbeat
    | Reply(address: nat)
    | RemoveFailed
    | HandleFailure
    | Look
    | Search
    | Sleep
    | CheckReset
    | Resume
    | Send
    | CountStart
    | Commit
    | CountFinish(address: nat, pid: nat)
    | ListFinish
    | ResetList
    | ResetCounters
    | Recover(address: nat, t: Task)
    | RecoverList
    | RecoverCount
    | DropPreference(resources: Resources)

  predicate Shape(s: TmState) {
    |s.tasks| == NUMTASKS && (!s.phase.Idle? ==> s.phase.n < NUMTASKS)
  }

  const FIRST := Tm(Repeated(BLANK, NUMTASKS), EMPTY_BOOK, 1, Idle, false, None, None, None, 0, false)

  /** The states of the machine: both tables have their fixed sizes. */
  type Tm = s: TmState | Shape(s) witness FIRST

  const START: Tm := FIRST


  /** PostTask builds a pending task with no pid whatever the message says. */
  function Posted(t: Task): Task { t.(state := Pending, pid := PID_INVALID) }

  /** PMRunningTaskHandler builds a scheduled normal task with the reported pid. */
  function Recovered(t: Task): Task {
    t.(state := Scheduled, resources := NO_RESOURCES, timeout := 0, mode := MODE_NORMAL, version := 0)
  }

  /** With the list mutex taken: the first pending task, if there is one and some PM is registered. */
  function AfterLook(s: Tm): (r: Tm)
  {
    var n := First(s.tasks, IsPending());
    if n == NUMTASKS || First(s.book.pms, IsUsed()) == MAX_PM then s else s.(phase := Seeking(n, 0))
  }

  /** How many lookups a search can still make. */
  function LookupsLeft(p: Phase): nat {
    if !p.Seeking? then 0 else if p.load < MAX_JOBS then MAX_JOBS - p.load else 1
  }

  /** One lookup under the PM table's mutex: by preferred node, or by suitability within the load reached so far. */
  function AfterSearch(s: Tm): (r: Tm)
    requires s.phase.Seeking?
    ensures LookupsLeft(r.phase) < LookupsLeft(s.phase)
  {
    var n := s.phase.n;
    var resources := s.tasks[n].resources;
    if resources.pmId != 0 then
      var i := First(s.book.pms, Prefers(resources));
      s.(phase := if i < MAX_PM then Picked(n, s.book.pms[i].id) else Idle)
    else
      var c := Scanned(s.book, s.phase.load, resources);
      s.(book := c.1,
         phase := if c.0.Some? then Picked(n, s.book.pms[c.0.value].id)
                  else if s.phase.load + 1 < MAX_JOBS then Seeking(n, s.phase.load + 1)
                  else Idle)
  }

  /** The Scheduler's steps; each does nothing outside its phase. */
  function SchedulerNext(s: Tm, e: Step): (r: Tm)
  {
    match e
    case Look => if s.phase.Idle? then AfterLook(s) else s
    case Search => if s.phase.Seeking? then AfterSearch(s) else s
    case Sleep => if s.phase.Picked? then s.(phase := Asleep(s.phase.n, s.phase.pm)) else s
    case CheckReset =>
      if !s.phase.Asleep? then s
      else if s.resetFlag then s.(resetFlag := false, phase := Idle)
      else s.(phase := Awake(s.phase.n, s.phase.pm))
    case Resume => if s.phase.Awake? then s.(phase := Ready(s.phase.n, s.phase.pm)) else s
    case Send =>
      if !s.phase.HasPm() then s
      else s.(tasks := s.tasks[s.phase.n := s.tasks[s.phase.n].(pid := s.nextPid)],
              nextPid := s.nextPid + 1,
              phase := Sent(s.phase.n, s.phase.pm))
    case CountStart =>
      if !s.phase.Sent? then s
      else s.(book := Loaded(s.book, s.phase.pm.address, 1), phase := Counted(s.phase.n, s.phase.pm))
    case Commit =>
      if !s.phase.Counted? then s
      else s.(tasks := s.tasks[s.phase.n := s.tasks[s.phase.n].(state := Scheduled, timeout := 0, pm := s.phase.pm)],
              phase := Idle)
    case _ => s
  }

  function Next(s: Tm, e: Step): (r: Tm)
  {
    match e
    case Post(t) => s.(tasks := Added(s.tasks, Posted(t)))
    case Register(id, resources) =>
      if First(s.book.pms, AtAddress(id.address)) < MAX_PM then s
      else s.(book := Registered(s.book, id, resources))
    case Heartbeat => s.(book := Beaten(s.book), sweeping := true)
    case Reply(address) => s.(book := Answered(s.book, address))
    case RemoveFailed =>
      var i := FirstFailed(s.book);
      if i == MAX_PM then s.(sweeping := false)
      else s.(book := WithoutFailed(s.book), failing := Some(s.book.pms[i].id))
    case HandleFailure =>
      if s.failing.None? then s
      else s.(tasks := AfterPmFailure(s.tasks, s.failing.value), failing := None)
    case CountFinish(address, pid) =>
      s.(book := Loaded(s.book, address, -1), finishing := Some(Report.Report(address, pid)))
    case ListFinish =>
      if s.finishing.None? then s
      else s.(tasks := AfterFinish(s.tasks, s.finishing.value.pid), finishing := None)
    case ResetList => s.(tasks := Cleared(s.tasks), resets := s.resets + 1, resetFlag := true)
    case ResetCounters => if s.resets == 0 then s else s.(book := Unloaded(s.book), resets := s.resets - 1)
    case Recover(address, t) =>
      s.(nextPid := if t.pid >= s.nextPid then t.pid + 1 else s.nextPid,
         recovering := Some(Recovery(address, t, false)))
    case RecoverList =>
      if s.recovering.None? then s
      else s.(tasks := Added(s.tasks, Recovered(s.recovering.value.t)),
              recovering := Some(s.recovering.value.(listed := true)))
    case RecoverCount =>
      if s.recovering.None? then s
      else s.(book := Loaded(s.book, s.recovering.value.address, 1), recovering := None)
    case DropPreference(resources) => s.(tasks := WithoutPreference(s.tasks, resources))
    case _ => SchedulerNext(s, e)
  }

  /** The Scheduler has a task and a PM, and holds the list mutex to send the task. */
  predicate AtSend(s: Tm)
  {
    (s.phase.Picked? && s.tasks[s.phase.n].timeout == 0) || s.phase.Ready?
  }

  /** The Listener handles one message at a time: no finish report and no running-task report is half handled. */
  predicate ListenerFree(s: Tm) {
    s.finishing.None? && s.recovering.None?
  }

  /**
   * When the locks and the program order of each thread let a step happen. Steps that touch the task list need its
   * mutex, which the Scheduler keeps from its look at the list to the commit, except while it sleeps. Send and commit
   * index the list, which throws for an inactive slot; nobody catches that, and the process ends.
   */
  predicate Enabled(s: Tm, e: Step)
  {
    match e
    case Post(_) => !s.phase.Busy() && ListenerFree(s)
    case Register(_, _) => ListenerFree(s)
    case Heartbeat => !s.sweeping && s.failing.None?
    case Reply(_) => s.sweeping && s.failing.None?
    case RemoveFailed => s.sweeping && s.failing.None?
    case HandleFailure => !s.phase.Busy() && s.failing.Some?
    case Look => s.phase.Idle?
    case Search => s.phase.Seeking?
    case Sleep => s.phase.Picked? && s.tasks[s.phase.n].timeout != 0
    case CheckReset => s.phase.Asleep?
    case Resume => s.phase.Awake?
    case Send => AtSend(s) && !s.tasks[s.phase.n].state.Inactive?
    case CountStart => s.phase.Sent?
    case Commit => s.phase.Counted? && !s.tasks[s.phase.n].state.Inactive?
    case CountFinish(_, _) => ListenerFree(s)
    case ListFinish => !s.phase.Busy() && s.finishing.Some?
    case ResetList => !s.phase.Busy()
    case ResetCounters => s.resets > 0
    case Recover(_, _) => ListenerFree(s)
    case RecoverList => !s.phase.Busy() && s.recovering.Some? && !s.recovering.value.listed
    case RecoverCount => s.recovering.Some? && s.recovering.value.listed
    case DropPreference(_) => s.phase.Idle?
  }

  function Run(s: Tm, es: seq<Step>): (r: Tm)
    decreases |es|
  {
    if |es| == 0 then s else Run(Next(s, es[0]), es[1..])
  }

  ghost predicate EnabledRun(s: Tm, es: seq<Step>)
    decreases |es|
  {
    |es| > 0 ==> Enabled(s, es[0]) && EnabledRun(Next(s, es[0]), es[1..])
  }

  /** A run and one step more. */
  lemma {:induction false} RunExtends(s: Tm, es: seq<Step>, e: Step)
    ensures Run(s, es + [e]) == Next(Run(s, es), e)
    ensures EnabledRun(s, es + [e]) <==> EnabledRun(s, es) && Enabled(Run(s, es), e)
    decreases |es|
  {
    if |es| == 0 {
      assert es + [e] == [e] && [e][1..] == [];
    } else {
      assert (es + [e])[1..] == es[1..] + [e];
      RunExtends(Next(s, es[0]), es[1..], e);
    }
  }

  // ----- the PM table and the slots of the task table -----

  ghost predicate BookSound(b: Book) {
    && UniqueAddresses(b)
    && forall i :: 0 <= i < MAX_PM ==>
                     if b.pms[i].inUse then b.pms[i].id.port == PORT_PM else b.pms[i].resources == NO_RESOURCES
  }

  /** No PM is registered at this address. */
  ghost predicate NobodyAt(b: Book, address: nat) {
    forall i :: 0 <= i < |b.pms| && b.pms[i].inUse ==> b.pms[i].id.address != address
  }

  lemma NobodyIsFound(b: Book, address: nat)
    ensures NobodyAt(b, address) <==> First(b.pms, AtAddress(address)) == |b.pms|
  {
    assert forall i :: 0 <= i < |b.pms| ==>
                         (AtAddress(address)(b.pms[i]) <==> b.pms[i].inUse && b.pms[i].id.address == address);
  }

  /** A registered PM with this identifier. */
  ghost predicate IsRegistered(b: Book, id: ComponentId) {
    exists i :: 0 <= i < |b.pms| && b.pms[i].inUse && b.pms[i].id == id
  }

  ghost predicate SlotsSound(s: Tm) {
    && (forall i :: 0 <= i < |s.tasks| && s.tasks[i].state.Inactive? ==> s.tasks[i] == BLANK)
    && (s.failing.Some? ==> s.failing.value.port == PORT_PM)
    && (s.phase.HasPm() || s.phase.Sleeping() ==> s.phase.pm.port == PORT_PM)
  }

  /** Registered, or removed with its PMFailure still to come. */
  ghost predicate Accounted(s: Tm, id: ComponentId) {
    IsRegistered(s.book, id) || s.failing == Some(id)
  }

  /** Every binding that a scheduled task or the Scheduler holds is accounted for. */
  ghost predicate Bound(s: Tm) {
    && (forall i :: 0 <= i < |s.tasks| && s.tasks[i].state.Scheduled? && s.tasks[i].pm != NO_COMPONENT ==>
                      Accounted(s, s.tasks[i].pm))
    && (s.phase.HasPm() ==> Accounted(s, s.phase.pm))
  }

  ghost predicate Sound(s: Tm) {
    && BookSound(s.book)
    && SlotsSound(s)
    && Bound(s)
  }

  /**
   * When the Scheduler takes the list mutex again after a sleep, its PM is still accounted for. The code does not
   * check it.
   */
  ghost predicate WakesSafely(s: Tm, e: Step)
  {
    e.Resume? && s.phase.Awake? ==> Accounted(s, s.phase.pm)
  }

  ghost predicate SafeRun(s: Tm, es: seq<Step>)
    decreases |es|
  {
    |es| > 0 ==> WakesSafely(s, es[0]) && SafeRun(Next(s, es[0]), es[1..])
  }

  lemma LoadedKeepsBook(b: Book, address: nat, delta: int)
    requires BookSound(b)
    ensures BookSound(Loaded(b, address, delta))
    ensures forall id :: IsRegistered(b, id) <==> IsRegistered(Loaded(b, address, delta), id)
  {
    var c := Loaded(b, address, delta);
    assert |c.pms| == |b.pms|;
    assert forall i :: 0 <= i < MAX_PM ==> c.pms[i] == b.pms[i].(tasks := c.pms[i].tasks);
    SameIds(b, c);
  }

  lemma SameIds(b: Book, c: Book)
    requires |b.pms| == |c.pms|
    requires forall i :: 0 <= i < |b.pms| ==> b.pms[i].inUse == c.pms[i].inUse && b.pms[i].id == c.pms[i].id
    ensures forall id :: IsRegistered(b, id) <==> IsRegistered(c, id)
  {}

  lemma RegisteredKeepsBook(b: Book, id: ComponentId, resources: Resources)
    requires BookSound(b) && First(b.pms, AtAddress(id.address)) == MAX_PM
    ensures BookSound(Registered(b, id, resources))
    ensures forall x :: IsRegistered(b, x) ==> IsRegistered(Registered(b, id, resources), x)
  {
    var c := Registered(b, id, resources);
    var i := First(b.pms, IsFree());
    forall k | 0 <= k < MAX_PM && b.pms[k].inUse
      ensures b.pms[k].id.address != id.address && k != i && c.pms[k] == b.pms[k]
    {
      assert !AtAddress(id.address)(b.pms[k]);
      assert i < MAX_PM ==> IsFree()(b.pms[i]);
    }
    forall x | IsRegistered(b, x)
      ensures IsRegistered(c, x)
    {
      var k :| 0 <= k < |b.pms| && b.pms[k].inUse && b.pms[k].id == x;
      assert c.pms[k].id == x;
    }
  }

  lemma RemovalKeepsBook(b: Book)
    requires BookSound(b) && FirstFailed(b) < MAX_PM
    ensures BookSound(WithoutFailed(b))
    ensures forall x :: IsRegistered(b, x) && x != b.pms[FirstFailed(b)].id ==> IsRegistered(WithoutFailed(b), x)
    ensures forall k :: 0 <= k < MAX_PM && WithoutFailed(b).pms[k].inUse ==>
                          WithoutFailed(b).pms[k] == b.pms[k]
                          && b.pms[k].id.address != b.pms[FirstFailed(b)].id.address
  {
    var c := WithoutFailed(b);
    var i := FirstFailed(b);
    forall x | IsRegistered(b, x) && x != b.pms[i].id
      ensures IsRegistered(c, x)
    {
      var k :| 0 <= k < |b.pms| && b.pms[k].inUse && b.pms[k].id == x;
      assert c.pms[k] == b.pms[k];
    }
  }

  /**
   * FindPMID never looks at `in_use`, yet the PM it finds is always registered: an unused record has its
   * resources cleared, and so carries no node id to match.
   */
  lemma PreferredPmIsRegistered(b: Book, resources: Resources)
    requires BookSound(b) && resources.pmId != 0 && First(b.pms, Prefers(resources)) < MAX_PM
    ensures b.pms[First(b.pms, Prefers(resources))].inUse
  {}

  /** A lookup moves at most the persistent index and the phase, and only ever finds a registered PM. */
  lemma SearchFindsRegistered(s: Tm)
    requires BookSound(s.book) && s.phase.Seeking?
    ensures var r := AfterSearch(s);
            && r == s.(book := r.book, phase := r.phase) && r.book == s.book.(index := r.book.index)
            && (r.phase.Picked? ==> r.phase.n == s.phase.n && IsRegistered(s.book, r.phase.pm))
            && (r.phase.Idle? || r.phase.Picked? || (r.phase.Seeking? && r.phase.n == s.phase.n))
  {
    var resources := s.tasks[s.phase.n].resources;
    if resources.pmId != 0 {
      if First(s.book.pms, Prefers(resources)) < MAX_PM { PreferredPmIsRegistered(s.book, resources); }
    }
  }

  /** Whatever the loads, the search only picks a registered PM of the right kind and with enough memory. */
  lemma {:induction false} ChosenIsSuitable(b: Book, j: nat, t: Resources)
    requires j <= MAX_JOBS
    ensures var c := Chosen(b, j, t).0;
            c.Some? ==>
              var p := b.pms[c.value];
              p.inUse && p.resources.arch == t.arch && p.resources.os == t.os && p.resources.mem >= t.mem
    decreases MAX_JOBS - j
  {
    if j < MAX_JOBS {
      LookupFits(b, j, t);
      if Scanned(b, j, t).0.None? { ChosenIsSuitable(Scanned(b, j, t).1, j + 1, t); }
    }
  }

  lemma ChoiceIsRegistered(b: Book, resources: Resources)
    requires BookSound(b) && Choice(b, resources).0.Some?
    ensures b.pms[Choice(b, resources).0.value].inUse
  {
    if resources.pmId != 0 {
      PreferredPmIsRegistered(b, resources);
    } else {
      ChosenIsSuitable(b, 0, resources);
    }
  }

  lemma OthersAddNobody(s: Tm, e: Step, k: nat)
    requires !e.Register? && k < MAX_PM && Next(s, e).book.pms[k].inUse
    ensures s.book.pms[k].inUse && Next(s, e).book.pms[k].id == s.book.pms[k].id
  {
    if OfScheduler(e) {
      assert !e.CountStart? ==> Next(s, e).book.pms == s.book.pms;
    } else if !OnPmTable(e) {
      assert Next(s, e).book == s.book;
    }
  }

  /**
   * A registration checks that the address is unknown and then adds the PM, under the mutex twice. Only the Listener
   * registers, one message at a time, and no step of any other thread makes an unknown address known, so nothing is
   * lost by taking the two as one step.
   */
  lemma UnknownStaysUnknown(s: Tm, e: Step, address: nat)
    requires !e.Register? && NobodyAt(s.book, address)
    ensures NobodyAt(Next(s, e).book, address)
  {
    forall k | 0 <= k < MAX_PM && Next(s, e).book.pms[k].inUse
      ensures Next(s, e).book.pms[k].id.address != address
    {
      OthersAddNobody(s, e, k);
    }
  }

  // ----- the search, when no other thread comes between its lookups -----

  /** Lookups until the search is over. */
  function Sought(s: Tm): (r: Tm)
    ensures !r.phase.Seeking?
    decreases LookupsLeft(s.phase)
  {
    if s.phase.Seeking? then Sought(AfterSearch(s)) else s
  }

  /** Where a whole search from this state ends, by the specification. */
  function AfterChoice(s: Tm): Tm
    requires s.phase.Seeking? && s.phase.load <= MAX_JOBS
  {
    var c := Chosen(s.book, s.phase.load, s.tasks[s.phase.n].resources);
    s.(book := c.1, phase := if c.0.Some? then Picked(s.phase.n, s.book.pms[c.0.value].id) else Idle)
  }

  /** Uninterrupted lookups find what the specification of the whole search chooses. */
  lemma {:induction false} SoughtIsChosen(s: Tm)
    requires s.phase.Seeking? && s.phase.load < MAX_JOBS && s.tasks[s.phase.n].resources.pmId == 0
    ensures Sought(s) == AfterChoice(s)
    decreases MAX_JOBS - s.phase.load
  {
    var r := AfterSearch(s);
    ChoiceMovesOn(s);
    if r.phase.Seeking? {
      SoughtIsChosen(r);
      assert Sought(s) == Sought(r);
    } else {
      assert Sought(s) == r;
    }
  }

  /** A lookup that finds nobody leaves the choice where it was; any other, and the last one, makes it. */
  lemma ChoiceMovesOn(s: Tm)
    requires s.phase.Seeking? && s.phase.load < MAX_JOBS && s.tasks[s.phase.n].resources.pmId == 0
    ensures var r := AfterSearch(s);
            if r.phase.Seeking? then
              && r.phase.load == s.phase.load + 1 < MAX_JOBS && r.tasks == s.tasks && r.phase.n == s.phase.n
              && AfterChoice(r) == AfterChoice(s)
            else r == AfterChoice(s)
  {
    LastOrMiss(s.book, s.phase.load, s.tasks[s.phase.n].resources);
    if AfterSearch(s).phase.Seeking? {
      MissMovesOn(s);
    }
  }

  lemma MissMovesOn(s: Tm)
    requires s.phase.Seeking? && s.phase.load < MAX_JOBS && s.tasks[s.phase.n].resources.pmId == 0
    requires AfterSearch(s).phase.Seeking?
    ensures var r := AfterSearch(s);
            && r.phase == Seeking(s.phase.n, s.phase.load + 1) && s.phase.load + 1 < MAX_JOBS && r.tasks == s.tasks
            && AfterChoice(r) == AfterChoice(s)
  {
    var t, j := s.tasks[s.phase.n].resources, s.phase.load;
    LastOrMiss(s.book, j, t);
    var c := Scanned(s.book, j, t);
    assert c.0.None? && AfterSearch(s) == s.(book := c.1, phase := Seeking(s.phase.n, j + 1));
  }

  /** A search goes on from a lookup exactly when it finds nobody and some load is left. */
  lemma LastOrMiss(b: Book, j: nat, resources: Resources)
    requires j < MAX_JOBS
    ensures var c := Scanned(b, j, resources);
            Chosen(b, j, resources) == if c.0.Some? || j + 1 == MAX_JOBS then c else Chosen(c.1, j + 1, resources)
  {}

  /** Steps the Scheduler takes. */
  predicate OfScheduler(e: Step) {
    e.Look? || e.Search? || e.Sleep? || e.CheckReset? || e.Resume? || e.Send? || e.CountStart? || e.Commit?
  }

  /** Steps of the other threads that do not touch the task list. */
  predicate OnPmTable(e: Step) {
    || e.Register? || e.Heartbeat? || e.Reply? || e.RemoveFailed? || e.CountFinish? || e.ResetCounters? || e.Recover?
    || e.RecoverCount?
  }

  lemma SchedulerKeepsSound(s: Tm, e: Step)
    requires Sound(s) && Enabled(s, e) && WakesSafely(s, e) && OfScheduler(e)
    ensures Sound(Next(s, e))
  {
    match e {
      case Search => SearchKeepsSound(s);
      case CountStart => LoadedKeepsBook(s.book, s.phase.pm.address, 1);
      case _ =>
    }
  }

  lemma SearchKeepsSound(s: Tm)
    requires Sound(s) && s.phase.Seeking?
    ensures Sound(AfterSearch(s))
  {
    var r := AfterSearch(s);
    SearchFindsRegistered(s);
    SameIds(s.book, r.book);
  }

  lemma BookKeepsSound(s: Tm, r: Tm)
    requires Sound(s) && r.tasks == s.tasks && r.phase == s.phase && r.failing == s.failing && BookSound(r.book)
    requires forall id :: IsRegistered(s.book, id) ==> IsRegistered(r.book, id)
    ensures Sound(r)
  {
    assert forall id :: Accounted(s, id) ==> Accounted(r, id);
  }

  lemma RemovalKeepsSound(s: Tm)
    requires Sound(s) && s.failing.None?
    ensures Sound(Next(s, RemoveFailed))
  {
    if FirstFailed(s.book) < MAX_PM { RemovalKeepsBook(s.book); }
  }

  lemma PmTableKeepsSound(s: Tm, e: Step)
    requires Sound(s) && Enabled(s, e) && OnPmTable(e)
    ensures Sound(Next(s, e))
  {
    var r := Next(s, e);
    if e.RemoveFailed? {
      RemovalKeepsSound(s);
    } else {
      match e {
        case Register(id, resources) =>
          if First(s.book.pms, AtAddress(id.address)) == MAX_PM { RegisteredKeepsBook(s.book, id, resources); }
        case CountFinish(address, _) => LoadedKeepsBook(s.book, address, -1);
        case RecoverCount => LoadedKeepsBook(s.book, s.recovering.value.address, 1);
        case _ => SameIds(s.book, r.book);
      }
      BookKeepsSound(s, r);
    }
  }

  /** The task table changes; no slot takes up a binding, and a task that is being scheduled stays as it is. */
  lemma TasksKeepSound(s: Tm, r: Tm)
    requires Sound(s) && r.book == s.book && r.phase == s.phase && !s.phase.Busy()
    requires r.failing == s.failing
    requires forall i :: 0 <= i < NUMTASKS ==>
                           && (r.tasks[i].state.Inactive? ==> r.tasks[i] == BLANK)
                           && (r.tasks[i].state.Scheduled? ==>
                                 || r.tasks[i].pm == NO_COMPONENT
                                 || (s.tasks[i].state.Scheduled? && r.tasks[i].pm == s.tasks[i].pm))
    ensures Sound(r)
  {
    assert forall id :: Accounted(s, id) ==> Accounted(r, id);
  }

  lemma HandlingKeepsSound(s: Tm)
    requires Sound(s) && Enabled(s, HandleFailure)
    ensures Sound(Next(s, HandleFailure))
  {
    var r := Next(s, HandleFailure);
    assert forall i :: 0 <= i < NUMTASKS ==> r.tasks[i] == Unbound(s.tasks[i], s.failing.value);
  }

  lemma TaskListKeepsSound(s: Tm, e: Step)
    requires Sound(s) && Enabled(s, e) && !OfScheduler(e) && !OnPmTable(e)
    ensures Sound(Next(s, e))
  {
    var r := Next(s, e);
    if e.HandleFailure? {
      HandlingKeepsSound(s);
    } else {
      if e.DropPreference? {
        assert forall i :: 0 <= i < NUMTASKS ==> r.tasks[i] == Unpreferred(s.tasks[i], e.resources);
      }
      TasksKeepSound(s, r);
    }
  }

  /** No step of any thread breaks the binding invariant: only the wake needs an assumption. */
  lemma StepKeepsSound(s: Tm, e: Step)
    requires Sound(s) && Enabled(s, e) && WakesSafely(s, e)
    ensures Sound(Next(s, e))
  {
    if OfScheduler(e) {
      SchedulerKeepsSound(s, e);
    } else if OnPmTable(e) {
      PmTableKeepsSound(s, e);
    } else {
      TaskListKeepsSound(s, e);
    }
  }

  lemma {:induction false} RunKeepsSound(s: Tm, es: seq<Step>)
    requires Sound(s) && EnabledRun(s, es) && SafeRun(s, es)
    ensures Sound(Run(s, es))
    decreases |es|
  {
    if |es| > 0 {
      StepKeepsSound(s, es[0]);
      RunKeepsSound(Next(s, es[0]), es[1..]);
    }
  }

  /** With no failure half handled, every binding of a scheduled task names a registered PM. */
  ghost predicate BoundToRegistered(s: Tm) {
    forall i :: 0 <= i < |s.tasks| && s.tasks[i].state.Scheduled? && s.tasks[i].pm != NO_COMPONENT ==>
                  IsRegistered(s.book, s.tasks[i].pm)
  }

  lemma BoundAtRest(s: Tm)
    requires Sound(s) && s.failing.None?
    ensures BoundToRegistered(s)
  {}

  /**
   * In every interleaving: once no failure is half handled, no scheduled task is bound to a PM that is not
   * registered, whether the PM was removed before, during or after the Scheduler's decision. Only the sleep of a task
   * with a scheduling interval can break this, by a wake that is not safe.
   */
  lemma {:induction false} NoTaskBoundToRemovedPm(es: seq<Step>)
    requires EnabledRun(START, es) && SafeRun(START, es) && Run(START, es).failing.None?
    ensures BoundToRegistered(Run(START, es))
  {
    RunKeepsSound(START, es);
    BoundAtRest(Run(START, es));
  }

  // ----- wakes to a slot that was given up during the sleep -----

  /** The Scheduler is about to index a slot that has become inactive while it slept. */
  predicate Throws(s: Tm)
  {
    AtSend(s) && s.tasks[s.phase.n].state.Inactive?
  }

  /** Between its look and its commit the Scheduler keeps its task pending, unless it sleeps or has slept. */
  ghost predicate TaskHeld(s: Tm)
  {
    && (s.phase.Seeking? || s.phase.Picked? ==> s.tasks[s.phase.n].state.Pending?)
    && (s.phase.Sent? || s.phase.Counted? ==> !s.tasks[s.phase.n].state.Inactive?)
  }

  lemma SchedulerKeepsTaskHeld(s: Tm, e: Step)
    requires BookSound(s.book) && TaskHeld(s) && Enabled(s, e) && OfScheduler(e)
    ensures TaskHeld(Next(s, e))
  {
    match e {
      case Look =>
        var n := First(s.tasks, IsPending());
        if n < NUMTASKS { assert IsPending()(s.tasks[n]); }
      case Search => SearchFindsRegistered(s);
      case _ =>
    }
  }

  lemma StepKeepsTaskHeld(s: Tm, e: Step)
    requires BookSound(s.book) && TaskHeld(s) && Enabled(s, e)
    ensures TaskHeld(Next(s, e))
  {
    if OfScheduler(e) {
      SchedulerKeepsTaskHeld(s, e);
    } else {
      assert Next(s, e).phase == s.phase && (s.phase.Busy() ==> Next(s, e).tasks == s.tasks);
    }
  }

  lemma StepKeepsBook(s: Tm, e: Step)
    requires BookSound(s.book) && Enabled(s, e)
    ensures BookSound(Next(s, e).book)
  {
    match e {
      case Register(id, resources) =>
        if First(s.book.pms, AtAddress(id.address)) == MAX_PM { RegisteredKeepsBook(s.book, id, resources); }
      case RemoveFailed => if FirstFailed(s.book) < MAX_PM { RemovalKeepsBook(s.book); }
      case CountStart => LoadedKeepsBook(s.book, s.phase.pm.address, 1);
      case CountFinish(address, _) => LoadedKeepsBook(s.book, address, -1);
      case RecoverCount => LoadedKeepsBook(s.book, s.recovering.value.address, 1);
      case Search => SearchFindsRegistered(s);
      case _ =>
    }
  }

  lemma {:induction false} RunKeepsTaskHeld(s: Tm, es: seq<Step>)
    requires BookSound(s.book) && TaskHeld(s) && EnabledRun(s, es)
    ensures BookSound(Run(s, es).book) && TaskHeld(Run(s, es))
    decreases |es|
  {
    if |es| > 0 {
      StepKeepsTaskHeld(s, es[0]);
      StepKeepsBook(s, es[0]);
      RunKeepsTaskHeld(Next(s, es[0]), es[1..]);
    }
  }

  /** In every run whatsoever, only a Scheduler that has slept finds its slot inactive. */
  lemma {:induction false} OnlySleepersThrow(es: seq<Step>)
    requires EnabledRun(START, es) && Run(START, es).phase.Busy()
    requires Run(START, es).tasks[Run(START, es).phase.n].state.Inactive?
    ensures Run(START, es).phase.Ready? && Throws(Run(START, es))
  {
    RunKeepsTaskHeld(START, es);
  }

  /** It never goes on: what other threads may still do leaves the Scheduler and the list as they are. */
  lemma {:induction false} ThrowIsFinal(s: Tm, es: seq<Step>)
    requires s.phase.Ready? && Throws(s) && EnabledRun(s, es)
    ensures Run(s, es).phase == s.phase && Run(s, es).tasks == s.tasks
    ensures forall i :: 0 <= i < |es| ==> !OfScheduler(es[i])
    decreases |es|
  {
    if |es| > 0 {
      OthersPassBy(s, es[0]);
      assert forall i :: 1 <= i < |es| ==> es[i] == es[1..][i - 1];
      ThrowIsFinal(Next(s, es[0]), es[1..]);
    }
  }

  lemma OthersPassBy(s: Tm, e: Step)
    requires s.phase.Ready? && Throws(s) && Enabled(s, e)
    ensures !OfScheduler(e) && Next(s, e).phase == s.phase && Next(s, e).tasks == s.tasks
  {}

  // ----- runs without scheduling intervals -----

  /** Tasks are posted without a scheduling interval. */
  ghost predicate PromptRun(es: seq<Step>) {
    forall i :: 0 <= i < |es| && es[i].Post? ==> es[i].t.timeout == 0
  }

  ghost predicate NoIntervals(s: Tm) {
    !s.phase.Sleeping() && forall i :: 0 <= i < |s.tasks| ==> s.tasks[i].timeout == 0
  }

  lemma SchedulerKeepsNoIntervals(s: Tm, e: Step)
    requires NoIntervals(s) && Enabled(s, e) && OfScheduler(e)
    ensures NoIntervals(Next(s, e))
  {
    var r := Next(s, e);
    if e.Send? || e.Commit? {
      assert r.tasks == s.tasks[s.phase.n := r.tasks[s.phase.n]] && r.tasks[s.phase.n].timeout == 0;
    } else {
      assert r.tasks == s.tasks;
    }
  }

  lemma StepKeepsNoIntervals(s: Tm, e: Step)
    requires NoIntervals(s) && Enabled(s, e) && (e.Post? ==> e.t.timeout == 0)
    ensures NoIntervals(Next(s, e))
  {
    var r := Next(s, e);
    if OfScheduler(e) {
      SchedulerKeepsNoIntervals(s, e);
    } else if OnPmTable(e) {
      assert r.tasks == s.tasks && r.phase == s.phase;
    } else if e.HandleFailure? {
      assert forall i :: 0 <= i < NUMTASKS ==> r.tasks[i] == Unbound(s.tasks[i], s.failing.value);
    } else if e.DropPreference? {
      assert forall i :: 0 <= i < NUMTASKS ==> r.tasks[i] == Unpreferred(s.tasks[i], e.resources);
    }
  }

  /** Without intervals the Scheduler never sleeps with a PM in mind, and every run is safe. */
  lemma {:induction false} PromptRunIsSafe(s: Tm, es: seq<Step>)
    requires NoIntervals(s) && EnabledRun(s, es) && PromptRun(es)
    ensures SafeRun(s, es)
    decreases |es|
  {
    if |es| > 0 {
      StepKeepsNoIntervals(s, es[0]);
      assert forall i :: 0 <= i < |es| - 1 ==> es[1..][i] == es[i + 1];
      PromptRunIsSafe(Next(s, es[0]), es[1..]);
    }
  }

  lemma {:induction false} PromptTasksStayBound(es: seq<Step>)
    requires EnabledRun(START, es) && PromptRun(es) && Run(START, es).failing.None?
    ensures BoundToRegistered(Run(START, es))
  {
    PromptRunIsSafe(START, es);
    NoTaskBoundToRemovedPm(es);
  }

  /**
   * The commit of a task is safe exactly when the PM remembered since the search is still accounted for. The list
   * mutex guarantees it; a Scheduler that slept in between does not have it.
   */
  lemma CommitIsSafeIff(s: Tm)
    requires s.phase.Counted? && s.phase.pm != NO_COMPONENT
    requires Bound(s.(phase := Idle))
    ensures Bound(Next(s, Commit)) <==> Accounted(s, s.phase.pm)
  {
    var r := Next(s, Commit);
    assert forall id :: Accounted(r, id) == Accounted(s, id) == Accounted(s.(phase := Idle), id);
    assert r.tasks[s.phase.n].pm == s.phase.pm && r.tasks[s.phase.n].state.Scheduled?;
    forall i | 0 <= i < NUMTASKS && i != s.phase.n && r.tasks[i].state.Scheduled? && r.tasks[i].pm != NO_COMPONENT
      ensures Accounted(r, r.tasks[i].pm)
    {
      assert r.tasks[i] == s.tasks[i];
    }
  }
}
