/** The debounced saving of configurations (core/src/config.cpp) as a transition system. Any
    number of client threads use any number of managers, each with its save job; one worker
    thread saves them. A step is one region executed under a lock, or one atomic access. */
module AutoSave {
  import opened Lists

  type Edit = int

  // steady_clock ticks in a second
  const SECOND: nat := 1000

  datatype Life = Alive | Dying | Dead
  datatype Owner = Nobody | Client(t: nat) | Worker

  /** A ConfigManager and its SaveJob. The configuration is the list of edits made to it, `saved`
      the snapshot last passed to save(), `released` the number of edits made when release(true)
      was last called. `attached` says that the job's back pointer is not null. */
  datatype Manager = Manager(
    life: Life, mtx: Owner, conf: seq<Edit>, changed: bool, autoSave: bool, saved: seq<Edit>, released: nat,
    attached: bool, queued: bool, due: nat)

  datatype Reason = Disable | Destroy | Final

  /** Where a client thread is:
      Idle                 in no operation
      Holding(m)           between acquire() and release()
      Changed(m)           in release(true), about to read autoSaveEnabled
      Unlocking(m, job)    in release(), about to unlock; job: it has copied the job pointer
      EnqueueWait(m, copy) in enqueue(), wants the queue mutex (copy: called from release())
      EnqueueHold(m, copy) in enqueue(), holds the queue mutex and wants the job's
      Enabling(m)          in enableAutoSave(), wants the job's mutex
      Unlisting(m, why)    in cancel(), before its first region
      Detaching(m, why)    in cancel(), before its second region */
  datatype Pc =
    | Idle
    | Holding(m: nat)
    | Changed(m: nat)
    | Unlocking(m: nat, job: bool)
    | EnqueueWait(m: nat, copy: bool)
    | EnqueueHold(m: nat, copy: bool)
    | Enabling(m: nat)
    | Unlisting(m: nat, why: Reason)
    | Detaching(m: nat, why: Reason)

  /** Where the worker is: waiting for the queue to change, or for a time; about to look at the
      queue; with a job popped; with the job's mutex; with the manager's mutex too; done with the
      manager; about to unlock the job; in enqueue() for a retry. */
  datatype WorkerPc =
    | Asleep
    | AsleepUntil(due: nat)
    | Awake
    | Popped(m: nat)
    | InJob(m: nat)
    | Locked(m: nat)
    | Checked(m: nat)
    | Leaving(m: nat)
    | RetryWait(m: nat)
    | RetryHold(m: nat)

  /** `queue` is the worker's job list, `holder` who holds its mutex between steps. */
  datatype State = State(
    mgrs: seq<Manager>, threads: seq<Pc>, queue: seq<nat>, holder: Owner, worker: WorkerPc, now: nat)

  // The worker holds the mutex of job m.
  predicate HasJob(w: WorkerPc, m: nat) {
    w == InJob(m) || w == Locked(m) || w == Checked(m) || w == Leaving(m)
  }

  // notify_one on the condition variable
  function Woken(w: WorkerPc): WorkerPc { if w.Asleep? || w.AsleepUntil? then Awake else w }

  // ---- the queue

  /** The first position of the least due time (std::min_element). */
  function Earliest(dues: seq<nat>): (r: nat)
    requires dues != []
    ensures r < |dues| && forall k :: 0 <= k < |dues| ==> dues[r] <= dues[k] && (k < r ==> dues[r] < dues[k])
  {
    if |dues| == 1 then 0
    else
      var r := Earliest(dues[..|dues| - 1]);
      if dues[|dues| - 1] < dues[r] then |dues| - 1 else r
  }

  function Dues(mgrs: seq<Manager>, queue: seq<nat>): (r: seq<nat>)
    requires forall m :: m in queue ==> m < |mgrs|
    ensures |r| == |queue| && forall k :: 0 <= k < |queue| ==> queue[k] < |mgrs| && r[k] == mgrs[queue[k]].due
  {
    if queue == [] then []
    else
      assert queue[0] in queue && forall m :: m in queue[1..] ==> m in queue;
      [mgrs[queue[0]].due] + Dues(mgrs, queue[1..])
  }

  // ---- what a region does to the state

  function SetThread(st: State, t: nat, pc: Pc): State
    requires t < |st.threads|
  {
    st.(threads := st.threads[t := pc])
  }

  function SetMgr(st: State, m: nat, g: Manager): State
    requires m < |st.mgrs|
  {
    st.(mgrs := st.mgrs[m := g])
  }

  // enqueue(), with both mutexes
  function Enqueued(st: State, m: nat): State
    requires m < |st.mgrs|
  {
    var g := st.mgrs[m];
    if !g.attached then st.(holder := Nobody)
    else SetMgr(st, m, g.(due := st.now + SECOND, queued := true))
         .(queue := if g.queued then st.queue else st.queue + [m], holder := Nobody, worker := Woken(st.worker))
  }

  // ---- client threads

  predicate Uses(pc: Pc, m: nat) {
    match pc
    case Idle => false
    case Holding(x) => x == m
    case Changed(x) => x == m
    case Unlocking(x, _) => x == m
    case EnqueueWait(x, copy) => x == m && !copy
    case EnqueueHold(x, copy) => x == m && !copy
    case Enabling(x) => x == m
    case Unlisting(x, _) => x == m
    case Detaching(x, _) => x == m
  }

  // In enableAutoSave or disableAutoSave (or the destructor) of m.
  predicate Switches(pc: Pc, m: nat) {
    match pc
    case EnqueueWait(x, copy) => x == m && !copy
    case EnqueueHold(x, copy) => x == m && !copy
    case Enabling(x) => x == m
    case Unlisting(x, _) => x == m
    case Detaching(x, _) => x == m
    case _ => false
  }

  /** No thread is inside the manager: what C++ asks for before it is destroyed. */
  predicate Unused(st: State, m: nat) { forall u :: 0 <= u < |st.threads| ==> !Uses(st.threads[u], m) }

  /** No thread is switching autosave of the manager on or off. */
  predicate Settled(st: State, m: nat) { forall u :: 0 <= u < |st.threads| ==> !Switches(st.threads[u], m) }

  /** The calls a thread can make. With `serial`, enableAutoSave and disableAutoSave of a manager
      are called one at a time. */
  datatype Call = Acquire(m: nat) | Enable(m: nat) | DisableIt(m: nat) | DestroyIt(m: nat)

  predicate CanCall(st: State, serial: bool, t: nat, c: Call) {
    && t < |st.threads| && st.threads[t].Idle? && c.m < |st.mgrs| && st.mgrs[c.m].life.Alive?
    && match c
       case Acquire(m) => st.mgrs[m].mtx.Nobody?
       case Enable(m) => serial ==> Settled(st, m)
       case DisableIt(m) => serial ==> Settled(st, m)
       case DestroyIt(m) => Unused(st, m)
  }

  function Called(st: State, t: nat, c: Call): State
    requires t < |st.threads| && c.m < |st.mgrs|
  {
    var g := st.mgrs[c.m];
    match c
    case Acquire(m) => SetThread(SetMgr(st, m, g.(mtx := Client(t))), t, Holding(m))
    // compare_exchange, exchange
    case Enable(m) => if g.autoSave then st else SetThread(SetMgr(st, m, g.(autoSave := true)), t, Enabling(m))
    case DisableIt(m) => if !g.autoSave then st else SetThread(SetMgr(st, m, g.(autoSave := false)), t, Unlisting(m, Disable))
    case DestroyIt(m) =>
      SetThread(SetMgr(st, m, g.(life := Dying, autoSave := false)), t, Unlisting(m, if g.autoSave then Destroy else Final))
  }

  /** What the caller does while it holds the manager: edit the configuration, or release it. */
  predicate CanEdit(st: State, t: nat) { t < |st.threads| && st.threads[t].Holding? && st.threads[t].m < |st.mgrs| }

  function Edited(st: State, t: nat, e: Edit): State
    requires CanEdit(st, t)
  {
    var m := st.threads[t].m;
    SetMgr(st, m, st.mgrs[m].(conf := st.mgrs[m].conf + [e]))
  }

  function Released(st: State, t: nat, modified: bool): State
    requires CanEdit(st, t)
  {
    var m := st.threads[t].m;
    if modified then
      SetThread(SetMgr(st, m, st.mgrs[m].(changed := true, released := |st.mgrs[m].conf|)), t, Changed(m))
    else SetThread(st, t, Unlocking(m, false))
  }

  /** The next step of a thread inside an operation, if its locks are free. */
  predicate CanStep(st: State, t: nat) {
    t < |st.threads| &&
    match st.threads[t]
    case Idle => false
    case Holding(m) => false
    case Changed(m) => m < |st.mgrs|
    case Unlocking(m, job) => m < |st.mgrs|
    case EnqueueWait(m, copy) => st.holder.Nobody?
    case EnqueueHold(m, copy) => m < |st.mgrs| && !HasJob(st.worker, m)
    case Enabling(m) => m < |st.mgrs| && !HasJob(st.worker, m)
    case Unlisting(m, why) => st.holder.Nobody?
    case Detaching(m, why) => m < |st.mgrs| && !HasJob(st.worker, m)
  }

  function Stepped(st: State, t: nat): State
    requires CanStep(st, t)
  {
    match st.threads[t]
    case Changed(m) => SetThread(st, t, Unlocking(m, st.mgrs[m].autoSave))
    case Unlocking(m, job) =>
      SetThread(SetMgr(st, m, st.mgrs[m].(mtx := Nobody)), t, if job then EnqueueWait(m, true) else Idle)
    case EnqueueWait(m, copy) => SetThread(st, t, EnqueueHold(m, copy)).(holder := Client(t))
    case EnqueueHold(m, copy) => SetThread(Enqueued(st, m), t, Idle)
    case Enabling(m) => SetThread(SetMgr(st, m, st.mgrs[m].(attached := true)), t, EnqueueWait(m, false))
    case Unlisting(m, why) => SetThread(st, t, Detaching(m, why)).(queue := Without(st.queue, m))
    case Detaching(m, why) =>
      var g := st.mgrs[m].(queued := false, attached := false);
      SetThread(SetMgr(st, m, if why.Final? then g.(life := Dead) else g), t, if why.Destroy? then Unlisting(m, Final) else Idle)
      .(worker := Woken(st.worker))
  }

  // ---- the worker

  predicate CanWork(st: State) {
    match st.worker
    case Asleep => true
    case AsleepUntil(_) => true
    case Awake => st.holder.Nobody? && forall m :: m in st.queue ==> m < |st.mgrs|
    case RetryWait(m) => st.holder.Nobody?
    case _ => st.worker.m < |st.mgrs|
  }

  /** The worker's next step. A sleeping worker may wake at any time, as condition variables
      allow. `spurious` lets try_lock fail on a free mutex. */
  function Worked(st: State, spurious: bool): State
    requires CanWork(st)
  {
    match st.worker
    case Asleep => st.(worker := Awake)
    case AsleepUntil(_) => st.(worker := Awake)
    case Awake =>
      if st.queue == [] then st.(worker := Asleep)
      else
        var next := Earliest(Dues(st.mgrs, st.queue));
        var m := st.queue[next];
        assert m in st.queue;
        if st.mgrs[m].due > st.now then st.(worker := AsleepUntil(st.mgrs[m].due))
        else st.(queue := st.queue[..next] + st.queue[next + 1..], worker := Popped(m))
    case Popped(m) => SetMgr(st, m, st.mgrs[m].(queued := false)).(worker := InJob(m))
    case InJob(m) =>
      if !st.mgrs[m].attached then st.(worker := Awake)
      else if st.mgrs[m].mtx.Nobody? && !spurious then SetMgr(st, m, st.mgrs[m].(mtx := Worker)).(worker := Locked(m))
      else st.(worker := RetryWait(m))
    case Locked(m) =>
      var g := st.mgrs[m];
      (if g.autoSave && g.changed then SetMgr(st, m, g.(changed := false, saved := g.conf)) else st).(worker := Checked(m))
    case Checked(m) => SetMgr(st, m, st.mgrs[m].(mtx := Nobody)).(worker := Leaving(m))
    case Leaving(m) => st.(worker := Awake)
    case RetryWait(m) => st.(holder := Worker, worker := RetryHold(m))
    case RetryHold(m) => Enqueued(st, m).(worker := Awake)
  }

  /** A step whose code goes through the manager: the worker asks for its mutex, reads its flags
      and saves it, or unlocks it. */
  predicate TouchesManager(st: State, m: nat)
    requires m < |st.mgrs|
  {
    (st.worker == InJob(m) && st.mgrs[m].attached) || st.worker == Locked(m) || st.worker == Checked(m)
  }

  // ---- the whole system

  datatype Move =
    | DoCall(t: nat, c: Call)
    | DoEdit(t: nat, e: Edit)
    | DoRelease(t: nat, modified: bool)
    | DoStep(t: nat)
    | DoWork(spurious: bool)
    | Tick

  predicate Can(st: State, serial: bool, move: Move) {
    match move
    case DoCall(t, c) => CanCall(st, serial, t, c)
    case DoEdit(t, _) => CanEdit(st, t)
    case DoRelease(t, _) => CanEdit(st, t)
    case DoStep(t) => CanStep(st, t)
    case DoWork(_) => CanWork(st)
    case Tick => true
  }

  function Do(st: State, serial: bool, move: Move): State
    requires Can(st, serial, move)
  {
    match move
    case DoCall(t, c) => Called(st, t, c)
    case DoEdit(t, e) => Edited(st, t, e)
    case DoRelease(t, modified) => Released(st, t, modified)
    case DoStep(t) => Stepped(st, t)
    case DoWork(spurious) => Worked(st, spurious)
    case Tick => st.(now := st.now + 1)
  }

  // A manager as constructed: nothing to save, autosave off, its job attached and not in the list.
  function Made(): Manager { Manager(Alive, Nobody, [], false, false, [], 0, true, false, 0) }

  /** Managers as constructed, threads that have done nothing, a worker that has just started. */
  predicate Init(st: State) {
    && (forall m :: 0 <= m < |st.mgrs| ==> st.mgrs[m] == Made())
    && (forall t :: 0 <= t < |st.threads| ==> st.threads[t] == Idle)
    && st.queue == [] && st.holder == Nobody && st.worker == Awake
  }

  /** The moves lead from st to end: any interleaving of the threads and the worker. */
  predicate Leads(serial: bool, st: State, moves: seq<Move>, end: State)
    decreases |moves|
  {
    if moves == [] then end == st
    else Can(st, serial, moves[0]) && Leads(serial, Do(st, serial, moves[0]), moves[1..], end)
  }
}
