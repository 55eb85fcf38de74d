/** Invariants of the autosave protocol: which locks are held where, no use of a destroyed manager,
    no lost update, no oversleeping worker, no cyclic wait. */
module AutoSaveInvariant {
  import opened AutoSave
  import opened Lists

  // ---- locks

  predicate HoldsMgr(pc: Pc, m: nat) { pc == Holding(m) || pc == Changed(m) || (pc.Unlocking? && pc.m == m) }
  predicate WorkerHolds(w: WorkerPc, m: nat) { w == Locked(m) || w == Checked(m) }

  /** Ids are in range, and the holder recorded for the queue mutex is the thread whose program
      counter says so. */
  ghost predicate QueueInv(st: State) {
    && (forall t :: 0 <= t < |st.threads| && !st.threads[t].Idle? ==> st.threads[t].m < |st.mgrs|)
    && (st.worker.Asleep? || st.worker.AsleepUntil? || st.worker.Awake? || st.worker.m < |st.mgrs|)
    && (forall m :: m in st.queue ==> m < |st.mgrs|)
    && (forall t :: 0 <= t < |st.threads| ==> (st.threads[t].EnqueueHold? <==> st.holder == Client(t)))
    && (st.worker.RetryHold? <==> st.holder == Worker)
    && (st.holder.Client? ==> st.holder.t < |st.threads|)
  }

  /** The owner recorded for a manager's mutex is the thread whose program counter says so. */
  ghost predicate MutexInv(st: State, m: nat)
    requires m < |st.mgrs|
  {
    && (forall t :: 0 <= t < |st.threads| ==> (HoldsMgr(st.threads[t], m) <==> st.mgrs[m].mtx == Client(t)))
    && (WorkerHolds(st.worker, m) <==> st.mgrs[m].mtx == Worker)
    && (st.mgrs[m].mtx.Client? ==> st.mgrs[m].mtx.t < |st.threads|)
  }

  // ---- lifetime

  predicate Destroying(pc: Pc, m: nat) {
    (pc.Unlisting? || pc.Detaching?) && pc.m == m && !pc.why.Disable?
  }

  /** While a manager is being destroyed only its destructor uses it; when it is dead nobody does. */
  ghost predicate UseInv(st: State, m: nat)
    requires m < |st.mgrs|
  {
    && (forall t :: 0 <= t < |st.threads| && Uses(st.threads[t], m) ==>
          if Destroying(st.threads[t], m) then st.mgrs[m].life.Dying? else st.mgrs[m].life.Alive?)
    && (forall t, u :: 0 <= t < |st.threads| && 0 <= u < |st.threads| && t != u && Destroying(st.threads[t], m) ==>
          !Destroying(st.threads[u], m))
  }

  /** A dead manager is unlocked, and its job's back pointer is null for good. */
  ghost predicate DeadInv(g: Manager) { g.life.Dead? ==> !g.attached && g.mtx.Nobody? }

  // ---- updates

  // On the way to enqueue the job.
  predicate Enqueuing(pc: Pc, m: nat) {
    match pc
    case Changed(x) => x == m
    case Unlocking(x, job) => x == m && job
    case EnqueueWait(x, _) => x == m
    case EnqueueHold(x, _) => x == m
    case Enabling(x) => x == m
    case _ => false
  }

  /** Somebody will still look at the manager's job. */
  ghost predicate Covered(st: State, m: nat) {
    || m in st.queue
    || st.worker == Popped(m) || st.worker == InJob(m) || st.worker == Locked(m)
    || st.worker == RetryWait(m) || st.worker == RetryHold(m)
    || SomeEnqueuing(st, m)
  }

  ghost predicate SomeEnqueuing(st: State, m: nat) {
    exists t :: 0 <= t < |st.threads| && Enqueuing(st.threads[t], m)
  }

  ghost predicate SomeEnabling(st: State, m: nat) {
    exists t :: 0 <= t < |st.threads| && st.threads[t] == Enabling(m)
  }

  ghost predicate SomeDetaching(st: State, m: nat) {
    exists t :: 0 <= t < |st.threads| && st.threads[t].Detaching? && st.threads[t].m == m
  }

  predicate Cancels(pc: Pc, m: nat) { (pc.Unlisting? || pc.Detaching?) && pc.m == m }

  ghost predicate SomeCancelling(st: State, m: nat) {
    exists t :: 0 <= t < |st.threads| && Cancels(st.threads[t], m)
  }

  /** One thread at a time switches autosave; while it is on, nobody is cancelling the job and its
      back pointer is set or about to be. */
  ghost predicate SwitchInv(st: State, m: nat)
    requires m < |st.mgrs|
  {
    var g := st.mgrs[m];
    && (forall t, u :: 0 <= t < |st.threads| && 0 <= u < |st.threads| && t != u && Switches(st.threads[t], m) ==>
          !Switches(st.threads[u], m))
    && (g.autoSave ==> g.attached || SomeEnabling(st, m))
    && (g.autoSave ==> forall t :: 0 <= t < |st.threads| ==> !Cancels(st.threads[t], m))
  }

  /** Whatever calls race: a job marked queued is in the list, in the worker's hands, or being
      cancelled; an unsaved change with autosave on is covered, unless the job's back pointer is
      null or about to be cleared; the worker locks the manager of a job that has one only. */
  ghost predicate CoverInv(st: State, m: nat)
    requires m < |st.mgrs|
  {
    var g := st.mgrs[m];
    && (g.queued ==> m in st.queue || st.worker == Popped(m) || SomeDetaching(st, m))
    && (g.autoSave && g.changed && g.attached ==> SomeCancelling(st, m) || Covered(st, m))
    && (WorkerHolds(st.worker, m) ==> g.attached)
  }

  /** What has been saved is a snapshot of the edits, and reaches the last release(true) unless
      the change is still marked. */
  ghost predicate SnapshotInv(g: Manager) {
    g.saved <= g.conf && g.released <= |g.conf| && (!g.changed ==> g.released <= |g.saved|)
  }

  // ---- sleeping

  /** A sleeping worker has an empty queue, or wakes by the time the first job is due. */
  ghost predicate SleepInv(st: State) {
    && (st.worker.Asleep? ==> st.queue == [])
    && (st.worker.AsleepUntil? ==> forall m :: m in st.queue && m < |st.mgrs| ==> st.worker.due <= st.mgrs[m].due)
  }

  // ---- every step keeps the locks and lifetimes

  lemma CalledKeepsQueue(st: State, serial: bool, t: nat, c: Call)
    requires QueueInv(st) && CanCall(st, serial, t, c)
    ensures QueueInv(Called(st, t, c))
  {
  }

  lemma CalledKeepsMutex(st: State, serial: bool, t: nat, c: Call, m: nat)
    requires m < |st.mgrs| && QueueInv(st) && MutexInv(st, m) && CanCall(st, serial, t, c)
    ensures MutexInv(Called(st, t, c), m)
  {
  }

  lemma CalledKeepsUse(st: State, serial: bool, t: nat, c: Call, m: nat)
    requires m < |st.mgrs| && QueueInv(st) && UseInv(st, m) && CanCall(st, serial, t, c)
    ensures UseInv(Called(st, t, c), m)
  {
  }

  lemma CalledKeepsDead(st: State, serial: bool, t: nat, c: Call, m: nat)
    requires m < |st.mgrs| && MutexInv(st, m) && UseInv(st, m) && DeadInv(st.mgrs[m]) && CanCall(st, serial, t, c)
    ensures DeadInv(Called(st, t, c).mgrs[m])
  {
  }

  lemma EditedKeepsQueue(st: State, t: nat, e: Edit)
    requires QueueInv(st) && CanEdit(st, t)
    ensures QueueInv(Edited(st, t, e))
  {
  }

  lemma EditedKeepsMutex(st: State, t: nat, e: Edit, m: nat)
    requires m < |st.mgrs| && QueueInv(st) && MutexInv(st, m) && CanEdit(st, t)
    ensures MutexInv(Edited(st, t, e), m)
  {
  }

  lemma EditedKeepsUse(st: State, t: nat, e: Edit, m: nat)
    requires m < |st.mgrs| && QueueInv(st) && UseInv(st, m) && CanEdit(st, t)
    ensures UseInv(Edited(st, t, e), m)
  {
  }

  lemma EditedKeepsDead(st: State, t: nat, e: Edit, m: nat)
    requires m < |st.mgrs| && MutexInv(st, m) && UseInv(st, m) && DeadInv(st.mgrs[m]) && CanEdit(st, t)
    ensures DeadInv(Edited(st, t, e).mgrs[m])
  {
  }

  lemma ReleasedKeepsQueue(st: State, t: nat, modified: bool)
    requires QueueInv(st) && CanEdit(st, t)
    ensures QueueInv(Released(st, t, modified))
  {
  }

  lemma ReleasedKeepsMutex(st: State, t: nat, modified: bool, m: nat)
    requires m < |st.mgrs| && QueueInv(st) && MutexInv(st, m) && CanEdit(st, t)
    ensures MutexInv(Released(st, t, modified), m)
  {
  }

  lemma ReleasedKeepsUse(st: State, t: nat, modified: bool, m: nat)
    requires m < |st.mgrs| && QueueInv(st) && UseInv(st, m) && CanEdit(st, t)
    ensures UseInv(Released(st, t, modified), m)
  {
  }

  lemma ReleasedKeepsDead(st: State, t: nat, modified: bool, m: nat)
    requires m < |st.mgrs| && MutexInv(st, m) && UseInv(st, m) && DeadInv(st.mgrs[m]) && CanEdit(st, t)
    ensures DeadInv(Released(st, t, modified).mgrs[m])
  {
  }

  lemma SteppedKeepsQueue(st: State, t: nat)
    requires QueueInv(st) && CanStep(st, t)
    ensures QueueInv(Stepped(st, t))
  {
    if st.threads[t].Unlisting? {
      forall x | x in Stepped(st, t).queue ensures x in st.queue {
        WithoutHas(st.queue, st.threads[t].m, x);
      }
    }
    hide Without;
  }

  lemma SteppedKeepsMutex(st: State, t: nat, m: nat)
    requires m < |st.mgrs| && QueueInv(st) && MutexInv(st, m) && CanStep(st, t)
    ensures MutexInv(Stepped(st, t), m)
  {
  }

  // What a thread's step does to its use of a manager, and to the manager's life.
  lemma SteppedUses(st: State, t: nat, m: nat)
    requires m < |st.mgrs| && QueueInv(st) && CanStep(st, t)
    ensures var (pc, st') := (st.threads[t], Stepped(st, t));
            && |st'.mgrs| == |st.mgrs| && |st'.threads| == |st.threads| && st'.threads == st.threads[t := st'.threads[t]]
            && (Uses(st'.threads[t], m) ==> Uses(pc, m) && Destroying(st'.threads[t], m) == Destroying(pc, m))
            && (Destroying(st'.threads[t], m) ==> Destroying(pc, m))
            && (st'.mgrs[m].life == st.mgrs[m].life || (Uses(pc, m) && Destroying(pc, m) && !Uses(st'.threads[t], m)))
  {
    hide Without, Earliest, Dues;
  }

  lemma SteppedKeepsUse(st: State, t: nat, m: nat)
    requires m < |st.mgrs| && QueueInv(st) && UseInv(st, m) && CanStep(st, t)
    ensures UseInv(Stepped(st, t), m)
  {
    SteppedUses(st, t, m);
    SteppedLives(st, t, m);
    hide Stepped, CanStep, Uses, Destroying, QueueInv;
  }

  lemma SteppedLives(st: State, t: nat, m: nat)
    requires m < |st.mgrs| && QueueInv(st) && UseInv(st, m) && CanStep(st, t)
    ensures var (pc, st') := (st.threads[t], Stepped(st, t));
            st'.mgrs[m].life == st.mgrs[m].life || (Destroying(pc, m) && st.mgrs[m].life.Dying? && st'.mgrs[m].life.Dead?)
  {
    hide Without, Earliest, Dues;
  }

  lemma SteppedKeepsDead(st: State, t: nat, m: nat)
    requires m < |st.mgrs| && MutexInv(st, m) && UseInv(st, m) && DeadInv(st.mgrs[m]) && CanStep(st, t)
    ensures DeadInv(Stepped(st, t).mgrs[m])
  {
    hide Without, Earliest, Dues;
  }

  lemma WorkedKeepsQueue(st: State, spurious: bool)
    requires QueueInv(st) && CanWork(st)
    ensures QueueInv(Worked(st, spurious))
  {
    hide Earliest, Dues;
    var st' := Worked(st, spurious);
    forall m | m in st'.queue ensures m < |st.mgrs| {
      if st.worker.Awake? && st'.worker.Popped? {
        var next := Earliest(Dues(st.mgrs, st.queue));
        assert m in st.queue[..next] || m in st.queue[next + 1..];
      }
    }
  }

  lemma WorkedKeepsMutex(st: State, spurious: bool, m: nat)
    requires m < |st.mgrs| && QueueInv(st) && MutexInv(st, m) && CanWork(st)
    ensures MutexInv(Worked(st, spurious), m)
  {
    WorkedMutex(st, spurious, m);
    hide Worked, CanWork, HoldsMgr, QueueInv;
  }

  // The worker takes a free mutex and gives its own back.
  lemma WorkedMutex(st: State, spurious: bool, m: nat)
    requires m < |st.mgrs| && CanWork(st) && (WorkerHolds(st.worker, m) <==> st.mgrs[m].mtx == Worker)
    ensures var st' := Worked(st, spurious);
            && st'.threads == st.threads && |st'.mgrs| == |st.mgrs|
            && (WorkerHolds(st'.worker, m) <==> st'.mgrs[m].mtx == Worker)
            && (st'.mgrs[m].mtx == st.mgrs[m].mtx || (st.mgrs[m].mtx.Nobody? && st'.mgrs[m].mtx == Worker)
                || (WorkerHolds(st.worker, m) && st'.mgrs[m].mtx.Nobody?))
  {
    hide Earliest, Dues, QueueInv;
  }

  lemma WorkedKeepsUse(st: State, spurious: bool, m: nat)
    requires m < |st.mgrs| && QueueInv(st) && UseInv(st, m) && CanWork(st)
    ensures UseInv(Worked(st, spurious), m)
  {
    hide Without, Earliest, Dues;
  }

  lemma WorkedKeepsDead(st: State, spurious: bool, m: nat)
    requires m < |st.mgrs| && MutexInv(st, m) && UseInv(st, m) && DeadInv(st.mgrs[m]) && CanWork(st)
    ensures DeadInv(Worked(st, spurious).mgrs[m])
  {
    hide Without, Earliest, Dues;
  }

  // ---- every step keeps the coverage of unsaved changes

  // Only thread t moves: the other threads stay where they are.
  lemma ThreadMoves(st: State, st': State, t: nat, m: nat)
    requires t < |st.threads| && |st'.threads| == |st.threads| && st'.threads == st.threads[t := st'.threads[t]]
    ensures SomeEnabling(st, m) ==> SomeEnabling(st', m) || st.threads[t] == Enabling(m)
    ensures st'.threads[t] == Enabling(m) ==> SomeEnabling(st', m)
    ensures SomeDetaching(st, m) ==> SomeDetaching(st', m) || (st.threads[t].Detaching? && st.threads[t].m == m)
    ensures st'.threads[t].Detaching? && st'.threads[t].m == m ==> SomeDetaching(st', m)
    ensures SomeCancelling(st, m) ==> SomeCancelling(st', m) || Cancels(st.threads[t], m)
    ensures Cancels(st'.threads[t], m) ==> SomeCancelling(st', m)
    ensures SomeEnqueuing(st, m) ==> SomeEnqueuing(st', m) || Enqueuing(st.threads[t], m)
    ensures Enqueuing(st'.threads[t], m) ==> SomeEnqueuing(st', m)
  {
    if SomeEnabling(st, m) {
      var u :| 0 <= u < |st.threads| && st.threads[u] == Enabling(m);
      assert u != t ==> st'.threads[u] == Enabling(m);
    }
    if SomeDetaching(st, m) {
      var u :| 0 <= u < |st.threads| && st.threads[u].Detaching? && st.threads[u].m == m;
      assert u != t ==> st'.threads[u].Detaching?;
    }
    if SomeCancelling(st, m) {
      var u :| 0 <= u < |st.threads| && Cancels(st.threads[u], m);
      assert u != t ==> Cancels(st'.threads[u], m);
    }
    if SomeEnqueuing(st, m) {
      var u :| 0 <= u < |st.threads| && Enqueuing(st.threads[u], m);
      assert u != t ==> Enqueuing(st'.threads[u], m);
    }
  }

  lemma EnablingWillEnqueue(st: State, m: nat)
    requires SomeEnabling(st, m)
    ensures SomeEnqueuing(st, m)
  {
    var u :| 0 <= u < |st.threads| && st.threads[u] == Enabling(m);
    assert Enqueuing(st.threads[u], m);
  }

  lemma DetachingCancels(st: State, m: nat)
    requires SomeDetaching(st, m)
    ensures SomeCancelling(st, m)
  {
    var u :| 0 <= u < |st.threads| && st.threads[u].Detaching? && st.threads[u].m == m;
    assert Cancels(st.threads[u], m);
  }

  lemma CalledKeepsCover(st: State, serial: bool, t: nat, c: Call, m: nat)
    requires m < |st.mgrs| && CoverInv(st, m) && CanCall(st, serial, t, c)
    ensures CoverInv(Called(st, t, c), m)
  {
    ThreadMoves(st, Called(st, t, c), t, m);
    hide SomeEnabling, SomeDetaching, SomeCancelling, SomeEnqueuing;
  }

  lemma EditedKeepsCover(st: State, t: nat, e: Edit, m: nat)
    requires m < |st.mgrs| && CoverInv(st, m) && CanEdit(st, t)
    ensures CoverInv(Edited(st, t, e), m)
  {
  }

  lemma ReleasedKeepsCover(st: State, t: nat, modified: bool, m: nat)
    requires m < |st.mgrs| && CoverInv(st, m) && CanEdit(st, t)
    ensures CoverInv(Released(st, t, modified), m)
  {
    ThreadMoves(st, Released(st, t, modified), t, m);
    hide SomeEnabling, SomeDetaching, SomeCancelling, SomeEnqueuing;
  }

  // enqueue(): the job ends up in the list, or in the worker's hands already, unless it has no
  // manager or is being cancelled.
  lemma EnqueueKeepsCover(st: State, t: nat, m: nat)
    requires m < |st.mgrs| && CoverInv(st, m) && CanStep(st, t) && st.threads[t].EnqueueHold?
    ensures CoverInv(Stepped(st, t), m)
  {
    var st', x := Stepped(st, t), st.threads[t].m;
    ThreadMoves(st, st', t, m);
    if SomeDetaching(st, m) { DetachingCancels(st, m); }
    hide SomeEnabling, SomeDetaching, SomeCancelling, SomeEnqueuing;
    assert m in st.queue ==> m in st'.queue;
  }

  lemma SteppedKeepsCover(st: State, t: nat, m: nat)
    requires m < |st.mgrs| && CoverInv(st, m) && CanStep(st, t)
    ensures CoverInv(Stepped(st, t), m)
  {
    var pc, st' := st.threads[t], Stepped(st, t);
    if pc.EnqueueHold? {
      EnqueueKeepsCover(st, t, m);
    } else {
      ThreadMoves(st, st', t, m);
      if pc.Unlisting? { WithoutHas(st.queue, pc.m, m); }
      hide SomeEnabling, SomeDetaching, SomeCancelling, SomeEnqueuing, Without, Enqueued;
      assert m in st.queue ==> m in st'.queue || (pc.Unlisting? && pc.m == m);
      assert st'.worker == st.worker || st'.worker.Awake?;
    }
  }

  // The worker's hands.
  predicate InHand(w: WorkerPc, m: nat) {
    w == Popped(m) || w == InJob(m) || w == Locked(m) || w == RetryWait(m) || w == RetryHold(m)
  }

  // What the worker takes from the list or leaves of a job.
  lemma WorkedQueue(st: State, spurious: bool, m: nat)
    requires m < |st.mgrs| && CanWork(st)
    ensures var st' := Worked(st, spurious);
            && st'.threads == st.threads && |st'.mgrs| == |st.mgrs|
            && (m in st.queue ==> m in st'.queue || st'.worker == Popped(m))
            && st'.mgrs[m].autoSave == st.mgrs[m].autoSave && st'.mgrs[m].attached == st.mgrs[m].attached
            && (st'.mgrs[m].queued && m !in st'.queue ==>
                  st.mgrs[m].queued && (st.worker == Popped(m) ==> st'.worker == Popped(m)))
            && (st'.mgrs[m].changed ==> st.mgrs[m].changed)
            && (InHand(st.worker, m) && !InHand(st'.worker, m) && m !in st'.queue ==>
                  !st.mgrs[m].attached || !st.mgrs[m].autoSave || !st'.mgrs[m].changed
                  || (st.worker == RetryHold(m) && st.mgrs[m].queued))
  {
    hide Earliest, Dues, Woken;
    var st' := Worked(st, spurious);
    if st.worker.Awake? && st'.worker.Popped? {
      PoppedQueue(st, spurious, m);
    }
  }

  lemma PoppedQueue(st: State, spurious: bool, m: nat)
    requires CanWork(st) && st.worker.Awake? && Worked(st, spurious).worker.Popped?
    ensures m in st.queue ==> m in Worked(st, spurious).queue || Worked(st, spurious).worker == Popped(m)
    ensures Worked(st, spurious).mgrs == st.mgrs
  {
    hide Earliest, Dues;
    var next := Earliest(Dues(st.mgrs, st.queue));
    assert st.queue == st.queue[..next] + [st.queue[next]] + st.queue[next + 1..];
  }

  // The worker goes on to a manager through the back pointer of its job.
  lemma WorkedAttached(st: State, spurious: bool, m: nat)
    requires m < |st.mgrs| && CanWork(st)
    ensures WorkerHolds(Worked(st, spurious).worker, m) ==> WorkerHolds(st.worker, m) || st.mgrs[m].attached
  {
    hide Earliest, Dues, Enqueued;
  }

  lemma WorkedKeepsCover(st: State, spurious: bool, m: nat)
    requires m < |st.mgrs| && CoverInv(st, m) && CanWork(st)
    ensures CoverInv(Worked(st, spurious), m)
  {
    var st' := Worked(st, spurious);
    WorkedQueue(st, spurious, m);
    WorkedAttached(st, spurious, m);
    assert SomeDetaching(st', m) == SomeDetaching(st, m) && SomeCancelling(st', m) == SomeCancelling(st, m)
           && SomeEnqueuing(st', m) == SomeEnqueuing(st, m);
    if SomeDetaching(st, m) { DetachingCancels(st, m); }
    hide Worked, CanWork, SomeDetaching, SomeCancelling, SomeEnqueuing, Earliest, Dues;
  }

  // ---- every step keeps the switch, when enabling and disabling do not race

  lemma CalledKeepsSwitch(st: State, t: nat, c: Call, m: nat)
    requires m < |st.mgrs| && SwitchInv(st, m) && CanCall(st, true, t, c)
    ensures SwitchInv(Called(st, t, c), m)
  {
    ThreadMoves(st, Called(st, t, c), t, m);
    hide SomeEnabling, SomeDetaching, SomeCancelling, SomeEnqueuing;
  }

  lemma EditedKeepsSwitch(st: State, t: nat, e: Edit, m: nat)
    requires m < |st.mgrs| && SwitchInv(st, m) && CanEdit(st, t)
    ensures SwitchInv(Edited(st, t, e), m)
  {
  }

  lemma ReleasedKeepsSwitch(st: State, t: nat, modified: bool, m: nat)
    requires m < |st.mgrs| && SwitchInv(st, m) && CanEdit(st, t)
    ensures SwitchInv(Released(st, t, modified), m)
  {
    ThreadMoves(st, Released(st, t, modified), t, m);
    hide SomeEnabling, SomeDetaching, SomeCancelling, SomeEnqueuing;
  }

  lemma SteppedKeepsSwitch(st: State, t: nat, m: nat)
    requires m < |st.mgrs| && SwitchInv(st, m) && CanStep(st, t)
    ensures SwitchInv(Stepped(st, t), m)
  {
    var pc, st' := st.threads[t], Stepped(st, t);
    var pc' := st'.threads[t];
    ThreadMoves(st, st', t, m);
    assert st'.threads == st.threads[t := pc'];
    assert Switches(pc', m) ==> Switches(pc, m);
    assert Cancels(pc', m) ==> Cancels(pc, m);
    assert st'.mgrs[m].autoSave == st.mgrs[m].autoSave;
    assert st'.mgrs[m].attached == st.mgrs[m].attached || pc == Enabling(m) || Cancels(pc, m);
    assert pc == Enabling(m) ==> st'.mgrs[m].attached;
    hide SomeEnabling, SomeDetaching, SomeCancelling, SomeEnqueuing, Stepped, CanStep, Switches, Cancels;
  }

  lemma WorkedKeepsSwitch(st: State, spurious: bool, m: nat)
    requires m < |st.mgrs| && SwitchInv(st, m) && CanWork(st)
    ensures SwitchInv(Worked(st, spurious), m)
  {
    var st' := Worked(st, spurious);
    WorkedQueue(st, spurious, m);
    assert SomeEnabling(st', m) == SomeEnabling(st, m);
    hide Worked, CanWork, SomeEnabling, Earliest, Dues;
  }

  /** Without races a manager with autosave on keeps its back pointer, so a change is covered. */
  lemma SwitchedIsCovered(st: State, m: nat)
    requires m < |st.mgrs| && SwitchInv(st, m) && CoverInv(st, m)
    ensures st.mgrs[m].autoSave && st.mgrs[m].changed ==> Covered(st, m)
  {
    if SomeEnabling(st, m) { EnablingWillEnqueue(st, m); }
  }

  // ---- every step keeps the snapshots and does not let the worker oversleep

  ghost predicate SnapshotsInv(st: State) { forall m :: 0 <= m < |st.mgrs| ==> SnapshotInv(st.mgrs[m]) }

  lemma CalledKeepsRest(st: State, serial: bool, t: nat, c: Call)
    requires QueueInv(st) && SnapshotsInv(st) && SleepInv(st) && CanCall(st, serial, t, c)
    ensures SnapshotsInv(Called(st, t, c)) && SleepInv(Called(st, t, c))
  {
  }

  lemma EditedKeepsRest(st: State, t: nat, e: Edit)
    requires QueueInv(st) && SnapshotsInv(st) && SleepInv(st) && CanEdit(st, t)
    ensures SnapshotsInv(Edited(st, t, e)) && SleepInv(Edited(st, t, e))
  {
  }

  lemma ReleasedKeepsRest(st: State, t: nat, modified: bool)
    requires QueueInv(st) && SnapshotsInv(st) && SleepInv(st) && CanEdit(st, t)
    ensures SnapshotsInv(Released(st, t, modified)) && SleepInv(Released(st, t, modified))
  {
  }

  lemma SteppedKeepsRest(st: State, t: nat)
    requires QueueInv(st) && SnapshotsInv(st) && SleepInv(st) && CanStep(st, t)
    ensures SnapshotsInv(Stepped(st, t)) && SleepInv(Stepped(st, t))
  {
    if st.threads[t].Unlisting? {
      forall x | x in Stepped(st, t).queue ensures x in st.queue {
        WithoutHas(st.queue, st.threads[t].m, x);
      }
    }
    hide Without;
  }

  lemma WorkedKeepsRest(st: State, spurious: bool)
    requires QueueInv(st) && SnapshotsInv(st) && SleepInv(st) && CanWork(st)
    ensures SnapshotsInv(Worked(st, spurious)) && SleepInv(Worked(st, spurious))
  {
  }

  // ---- the invariants of a run

  ghost predicate AllSafe(st: State) {
    && QueueInv(st) && SnapshotsInv(st) && SleepInv(st)
    && forall m :: 0 <= m < |st.mgrs| ==>
         MutexInv(st, m) && UseInv(st, m) && DeadInv(st.mgrs[m]) && CoverInv(st, m)
  }

  ghost predicate AllSwitched(st: State) { forall m :: 0 <= m < |st.mgrs| ==> SwitchInv(st, m) }
}
