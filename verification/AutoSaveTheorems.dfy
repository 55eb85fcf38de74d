/** What autosaving guarantees in every run, for any number of managers and threads. */
module AutoSaveTheorems {
  import opened AutoSave
  import opened AutoSaveInvariant
  import opened Lists

  lemma DoKeepsQueue(serial: bool, st: State, move: Move)
    requires QueueInv(st) && SnapshotsInv(st) && SleepInv(st) && Can(st, serial, move)
    ensures var st' := Do(st, serial, move);
            |st'.mgrs| == |st.mgrs| && QueueInv(st') && SnapshotsInv(st') && SleepInv(st')
  {
    var st' := Do(st, serial, move);
    assert |st'.mgrs| == |st.mgrs|;
    if move.Tick? { TickKeeps(st); }
    hide QueueInv, SnapshotsInv, SleepInv, CanCall, CanEdit, CanStep, CanWork, Called, Edited, Released, Stepped,
         Worked;
    match move
    case DoCall(t, c) => CalledKeepsQueue(st, serial, t, c); CalledKeepsRest(st, serial, t, c);
    case DoEdit(t, e) => EditedKeepsQueue(st, t, e); EditedKeepsRest(st, t, e);
    case DoRelease(t, b) => ReleasedKeepsQueue(st, t, b); ReleasedKeepsRest(st, t, b);
    case DoStep(t) => SteppedKeepsQueue(st, t); SteppedKeepsRest(st, t);
    case DoWork(b) => WorkedKeepsQueue(st, b); WorkedKeepsRest(st, b);
    case Tick =>
  }

  lemma TickKeeps(st: State)
    requires QueueInv(st) && SnapshotsInv(st) && SleepInv(st)
    ensures var st' := st.(now := st.now + 1); QueueInv(st') && SnapshotsInv(st') && SleepInv(st')
  {
  }

  lemma DoKeepsManager(serial: bool, st: State, move: Move, m: nat)
    requires m < |st.mgrs| && QueueInv(st) && MutexInv(st, m) && UseInv(st, m) && DeadInv(st.mgrs[m])
             && Can(st, serial, move)
    ensures var st' := Do(st, serial, move);
            |st'.mgrs| == |st.mgrs| && MutexInv(st', m) && UseInv(st', m) && DeadInv(st'.mgrs[m])
  {
    var st' := Do(st, serial, move);
    assert |st'.mgrs| == |st.mgrs|;
    hide QueueInv, DeadInv, CanCall, CanEdit, CanStep, CanWork, Called, Edited, Released, Stepped, Worked;
    match move
    case DoCall(t, c) =>
      CalledKeepsMutex(st, serial, t, c, m); CalledKeepsUse(st, serial, t, c, m); CalledKeepsDead(st, serial, t, c, m);
    case DoEdit(t, e) => EditedKeepsMutex(st, t, e, m); EditedKeepsUse(st, t, e, m); EditedKeepsDead(st, t, e, m);
    case DoRelease(t, b) => ReleasedKeepsMutex(st, t, b, m); ReleasedKeepsUse(st, t, b, m); ReleasedKeepsDead(st, t, b, m);
    case DoStep(t) => SteppedKeepsMutex(st, t, m); SteppedKeepsUse(st, t, m); SteppedKeepsDead(st, t, m);
    case DoWork(b) => WorkedKeepsMutex(st, b, m); WorkedKeepsUse(st, b, m); WorkedKeepsDead(st, b, m);
    case Tick =>
  }

  lemma TickKeepsUpdate(st: State, m: nat)
    requires m < |st.mgrs|
    ensures var st' := st.(now := st.now + 1);
            (CoverInv(st, m) ==> CoverInv(st', m)) && (SwitchInv(st, m) ==> SwitchInv(st', m))
  {
    var st' := st.(now := st.now + 1);
    assert SomeEnabling(st', m) == SomeEnabling(st, m) && SomeDetaching(st', m) == SomeDetaching(st, m)
           && SomeCancelling(st', m) == SomeCancelling(st, m) && SomeEnqueuing(st', m) == SomeEnqueuing(st, m);
  }

  lemma DoKeepsCover(serial: bool, st: State, move: Move, m: nat)
    requires m < |st.mgrs| && CoverInv(st, m) && Can(st, serial, move)
    ensures m < |Do(st, serial, move).mgrs| && CoverInv(Do(st, serial, move), m)
  {
    assert |Do(st, serial, move).mgrs| == |st.mgrs|;
    hide CoverInv, CanCall, CanEdit, CanStep, CanWork, Called, Edited, Released, Stepped, Worked;
    match move
    case DoCall(t, c) => CalledKeepsCover(st, serial, t, c, m);
    case DoEdit(t, e) => EditedKeepsCover(st, t, e, m);
    case DoRelease(t, b) => ReleasedKeepsCover(st, t, b, m);
    case DoStep(t) => SteppedKeepsCover(st, t, m);
    case DoWork(b) => WorkedKeepsCover(st, b, m);
    case Tick => TickKeepsUpdate(st, m);
  }

  lemma DoIsSafe(serial: bool, st: State, move: Move)
    requires AllSafe(st) && Can(st, serial, move)
    ensures AllSafe(Do(st, serial, move)) && |Do(st, serial, move).mgrs| == |st.mgrs|
  {
    hide QueueInv, SnapshotsInv, SleepInv, MutexInv, UseInv, DeadInv, CoverInv, Can, Do;
    DoKeepsQueue(serial, st, move);
    var st' := Do(st, serial, move);
    forall m | 0 <= m < |st.mgrs|
      ensures MutexInv(st', m) && UseInv(st', m) && DeadInv(st'.mgrs[m]) && CoverInv(st', m)
    {
      DoKeepsManager(serial, st, move, m);
      DoKeepsCover(serial, st, move, m);
    }
  }

  lemma DoIsSwitched(st: State, move: Move)
    requires AllSwitched(st) && Can(st, true, move)
    ensures AllSwitched(Do(st, true, move))
  {
    var st' := Do(st, true, move);
    assert |st'.mgrs| == |st.mgrs|;
    hide SwitchInv, CanCall, CanEdit, CanStep, CanWork, Called, Edited, Released, Stepped, Worked;
    forall m | 0 <= m < |st.mgrs| ensures SwitchInv(st', m) {
      match move {
        case DoCall(t, c) => CalledKeepsSwitch(st, t, c, m);
        case DoEdit(t, e) => EditedKeepsSwitch(st, t, e, m);
        case DoRelease(t, b) => ReleasedKeepsSwitch(st, t, b, m);
        case DoStep(t) => SteppedKeepsSwitch(st, t, m);
        case DoWork(b) => WorkedKeepsSwitch(st, b, m);
        case Tick => TickKeepsUpdate(st, m);
      }
    }
  }

  lemma InitIsSafe(st: State)
    requires Init(st)
    ensures AllSafe(st) && AllSwitched(st)
  {
  }

  lemma {:induction false} LeadsSafely(serial: bool, st: State, moves: seq<Move>, end: State)
    requires AllSafe(st) && Leads(serial, st, moves, end)
    ensures AllSafe(end) && |end.mgrs| == |st.mgrs|
    decreases |moves|
  {
    hide AllSafe, Can, Do;
    if moves != [] {
      DoIsSafe(serial, st, moves[0]);
      LeadsSafely(serial, Do(st, serial, moves[0]), moves[1..], end);
    }
  }

  lemma {:induction false} LeadsSwitched(st: State, moves: seq<Move>, end: State)
    requires AllSwitched(st) && Leads(true, st, moves, end)
    ensures AllSwitched(end)
    decreases |moves|
  {
    hide AllSwitched, Can, Do;
    if moves != [] {
      DoIsSwitched(st, moves[0]);
      LeadsSwitched(Do(st, true, moves[0]), moves[1..], end);
    }
  }

  // ---- no lost update

  /** With calls of enableAutoSave and disableAutoSave made one at a time: in every reachable state,
      a manager with autosave on and unsaved changes has its job in the queue, in the worker's hands
      before the check or on its way back to the queue, or a thread on its way to enqueue it. */
  lemma NoLostUpdate(start: State, moves: seq<Move>, st: State, m: nat)
    requires Init(start) && Leads(true, start, moves, st) && m < |start.mgrs|
    ensures |st.mgrs| == |start.mgrs| && (st.mgrs[m].autoSave && st.mgrs[m].changed ==> Covered(st, m))
  {
    InitIsSafe(start);
    LeadsSafely(true, start, moves, st);
    LeadsSwitched(start, moves, st);
    hide Covered, Leads, Init;
    SwitchedIsCovered(st, m);
  }

  predicate Resting(st: State, m: nat) {
    && (forall t :: 0 <= t < |st.threads| ==> st.threads[t].Idle?)
    && (st.worker.Asleep? || st.worker.Awake? || st.worker.AsleepUntil?)
    && m !in st.queue
  }

  /** Once everything is at rest, the last snapshot passed to save() contains every edit made up
      to the last release(true). */
  lemma RestingIsSaved(start: State, moves: seq<Move>, st: State, m: nat)
    requires Init(start) && Leads(true, start, moves, st) && m < |start.mgrs| && m < |st.mgrs|
    requires Resting(st, m) && st.mgrs[m].autoSave
    ensures !st.mgrs[m].changed
    ensures st.mgrs[m].saved <= st.mgrs[m].conf
    ensures st.mgrs[m].released <= |st.mgrs[m].saved|
  {
    NoLostUpdate(start, moves, st, m);
    InitIsSafe(start);
    LeadsSafely(true, start, moves, st);
    assert SnapshotInv(st.mgrs[m]);
  }

  // ---- races included: what is saved depends on the back pointer alone

  /** In every run, calls that race included: at rest, a manager with autosave on whose job still
      has its back pointer has every edit saved up to the last release(true). */
  lemma AttachedIsSaved(serial: bool, start: State, moves: seq<Move>, st: State, m: nat)
    requires Init(start) && Leads(serial, start, moves, st) && m < |st.mgrs|
    requires Resting(st, m) && st.mgrs[m].autoSave && st.mgrs[m].attached
    ensures !st.mgrs[m].changed && st.mgrs[m].saved <= st.mgrs[m].conf
    ensures st.mgrs[m].released <= |st.mgrs[m].saved|
  {
    InitIsSafe(start);
    LeadsSafely(serial, start, moves, st);
    assert CoverInv(st, m) && SnapshotInv(st.mgrs[m]);
  }

  /** No call in the moves switches autosave of m off. */
  predicate NeverOff(moves: seq<Move>, m: nat) {
    forall k :: 0 <= k < |moves| && moves[k].DoCall? ==> moves[k].c != DisableIt(m) && moves[k].c != DestroyIt(m)
  }

  /** A release(true) of m is among the moves. */
  predicate Updates(serial: bool, st: State, moves: seq<Move>, m: nat)
    decreases |moves|
  {
    moves != [] && Can(st, serial, moves[0])
    && ((moves[0].DoRelease? && moves[0].modified && st.threads[moves[0].t] == Holding(m))
        || Updates(serial, Do(st, serial, moves[0]), moves[1..], m))
  }

  // Autosave of m is on and nobody is switching it; the worker holds no manager without a job.
  ghost predicate On(st: State, m: nat) {
    m < |st.mgrs| && st.mgrs[m].autoSave && Settled(st, m) && (WorkerHolds(st.worker, m) ==> st.mgrs[m].attached)
  }

  // Every thread but t is where it was, and t is switching nothing.
  lemma StaysSettled(st: State, st': State, t: nat, m: nat)
    requires Settled(st, m) && t < |st.threads| && |st'.threads| == |st.threads|
    requires st'.threads == st.threads[t := st'.threads[t]] && !Switches(st'.threads[t], m)
    ensures Settled(st', m)
  {
  }

  // What a move that leaves autosave on does to the manager.
  predicate Keeps(st: State, st': State, m: nat)
    requires m < |st.mgrs| && m < |st'.mgrs|
  {
    var g, g' := st.mgrs[m], st'.mgrs[m];
    g'.autoSave && g'.attached == g.attached && (!g.attached ==> g'.saved == g.saved)
  }

  lemma CallStaysOn(serial: bool, st: State, t: nat, c: Call, m: nat)
    requires On(st, m) && CanCall(st, serial, t, c) && c != DisableIt(m) && c != DestroyIt(m)
    ensures var st' := Called(st, t, c); On(st', m) && Keeps(st, st', m) && st'.mgrs[m].changed == st.mgrs[m].changed
  {
    StaysSettled(st, Called(st, t, c), t, m);
  }

  lemma ReleaseStaysOn(st: State, t: nat, modified: bool, m: nat)
    requires On(st, m) && CanEdit(st, t)
    ensures var st' := Released(st, t, modified);
            && On(st', m) && Keeps(st, st', m)
            && (st'.mgrs[m].changed <==> st.mgrs[m].changed || (modified && st.threads[t] == Holding(m)))
  {
    StaysSettled(st, Released(st, t, modified), t, m);
    hide Settled;
  }

  lemma StepStaysOn(st: State, t: nat, m: nat)
    requires On(st, m) && CanStep(st, t)
    ensures var st' := Stepped(st, t); On(st', m) && Keeps(st, st', m) && st'.mgrs[m].changed == st.mgrs[m].changed
  {
    var st' := Stepped(st, t);
    assert !Switches(st.threads[t], m);
    hide Without, Settled;
    assert st'.threads == st.threads[t := st'.threads[t]] && !Switches(st'.threads[t], m);
    StaysSettled(st, st', t, m);
  }

  lemma WorkStaysOn(st: State, spurious: bool, m: nat)
    requires On(st, m) && CanWork(st)
    ensures var st' := Worked(st, spurious);
            On(st', m) && Keeps(st, st', m) && (!st.mgrs[m].attached ==> st'.mgrs[m].changed == st.mgrs[m].changed)
  {
    hide Earliest, Dues, Without;
    WorkedQueue(st, spurious, m);
    WorkedAttached(st, spurious, m);
    assert Settled(Worked(st, spurious), m);
  }

  /** While autosave stays on the back pointer stays as it is; with a null one nothing is saved and
      a change stays marked, whatever is released. */
  lemma StaysOn(serial: bool, st: State, move: Move, m: nat)
    requires On(st, m) && Can(st, serial, move) && NeverOff([move], m)
    ensures var st' := Do(st, serial, move);
            && On(st', m) && Keeps(st, st', m)
            && (!st.mgrs[m].attached ==> (st'.mgrs[m].changed <==> st.mgrs[m].changed || Updates(serial, st, [move], m)))
  {
    hide Earliest, Dues, Without, Called, Released, Stepped, Worked, CanCall, CanWork, CanStep;
    assert [move][0] == move && [move][1..] == [];
    match move
    case DoCall(t, c) => CallStaysOn(serial, st, t, c, m);
    case DoEdit(t, _) =>
    case DoRelease(t, b) => ReleaseStaysOn(st, t, b, m);
    case DoStep(t) => StepStaysOn(st, t, m);
    case DoWork(b) => WorkStaysOn(st, b, m);
    case Tick =>
  }

  lemma {:induction false} StaysDetached(serial: bool, st: State, moves: seq<Move>, end: State, m: nat)
    requires On(st, m) && Leads(serial, st, moves, end) && NeverOff(moves, m)
    ensures On(end, m) && end.mgrs[m].attached == st.mgrs[m].attached
    ensures !st.mgrs[m].attached ==> end.mgrs[m].saved == st.mgrs[m].saved
    ensures !st.mgrs[m].attached ==> (end.mgrs[m].changed <==> st.mgrs[m].changed || Updates(serial, st, moves, m))
    decreases |moves|
  {
    hide On, Can, Do;
    if moves != [] {
      assert NeverOff([moves[0]], m) && NeverOff(moves[1..], m);
      StaysOn(serial, st, moves[0], m);
      StaysDetached(serial, Do(st, serial, moves[0]), moves[1..], end, m);
    }
  }

  /** The exact condition. Take any reachable state in which autosave is on and nobody is switching
      it, and any further moves with a release(true) that leave it on. When they come to rest, the
      update is unsaved if and only if the job's back pointer was null: then nothing has been saved
      since, otherwise everything up to the last release(true). */
  lemma UnsavedIfDetached(serial: bool, start: State, moves: seq<Move>, mid: State, more: seq<Move>, end: State, m: nat)
    requires Init(start) && Leads(serial, start, moves, mid) && m < |mid.mgrs| && mid.mgrs[m].autoSave && Settled(mid, m)
    requires Leads(serial, mid, more, end) && NeverOff(more, m) && Updates(serial, mid, more, m) && Resting(end, m)
    ensures m < |end.mgrs| && end.mgrs[m].attached == mid.mgrs[m].attached
    ensures end.mgrs[m].changed <==> !mid.mgrs[m].attached
    ensures !mid.mgrs[m].attached ==> end.mgrs[m].saved == mid.mgrs[m].saved
    ensures mid.mgrs[m].attached ==> end.mgrs[m].released <= |end.mgrs[m].saved|
  {
    hide Leads, Init, QueueInv, SleepInv, MutexInv, UseInv, DeadInv, Updates, NeverOff, Settled;
    InitIsSafe(start);
    LeadsSafely(serial, start, moves, mid);
    assert On(mid, m) by { assert CoverInv(mid, m); }
    LeadsSafely(serial, mid, more, end);
    StaysDetached(serial, mid, more, end, m);
    assert CoverInv(end, m) && SnapshotInv(end.mgrs[m]);
  }

  // ---- the condition is needed

  /** One manager, two threads. */
  function RaceStart(): State { State([Made()], [Idle, Idle], [], Nobody, Awake, 0) }

  // Thread 0 has enabled autosave; the job is queued.
  function Enabled(): State {
    State([Made().(autoSave := true, queued := true, due := SECOND)], [Idle, Idle], [0], Nobody, Awake, 0)
  }

  // Thread 0 is about to cancel the job, thread 1 has switched autosave on again and attached it.
  function Overtaken(): State {
    State([Made().(autoSave := true, queued := true, due := SECOND)],
          [Unlisting(0, Disable), EnqueueWait(0, false)], [0], Nobody, Awake, 0)
  }

  // Thread 0 has detached the job, thread 1 has enqueued nothing.
  function Lost(): State { State([Made().(autoSave := true, attached := false, due := SECOND)], [Idle, Idle], [],
      Nobody, Awake, 0) }

  // Thread 1 has made an edit and released it.
  function RaceEnd(): State {
    State([Made().(conf := [7], changed := true, autoSave := true, released := 1, attached := false, due := SECOND)],
          [Idle, Idle], [], Nobody, Awake, 0)
  }

  function RaceMoves(): seq<Move> {
    [DoCall(0, Enable(0)), DoStep(0), DoStep(0), DoStep(0)]
    + [DoCall(0, DisableIt(0)), DoCall(1, Enable(0)), DoStep(1)]
    + [DoStep(0), DoStep(0), DoStep(1), DoStep(1)]
    + [DoCall(1, Acquire(0)), DoEdit(1, 7), DoRelease(1, true), DoStep(1), DoStep(1), DoStep(1), DoStep(1)]
  }

  lemma {:induction false} LeadsOn(serial: bool, st: State, moves: seq<Move>, mid: State, more: seq<Move>, end: State)
    requires Leads(serial, st, moves, mid) && Leads(serial, mid, more, end)
    ensures Leads(serial, st, moves + more, end)
    decreases |moves|
  {
    hide Can, Do;
    if moves == [] {
      assert moves + more == more;
    } else {
      LeadsOn(serial, Do(st, serial, moves[0]), moves[1..], mid, more, end);
      assert (moves + more)[1..] == moves[1..] + more;
    }
  }

  // The moves from the k-th on, one at a time from the last.
  lemma LeadsFrom(serial: bool, st: State, moves: seq<Move>, k: nat, next: State, end: State)
    requires k < |moves| && Can(st, serial, moves[k]) && next == Do(st, serial, moves[k])
    requires Leads(serial, next, moves[k + 1..], end)
    ensures Leads(serial, st, moves[k..], end)
  {
    hide Can, Do;
    assert moves[k..][1..] == moves[k + 1..];
  }

  lemma RaceEnables()
    ensures Leads(false, RaceStart(), [DoCall(0, Enable(0)), DoStep(0), DoStep(0), DoStep(0)], Enabled())
  {
    hide Leads, Earliest, Dues, Without;
    var moves := [DoCall(0, Enable(0)), DoStep(0), DoStep(0), DoStep(0)];
    var s1 := Do(RaceStart(), false, moves[0]);
    var s2 := Do(s1, false, moves[1]);
    var s3 := Do(s2, false, moves[2]);
    NoMoves(false, Enabled());
    assert moves[4..] == [] && moves[0..] == moves;
    LeadsFrom(false, s3, moves, 3, Enabled(), Enabled());
    LeadsFrom(false, s2, moves, 2, s3, Enabled());
    LeadsFrom(false, s1, moves, 1, s2, Enabled());
    LeadsFrom(false, RaceStart(), moves, 0, s1, Enabled());
  }

  lemma RaceOvertakes()
    ensures Leads(false, Enabled(), [DoCall(0, DisableIt(0)), DoCall(1, Enable(0)), DoStep(1)], Overtaken())
  {
    hide Leads, Earliest, Dues, Without;
    var moves := [DoCall(0, DisableIt(0)), DoCall(1, Enable(0)), DoStep(1)];
    var s1 := Do(Enabled(), false, moves[0]);
    var s2 := Do(s1, false, moves[1]);
    NoMoves(false, Overtaken());
    assert moves[3..] == [] && moves[0..] == moves;
    LeadsFrom(false, s2, moves, 2, Overtaken(), Overtaken());
    LeadsFrom(false, s1, moves, 1, s2, Overtaken());
    LeadsFrom(false, Enabled(), moves, 0, s1, Overtaken());
  }

  lemma WithoutOnly<X>(x: X)
    ensures Without([x], x) == []
  {
    assert [x][..0] == [];
  }

  lemma RaceDetaches()
    ensures Leads(false, Overtaken(), [DoStep(0), DoStep(0), DoStep(1), DoStep(1)], Lost())
  {
    hide Leads, Earliest, Dues, Without;
    WithoutOnly<nat>(0);
    var moves := [DoStep(0), DoStep(0), DoStep(1), DoStep(1)];
    var s1 := Do(Overtaken(), false, moves[0]);
    assert s1.queue == [];
    var s2 := Do(s1, false, moves[1]);
    assert s2.mgrs == [Lost().mgrs[0]] && s2.queue == [] && s2.threads == [Idle, EnqueueWait(0, false)];
    var s3 := Do(s2, false, moves[2]);
    NoMoves(false, Lost());
    assert moves[4..] == [] && moves[0..] == moves;
    LeadsFrom(false, s3, moves, 3, Lost(), Lost());
    LeadsFrom(false, s2, moves, 2, s3, Lost());
    LeadsFrom(false, s1, moves, 1, s2, Lost());
    LeadsFrom(false, Overtaken(), moves, 0, s1, Lost());
  }

  lemma RaceReleases()
    ensures Leads(false, Lost(),
      [DoCall(1, Acquire(0)), DoEdit(1, 7), DoRelease(1, true), DoStep(1), DoStep(1), DoStep(1), DoStep(1)], RaceEnd())
  {
    hide Leads, Earliest, Dues, Without;
    var moves :=
      [DoCall(1, Acquire(0)), DoEdit(1, 7), DoRelease(1, true), DoStep(1), DoStep(1), DoStep(1), DoStep(1)];
    var s1 := Do(Lost(), false, moves[0]);
    var s2 := Do(s1, false, moves[1]);
    var s3 := Do(s2, false, moves[2]);
    var s4 := Do(s3, false, moves[3]);
    var s5 := Do(s4, false, moves[4]);
    var s6 := Do(s5, false, moves[5]);
    NoMoves(false, RaceEnd());
    assert [] + [7] == [7];
    assert s3.mgrs == [Lost().mgrs[0].(conf := [7], changed := true, released := 1, mtx := Client(1))];
    assert moves[7..] == [] && moves[0..] == moves;
    LeadsFrom(false, s6, moves, 6, RaceEnd(), RaceEnd());
    LeadsFrom(false, s5, moves, 5, s6, RaceEnd());
    LeadsFrom(false, s4, moves, 4, s5, RaceEnd());
    LeadsFrom(false, s3, moves, 3, s4, RaceEnd());
    LeadsFrom(false, s2, moves, 2, s3, RaceEnd());
    LeadsFrom(false, s1, moves, 1, s2, RaceEnd());
    LeadsFrom(false, Lost(), moves, 0, s1, RaceEnd());
  }

  lemma NoMoves(serial: bool, st: State)
    ensures Leads(serial, st, [], st)
  {
  }

  /** When enableAutoSave runs while disableAutoSave is between clearing the flag and cancel(), an
      update is lost: autosave is on, the change is marked, everything is at rest, and nobody will
      look at the job. */
  lemma RaceLosesUpdate()
    ensures Init(RaceStart()) && Leads(false, RaceStart(), RaceMoves(), RaceEnd())
    ensures var g := RaceEnd().mgrs[0];
            Resting(RaceEnd(), 0) && g.autoSave && g.changed && !Covered(RaceEnd(), 0) && g.released > |g.saved|
  {
    RaceEnables();
    RaceOvertakes();
    RaceDetaches();
    RaceReleases();
    hide Leads;
    var a, b := [DoCall(0, Enable(0)), DoStep(0), DoStep(0), DoStep(0)], [DoCall(0, DisableIt(0)), DoCall(1, Enable(0)), DoStep(1)];
    var c := [DoStep(0), DoStep(0), DoStep(1), DoStep(1)];
    LeadsOn(false, RaceStart(), a, Enabled(), b, Overtaken());
    LeadsOn(false, RaceStart(), a + b, Overtaken(), c, Lost());
    LeadsOn(false, RaceStart(), a + b + c, Lost(),
            [DoCall(1, Acquire(0)), DoEdit(1, 7), DoRelease(1, true), DoStep(1), DoStep(1), DoStep(1), DoStep(1)], RaceEnd());
  }

  // ---- when it is saved

  /** The move is the second half of an enqueue of m, by a thread or by the worker's retry, and the
      job has a manager. */
  predicate Asks(st: State, move: Move, m: nat) {
    && m < |st.mgrs| && st.mgrs[m].attached
    && match move
       case DoStep(t) => t < |st.threads| && st.threads[t].EnqueueHold? && st.threads[t].m == m
       case DoWork(_) => st.worker == RetryHold(m)
       case _ => false
  }

  /** Every enqueue of a job that has a manager makes it due a second from then, whether it is in the
      list or not, lists it unless it is marked as listed, and wakes the worker; nothing else sets
      the time. */
  lemma AskPushesBack(serial: bool, st: State, move: Move, m: nat)
    requires m < |st.mgrs| && Can(st, serial, move)
    ensures var st' := Do(st, serial, move);
            && m < |st'.mgrs|
            && st'.mgrs[m].due == (if Asks(st, move, m) then st.now + SECOND else st.mgrs[m].due)
            && (Asks(st, move, m) ==>
                  && st'.mgrs[m].queued && st'.queue == (if st.mgrs[m].queued then st.queue else st.queue + [m])
                  && !st'.worker.Asleep? && !st'.worker.AsleepUntil?)
  {
    hide Earliest, Dues, Without, Stepped, Worked, CanStep, CanWork;
    match move
    case DoCall(t, c) =>
    case DoEdit(t, _) =>
    case DoRelease(t, _) =>
    case DoStep(t) => StepPushesBack(st, t, m);
    case DoWork(b) => WorkPushesBack(st, b, m);
    case Tick =>
  }

  lemma StepPushesBack(st: State, t: nat, m: nat)
    requires m < |st.mgrs| && CanStep(st, t)
    ensures var (st', asks) := (Stepped(st, t), Asks(st, DoStep(t), m));
            && m < |st'.mgrs| && st'.mgrs[m].due == (if asks then st.now + SECOND else st.mgrs[m].due)
            && (asks ==>
                  && st'.mgrs[m].queued && st'.queue == (if st.mgrs[m].queued then st.queue else st.queue + [m])
                  && !st'.worker.Asleep? && !st'.worker.AsleepUntil?)
  {
    hide Without, Enqueued;
    if st.threads[t].EnqueueHold? { EnqueuePushesBack(st, st.threads[t].m); }
  }

  lemma WorkPushesBack(st: State, spurious: bool, m: nat)
    requires m < |st.mgrs| && CanWork(st)
    ensures var (st', asks) := (Worked(st, spurious), Asks(st, DoWork(spurious), m));
            && m < |st'.mgrs| && st'.mgrs[m].due == (if asks then st.now + SECOND else st.mgrs[m].due)
            && (asks ==>
                  && st'.mgrs[m].queued && st'.queue == (if st.mgrs[m].queued then st.queue else st.queue + [m])
                  && !st'.worker.Asleep? && !st'.worker.AsleepUntil?)
  {
    hide Earliest, Dues, Enqueued;
    if st.worker.RetryHold? { EnqueuePushesBack(st, st.worker.m); }
  }

  lemma EnqueuePushesBack(st: State, m: nat)
    requires m < |st.mgrs|
    ensures var (g, st') := (st.mgrs[m], Enqueued(st, m));
            && |st'.mgrs| == |st.mgrs| && st'.threads == st.threads
            && (forall k :: 0 <= k < |st.mgrs| && k != m ==> st'.mgrs[k] == st.mgrs[k])
            && st'.mgrs[m] == (if g.attached then g.(due := st.now + SECOND, queued := true) else g)
            && (g.attached ==>
                  && st'.mgrs[m].queued && st'.queue == (if g.queued then st.queue else st.queue + [m])
                  && !st'.worker.Asleep? && !st'.worker.AsleepUntil?)
  {
  }

  lemma TimePasses(serial: bool, st: State, move: Move)
    requires Can(st, serial, move)
    ensures Do(st, serial, move).now == if move.Tick? then st.now + 1 else st.now
  {
    hide Earliest, Dues, Without;
  }

  /** When m was asked to be saved. */
  function AskedAt(serial: bool, st: State, moves: seq<Move>, m: nat): seq<nat>
    decreases |moves|
  {
    if moves == [] || !Can(st, serial, moves[0]) then []
    else (if Asks(st, moves[0], m) then [st.now] else []) + AskedAt(serial, Do(st, serial, moves[0]), moves[1..], m)
  }

  /** The times are in order, and the job is due exactly a second after the last of them. */
  lemma {:induction false} DueIsLastAsk(serial: bool, st: State, moves: seq<Move>, end: State, m: nat)
    requires m < |st.mgrs| && Leads(serial, st, moves, end)
    ensures m < |end.mgrs| && st.now <= end.now
    ensures var asked := AskedAt(serial, st, moves, m);
            && (forall i :: 0 <= i < |asked| ==> st.now <= asked[i] <= end.now)
            && (forall i, j :: 0 <= i < j < |asked| ==> asked[i] <= asked[j])
            && end.mgrs[m].due == if asked == [] then st.mgrs[m].due else asked[|asked| - 1] + SECOND
    decreases |moves|
  {
    hide Can, Do, Asks;
    if moves != [] {
      AskPushesBack(serial, st, moves[0], m);
      TimePasses(serial, st, moves[0]);
      DueIsLastAsk(serial, Do(st, serial, moves[0]), moves[1..], end, m);
    }
  }

  /** The debounce: whatever the run, when the worker takes a job out of the list, nobody has asked
      for it to be saved within the last second. */
  lemma PoppedIsQuiet(serial: bool, start: State, moves: seq<Move>, st: State, spurious: bool, m: nat)
    requires Init(start) && Leads(serial, start, moves, st) && m < |start.mgrs|
    requires CanWork(st) && st.worker.Awake? && Worked(st, spurious).worker == Popped(m)
    ensures forall i :: 0 <= i < |AskedAt(serial, start, moves, m)| ==> AskedAt(serial, start, moves, m)[i] + SECOND <= st.now
  {
    hide Leads, AskedAt, Init;
    DueIsLastAsk(serial, start, moves, st, m);
    assert st.mgrs[m].due <= st.now;
  }

  // The worker is between taking m out of the list and its save.
  predicate Serving(w: WorkerPc, m: nat) { w == Popped(m) || w == InJob(m) || w == Locked(m) }

  // Within a second of an ask, and not being served.
  predicate Held(st: State, m: nat, t: nat) {
    m < |st.mgrs| && t <= st.now && t + SECOND <= st.mgrs[m].due && !Serving(st.worker, m)
  }

  lemma StaysHeld(serial: bool, st: State, move: Move, m: nat, t: nat)
    requires Held(st, m, t) && Can(st, serial, move) && st.now < t + SECOND
    ensures Held(Do(st, serial, move), m, t) && Do(st, serial, move).mgrs[m].saved == st.mgrs[m].saved
  {
    HeldIsManager(st, m, t);
    hide Held, CanCall, CanEdit, CanStep, Called, Edited, Released, Stepped, Earliest, Dues;
    AskPushesBack(serial, st, move, m);
    TimePasses(serial, st, move);
    SavesExactly(serial, st, move, m);
    HeldWorks(serial, st, move, m, t);
  }

  // What is left for Held after a move: the worker does not begin to serve m.
  lemma HeldWorks(serial: bool, st: State, move: Move, m: nat, t: nat)
    requires Held(st, m, t) && Can(st, serial, move) && st.now < t + SECOND
    ensures m < |Do(st, serial, move).mgrs| && !Serving(Do(st, serial, move).worker, m)
    ensures st.worker != Locked(m) && t <= st.now && t + SECOND <= st.mgrs[m].due
    ensures var st' := Do(st, serial, move); t <= st'.now && t + SECOND <= st'.mgrs[m].due ==> Held(st', m, t)
  {
    hide Without;
    var st' := Do(st, serial, move);
    if move.DoWork? && st.worker.Awake? && st'.worker.Popped? {
      assert st.mgrs[st'.worker.m].due <= st.now;
    }
  }

  lemma HeldIsManager(st: State, m: nat, t: nat)
    requires Held(st, m, t)
    ensures m < |st.mgrs|
  {
  }

  /** Within a second of any ask nothing is saved that the worker is not already serving: asks less
      than a second apart give one save. */
  lemma {:induction false} SavesWait(serial: bool, mid: State, more: seq<Move>, end: State, m: nat, t: nat)
    requires Held(mid, m, t) && Leads(serial, mid, more, end) && end.now < t + SECOND
    ensures m < |end.mgrs| && end.mgrs[m].saved == mid.mgrs[m].saved
    decreases |more|
  {
    hide Can, Do, Held;
    HeldIsManager(mid, m, t);
    if more != [] {
      DueIsLastAsk(serial, mid, more, end, m);
      StaysHeld(serial, mid, more[0], m, t);
      SavesWait(serial, Do(mid, serial, more[0]), more[1..], end, m, t);
    }
  }

  /** The same over whole runs: whatever is asked at time t, and whatever happens afterwards before a
      second has passed. */
  lemma OneSaveForABurst(serial: bool, start: State, moves: seq<Move>, mid: State, more: seq<Move>, end: State,
                         m: nat, i: nat)
    requires Leads(serial, start, moves, mid) && m < |start.mgrs| && i < |AskedAt(serial, start, moves, m)|
    requires m < |mid.mgrs| && !Serving(mid.worker, m)
    requires Leads(serial, mid, more, end) && end.now < AskedAt(serial, start, moves, m)[i] + SECOND
    ensures m < |end.mgrs| && end.mgrs[m].saved == mid.mgrs[m].saved
  {
    hide Leads, AskedAt;
    DueIsLastAsk(serial, start, moves, mid, m);
    SavesWait(serial, mid, more, end, m, AskedAt(serial, start, moves, m)[i]);
  }

  /** What is saved, and when: the worker, holding the manager's mutex, saves the whole configuration
      exactly if autosave is on and a change is marked, and clears the mark; no other step of
      anybody writes the file or clears the mark. */
  lemma SavesExactly(serial: bool, st: State, move: Move, m: nat)
    requires m < |st.mgrs| && Can(st, serial, move)
    ensures var g, saves := st.mgrs[m], move.DoWork? && st.worker == Locked(m) && st.mgrs[m].autoSave && st.mgrs[m].changed;
            && m < |Do(st, serial, move).mgrs|
            && var g' := Do(st, serial, move).mgrs[m];
               && g'.saved == (if saves then g.conf else g.saved)
               && (g.changed && !g'.changed <==> saves)
  {
    hide Earliest, Dues, Without, Enqueued;
    match move
    case DoCall(t, c) =>
    case DoEdit(t, _) =>
    case DoRelease(t, _) =>
    case DoStep(t) => if st.threads[t].EnqueueHold? { EnqueuePushesBack(st, st.threads[t].m); }
    case DoWork(_) => if st.worker.RetryHold? { EnqueuePushesBack(st, st.worker.m); }
    case Tick =>
  }

  // ---- an update is saved in the end

  predicate AllIdle(st: State) { forall t :: 0 <= t < |st.threads| ==> st.threads[t].Idle? }

  /** An update of a manager that will be saved. */
  predicate Pending(st: State, m: nat) {
    m < |st.mgrs| && st.mgrs[m].autoSave && st.mgrs[m].attached && st.mgrs[m].changed
  }

  /** The worker is awake and retries nothing, and every job in the list is due. */
  predicate Ripe(st: State) {
    && !st.worker.Asleep? && !st.worker.AsleepUntil? && !st.worker.RetryWait? && !st.worker.RetryHold?
    && forall q :: q in st.queue ==> q < |st.mgrs| && st.mgrs[q].due <= st.now
  }

  // How far the worker is from its next look at the list.
  function ToGo(w: WorkerPc): nat {
    match w
    case Popped(_) => 5
    case InJob(_) => 4
    case Locked(_) => 3
    case Checked(_) => 2
    case Leaving(_) => 1
    case _ => 0
  }

  // No client is inside an operation: the job is listed or in the worker's hands.
  lemma PendingIsListed(st: State, m: nat)
    requires AllSafe(st) && AllIdle(st) && Pending(st, m) && Ripe(st)
    ensures m in st.queue || InHand(st.worker, m)
    ensures st.worker.Awake? ==> st.queue != []
    ensures st.worker.InJob? ==> st.worker.m < |st.mgrs| && st.mgrs[st.worker.m].mtx.Nobody?
    ensures CanWork(st)
  {
    assert CoverInv(st, m);
    if st.worker.InJob? { assert MutexInv(st, st.worker.m); }
  }

  // One more step of the worker: m is saved, or it is one step nearer.
  lemma RipeWorks(st: State, m: nat)
    requires AllIdle(st) && Pending(st, m) && Ripe(st) && CanWork(st)
    requires st.worker.Awake? ==> st.queue != []
    requires st.worker.InJob? ==> st.worker.m < |st.mgrs| && st.mgrs[st.worker.m].mtx.Nobody?
    ensures var st' := Worked(st, false);
            && m < |st'.mgrs| && st'.mgrs[m].conf == st.mgrs[m].conf && st'.threads == st.threads
            && (Pending(st', m) || (!st'.mgrs[m].changed && st'.mgrs[m].saved == st.mgrs[m].conf))
            && Ripe(st') && (|st'.queue| < |st.queue| || (|st'.queue| == |st.queue| && ToGo(st'.worker) < ToGo(st.worker)))
  {
    hide Earliest, Dues, Without, Enqueued;
    if st.worker.Awake? {
      var next := Earliest(Dues(st.mgrs, st.queue));
      assert st.queue[next] in st.queue;
      forall q | q in Worked(st, false).queue ensures q in st.queue {
        assert q in st.queue[..next] || q in st.queue[next + 1..];
      }
    }
  }

  /** The worker's own steps save it. */
  lemma {:induction false} Drains(serial: bool, st: State, m: nat) returns (moves: seq<Move>, end: State)
    requires AllSafe(st) && AllIdle(st) && Pending(st, m) && Ripe(st)
    ensures Leads(serial, st, moves, end) && forall k :: 0 <= k < |moves| ==> moves[k] == DoWork(false)
    ensures m < |end.mgrs| && !end.mgrs[m].changed && end.mgrs[m].saved == st.mgrs[m].conf
    decreases |st.queue|, ToGo(st.worker)
  {
    hide AllSafe, Ripe, CanWork, Worked;
    PendingIsListed(st, m);
    RipeWorks(st, m);
    var move := DoWork(false);
    var st' := Do(st, serial, move);
    if st'.mgrs[m].changed {
      DoIsSafe(serial, st, move);
      var rest;
      rest, end := Drains(serial, st', m);
      moves := [move] + rest;
      assert moves[1..] == rest;
    } else {
      moves, end := [move], st';
    }
  }

  // Time passes.
  lemma {:induction false} Ticks(serial: bool, st: State, n: nat) returns (moves: seq<Move>)
    ensures Leads(serial, st, moves, st.(now := st.now + n)) && forall k :: 0 <= k < |moves| ==> moves[k] == Tick
    decreases n
  {
    moves := [];
    if n > 0 {
      var rest := Ticks(serial, st.(now := st.now + 1), n - 1);
      moves := [Tick] + rest;
      assert moves[1..] == rest;
    }
  }

  // A time by which every job is due.
  lemma {:induction false} DueBy(mgrs: seq<Manager>) returns (n: nat)
    ensures forall q :: 0 <= q < |mgrs| ==> mgrs[q].due <= n
  {
    n := 0;
    if mgrs != [] {
      n := DueBy(mgrs[..|mgrs| - 1]);
      if mgrs[|mgrs| - 1].due > n { n := mgrs[|mgrs| - 1].due; }
    }
  }

  predicate WorkerOnly(moves: seq<Move>) { forall k :: 0 <= k < |moves| ==> moves[k].DoWork? || moves[k].Tick? }

  // One step of the worker out of sleep or on the way back from a retry.
  lemma Rouses(st: State, m: nat)
    requires AllSafe(st) && AllIdle(st) && Pending(st, m)
    requires st.worker.Asleep? || st.worker.AsleepUntil? || st.worker.RetryWait? || st.worker.RetryHold?
    ensures CanWork(st)
    ensures var st' := Worked(st, false);
            && Pending(st', m) && st'.mgrs[m].conf == st.mgrs[m].conf && st'.threads == st.threads
            && (if st.worker.RetryWait? then st'.worker.RetryHold? else st'.worker.Awake?)
  {
  }

  /** Progress: from any reachable state in which no client is inside an operation, whatever the
      worker is doing, it saves the whole configuration of a manager with an unsaved change, autosave
      on and its back pointer, by its own steps as time passes. */
  lemma SavesInTheEnd(serial: bool, start: State, before: seq<Move>, st: State, m: nat)
    returns (moves: seq<Move>, end: State)
    requires Init(start) && Leads(serial, start, before, st) && AllIdle(st) && Pending(st, m)
    ensures Leads(serial, st, moves, end) && WorkerOnly(moves)
    ensures m < |end.mgrs| && !end.mgrs[m].changed && end.mgrs[m].saved == st.mgrs[m].conf
  {
    hide AllSafe, Init, Leads;
    InitIsSafe(start);
    LeadsSafely(serial, start, before, st);
    moves, end := SavesFrom(serial, st, m);
  }

  lemma {:induction false} SavesFrom(serial: bool, st: State, m: nat) returns (moves: seq<Move>, end: State)
    requires AllSafe(st) && AllIdle(st) && Pending(st, m)
    ensures Leads(serial, st, moves, end) && WorkerOnly(moves)
    ensures m < |end.mgrs| && !end.mgrs[m].changed && end.mgrs[m].saved == st.mgrs[m].conf
    decreases if st.worker.RetryWait? then 2 else if st.worker.Asleep? || st.worker.AsleepUntil? || st.worker.RetryHold? then 1 else 0
  {
    hide AllSafe, CanWork, Worked;
    if st.worker.Asleep? || st.worker.AsleepUntil? || st.worker.RetryWait? || st.worker.RetryHold? {
      Rouses(st, m);
      var move := DoWork(false);
      DoIsSafe(serial, st, move);
      var rest;
      rest, end := SavesFrom(serial, Do(st, serial, move), m);
      moves := [move] + rest;
      assert moves[1..] == rest;
    } else {
      var n := DueBy(st.mgrs);
      var ripe := st.(now := st.now + n);
      var wait := Ticks(serial, st, n);
      LeadsSafely(serial, st, wait, ripe);
      QueueIsKnown(st);
      var work;
      work, end := Drains(serial, ripe, m);
      LeadsOn(serial, st, wait, ripe, work, end);
      moves := wait + work;
    }
  }

  lemma QueueIsKnown(st: State)
    requires AllSafe(st)
    ensures forall q :: q in st.queue ==> q < |st.mgrs|
  {
  }

  // ---- what calls and cancel() do

  /** The first region of each call: acquire takes the mutex; enableAutoSave and disableAutoSave set
      the flag, and go on only if they have changed it; the destructor always cancels. Nobody else's
      state changes. */
  lemma CallDoes(serial: bool, st: State, t: nat, c: Call)
    requires CanCall(st, serial, t, c)
    ensures var (st', g, m) := (Called(st, t, c), st.mgrs[c.m], c.m);
            && st' == st.(mgrs := st'.mgrs, threads := st'.threads)
            && st'.mgrs == st.mgrs[m := st'.mgrs[m]] && st'.threads == st.threads[t := st'.threads[t]]
            && (c.Acquire? ==> st'.mgrs[m] == g.(mtx := Client(t)) && st'.threads[t] == Holding(m))
            && (c.Enable? ==> st'.mgrs[m] == g.(autoSave := true) && st'.threads[t] == if g.autoSave then Idle else Enabling(m))
            && (c.DisableIt? ==> st'.mgrs[m] == g.(autoSave := false)
                                 && st'.threads[t] == if g.autoSave then Unlisting(m, Disable) else Idle)
            && (c.DestroyIt? ==> st'.mgrs[m] == g.(autoSave := false, life := Dying)
                                 && st'.threads[t] == Unlisting(m, if g.autoSave then Destroy else Final))
  {
  }

  /** release(): a modified configuration is marked, and whether its job is to be enqueued is decided by
      the flag as it is read afterwards; one that was not modified enqueues nothing. The mutex is given
      back before anything is enqueued, by a thread that was in release() only. */
  lemma ReleaseDoes(st: State, t: nat, modified: bool)
    requires t < |st.threads| && !st.threads[t].Idle? && st.threads[t].m < |st.mgrs|
    ensures var (pc, m, g) := (st.threads[t], st.threads[t].m, st.mgrs[st.threads[t].m]);
            && (pc.Holding? ==>
                  && CanEdit(st, t)
                  && var st' := Released(st, t, modified);
                     if modified then st' == SetThread(SetMgr(st, m, g.(changed := true, released := |g.conf|)), t, Changed(m))
                     else st' == SetThread(st, t, Unlocking(m, false)))
            && (pc.Changed? ==>
                  CanStep(st, t) && Stepped(st, t) == SetThread(st, t, Unlocking(m, if g.autoSave then true else false)))
            && (pc.Unlocking? ==>
                  && CanStep(st, t)
                  && Stepped(st, t) == SetThread(SetMgr(st, m, g.(mtx := Nobody)), t, if pc.job then EnqueueWait(m, true) else Idle))
  {
    hide Without, Enqueued;
  }

  /** A sleeping worker can wake at any time, and then looks at the list again. */
  lemma SleepEnds(st: State, spurious: bool)
    requires st.worker.Asleep? || st.worker.AsleepUntil?
    ensures CanWork(st) && Worked(st, spurious) == st.(worker := Awake)
  {
  }

  /** cancel(): first no copy of the job is in the list, then the job has neither mark nor manager, and
      the worker is awake. The destructor cancels once more if autosave was on; its last cancel ends
      the manager's life, and the call. */
  lemma CancelDoes(st: State, t: nat)
    requires CanStep(st, t) && (st.threads[t].Unlisting? || (st.threads[t].Detaching? && st.threads[t].m < |st.mgrs|))
    ensures var (st', m, why) := (Stepped(st, t), st.threads[t].m, st.threads[t].why);
            && (st.threads[t].Unlisting? ==>
                  m !in st'.queue && st'.threads == st.threads[t := Detaching(m, why)] && st'.mgrs == st.mgrs)
            && (st.threads[t].Detaching? ==>
                  && m < |st'.mgrs| && !st'.mgrs[m].queued && !st'.mgrs[m].attached
                  && st'.mgrs[m].life == (if why.Final? then Dead else st.mgrs[m].life)
                  && st'.threads == st.threads[t := if why.Destroy? then Unlisting(m, Final) else Idle]
                  && !st'.worker.Asleep? && !st'.worker.AsleepUntil?)
  {
    if st.threads[t].Unlisting? { WithoutHas(st.queue, st.threads[t].m, st.threads[t].m); }
    hide Without;
  }

  // ---- no use of a destroyed manager

  /** In every run, racing calls included: the worker's steps that go through a manager, and the
      threads inside one, meet a manager that has not been destroyed. */
  lemma NoUseAfterDestroy(serial: bool, start: State, moves: seq<Move>, st: State, m: nat)
    requires Init(start) && Leads(serial, start, moves, st) && m < |start.mgrs|
    ensures |st.mgrs| == |start.mgrs|
    ensures TouchesManager(st, m) ==> !st.mgrs[m].life.Dead?
    ensures forall t :: 0 <= t < |st.threads| && Uses(st.threads[t], m) ==> !st.mgrs[m].life.Dead?
  {
    InitIsSafe(start);
    LeadsSafely(serial, start, moves, st);
    assert MutexInv(st, m) && UseInv(st, m) && DeadInv(st.mgrs[m]);
  }

  /** Once the destructor has returned no step changes the manager, or attaches its job again. */
  lemma DeadStaysDead(serial: bool, start: State, moves: seq<Move>, st: State, m: nat, move: Move)
    requires Init(start) && Leads(serial, start, moves, st) && m < |start.mgrs| && m < |st.mgrs|
    requires st.mgrs[m].life.Dead? && Can(st, serial, move)
    ensures m < |Do(st, serial, move).mgrs|
    ensures var g, g' := st.mgrs[m], Do(st, serial, move).mgrs[m];
            g' == g.(queued := g'.queued) && !g'.attached
  {
    InitIsSafe(start);
    LeadsSafely(serial, start, moves, st);
    assert MutexInv(st, m) && UseInv(st, m) && DeadInv(st.mgrs[m]);
    hide AllSafe, QueueInv, Leads, Init;
    DeadIsLeftAlone(serial, st, m, move);
  }

  lemma DeadIsLeftAlone(serial: bool, st: State, m: nat, move: Move)
    requires m < |st.mgrs| && MutexInv(st, m) && UseInv(st, m) && DeadInv(st.mgrs[m])
    requires st.mgrs[m].life.Dead? && Can(st, serial, move)
    ensures m < |Do(st, serial, move).mgrs|
    ensures var g, g' := st.mgrs[m], Do(st, serial, move).mgrs[m]; g' == g.(queued := g'.queued) && !g'.attached
  {
    assert forall t :: 0 <= t < |st.threads| ==> !Uses(st.threads[t], m);
    assert forall t :: 0 <= t < |st.threads| ==> !HoldsMgr(st.threads[t], m);
    assert !WorkerHolds(st.worker, m);
    hide UseInv, MutexInv, Stepped, Worked, CanStep, CanWork;
    match move
    case DoCall(t, c) =>
    case DoEdit(t, _) =>
    case DoRelease(t, _) =>
    case DoStep(t) => DeadInStep(st, t, m);
    case DoWork(b) => DeadInWork(st, b, m);
    case Tick =>
  }

  lemma DeadInStep(st: State, t: nat, m: nat)
    requires m < |st.mgrs| && CanStep(st, t) && st.mgrs[m].life.Dead? && !st.mgrs[m].attached
    requires !Uses(st.threads[t], m) && !HoldsMgr(st.threads[t], m)
    ensures m < |Stepped(st, t).mgrs| && Stepped(st, t).mgrs[m] == st.mgrs[m]
  {
    hide Without, Enqueued;
    if st.threads[t].EnqueueHold? { EnqueuePushesBack(st, st.threads[t].m); }
  }

  lemma DeadInWork(st: State, spurious: bool, m: nat)
    requires m < |st.mgrs| && CanWork(st) && st.mgrs[m].life.Dead? && !st.mgrs[m].attached && !WorkerHolds(st.worker, m)
    ensures m < |Worked(st, spurious).mgrs|
    ensures var (g, g') := (st.mgrs[m], Worked(st, spurious).mgrs[m]); g' == g.(queued := g'.queued)
  {
    hide Earliest, Dues, Enqueued;
    if st.worker.RetryHold? { EnqueuePushesBack(st, st.worker.m); }
  }

  // ---- waiting

  datatype Proc = Thread(t: nat) | TheWorker

  function OwnerProc(o: Owner): Proc
    requires !o.Nobody?
  {
    if o.Client? then Thread(o.t) else TheWorker
  }

  /** x cannot go on before y gives up a mutex x wants: the queue's, a job's. */
  ghost predicate WaitsFor(st: State, x: Proc, y: Proc) {
    match x
    case TheWorker => (st.worker.Awake? || st.worker.RetryWait?) && !st.holder.Nobody? && y == OwnerProc(st.holder)
    case Thread(t) =>
      t < |st.threads| &&
      match st.threads[t]
      case EnqueueWait(_, _) => !st.holder.Nobody? && y == OwnerProc(st.holder)
      case Unlisting(_, _) => !st.holder.Nobody? && y == OwnerProc(st.holder)
      case EnqueueHold(m, _) => HasJob(st.worker, m) && y == TheWorker
      case Enabling(m) => HasJob(st.worker, m) && y == TheWorker
      case Detaching(m, _) => HasJob(st.worker, m) && y == TheWorker
      case _ => false
  }

  /** A process that a thread in acquire() of manager m waits for. */
  ghost predicate HoldsManager(st: State, m: nat, y: Proc)
    requires m < |st.mgrs|
  {
    !st.mgrs[m].mtx.Nobody? && y == OwnerProc(st.mgrs[m].mtx)
  }

  function Rank(st: State, x: Proc): nat {
    match x
    case TheWorker => if st.worker.Awake? || st.worker.RetryWait? then 2 else 0
    case Thread(t) =>
      if t >= |st.threads| then 0
      else if st.threads[t].EnqueueWait? || st.threads[t].Unlisting? then 2
      else if st.threads[t].EnqueueHold? || st.threads[t].Enabling? || st.threads[t].Detaching? then 1
      else 0
  }

  /** Waiting goes strictly downhill, so the queue's and the jobs' mutexes never form a cyclic wait;
      and whoever holds a manager's mutex waits for nothing. A thread holds one manager at a time
      here: the order in which a client acquires several of them is the client's affair. */
  lemma NoCyclicWait(serial: bool, start: State, moves: seq<Move>, st: State, x: Proc, y: Proc)
    requires Init(start) && Leads(serial, start, moves, st)
    ensures WaitsFor(st, x, y) ==> Rank(st, y) < Rank(st, x)
    ensures forall m :: 0 <= m < |st.mgrs| && HoldsManager(st, m, x) ==> !WaitsFor(st, x, y)
  {
    InitIsSafe(start);
    LeadsSafely(serial, start, moves, st);
    forall m | 0 <= m < |st.mgrs| && HoldsManager(st, m, x) ensures !WaitsFor(st, x, y) {
      assert MutexInv(st, m);
    }
  }

  predicate Runs(st: State, y: Proc) {
    match y
    case TheWorker => CanWork(st) && !st.worker.Asleep? && !st.worker.AsleepUntil?
    case Thread(u) => CanStep(st, u)
  }

  // In an operation: between its first step and its last, the time a caller holds the manager apart.
  predicate Busy(st: State, x: Proc) {
    match x
    case TheWorker => !st.worker.Asleep? && !st.worker.AsleepUntil?
    case Thread(t) => t < |st.threads| && !st.threads[t].Idle? && !st.threads[t].Holding?
  }

  /** A thread inside an operation, and the worker unless it sleeps, can step or waits for somebody;
      and whoever it waits for can step, or waits for somebody who can. */
  lemma WaitingEnds(serial: bool, start: State, moves: seq<Move>, st: State, x: Proc)
    requires Init(start) && Leads(serial, start, moves, st) && Busy(st, x)
    ensures Runs(st, x) || exists y :: WaitsFor(st, x, y) && (Runs(st, y) || exists z :: WaitsFor(st, y, z) && Runs(st, z))
  {
    InitIsSafe(start);
    LeadsSafely(serial, start, moves, st);
    hide AllSafe, Init, Leads;
    if !Runs(st, x) {
      var y := if x.Thread? && !st.threads[x.t].EnqueueWait? && !st.threads[x.t].Unlisting? then TheWorker
               else OwnerProc(st.holder);
      assert WaitsFor(st, x, y);
      if !Runs(st, y) {
        assert st.threads[y.t].EnqueueHold? && HasJob(st.worker, st.threads[y.t].m);
        assert WaitsFor(st, y, TheWorker) && Runs(st, TheWorker);
      }
    }
  }

  /** The worker never sleeps past a due job: asleep without a limit, the queue is empty; asleep
      until a time, no job in the queue is due before it. */
  lemma NeverOversleeps(serial: bool, start: State, moves: seq<Move>, st: State)
    requires Init(start) && Leads(serial, start, moves, st)
    ensures st.worker.Asleep? ==> st.queue == []
    ensures st.worker.AsleepUntil? ==> forall m :: m in st.queue ==> m < |st.mgrs| && st.worker.due <= st.mgrs[m].due
  {
    InitIsSafe(start);
    LeadsSafely(serial, start, moves, st);
  }
}
