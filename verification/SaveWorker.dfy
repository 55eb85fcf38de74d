/** The save jobs, the worker's list and the managers of core/src/config.cpp as objects, one
    method for each region that the code executes under a lock. `Shows` says that the objects are
    in a state of the transition system of AutoSave.dfy; each method takes them to the state that
    the system's step leads to. */
module SaveWorkers {
  import opened AutoSave
  import opened Lists

  class SaveJob {
    var manager: ConfigManager?
    var queued: bool
    var due: nat

    constructor ()
      ensures manager == null && !queued && due == 0
    {
      manager, queued, due := null, false, 0;
    }
  }

  class ConfigManager {
    const saveJob: SaveJob
    var conf: seq<Edit>
    var changed: bool
    var autoSaveEnabled: bool
    // what save() last wrote
    var saved: seq<Edit>

    constructor ()
      ensures fresh(saveJob) && saveJob.manager == this && !saveJob.queued && saveJob.due == 0
      ensures conf == [] && !changed && !autoSaveEnabled && saved == []
    {
      saveJob := new SaveJob();
      conf, changed, autoSaveEnabled, saved := [], false, false, [];
      new;
      saveJob.manager := this;
    }

    /** The objects of the m-th manager hold the values of the state. */
    ghost predicate Shows(g: Manager)
      reads this, saveJob
    {
      && conf == g.conf && changed == g.changed && autoSaveEnabled == g.autoSave && saved == g.saved
      && saveJob.queued == g.queued && saveJob.due == g.due
      && saveJob.manager == if g.attached then this else null
    }

    // enableAutoSave: compare_exchange, and then under the job's mutex
    method Enable(ghost g: Manager) returns (go: bool)
      requires Shows(g)
      modifies this
      ensures go == !g.autoSave && Shows(g.(autoSave := true))
    {
      go := !autoSaveEnabled;
      autoSaveEnabled := true;
    }

    method Attach(ghost g: Manager)
      requires Shows(g)
      modifies saveJob
      ensures Shows(g.(attached := true))
    {
      saveJob.manager := this;
    }

    // disableAutoSave: exchange
    method Disable(ghost g: Manager) returns (go: bool)
      requires Shows(g)
      modifies this
      ensures go == g.autoSave && Shows(g.(autoSave := false))
    {
      go := autoSaveEnabled;
      autoSaveEnabled := false;
    }

    // save(false), reduced to the snapshot that it writes
    method Save()
      modifies this`saved
      ensures saved == conf
    {
      saved := conf;
    }

    /** release(): the job that is to be queued after the unlock, if any. */
    method Release(modified: bool, ghost g: Manager) returns (job: SaveJob?)
      requires Shows(g)
      modifies this
      ensures Shows(if modified then g.(changed := true) else g)
      ensures job == if modified && g.autoSave then saveJob else null
    {
      job := null;
      if modified {
        changed := true;
        if autoSaveEnabled { job := saveJob; }
      }
    }
  }

  /** Distinct managers with distinct jobs. */
  ghost predicate Apart(mgrs: seq<ConfigManager>) {
    forall i, j :: 0 <= i < j < |mgrs| ==> mgrs[i] != mgrs[j] && mgrs[i].saveJob != mgrs[j].saveJob
  }

  ghost function JobsOf(mgrs: seq<ConfigManager>): set<SaveJob> { set m | 0 <= m < |mgrs| :: mgrs[m].saveJob }

  datatype Turn = Sleep | SleepUntil(due: nat) | Serve(job: SaveJob)

  class ConfigSaveWorker {
    var jobs: seq<SaveJob>

    constructor ()
      ensures jobs == []
    {
      jobs := [];
    }

    ghost predicate Holds(mgrs: seq<ConfigManager>, queue: seq<nat>)
      reads this
    {
      |jobs| == |queue| && forall k :: 0 <= k < |queue| ==> queue[k] < |mgrs| && jobs[k] == mgrs[queue[k]].saveJob
    }

    ghost predicate Shows(mgrs: seq<ConfigManager>, st: State)
      reads this, mgrs, JobsOf(mgrs)
    {
      && Apart(mgrs) && |mgrs| == |st.mgrs| && Holds(mgrs, st.queue)
      && forall m :: 0 <= m < |mgrs| ==> mgrs[m].saveJob in JobsOf(mgrs) && mgrs[m].Shows(st.mgrs[m])
    }

    /** enqueue(): nothing for a job without a manager; otherwise it is due in a second, and in the
        list once if it was not marked as queued. */
    method Enqueue(job: SaveJob, now: nat, ghost mgrs: seq<ConfigManager>, ghost st: State, ghost m: nat)
      requires Shows(mgrs, st) && m < |mgrs| && mgrs[m].saveJob == job && st.now == now
      modifies this, job
      ensures Shows(mgrs, Enqueued(st, m))
      ensures job.manager == old(job.manager)
      ensures job.manager != null ==> job.due == now + SECOND && job.queued
      ensures job.manager == null ==> job.due == old(job.due) && job.queued == old(job.queued)
      ensures jobs == if job.manager == null || old(job.queued) then old(jobs) else old(jobs) + [job]
    {
      if job.manager == null { return; }
      job.due := now + SECOND;
      if !job.queued {
        job.queued := true;
        jobs := jobs + [job];
      }
    }

    /** cancel(), first region: std::remove and erase. */
    method Unlist(job: SaveJob, ghost mgrs: seq<ConfigManager>, ghost st: State, ghost m: nat)
      requires Shows(mgrs, st) && m < |mgrs| && mgrs[m].saveJob == job
      modifies this
      ensures Shows(mgrs, st.(queue := Without(st.queue, m)))
      ensures jobs == Without(old(jobs), job) && job !in jobs
    {
      WithoutMapped(mgrs, jobs, st.queue, m);
      WithoutHas(jobs, job, job);
      jobs := Remove(jobs, job);
    }

    /** cancel(), second region, under the job's mutex. */
    method Detach(job: SaveJob, ghost mgrs: seq<ConfigManager>, ghost st: State, ghost m: nat)
      requires Shows(mgrs, st) && m < |mgrs| && mgrs[m].saveJob == job
      modifies job
      ensures Shows(mgrs, SetMgr(st, m, st.mgrs[m].(queued := false, attached := false)))
      ensures job.manager == null && !job.queued
    {
      job.queued := false;
      job.manager := null;
    }

    // std::min_element by due time
    method MinElement(ghost dues: seq<nat>) returns (next: nat)
      requires jobs != [] && |dues| == |jobs| && forall k :: 0 <= k < |jobs| ==> jobs[k].due == dues[k]
      ensures next < |jobs| && next == Earliest(dues)
    {
      next := 0;
      var k := 1;
      assert dues[..1] == [dues[0]];
      while k < |jobs|
        invariant 1 <= k <= |jobs| && next == Earliest(dues[..k])
      {
        assert dues[..k + 1][..k] == dues[..k];
        if jobs[k].due < jobs[next].due { next := k; }
        k := k + 1;
      }
      assert dues[..k] == dues;
    }

    /** One turn of the worker's loop under the list's mutex: the job that is due first is taken out
        if its time has come. */
    method NextTurn(now: nat, ghost mgrs: seq<ConfigManager>, ghost st: State) returns (turn: Turn)
      requires Shows(mgrs, st) && st.worker.Awake? && CanWork(st) && st.now == now
      modifies this
      ensures Shows(mgrs, Worked(st, false))
      ensures turn.Sleep? <==> old(jobs) == []
      ensures turn.SleepUntil? ==> turn.due > now && jobs == old(jobs)
      ensures turn.Serve? ==> turn.job.due <= now && turn.job in old(jobs) && |jobs| == |old(jobs)| - 1
      ensures match Worked(st, false).worker
              case Asleep => turn == Sleep
              case AsleepUntil(due) => turn == SleepUntil(due)
              case Popped(m) => m < |mgrs| && turn == Serve(mgrs[m].saveJob)
              case _ => false
    {
      hide Earliest, Dues, Apart, Worked;
      AwakeWorked(st);
      if jobs == [] { return Sleep; }
      ghost var dues := Dues(st.mgrs, st.queue);
      assert forall k :: 0 <= k < |jobs| ==> jobs[k].due == dues[k];
      var next := MinElement(dues);
      if jobs[next].due > now { return SleepUntil(jobs[next].due); }
      var job := jobs[next];
      jobs := jobs[..next] + jobs[next + 1..];
      return Serve(job);
    }

    /** The region under the job's mutex; `free` is what try_lock on the manager's mutex answers. */
    method ServeJob(job: SaveJob, free: bool, ghost mgrs: seq<ConfigManager>, ghost st: State, ghost m: nat)
        returns (retry: bool)
      requires Shows(mgrs, st) && m < |mgrs| && mgrs[m].saveJob == job
      modifies job, mgrs
      ensures Shows(mgrs, SetMgr(st, m, Served(st.mgrs[m], free)))
      ensures retry == (old(job.manager) != null && !free) && !job.queued && job.manager == old(job.manager)
      ensures job.manager != null ==>
                var saves := free && job.manager.autoSaveEnabled && old(job.manager.changed);
                && job.manager.saved == (if saves then job.manager.conf else old(job.manager.saved))
                && job.manager.changed == (old(job.manager.changed) && !saves)
    {
      retry := false;
      job.queued := false;
      if job.manager != null && free {
        if job.manager.autoSaveEnabled && job.manager.changed {
          job.manager.changed := false;
          job.manager.Save();
        }
      } else if job.manager != null {
        retry := true;
      }
    }
  }

  /** The objects as they are constructed, any number of managers and the worker, are in the first state
      of the transition system. */
  method Boot(n: nat) returns (w: ConfigSaveWorker, mgrs: seq<ConfigManager>, ghost st: State)
    ensures fresh(w) && |mgrs| == n && Init(st) && w.Shows(mgrs, st)
  {
    mgrs := [];
    while |mgrs| < n
      invariant |mgrs| <= n && Apart(mgrs) && forall k :: 0 <= k < |mgrs| ==> fresh(mgrs[k]) && fresh(mgrs[k].saveJob)
      invariant forall k :: 0 <= k < |mgrs| ==> mgrs[k].Shows(Made())
    {
      var mgr := new ConfigManager();
      mgrs := mgrs + [mgr];
    }
    w := new ConfigSaveWorker();
    st := State(seq(n, _ => Made()), [], [], Nobody, Awake, 0);
  }

  // The worker's step when it looks at the list.
  lemma AwakeWorked(st: State)
    requires st.worker.Awake? && CanWork(st)
    ensures st.queue == [] ==> Worked(st, false) == st.(worker := Asleep)
    ensures st.queue != [] ==>
            var next := Earliest(Dues(st.mgrs, st.queue));
            var m := st.queue[next];
            && m < |st.mgrs|
            && Worked(st, false) == if st.mgrs[m].due > st.now then st.(worker := AsleepUntil(st.mgrs[m].due))
                                    else st.(queue := st.queue[..next] + st.queue[next + 1..], worker := Popped(m))
  {
    hide Earliest, Dues;
    if st.queue != [] { assert st.queue[Earliest(Dues(st.mgrs, st.queue))] in st.queue; }
  }

  /** What the worker does with a job under its mutex: nothing more for a job without a manager;
      save what has changed if it gets the manager's mutex and autosave is on. */
  function Served(g: Manager, free: bool): Manager {
    if g.attached && free && g.autoSave && g.changed then g.(queued := false, changed := false, saved := g.conf)
    else g.(queued := false)
  }

  /** The steps of the worker that serving a job stands for. */
  lemma ServedIsWorked(st: State, m: nat)
    requires st.worker == Popped(m) && m < |st.mgrs|
    ensures var (g, s1) := (st.mgrs[m], Worked(st, false));
            && (!g.attached ==> Worked(s1, false) == SetMgr(st, m, Served(g, true)).(worker := Awake))
            && (g.attached && !g.mtx.Nobody? ==> Worked(s1, false) == SetMgr(st, m, Served(g, false)).(worker := RetryWait(m)))
            && (g.attached && g.mtx.Nobody? ==>
                  var s4 := Worked(Worked(Worked(s1, false), false), false);
                  Worked(s4, false) == SetMgr(st, m, Served(g, true)).(worker := Awake))
  {
    var s1 := Worked(st, false);
    if st.mgrs[m].attached && st.mgrs[m].mtx.Nobody? {
      var s2 := Worked(s1, false);
      var s3 := Worked(s2, false);
      var s4 := Worked(s3, false);
      assert Worked(s4, false).mgrs == SetMgr(st, m, Served(st.mgrs[m], true)).mgrs;
    }
  }

  lemma {:induction false} WithoutMapped(mgrs: seq<ConfigManager>, jobs: seq<SaveJob>, queue: seq<nat>, m: nat)
    requires Apart(mgrs) && m < |mgrs| && |jobs| == |queue|
    requires forall k :: 0 <= k < |queue| ==> queue[k] < |mgrs| && jobs[k] == mgrs[queue[k]].saveJob
    ensures var (js, q) := (Without(jobs, mgrs[m].saveJob), Without(queue, m));
            |js| == |q| && forall k :: 0 <= k < |q| ==> q[k] < |mgrs| && js[k] == mgrs[q[k]].saveJob
  {
    if queue != [] {
      var n := |queue| - 1;
      WithoutMapped(mgrs, jobs[..n], queue[..n], m);
    }
  }
}
