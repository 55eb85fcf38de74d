/** What a pipeline delivers. The frames that reach the sink are, in every reachable state, a
    prefix of the composed stage functions applied to the frames the source produced, less the
    frames refused by stopped swaps; a stop costs a block at most one frame. Without stops the
    pipeline never blocks before everything has been delivered, and the workers run dry after
    a bounded number of steps. */
module PipelineDelivery {
  import opened Streams
  import opened Pipeline
  import opened PipelineInvariant

  /** The frames stream k carries when the source produces `offered` and node i's swaps are
      decided as marks[i] says. */
  ghost function Flow<S(!new), T(!new)>(
    kinds: seq<Kind<S, T>>, samples: nat, marks: seq<seq<bool>>, offered: seq<Frame<T>>, k: nat): seq<Frame<T>>
    requires Config(kinds, samples) && |marks| == |kinds| && k < |kinds| - 1
  {
    if k == 0 then Survivors(offered, marks[0])
    else Survivors(kinds[k].stage.Outs(Flow(kinds, samples, marks, offered, k - 1)), marks[k])
  }

  /** The same when no swap is ever refused: the composition of the stages up to node k. */
  ghost function Composed<S(!new), T(!new)>(
    kinds: seq<Kind<S, T>>, samples: nat, offered: seq<Frame<T>>, k: nat): seq<Frame<T>>
    requires Config(kinds, samples) && k < |kinds| - 1
  {
    if k == 0 then offered
    else kinds[k].stage.Outs(Composed(kinds, samples, offered, k - 1))
  }

  ghost function Marks<S, T>(sys: System<S, T>): seq<seq<bool>> {
    seq(|sys.nodes|, i requires 0 <= i < |sys.nodes| => sys.nodes[i].kept)
  }

  ghost function Offered<S, T>(sys: System<S, T>): seq<Frame<T>>
    requires |sys.nodes| > 0
  {
    sys.nodes[0].consumed
  }

  /** What the sink's handler has been given and has finished with. */
  ghost function Delivered<S, T>(sys: System<S, T>): seq<Frame<T>>
    requires |sys.nodes| > 0
  {
    sys.nodes[|sys.nodes| - 1].consumed
  }

  // ---- order, loss, duplication

  // What node i + 1 has processed is a prefix of what node i sent.
  lemma ProcessedWasSent<S(!new), T(!new)>(kinds: seq<Kind<S, T>>, samples: nat, sys: System<S, T>, i: nat)
    requires Inv(kinds, samples, sys) && i < |kinds| - 1
    ensures Processed(sys.nodes[i + 1]) <= sys.nodes[i].sent
  {
    var w, s, r := sys.nodes[i], sys.streams[i], sys.nodes[i + 1];
    assert LinkInv(samples, w, s, r);
    assert LocalInv(kinds[i + 1], r, samples);
    if Computed(r.pc) {
      assert s.dataReady && r.acc == s.readBuf[..s.dataSize];
    }
  }

  // A node has sent what it produced, as far as its swaps have been decided.
  lemma SentIsSurvivors<S, T>(k: Kind<S, T>, n: Node<S, T>)
    requires HistoryInv(k, n)
    ensures n.sent <= Survivors(Produced(k, n), n.kept)
    ensures !InFlight(k, n) ==> n.sent == Survivors(Produced(k, n), n.kept)
  {
    var done := Produced(k, n);
    SurvivorsPrefix(done[..|n.kept|], done, n.kept);
    if !InFlight(k, n) { assert done[..|n.kept|] == done; }
  }

  // More input frames, more frames out, the same ones first.
  lemma StageGrows<S, T>(stage: Stage<S, T>, xs: seq<Frame<T>>, ys: seq<Frame<T>>, marks: seq<bool>)
    requires xs <= ys
    ensures Survivors(stage.Outs(xs), marks) <= Survivors(stage.Outs(ys), marks)
  {
    OutsPrefix(stage, xs, ys);
    SurvivorsPrefix(stage.Outs(xs), stage.Outs(ys), marks);
  }

  lemma {:induction false} SentFollowsFlow<S(!new), T(!new)>(kinds: seq<Kind<S, T>>, samples: nat, sys: System<S, T>,
      k: nat)
    requires Inv(kinds, samples, sys) && k < |kinds| - 1
    ensures sys.nodes[k].sent <= Flow(kinds, samples, Marks(sys), Offered(sys), k)
  {
    hide LocalInv, LinkInv, HistoryInv, Survivors, Fits;
    var n := sys.nodes[k];
    SentIsSurvivors(kinds[k], n);
    if k > 0 {
      SentFollowsFlow(kinds, samples, sys, k - 1);
      ProcessedWasSent(kinds, samples, sys, k - 1);
      var before := Flow(kinds, samples, Marks(sys), Offered(sys), k - 1);
      StageGrows(kinds[k].stage, Processed(n), before, n.kept);
    }
  }

  /** In every state of every run, whatever blocks were stopped and restarted: the sink has
      received a prefix of the flow decided by the swaps, and each block has lost at most one
      frame for each time it was stopped. */
  lemma DeliveredInOrder<S(!new), T(!new)>(kinds: seq<Kind<S, T>>, samples: nat, run: seq<System<S, T>>, t: nat)
    requires Config(kinds, samples) && Run(kinds, samples, run) && t < |run|
    ensures Delivered(run[t]) <= Flow(kinds, samples, Marks(run[t]), Offered(run[t]), |kinds| - 2)
    ensures forall i :: 0 <= i < |kinds| ==> Drops(run[t].nodes[i].kept) <= run[t].nodes[i].stops
  {
    hide LinkInv, HistoryInv, Next, Init;
    RunHasInv(kinds, samples, run, t);
    var last := |kinds| - 2;
    SentFollowsFlow(kinds, samples, run[t], last);
    ProcessedWasSent(kinds, samples, run[t], last);
    forall i | 0 <= i < |kinds| ensures Drops(run[t].nodes[i].kept) <= run[t].nodes[i].stops {
      assert LocalInv(kinds[i], run[t].nodes[i], samples);
    }
  }

  lemma {:induction false} FlowWithoutDrops<S(!new), T(!new)>(
    kinds: seq<Kind<S, T>>, samples: nat, marks: seq<seq<bool>>, offered: seq<Frame<T>>, k: nat)
    requires Config(kinds, samples) && |marks| == |kinds| && k < |kinds| - 1
    requires forall i :: 0 <= i <= k ==> Drops(marks[i]) == 0
    ensures Flow(kinds, samples, marks, offered, k) == Composed(kinds, samples, offered, k)
  {
    if k == 0 {
      NoDropsKeepsAll(offered, marks[0]);
    } else {
      FlowWithoutDrops(kinds, samples, marks, offered, k - 1);
      NoDropsKeepsAll(kinds[k].stage.Outs(Composed(kinds, samples, offered, k - 1)), marks[k]);
    }
  }

  /** While no block has been stopped: exactly a prefix of the composed stages. */
  lemma DeliveredIsComposition<S(!new), T(!new)>(kinds: seq<Kind<S, T>>, samples: nat, run: seq<System<S, T>>, t: nat)
    requires Config(kinds, samples) && Run(kinds, samples, run) && t < |run|
    requires forall i :: 0 <= i < |kinds| ==> run[t].nodes[i].stops == 0
    ensures Delivered(run[t]) <= Composed(kinds, samples, Offered(run[t]), |kinds| - 2)
  {
    DeliveredInOrder(kinds, samples, run, t);
    FlowWithoutDrops(kinds, samples, Marks(run[t]), Offered(run[t]), |kinds| - 2);
  }

  // ---- never blocked

  predicate CanWork<S(!new), T(!new)>(kinds: seq<Kind<S, T>>, sys: System<S, T>, i: nat)
    requires Shape(kinds, sys) && i < |kinds|
  {
    || (0 < i && CanWorkIn(kinds[i], sys.nodes[i], sys.streams[i - 1]))
    || (i < |kinds| - 1 && CanWorkOut(sys.nodes[i], sys.streams[i]))
    || CanWorkAlone(sys.nodes[i])
  }

  // A worker that can take a step has a step to take.
  lemma CanWorkWorks<S(!new), T(!new)>(kinds: seq<Kind<S, T>>, sys: System<S, T>, i: nat)
    requires Shape(kinds, sys) && i < |kinds|
    ensures CanWork(kinds, sys, i) <==> exists sys' :: Works(kinds, sys, i, sys')
  {
    var n := sys.nodes[i];
    if 0 < i && CanWorkIn(kinds[i], n, sys.streams[i - 1]) {
      assert Works(kinds, sys, i, PutIn(sys, i, WorkIn(kinds[i], n, sys.streams[i - 1])));
    } else if i < |kinds| - 1 && CanWorkOut(n, sys.streams[i]) {
      assert Works(kinds, sys, i, PutOut(sys, i, WorkOut(n, sys.streams[i])));
    } else if CanWorkAlone(n) {
      assert Works(kinds, sys, i, PutAlone(sys, i, WorkAlone(kinds[i], n)));
    }
  }

  ghost predicate AllLive<S, T>(sys: System<S, T>) {
    forall i :: 0 <= i < |sys.nodes| ==> sys.nodes[i].ctl.Live?
  }

  /** Worker i waits for input and there is none on its way. */
  predicate Dry<S, T>(sys: System<S, T>, i: nat)
    requires 0 < i < |sys.nodes| && |sys.streams| == |sys.nodes| - 1
  {
    sys.nodes[i].pc.Waiting? && !Pending(sys.nodes[i - 1], sys.streams[i - 1])
  }

  /** The source is between frames and every other worker is dry. */
  ghost predicate Idle<S, T>(kinds: seq<Kind<S, T>>, sys: System<S, T>)
    requires Shape(kinds, sys)
  {
    sys.nodes[0].pc.Entry? && forall i :: 0 < i < |kinds| ==> Dry(sys, i)
  }

  // Blocked workers downstream of node i leave node i room to swap.
  lemma {:induction false} BlockedTailIsEmpty<S(!new), T(!new)>(kinds: seq<Kind<S, T>>, samples: nat, sys: System<S,
      T>, i: nat)
    requires Inv(kinds, samples, sys) && AllLive(sys) && 0 < i < |kinds|
    requires forall j :: i - 1 <= j < |kinds| ==> !CanWork(kinds, sys, j)
    ensures Dry(sys, i) && sys.streams[i - 1].canSwap
    decreases |kinds| - i
  {
    hide HistoryInv;
    var w, s, r := sys.nodes[i - 1], sys.streams[i - 1], sys.nodes[i];
    assert LinkInv(samples, w, s, sys.nodes[i - 1 + 1]);
    assert LocalInv(kinds[i], r, samples);
    assert !CanWork(kinds, sys, i) && !CanWork(kinds, sys, i - 1);
    if i < |kinds| - 1 {
      BlockedTailIsEmpty(kinds, samples, sys, i + 1);
      assert sys.streams[i + 1 - 1].canSwap;
      assert LinkInv(samples, r, sys.streams[i], sys.nodes[i + 1]);
    }
  }

  // A dry worker, or the source between frames, cannot step.
  lemma DryCannotWork<S(!new), T(!new)>(kinds: seq<Kind<S, T>>, samples: nat, sys: System<S, T>, i: nat)
    requires Inv(kinds, samples, sys) && AllLive(sys) && i < |kinds|
    requires if i == 0 then sys.nodes[0].pc.Entry? else Dry(sys, i)
    ensures !CanWork(kinds, sys, i)
  {
    if i > 0 { assert LinkInv(samples, sys.nodes[i - 1], sys.streams[i - 1], sys.nodes[i - 1 + 1]); }
  }

  // A source that cannot step although it has room to swap is between frames.
  lemma BlockedSourceIsIdle<S(!new), T(!new)>(kinds: seq<Kind<S, T>>, samples: nat, sys: System<S, T>)
    requires Inv(kinds, samples, sys) && AllLive(sys) && sys.streams[0].canSwap && !CanWork(kinds, sys, 0)
    ensures sys.nodes[0].pc.Entry?
  {
    assert LocalInv(kinds[0], sys.nodes[0], samples);
    assert LinkInv(samples, sys.nodes[0], sys.streams[0], sys.nodes[1]);
  }

  /** With no stop requested some worker can always step, unless everything is idle and the
      next step is the source's. */
  lemma NeverBlocked<S(!new), T(!new)>(kinds: seq<Kind<S, T>>, samples: nat, sys: System<S, T>)
    requires Inv(kinds, samples, sys) && AllLive(sys)
    ensures (forall i: nat :: i < |kinds| ==> !CanWork(kinds, sys, i)) <==> Idle(kinds, sys)
  {
    hide LinkInv, LocalInv, HistoryInv, CanWork, Dry;
    if forall i: nat :: i < |kinds| ==> !CanWork(kinds, sys, i) {
      forall i | 0 < i < |kinds| ensures Dry(sys, i) {
        BlockedTailIsEmpty(kinds, samples, sys, i);
      }
      BlockedTailIsEmpty(kinds, samples, sys, 1);
      BlockedSourceIsIdle(kinds, samples, sys);
    }
    if Idle(kinds, sys) {
      forall i: nat | i < |kinds| ensures !CanWork(kinds, sys, i) {
        DryCannotWork(kinds, samples, sys, i);
      }
    }
  }

  // ---- nothing is left behind

  lemma DryConsumedAll<S(!new), T(!new)>(kinds: seq<Kind<S, T>>, samples: nat, sys: System<S, T>, i: nat)
    requires Inv(kinds, samples, sys) && 0 < i < |kinds| && Dry(sys, i)
    ensures sys.nodes[i].consumed == sys.nodes[i - 1].sent
    ensures Processed(sys.nodes[i]) == sys.nodes[i].consumed && !InFlight(kinds[i], sys.nodes[i])
  {
    assert LinkInv(samples, sys.nodes[i - 1], sys.streams[i - 1], sys.nodes[i - 1 + 1]);
  }

  lemma {:induction false} IdleSentIsFlow<S(!new), T(!new)>(kinds: seq<Kind<S, T>>, samples: nat, sys: System<S, T>,
      k: nat)
    requires Inv(kinds, samples, sys) && Idle(kinds, sys) && k < |kinds| - 1
    ensures sys.nodes[k].sent == Flow(kinds, samples, Marks(sys), Offered(sys), k)
  {
    hide LocalInv, LinkInv, HistoryInv, Survivors, Dry, Fits;
    SentIsSurvivors(kinds[k], sys.nodes[k]);
    if k > 0 {
      DryConsumedAll(kinds, samples, sys, k);
      IdleSentIsFlow(kinds, samples, sys, k - 1);
    }
  }

  /** When the workers have run dry, everything has been delivered. */
  lemma IdleMeansDelivered<S(!new), T(!new)>(kinds: seq<Kind<S, T>>, samples: nat, run: seq<System<S, T>>, t: nat)
    requires Config(kinds, samples) && Run(kinds, samples, run) && t < |run| && AllLive(run[t])
    requires forall i: nat :: i < |kinds| ==> !CanWork(kinds, run[t], i)
    ensures Delivered(run[t]) == Flow(kinds, samples, Marks(run[t]), Offered(run[t]), |kinds| - 2)
    ensures (forall i :: 0 <= i < |kinds| ==> run[t].nodes[i].stops == 0) ==>
              Delivered(run[t]) == Composed(kinds, samples, Offered(run[t]), |kinds| - 2)
  {
    hide LinkInv, LocalInv, HistoryInv, Next, Init, Fits, Survivors, CanWork, Dry;
    RunHasInv(kinds, samples, run, t);
    NeverBlocked(kinds, samples, run[t]);
    IdleSentIsFlow(kinds, samples, run[t], |kinds| - 2);
    DryConsumedAll(kinds, samples, run[t], |kinds| - 1);
    if forall i :: 0 <= i < |kinds| ==> run[t].nodes[i].stops == 0 {
      DeliveredInOrder(kinds, samples, run, t);
      FlowWithoutDrops(kinds, samples, Marks(run[t]), Offered(run[t]), |kinds| - 2);
    }
  }

  // ---- a frame that is ready

  /** The frame of stream k is ready, and after the step it still is, with the same samples; or its
      reader has flushed it, and has consumed exactly it. */
  ghost predicate StaysOrConsumed<S, T>(s: StreamState<T>, r: Node<S, T>, s': StreamState<T>, r': Node<S, T>)
    requires s.dataSize <= |s.readBuf|
  {
    || (s'.dataReady && s'.readBuf == s.readBuf && s'.dataSize == s.dataSize && r'.consumed == r.consumed)
    || (!s'.dataReady && r'.consumed == r.consumed + [s.readBuf[..s.dataSize]])
  }

  lemma WriterLeavesReady<S, T>(k: Kind<S, T>, samples: nat, w: Node<S, T>, s: StreamState<T>, r: Node<S, T>)
    requires LocalInv(k, w, samples) && LinkInv(samples, w, s, r) && s.dataReady && CanWorkOut(w, s)
    ensures StaysOrConsumed(s, r, WorkOut(w, s).1, r)
  {
  }

  lemma ReaderLeavesReady<S, T>(k: Kind<S, T>, samples: nat, w: Node<S, T>, s: StreamState<T>, r: Node<S, T>)
    requires !k.Source? && LocalInv(k, r, samples) && LinkInv(samples, w, s, r) && s.dataReady && CanWorkIn(k, r, s)
    ensures StaysOrConsumed(s, r, WorkIn(k, r, s).1, WorkIn(k, r, s).0)
  {
  }

  lemma ReadyElsewhere<S, T>(k: Kind<S, T>, n: Node<S, T>, s: StreamState<T>)
    ensures CanWorkOut(n, s) ==> WorkOut(n, s).0.consumed == n.consumed
    ensures CanWorkAlone(n) ==> WorkAlone(k, n).consumed == n.consumed
    ensures CanControlIn(k, n, s) ==>
              var (n', s') := ControlIn(k, n, s);
              n'.consumed == n.consumed && s'.dataReady == s.dataReady && s'.readBuf == s.readBuf && s'.dataSize == s.dataSize
    ensures CanControlOut(k, n) ==>
              var (n', s') := ControlOut(k, n, s);
              n'.consumed == n.consumed && s'.dataReady == s.dataReady && s'.readBuf == s.readBuf && s'.dataSize == s.dataSize
    ensures CanControlAlone(n) ==> ControlAlone(k, n).consumed == n.consumed
  {
  }

  lemma WorkerLeavesReady<S(!new), T(!new)>(
    kinds: seq<Kind<S, T>>, samples: nat, sys: System<S, T>, i: nat, sys': System<S, T>, k: nat)
    requires Inv(kinds, samples, sys) && i < |kinds| && Works(kinds, sys, i, sys') && k < |sys.streams|
             && sys.streams[k].dataReady
    ensures Shape(kinds, sys') && sys.streams[k].dataSize <= |sys.streams[k].readBuf|
    ensures StaysOrConsumed(sys.streams[k], sys.nodes[k + 1], sys'.streams[k], sys'.nodes[k + 1])
  {
    hide LocalInv, HistoryInv, LinkInv, CanWorkIn, CanWorkOut, CanWorkAlone, WorkIn, WorkOut, WorkAlone;
    var w, s, r := sys.nodes[k], sys.streams[k], sys.nodes[k + 1];
    LinkSize(samples, w, s, r);
    ReadyElsewhere(kinds[i], sys.nodes[i], if i < |sys.streams| then sys.streams[i] else s);
    if i == k && CanWorkOut(w, s) { WriterLeavesReady(kinds[k], samples, w, s, r); }
    if i == k + 1 && CanWorkIn(kinds[i], r, s) {
      InvAt(kinds, samples, sys, k);
      ReaderLeavesReady(kinds[i], samples, w, s, r);
    }
  }

  lemma LinkSize<S, T>(samples: nat, w: Node<S, T>, s: StreamState<T>, r: Node<S, T>)
    requires LinkInv(samples, w, s, r)
    ensures s.dataSize <= |s.readBuf|
  {
  }

  lemma InvAt<S(!new), T(!new)>(kinds: seq<Kind<S, T>>, samples: nat, sys: System<S, T>, k: nat)
    requires Inv(kinds, samples, sys) && k < |sys.streams|
    ensures !kinds[k + 1].Source? && LocalInv(kinds[k + 1], sys.nodes[k + 1], samples)
  {
    hide LocalInv, HistoryInv, LinkInv;
  }

  /** A frame that is ready stays ready, with the same samples, through every step of the system,
      stops and restarts included, until its reader consumes exactly it. */
  lemma ReadyFrameStays<S(!new), T(!new)>(kinds: seq<Kind<S, T>>, samples: nat, sys: System<S, T>, sys': System<S,
      T>, k: nat)
    requires Inv(kinds, samples, sys) && Next(kinds, samples, sys, sys') && k < |sys.streams|
             && sys.streams[k].dataReady
    ensures Shape(kinds, sys') && sys.streams[k].dataSize <= |sys.streams[k].readBuf|
    ensures StaysOrConsumed(sys.streams[k], sys.nodes[k + 1], sys'.streams[k], sys'.nodes[k + 1])
  {
    hide LocalInv, HistoryInv, LinkInv, Works, CanControlIn, CanControlOut, CanControlAlone, ControlIn, ControlOut,
         ControlAlone, Emit;
    var i: nat :| i < |kinds|
      && (Works(kinds, sys, i, sys') || Emits(kinds, samples, sys, i, sys') || Controls(kinds, sys, i, sys'));
    LinkSize(samples, sys.nodes[k], sys.streams[k], sys.nodes[k + 1]);
    if Works(kinds, sys, i, sys') {
      WorkerLeavesReady(kinds, samples, sys, i, sys', k);
    } else if Controls(kinds, sys, i, sys') {
      if i > 0 { ReadyElsewhere(kinds[i], sys.nodes[i], sys.streams[i - 1]); }
      if i < |sys.streams| { ReadyElsewhere(kinds[i], sys.nodes[i], sys.streams[i]); }
    } else {
      EmitsAtSource(kinds, samples, sys, i, sys');
    }
  }

  // Only the source emits, and it reads no stream.
  lemma EmitsAtSource<S(!new), T(!new)>(kinds: seq<Kind<S, T>>, samples: nat, sys: System<S, T>, i: nat,
      sys': System<S, T>)
    requires Inv(kinds, samples, sys) && i < |kinds| && Emits(kinds, samples, sys, i, sys')
    ensures i == 0 && sys'.streams == sys.streams && |sys'.nodes| == |sys.nodes|
    ensures forall j :: 0 < j < |sys.nodes| ==> sys'.nodes[j] == sys.nodes[j]
  {
    hide LocalInv, HistoryInv, LinkInv;
  }
}
