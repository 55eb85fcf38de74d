/** How long a pipeline can run on its own. Between two frames of the source the workers take a
    bounded number of steps; and once doStop() has begun on a block, the block's own steps are
    bounded and one of them is always possible, whatever its neighbours do, so stopReader()'s
    polling and the join both end. */
module PipelineTermination {
  import opened Streams
  import opened Pipeline
  import opened PipelineInvariant
  import opened PipelineDelivery

  // ---- the work left in the system

  /** Steps node i needs at most for one round of run(), not counting what its output causes. */
  function Round(samples: nat): nat { 2 * samples + 6 }

  /** Steps a frame lying on stream i may still cause downstream of it. */
  function Downstream(nodes: nat, samples: nat, i: nat): nat
    decreases nodes - i
  {
    if i + 1 >= nodes then 0 else Round(samples) + 4 + Downstream(nodes, samples, i + 1)
  }

  /** Steps left for node i, given the frame in its hands. */
  function Potential<S, T>(k: Kind<S, T>, n: Node<S, T>, nodes: nat, samples: nat, i: nat): int {
    var round, down := Round(samples), Downstream(nodes, samples, i);
    match n.pc
    case Exited => 0
    case Entry => if k.Source? then 0 else round + 1
    case Waiting => round
    case Loading => 2 * samples + 5 - |n.acc|
    case Storing => if k.Source? then round + 4 + down + samples - n.pos else samples + 3 - n.pos
    case Clearing => 2
    case Releasing => round + 4 + down
    case Swapping => round + 3 + down
    case Publishing => round + 2
  }

  function Weight<S, T>(kinds: seq<Kind<S, T>>, samples: nat, sys: System<S, T>, i: nat): int
    requires Shape(kinds, sys) && i < |kinds|
  {
    Potential(kinds[i], sys.nodes[i], |kinds|, samples, i)
    + (if i < |kinds| - 1 && Pending(sys.nodes[i], sys.streams[i]) then Downstream(|kinds|, samples, i) else 0)
  }

  /** The work left for the first m nodes and the streams they write. */
  function Work<S, T>(kinds: seq<Kind<S, T>>, samples: nat, sys: System<S, T>, m: nat): int
    requires Shape(kinds, sys) && m <= |kinds|
  {
    if m == 0 then 0 else Work(kinds, samples, sys, m - 1) + Weight(kinds, samples, sys, m - 1)
  }

  lemma WeightIsNat<S(!new), T(!new)>(kinds: seq<Kind<S, T>>, samples: nat, sys: System<S, T>, i: nat)
    requires Inv(kinds, samples, sys) && i < |kinds|
    ensures Weight(kinds, samples, sys, i) >= 0
  {
    hide HistoryInv, LinkInv, Downstream;
    assert LocalInv(kinds[i], sys.nodes[i], samples);
  }

  lemma {:induction false} WorkIsNat<S(!new), T(!new)>(kinds: seq<Kind<S, T>>, samples: nat, sys: System<S, T>, m: nat)
    requires Inv(kinds, samples, sys) && m <= |kinds|
    ensures Work(kinds, samples, sys, m) >= 0
  {
    hide LocalInv, HistoryInv, LinkInv, Weight;
    if m > 0 {
      WorkIsNat(kinds, samples, sys, m - 1);
      WeightIsNat(kinds, samples, sys, m - 1);
    }
  }

  lemma {:induction false} WorkFrame<S, T>(kinds: seq<Kind<S, T>>, samples: nat, sys: System<S, T>, sys': System<S,
      T>, m: nat)
    requires Shape(kinds, sys) && Shape(kinds, sys') && m <= |kinds|
    requires forall j :: 0 <= j < m ==> Weight(kinds, samples, sys', j) == Weight(kinds, samples, sys, j)
    ensures Work(kinds, samples, sys', m) == Work(kinds, samples, sys, m)
  {
    hide Weight;
    if m > 0 { WorkFrame(kinds, samples, sys, sys', m - 1); }
  }

  // If only the weights of node i and the node before it change, and together they shrink,
  // the whole shrinks.
  lemma {:induction false} WorkShrinks<S, T>(
    kinds: seq<Kind<S, T>>, samples: nat, sys: System<S, T>, sys': System<S, T>, i: nat, m: nat)
    requires Shape(kinds, sys) && Shape(kinds, sys') && i < m <= |kinds|
    requires forall j :: 0 <= j < |kinds| && j != i && j != i - 1 ==>
               Weight(kinds, samples, sys', j) == Weight(kinds, samples, sys, j)
    requires Weight(kinds, samples, sys', i) + (if i == 0 then 0 else Weight(kinds, samples, sys', i - 1))
           < Weight(kinds, samples, sys, i) + (if i == 0 then 0 else Weight(kinds, samples, sys, i - 1))
    ensures Work(kinds, samples, sys', m) < Work(kinds, samples, sys, m)
  {
    hide Weight;
    if m - 1 == i {
      if i > 0 { WorkFrame(kinds, samples, sys, sys', i - 1); }
    } else {
      WorkShrinks(kinds, samples, sys, sys', i, m - 1);
    }
  }

  lemma InWeights<S(!new), T(!new)>(kinds: seq<Kind<S, T>>, samples: nat, sys: System<S, T>, i: nat)
    requires Inv(kinds, samples, sys) && 0 < i < |kinds| && CanWorkIn(kinds[i], sys.nodes[i], sys.streams[i - 1])
    ensures var sys' := PutIn(sys, i, WorkIn(kinds[i], sys.nodes[i], sys.streams[i - 1]));
            Weight(kinds, samples, sys', i) + Weight(kinds, samples, sys', i - 1)
            < Weight(kinds, samples, sys, i) + Weight(kinds, samples, sys, i - 1)
  {
    hide HistoryInv;
    assert LocalInv(kinds[i], sys.nodes[i], samples);
    assert LinkInv(samples, sys.nodes[i - 1], sys.streams[i - 1], sys.nodes[i - 1 + 1]);
    assert Downstream(|kinds|, samples, i - 1) == Round(samples) + 4 + Downstream(|kinds|, samples, i);
  }

  lemma OutWeights<S(!new), T(!new)>(kinds: seq<Kind<S, T>>, samples: nat, sys: System<S, T>, i: nat)
    requires Inv(kinds, samples, sys) && i < |kinds| - 1 && CanWorkOut(sys.nodes[i], sys.streams[i])
    ensures var sys' := PutOut(sys, i, WorkOut(sys.nodes[i], sys.streams[i]));
            Weight(kinds, samples, sys', i) < Weight(kinds, samples, sys, i)
  {
    hide HistoryInv, Downstream;
    assert LinkInv(samples, sys.nodes[i], sys.streams[i], sys.nodes[i + 1]);
    assert LocalInv(kinds[i], sys.nodes[i], samples);
  }

  lemma AloneWeights<S(!new), T(!new)>(kinds: seq<Kind<S, T>>, samples: nat, sys: System<S, T>, i: nat)
    requires Inv(kinds, samples, sys) && i < |kinds| && CanWorkAlone(sys.nodes[i])
    ensures Weight(kinds, samples, PutAlone(sys, i, WorkAlone(kinds[i], sys.nodes[i])), i) < Weight(kinds, samples, sys, i)
  {
    hide HistoryInv, LinkInv, Downstream;
    assert LocalInv(kinds[i], sys.nodes[i], samples);
  }

  // What a worker's step on either stream or on none leaves unchanged.
  lemma WeightsElsewhere<S(!new), T(!new)>(
    kinds: seq<Kind<S, T>>, samples: nat, sys: System<S, T>, i: nat, n': Node<S, T>, s': StreamState<T>, j: nat)
    requires Shape(kinds, sys) && i < |kinds| && j < |kinds| && j != i
    ensures 0 < i && j != i - 1 ==> Weight(kinds, samples, PutIn(sys, i, (n', s')), j) == Weight(kinds, samples, sys, j)
    ensures i < |kinds| - 1 ==> Weight(kinds, samples, PutOut(sys, i, (n', s')), j) == Weight(kinds, samples, sys, j)
    ensures Weight(kinds, samples, PutAlone(sys, i, n'), j) == Weight(kinds, samples, sys, j)
  {
    hide Potential, Downstream;
  }

  lemma WeightsShrink<S(!new), T(!new)>(kinds: seq<Kind<S, T>>, samples: nat, sys: System<S, T>, i: nat,
      sys': System<S, T>)
    requires Inv(kinds, samples, sys) && Shape(kinds, sys) && Shape(kinds, sys') && i < |kinds|
             && Works(kinds, sys, i, sys')
    ensures forall j :: 0 <= j < |kinds| && j != i && j != i - 1 ==>
              Weight(kinds, samples, sys', j) == Weight(kinds, samples, sys, j)
    ensures Weight(kinds, samples, sys', i) + (if i == 0 then 0 else Weight(kinds, samples, sys', i - 1))
          < Weight(kinds, samples, sys, i) + (if i == 0 then 0 else Weight(kinds, samples, sys, i - 1))
  {
    hide Inv, Weight, CanWorkIn, CanWorkOut, CanWorkAlone, WorkIn, WorkOut, WorkAlone;
    var k, n := kinds[i], sys.nodes[i];
    if 0 < i && CanWorkIn(k, n, sys.streams[i - 1]) && sys' == PutIn(sys, i, WorkIn(k, n, sys.streams[i - 1])) {
      InWeights(kinds, samples, sys, i);
      var r := WorkIn(k, n, sys.streams[i - 1]);
      forall j | 0 <= j < |kinds| && j != i && j != i - 1 ensures Weight(kinds, samples, sys', j) == Weight(kinds, samples, sys, j) {
        WeightsElsewhere(kinds, samples, sys, i, r.0, r.1, j);
      }
    } else if i < |kinds| - 1 && CanWorkOut(n, sys.streams[i]) && sys' == PutOut(sys, i, WorkOut(n, sys.streams[i])) {
      OutWeights(kinds, samples, sys, i);
      var r := WorkOut(n, sys.streams[i]);
      forall j | 0 <= j < |kinds| && j != i ensures Weight(kinds, samples, sys', j) == Weight(kinds, samples, sys, j) {
        WeightsElsewhere(kinds, samples, sys, i, r.0, r.1, j);
      }
    } else {
      AloneWeights(kinds, samples, sys, i);
      forall j | 0 <= j < |kinds| && j != i ensures Weight(kinds, samples, sys', j) == Weight(kinds, samples, sys, j) {
        WeightsElsewhere(kinds, samples, sys, i, WorkAlone(k, n), sys.streams[0], j);
      }
    }
  }

  /** Every step of any worker, stopped or not, lowers the work left in the system, a natural
      number: without new frames from the source the workers stop stepping after at most that
      many steps. */
  lemma WorkersRunDry<S(!new), T(!new)>(kinds: seq<Kind<S, T>>, samples: nat, sys: System<S, T>, i: nat,
      sys': System<S, T>)
    requires Inv(kinds, samples, sys) && i < |kinds| && Works(kinds, sys, i, sys')
    ensures Inv(kinds, samples, sys')
    ensures 0 <= Work(kinds, samples, sys', |kinds|) < Work(kinds, samples, sys, |kinds|)
  {
    WorksKeepsInv(kinds, samples, sys, i, sys');
    WorkIsNat(kinds, samples, sys', |kinds|);
    hide LocalInv, LinkInv, HistoryInv, Works, Weight, Work;
    WeightsShrink(kinds, samples, sys, i, sys');
    WorkShrinks(kinds, samples, sys, sys', i, |kinds|);
  }

  ghost predicate SomeWorks<S(!new), T(!new)>(kinds: seq<Kind<S, T>>, sys: System<S, T>, sys': System<S, T>) {
    Shape(kinds, sys) && exists i: nat :: i < |kinds| && Works(kinds, sys, i, sys')
  }

  /** A run in which only workers step, from a state of work w, has at most w steps; when it can
      go no further everything has been delivered (`IdleMeansDelivered`). */
  lemma {:induction false} WorkerRunIsBounded<S(!new), T(!new)>(kinds: seq<Kind<S, T>>, samples: nat,
      run: seq<System<S, T>>)
    requires run != [] && Inv(kinds, samples, run[0])
    requires forall t :: 0 < t < |run| ==> SomeWorks(kinds, run[t - 1], run[t])
    ensures |run| - 1 <= Work(kinds, samples, run[0], |kinds|)
    decreases |run|
  {
    hide LocalInv, LinkInv, HistoryInv, Works, Work;
    if |run| == 1 {
      WorkIsNat(kinds, samples, run[0], |kinds|);
    } else {
      assert SomeWorks(kinds, run[1 - 1], run[1]);
      var i: nat :| i < |kinds| && Works(kinds, run[0], i, run[1]);
      WorkersRunDry(kinds, samples, run[0], i, run[1]);
      var rest := run[1..];
      forall t | 0 < t < |rest| ensures SomeWorks(kinds, rest[t - 1], rest[t]) {
        assert rest[t - 1] == run[t + 1 - 1] && rest[t] == run[t + 1];
      }
      WorkerRunIsBounded(kinds, samples, rest);
    }
  }

  // ---- stopping a block

  /** Steps the worker of a block being stopped may still take. */
  function ExitRank<S, T>(n: Node<S, T>, samples: nat): int {
    match n.pc
    case Exited => 0
    case Waiting => 1
    case Entry => 2
    case Publishing => 3
    case Swapping => 4
    case Releasing => 5
    case Clearing => 6
    case Storing => 7 + samples - n.pos
    case Loading => 8 + 2 * samples - |n.acc|
  }

  /** Steps of doStop() still to come. */
  function StopRank(c: Ctl): nat {
    match c
    case Live => 6
    case Spinning => 5
    case ReaderHeld => 4
    case Joining => 3
    case Unread => 2
    case Unwrite => 1
    case Stopped => 0
  }

  ghost predicate Stopping<S, T>(n: Node<S, T>) { !n.ctl.Live? && !n.ctl.Stopped? }

  predicate CanControl<S, T>(kinds: seq<Kind<S, T>>, sys: System<S, T>, i: nat)
    requires Shape(kinds, sys) && i < |kinds|
  {
    || (0 < i && CanControlIn(kinds[i], sys.nodes[i], sys.streams[i - 1]))
    || (i < |kinds| - 1 && CanControlOut(kinds[i], sys.nodes[i]))
    || CanControlAlone(sys.nodes[i])
  }

  /** While doStop() runs on a Processor or a sink, doStop() or the block's worker can step. */
  lemma StopNeverStuck<S(!new), T(!new)>(kinds: seq<Kind<S, T>>, samples: nat, sys: System<S, T>, i: nat)
    requires Inv(kinds, samples, sys) && 0 < i < |kinds| && Stopping(sys.nodes[i])
    ensures CanControl(kinds, sys, i) || CanWork(kinds, sys, i)
  {
    hide HistoryInv;
    var n := sys.nodes[i];
    assert LocalInv(kinds[i], n, samples);
    assert LinkInv(samples, sys.nodes[i - 1], sys.streams[i - 1], sys.nodes[i - 1 + 1]);
    if i < |kinds| - 1 { assert LinkInv(samples, n, sys.streams[i], sys.nodes[i + 1]); }
  }

  lemma StopWorks<S(!new), T(!new)>(kinds: seq<Kind<S, T>>, samples: nat, sys: System<S, T>, i: nat, sys': System<S, T>)
    requires Inv(kinds, samples, sys) && 0 < i < |kinds| && Stopping(sys.nodes[i]) && Works(kinds, sys, i, sys')
    ensures sys'.nodes[i].ctl == sys.nodes[i].ctl
    ensures 0 <= ExitRank(sys'.nodes[i], samples) < ExitRank(sys.nodes[i], samples)
  {
    hide HistoryInv;
    var n := sys.nodes[i];
    assert LocalInv(kinds[i], n, samples);
    assert LinkInv(samples, sys.nodes[i - 1], sys.streams[i - 1], sys.nodes[i - 1 + 1]);
    if kinds[i].Proc? { assert Fits(kinds[i].stage, samples); }
  }

  lemma StopControls<S(!new), T(!new)>(kinds: seq<Kind<S, T>>, samples: nat, sys: System<S, T>, i: nat,
      sys': System<S, T>)
    requires Inv(kinds, samples, sys) && 0 < i < |kinds| && Stopping(sys.nodes[i]) && Controls(kinds, sys, i, sys')
    ensures StopRank(sys'.nodes[i].ctl) < StopRank(sys.nodes[i].ctl)
    ensures ExitRank(sys'.nodes[i], samples) == ExitRank(sys.nodes[i], samples)
  {
    hide HistoryInv, LocalInv, LinkInv;
  }

  lemma OnlyFirstIsSource<S(!new), T(!new)>(kinds: seq<Kind<S, T>>, samples: nat, sys: System<S, T>, i: nat)
    requires Inv(kinds, samples, sys) && 0 < i < |kinds|
    ensures !kinds[i].Source?
  {
  }

  /** Once doStop() has begun on node i, each step lowers the steps left to stop it if it is one
      of the block's own, and leaves them as they are if it is a neighbour's. With
      `StopNeverStuck`: doStop() returns after a bounded number of its block's own steps. */
  lemma StopTerminates<S(!new), T(!new)>(kinds: seq<Kind<S, T>>, samples: nat, sys: System<S, T>, i: nat, j: nat,
      sys': System<S, T>)
    requires Inv(kinds, samples, sys) && 0 < i < |kinds| && Stopping(sys.nodes[i]) && j < |kinds|
    requires Works(kinds, sys, j, sys') || Emits(kinds, samples, sys, j, sys') || Controls(kinds, sys, j, sys')
    ensures var left, left' := StopRank(sys.nodes[i].ctl) + ExitRank(sys.nodes[i], samples),
                               StopRank(sys'.nodes[i].ctl) + ExitRank(sys'.nodes[i], samples);
            if i == j then left' < left else left' == left
  {
    hide LocalInv, LinkInv, HistoryInv, CanWorkIn, CanWorkOut, CanWorkAlone, CanControlIn, CanControlOut,
         CanControlAlone,
         WorkIn, WorkOut, WorkAlone, ControlIn, ControlOut, ControlAlone, ExitRank, StopRank;
    if i == j {
      OnlyFirstIsSource(kinds, samples, sys, i);
      if Works(kinds, sys, i, sys') {
        StopWorks(kinds, samples, sys, i, sys');
      } else {
        StopControls(kinds, samples, sys, i, sys');
      }
    }
  }
}
