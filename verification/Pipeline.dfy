/** A run of dsp blocks joined by streams, as a transition system: core/src/dsp/processor.h
    (the two run loops), core/src/dsp/block.h (worker thread, doStart, doStop) and the regions of
    core/src/dsp/stream.h.

    Node 0 is a source, the last node a sink, every node between them a Processor. Stream k is
    written by node k and read by node k + 1. Every node has a worker thread, whose position in
    run() is `pc`, and a controlling thread, whose position in doStop() is `ctl`. One step is one
    critical section of one thread, or one sample read from or written to a stream buffer, so
    the threads interleave everywhere the code lets them. */
module Pipeline {
  import opened Streams

  type Frame<T> = seq<T>

  /** What process() computes: a Mealy machine on frames, whose state lives in the block. A
      multirate block does not swap its output when process() returned no samples. */
  datatype Stage<!S, !T> = Stage(init: S, step: (S, Frame<T>) -> (S, Frame<T>), multirate: bool)
  {
    function Final(frames: seq<Frame<T>>): S {
      if frames == [] then init
      else step(Final(frames[..|frames| - 1]), frames[|frames| - 1]).0
    }

    // The frame process() computes from the last of `frames`.
    function LastOut(frames: seq<Frame<T>>): Frame<T>
      requires frames != []
    {
      step(Final(frames[..|frames| - 1]), frames[|frames| - 1]).1
    }

    /** Everything the block hands to its output stream for the given input frames: each frame that
        process() computes, but of a multirate block not the empty ones. */
    function Outs(frames: seq<Frame<T>>): seq<Frame<T>> {
      if frames == [] then []
      else
        var before, out := Outs(frames[..|frames| - 1]), LastOut(frames);
        if multirate && |out| == 0 then before else before + [out]
    }
  }

  /** process() writes at most a stream buffer of samples; a block that is not multirate
      swaps as many samples as it read. */
  ghost predicate Fits<S(!new), T(!new)>(stage: Stage<S, T>, samples: nat) {
    forall s: S, f: Frame<T> {:trigger stage.step(s, f)} :: |f| <= samples ==>
      |stage.step(s, f).1| <= samples && (!stage.multirate ==> |stage.step(s, f).1| == |f|)
  }

  datatype Kind<!S, !T> = Source | Proc(stage: Stage<S, T>) | Sink

  /** Where a worker is in run():
      Entry      before read()
      Waiting    registered as a reader, waiting for data
      Loading    process() reading samples
      Storing    process() writing samples
      Clearing   about to run the first region of flush()
      Releasing  between the two regions of flush()
      Swapping   waiting in swap()
      Publishing between the two regions of swap()
      Exited     workerLoop() has returned, or the thread was joined */
  datatype PC = Entry | Waiting | Loading | Storing | Clearing | Releasing | Swapping | Publishing | Exited

  /** Where the controlling thread is in doStop():
      Live       the block is running
      Spinning   stopReader() polls nReaders
      ReaderHeld stopReader() has returned, stopWriter() is next
      Joining    all stop flags are up, joining the worker
      Unread     about to clear the input's stop flag
      Unwrite    about to clear the output's stop flag
      Stopped    doStop() has returned */
  datatype Ctl = Live | Spinning | ReaderHeld | Joining | Unread | Unwrite | Stopped

  /** A block: its worker's frame, the state of process(), and the history of the run
      (`consumed`: frames flushed from the input, or for the source frames produced;
      `sent`: frames whose swap succeeded; `kept`: for each swap attempted, whether it succeeded;
      `stops`: calls of doStop()). */
  datatype Node<S, T> = Node(
    pc: PC, ctl: Ctl, state: S,
    count: int, acc: Frame<T>, out: Frame<T>, pos: nat,
    consumed: seq<Frame<T>>, sent: seq<Frame<T>>, kept: seq<bool>, stops: nat)

  datatype System<S, T> = System(nodes: seq<Node<S, T>>, streams: seq<StreamState<T>>)

  // ---- worker steps on the input stream: read() and flush(), and process() reading a sample

  predicate CanWorkIn<S, T>(k: Kind<S, T>, n: Node<S, T>, s: StreamState<T>) {
    match n.pc
    case Entry => !k.Source?
    case Waiting => s.ReadReady()
    case Loading => |n.acc| < n.count && |n.acc| < |s.readBuf|
    case Clearing => true
    case Releasing => true
    case _ => false
  }

  function WorkIn<S, T>(k: Kind<S, T>, n: Node<S, T>, s: StreamState<T>): (Node<S, T>, StreamState<T>)
    requires CanWorkIn(k, n, s)
  {
    match n.pc
    case Entry => (n.(pc := Waiting), s.EnterRead())
    case Waiting =>
      (if s.ReadResult() < 0 then n.(pc := Exited)
       else n.(pc := Loading, count := s.ReadResult(), acc := []),
       s.LeaveRead())
    case Loading => (n.(acc := n.acc + [s.readBuf[|n.acc|]]), s)
    case Clearing => (n.(pc := Releasing, consumed := n.consumed + [n.acc]), s.ClearReady())
    case Releasing =>
      // `if (outCount)` in the multirate loop only
      (n.(pc := if k.Proc? && (!k.stage.multirate || n.out != []) then Swapping else Entry), s.AllowSwap())
  }

  // ---- worker steps on the output stream: swap(), and process() writing a sample

  predicate CanWorkOut<S, T>(n: Node<S, T>, s: StreamState<T>) {
    match n.pc
    case Storing => n.pos < |n.out| && n.pos < |s.writeBuf|
    case Swapping => s.SwapReady()
    case Publishing => true
    case _ => false
  }

  function WorkOut<S, T>(n: Node<S, T>, s: StreamState<T>): (Node<S, T>, StreamState<T>)
    requires CanWorkOut(n, s)
  {
    match n.pc
    case Storing => (n.(pos := n.pos + 1), s.(writeBuf := s.writeBuf[n.pos := n.out[n.pos]]))
    case Swapping =>
      if s.writerStop then (n.(pc := Exited, kept := n.kept + [false]), s)
      else (n.(pc := Publishing, sent := n.sent + [n.out], kept := n.kept + [true]), s.TakeSwap(|n.out|))
    case Publishing => (n.(pc := Entry), s.Publish())
  }

  // ---- worker steps on no stream: process() turns from reading to writing, and returns

  predicate CanWorkAlone<S, T>(n: Node<S, T>) {
    match n.pc
    case Loading => |n.acc| >= n.count
    case Storing => n.pos >= |n.out|
    case _ => false
  }

  function WorkAlone<S, T>(k: Kind<S, T>, n: Node<S, T>): Node<S, T>
    requires CanWorkAlone(n)
  {
    match n.pc
    case Loading =>
      if k.Proc? then
        var r := k.stage.step(n.state, n.acc);
        n.(pc := Storing, state := r.0, out := r.1, pos := 0)
      else n.(pc := Clearing)
    case Storing => n.(pc := if k.Source? then Swapping else Clearing)
  }

  // ---- a source produces its next frame

  predicate CanEmit<S, T>(k: Kind<S, T>, n: Node<S, T>) { k.Source? && n.pc == Entry }

  function Emit<S, T>(n: Node<S, T>, frame: Frame<T>): Node<S, T> {
    n.(pc := Storing, out := frame, pos := 0, consumed := n.consumed + [frame])
  }

  // ---- the controlling thread: doStop() and doStart()

  // stopReader() raises the flag; it returns once no reader is registered; clearReadStop()
  predicate CanControlIn<S, T>(k: Kind<S, T>, n: Node<S, T>, s: StreamState<T>) {
    match n.ctl
    case Live => !k.Source?
    case Spinning => s.nReaders == 0
    case Unread => true
    case _ => false
  }

  function ControlIn<S, T>(k: Kind<S, T>, n: Node<S, T>, s: StreamState<T>): (Node<S, T>, StreamState<T>)
    requires CanControlIn(k, n, s)
  {
    match n.ctl
    case Live => (n.(ctl := Spinning, stops := n.stops + 1), s.(readerStop := true))
    case Spinning => (n.(ctl := if k.Sink? then Joining else ReaderHeld), s)
    case Unread => (n.(ctl := if k.Sink? then Stopped else Unwrite), s.(readerStop := false))
  }

  // stopWriter(); clearWriteStop()
  predicate CanControlOut<S, T>(k: Kind<S, T>, n: Node<S, T>) {
    match n.ctl
    case Live => k.Source?
    case ReaderHeld => true
    case Unwrite => true
    case _ => false
  }

  function ControlOut<S, T>(k: Kind<S, T>, n: Node<S, T>, s: StreamState<T>): (Node<S, T>, StreamState<T>)
    requires CanControlOut(k, n)
  {
    match n.ctl
    case Live => (n.(ctl := Joining, stops := n.stops + 1), s.(writerStop := true))
    case ReaderHeld => (n.(ctl := Joining), s.(writerStop := true))
    case Unwrite => (n.(ctl := Stopped), s.(writerStop := false))
  }

  // join() returns; doStart() launches a new worker thread
  predicate CanControlAlone<S, T>(n: Node<S, T>) {
    match n.ctl
    case Joining => n.pc == Exited
    case Stopped => true
    case _ => false
  }

  function ControlAlone<S, T>(k: Kind<S, T>, n: Node<S, T>): Node<S, T>
    requires CanControlAlone(n)
  {
    match n.ctl
    case Joining => n.(ctl := if k.Source? then Unwrite else Unread)
    case Stopped => n.(ctl := Live, pc := Entry)
  }

  // ---- the whole system

  ghost predicate Config<S(!new), T(!new)>(kinds: seq<Kind<S, T>>, samples: nat) {
    && |kinds| >= 2
    && kinds[0].Source?
    && kinds[|kinds| - 1].Sink?
    && forall i :: 0 < i < |kinds| - 1 ==> kinds[i].Proc? && Fits(kinds[i].stage, samples)
  }

  predicate Shape<S, T>(kinds: seq<Kind<S, T>>, sys: System<S, T>) {
    |sys.nodes| == |kinds| >= 2 && |sys.streams| == |kinds| - 1
  }

  function PutIn<S, T>(sys: System<S, T>, i: nat, r: (Node<S, T>, StreamState<T>)): System<S, T>
    requires 0 < i < |sys.nodes| && i - 1 < |sys.streams|
  {
    System(sys.nodes[i := r.0], sys.streams[i - 1 := r.1])
  }

  function PutOut<S, T>(sys: System<S, T>, i: nat, r: (Node<S, T>, StreamState<T>)): System<S, T>
    requires i < |sys.nodes| && i < |sys.streams|
  {
    System(sys.nodes[i := r.0], sys.streams[i := r.1])
  }

  function PutAlone<S, T>(sys: System<S, T>, i: nat, n: Node<S, T>): System<S, T>
    requires i < |sys.nodes|
  {
    sys.(nodes := sys.nodes[i := n])
  }

  /** The worker of node i takes a step. */
  ghost predicate Works<S, T>(kinds: seq<Kind<S, T>>, sys: System<S, T>, i: nat, sys': System<S, T>)
    requires Shape(kinds, sys) && i < |kinds|
  {
    var n := sys.nodes[i];
    || (0 < i && CanWorkIn(kinds[i], n, sys.streams[i - 1])
        && sys' == PutIn(sys, i, WorkIn(kinds[i], n, sys.streams[i - 1])))
    || (i < |kinds| - 1 && CanWorkOut(n, sys.streams[i])
        && sys' == PutOut(sys, i, WorkOut(n, sys.streams[i])))
    || (CanWorkAlone(n) && sys' == PutAlone(sys, i, WorkAlone(kinds[i], n)))
  }

  /** The source produces some frame. */
  ghost predicate Emits<S(!new), T(!new)>(kinds: seq<Kind<S, T>>, samples: nat, sys: System<S, T>, i: nat,
      sys': System<S, T>)
    requires Shape(kinds, sys) && i < |kinds|
  {
    CanEmit(kinds[i], sys.nodes[i])
    && exists frame: Frame<T> :: |frame| <= samples && sys' == PutAlone(sys, i, Emit(sys.nodes[i], frame))
  }

  /** The thread controlling node i takes a step of doStop() or doStart(). */
  ghost predicate Controls<S, T>(kinds: seq<Kind<S, T>>, sys: System<S, T>, i: nat, sys': System<S, T>)
    requires Shape(kinds, sys) && i < |kinds|
  {
    var n := sys.nodes[i];
    || (0 < i && CanControlIn(kinds[i], n, sys.streams[i - 1])
        && sys' == PutIn(sys, i, ControlIn(kinds[i], n, sys.streams[i - 1])))
    || (i < |kinds| - 1 && CanControlOut(kinds[i], n)
        && sys' == PutOut(sys, i, ControlOut(kinds[i], n, sys.streams[i])))
    || (CanControlAlone(n) && sys' == PutAlone(sys, i, ControlAlone(kinds[i], n)))
  }

  ghost predicate Next<S(!new), T(!new)>(kinds: seq<Kind<S, T>>, samples: nat, sys: System<S, T>, sys': System<S, T>)
    requires Shape(kinds, sys)
  {
    exists i: nat :: i < |kinds|
      && (Works(kinds, sys, i, sys') || Emits(kinds, samples, sys, i, sys') || Controls(kinds, sys, i, sys'))
  }

  /** Every block built and started, every stream empty. The buffers may hold anything. */
  ghost predicate Init<S(!new), T(!new)>(kinds: seq<Kind<S, T>>, samples: nat, sys: System<S, T>) {
    && Shape(kinds, sys)
    && (forall i :: 0 <= i < |kinds| ==>
          var n := sys.nodes[i];
          && n.pc == Entry && n.ctl == Live && n.consumed == [] && n.sent == [] && n.kept == [] && n.stops == 0
          && (kinds[i].Proc? ==> n.state == kinds[i].stage.init))
    && (forall k :: 0 <= k < |kinds| - 1 ==>
          var s := sys.streams[k];
          && |s.writeBuf| == |s.readBuf| == samples
          && s == Fresh(s.writeBuf, s.readBuf))
  }

  /** A finite run: any interleaving of worker, source and controller steps. */
  ghost predicate Run<S(!new), T(!new)>(kinds: seq<Kind<S, T>>, samples: nat, run: seq<System<S, T>>) {
    && run != []
    && Init(kinds, samples, run[0])
    && (forall t :: 0 <= t < |run| ==> Shape(kinds, run[t]))
    && (forall t :: 0 < t < |run| ==> Next(kinds, samples, run[t - 1], run[t]))
  }
}
