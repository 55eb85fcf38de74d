/** The inductive invariant of a pipeline. For every stream exactly one thread holds the right to
    touch the hand-over state (the token); for every node the frames it has sent are what its
    processing produced, in order, less those refused by a stopped swap(). */
module PipelineInvariant {
  import opened Streams
  import opened Pipeline

  // ---- which elements of a sequence survive a list of keep/drop marks

  /** xs without the elements marked false; elements past the end of the marks stay. */
  ghost function Survivors<X>(xs: seq<X>, marks: seq<bool>): seq<X> {
    if xs == [] then []
    else
      var n := |xs| - 1;
      Survivors(xs[..n], marks) + (if n < |marks| && !marks[n] then [] else [xs[n]])
  }

  ghost function Drops(marks: seq<bool>): nat {
    if marks == [] then 0
    else Drops(marks[..|marks| - 1]) + (if marks[|marks| - 1] then 0 else 1)
  }

  lemma {:induction false} SurvivorsIgnoreLaterMarks<X>(xs: seq<X>, marks: seq<bool>, more: seq<bool>)
    requires |xs| <= |marks|
    ensures Survivors(xs, marks + more) == Survivors(xs, marks)
  {
    if xs != [] {
      SurvivorsIgnoreLaterMarks(xs[..|xs| - 1], marks, more);
    }
  }

  lemma SurvivorsSnoc<X>(xs: seq<X>, marks: seq<bool>, x: X, mark: bool)
    requires |xs| == |marks|
    ensures Survivors(xs + [x], marks + [mark]) == Survivors(xs, marks) + (if mark then [x] else [])
  {
    assert (xs + [x])[..|xs|] == xs;
    SurvivorsIgnoreLaterMarks(xs, marks, [mark]);
  }

  lemma {:induction false} SurvivorsPrefix<X>(xs: seq<X>, ys: seq<X>, marks: seq<bool>)
    requires xs <= ys
    ensures Survivors(xs, marks) <= Survivors(ys, marks)
  {
    if |xs| < |ys| {
      var front := ys[..|ys| - 1];
      assert xs <= front;
      SurvivorsPrefix(xs, front, marks);
    } else {
      assert xs == ys;
    }
  }

  lemma DropsSnoc(marks: seq<bool>, mark: bool)
    ensures Drops(marks + [mark]) == Drops(marks) + (if mark then 0 else 1)
  {
    assert (marks + [mark])[..|marks|] == marks;
  }

  // Without drops nothing is filtered out.
  lemma {:induction false} NoDropsKeepsAll<X>(xs: seq<X>, marks: seq<bool>)
    requires Drops(marks) == 0
    ensures Survivors(xs, marks) == xs
  {
    if xs != [] {
      var n := |xs| - 1;
      NoDropsKeepsAll(xs[..n], marks);
      if n < |marks| { NoDropsNoFalse(marks, n); }
      assert xs == xs[..n] + [xs[n]];
    }
  }

  lemma {:induction false} NoDropsNoFalse(marks: seq<bool>, i: nat)
    requires Drops(marks) == 0 && i < |marks|
    ensures marks[i]
  {
    if i < |marks| - 1 { NoDropsNoFalse(marks[..|marks| - 1], i); }
  }

  // ---- outputs of a stage grow with its input

  /** One frame more: every frame computed is handed on, but an empty one of a multirate block. */
  lemma OutsSnoc<S, T>(stage: Stage<S, T>, frames: seq<Frame<T>>, f: Frame<T>)
    ensures stage.Final(frames + [f]) == stage.step(stage.Final(frames), f).0
    ensures stage.LastOut(frames + [f]) == stage.step(stage.Final(frames), f).1
    ensures var out := stage.step(stage.Final(frames), f).1;
            stage.Outs(frames + [f]) == if !stage.multirate || out != [] then stage.Outs(frames) + [out] else stage.Outs(frames)
  {
    assert (frames + [f])[..|frames|] == frames;
  }

  lemma {:induction false} OutsPrefix<S, T>(stage: Stage<S, T>, xs: seq<Frame<T>>, ys: seq<Frame<T>>)
    requires xs <= ys
    ensures stage.Outs(xs) <= stage.Outs(ys)
  {
    if |xs| < |ys| {
      var front := ys[..|ys| - 1];
      assert xs <= front;
      OutsPrefix(stage, xs, front);
    } else {
      assert xs == ys;
    }
  }

  // ---- the invariant of one node

  predicate Computed(pc: PC) { pc.Storing? || pc.Clearing? }
  predicate HoldsOut(pc: PC) { pc.Storing? || pc.Clearing? || pc.Releasing? || pc.Swapping? }
  predicate HoldsIn(pc: PC) { pc.Loading? || pc.Storing? || pc.Clearing? }
  predicate ReadStopped(c: Ctl) { c.Spinning? || c.ReaderHeld? || c.Joining? || c.Unread? }
  predicate WriteStopped(c: Ctl) { c.Joining? || c.Unread? || c.Unwrite? }

  /** The frames process() has run on: those flushed, and the one in its hands. */
  function Processed<S, T>(n: Node<S, T>): seq<Frame<T>> {
    if Computed(n.pc) then n.consumed + [n.acc] else n.consumed
  }

  /** The frames the node has so far wanted to hand to its output stream. */
  function Produced<S, T>(k: Kind<S, T>, n: Node<S, T>): seq<Frame<T>> {
    match k
    case Source => n.consumed
    case Proc(stage) => stage.Outs(Processed(n))
    case Sink => []
  }

  /** The one of them whose swap() has not been decided yet, if any. */
  predicate InFlight<S, T>(k: Kind<S, T>, n: Node<S, T>) {
    HoldsOut(n.pc) && (k.Source? || (k.Proc? && (!k.stage.multirate || n.out != [])))
  }

  ghost predicate LocalInv<S, T>(k: Kind<S, T>, n: Node<S, T>, samples: nat) {
    && (!k.Source? && HoldsIn(n.pc) ==> |n.acc| <= n.count <= samples && (!n.pc.Loading? ==> |n.acc| == n.count))
    && (n.pc.Storing? ==> n.pos <= |n.out|)
    && (!k.Sink? && HoldsOut(n.pc) ==> |n.out| <= samples)
    && (k.Source? ==> n.pc in {Entry, Storing, Swapping, Publishing, Exited} && n.ctl in {Live, Joining, Unwrite, Stopped})
    && (k.Sink? ==> n.pc in {Entry, Waiting, Loading, Clearing, Releasing, Exited} && n.ctl in {Live, Spinning, Joining, Unread, Stopped})
    && (n.pc.Exited? ==> !n.ctl.Live?)
    && (n.ctl in {Unread, Unwrite, Stopped} ==> n.pc.Exited?)
    && Drops(n.kept) + (if !n.ctl.Live? && !n.pc.Exited? then 1 else 0) <= n.stops
  }

  ghost predicate HistoryInv<S, T>(k: Kind<S, T>, n: Node<S, T>) {
    && (k.Proc? ==>
          && n.state == k.stage.Final(Processed(n))
          && (HoldsOut(n.pc) ==> Processed(n) != [] && n.out == k.stage.LastOut(Processed(n)))
          && (n.pc.Swapping? ==> !k.stage.multirate || n.out != []))
    && (var done := Produced(k, n);
        && |done| == |n.kept| + (if InFlight(k, n) then 1 else 0)
        && (InFlight(k, n) ==> done[|n.kept|] == n.out)
        && n.sent == Survivors(done[..|n.kept|], n.kept))
  }

  // ---- the invariant of one stream between its writer and its reader

  /** Exactly one of: the writer may swap; the writer is between the halves of swap(); a frame
      is ready; the reader is between the halves of flush(). */
  predicate Token<S, T>(w: Node<S, T>, s: StreamState<T>, r: Node<S, T>) {
    (if s.canSwap then 1 else 0) + (if w.pc.Publishing? then 1 else 0)
    + (if s.dataReady then 1 else 0) + (if r.pc.Releasing? then 1 else 0) == 1
  }

  predicate Pending<S, T>(w: Node<S, T>, s: StreamState<T>) { w.pc.Publishing? || s.dataReady }

  ghost predicate LinkInv<S, T>(samples: nat, w: Node<S, T>, s: StreamState<T>, r: Node<S, T>) {
    && |s.writeBuf| == |s.readBuf| == samples && s.dataSize <= samples
    && Token(w, s, r)
    // the frame being read is whole and is not written to
    && (HoldsIn(r.pc) ==> s.dataReady && r.count == s.dataSize && |r.acc| <= s.dataSize && r.acc == s.readBuf[..|r.acc|])
    // what has been written of the frame to send is in the write buffer
    && (w.pc.Storing? ==> w.pos <= |w.out| <= samples && s.writeBuf[..w.pos] == w.out[..w.pos])
    && (w.pc.Clearing? || w.pc.Releasing? || w.pc.Swapping? ==> |w.out| <= samples && s.writeBuf[..|w.out|] == w.out)
    // what was sent is what was consumed, then the frame on the stream
    && w.sent == r.consumed + (if Pending(w, s) then [s.readBuf[..s.dataSize]] else [])
    && s.nReaders == (if r.pc.Waiting? then 1 else 0)
    && s.readerStop == ReadStopped(r.ctl)
    && s.writerStop == WriteStopped(w.ctl)
  }

  ghost predicate Inv<S(!new), T(!new)>(kinds: seq<Kind<S, T>>, samples: nat, sys: System<S, T>) {
    && Config(kinds, samples) && Shape(kinds, sys)
    && (forall i :: 0 <= i < |kinds| ==> LocalInv(kinds[i], sys.nodes[i], samples) && HistoryInv(kinds[i], sys.nodes[i]))
    && (forall k :: 0 <= k < |kinds| - 1 ==> LinkInv(samples, sys.nodes[k], sys.streams[k], sys.nodes[k + 1]))
  }

  // ---- steps on the stream between w and r

  lemma WriterKeepsLink<S, T>(k: Kind<S, T>, samples: nat, w: Node<S, T>, s: StreamState<T>, r: Node<S, T>)
    requires !k.Sink? && LocalInv(k, w, samples) && LinkInv(samples, w, s, r) && CanWorkOut(w, s)
    ensures var (w', s') := WorkOut(w, s); LinkInv(samples, w', s', r)
  {
    var (w', s') := WorkOut(w, s);
    match w.pc
    case Storing =>
      assert s'.writeBuf[..w'.pos] == s.writeBuf[..w.pos] + [w.out[w.pos]];
      assert w.out[..w'.pos] == w.out[..w.pos] + [w.out[w.pos]];
    case Swapping =>
    case Publishing =>
  }

  lemma WriterKeepsLocal<S, T>(k: Kind<S, T>, samples: nat, w: Node<S, T>, s: StreamState<T>, r: Node<S, T>)
    requires !k.Sink? && LocalInv(k, w, samples) && LinkInv(samples, w, s, r) && CanWorkOut(w, s)
    ensures LocalInv(k, WorkOut(w, s).0, samples)
  {
    assert s.writerStop == WriteStopped(w.ctl);
    hide LinkInv;
    DropsSnoc(w.kept, !s.writerStop);
  }

  lemma WriterKeepsHistory<S, T>(k: Kind<S, T>, w: Node<S, T>, s: StreamState<T>)
    requires !k.Sink? && HistoryInv(k, w) && CanWorkOut(w, s)
    ensures HistoryInv(k, WorkOut(w, s).0)
  {
    hide Survivors, Stage.Outs, Stage.Final, Stage.LastOut;
    var w' := WorkOut(w, s).0;
    assert Processed(w') == Processed(w) && Produced(k, w') == Produced(k, w);
    if w.pc.Swapping? {
      var done := Produced(k, w);
      assert done == done[..|w.kept|] + [w.out] && done[..|w'.kept|] == done;
      SurvivorsSnoc(done[..|w.kept|], w.kept, w.out, !s.writerStop);
    }
  }

  lemma ReaderKeepsLink<S, T>(k: Kind<S, T>, samples: nat, w: Node<S, T>, s: StreamState<T>, r: Node<S, T>)
    requires !k.Source? && LocalInv(k, r, samples) && LinkInv(samples, w, s, r) && CanWorkIn(k, r, s)
    ensures var (r', s') := WorkIn(k, r, s); LinkInv(samples, w, s', r')
  {
    var (r', s') := WorkIn(k, r, s);
    match r.pc
    case Entry =>
    case Waiting =>
    case Loading =>
      assert r'.acc == s.readBuf[..|r'.acc|];
    case Clearing =>
      assert r.acc == s.readBuf[..s.dataSize];
    case Releasing =>
  }

  lemma ReaderKeepsNode<S, T>(k: Kind<S, T>, samples: nat, w: Node<S, T>, s: StreamState<T>, r: Node<S, T>)
    requires !k.Source? && LocalInv(k, r, samples) && HistoryInv(k, r) && LinkInv(samples, w, s, r)
             && CanWorkIn(k, r, s)
    ensures var (r', s') := WorkIn(k, r, s); LocalInv(k, r', samples) && HistoryInv(k, r')
  {
    var r' := WorkIn(k, r, s).0;
    assert Processed(r') == Processed(r);
    assert Produced(k, r') == Produced(k, r);
  }

  /** After flush() a Processor swaps, unless it is multirate and has computed no samples; the sink
      has nothing to swap. */
  lemma SwapsExactly<S, T>(k: Kind<S, T>, r: Node<S, T>, s: StreamState<T>)
    requires CanWorkIn(k, r, s) && r.pc.Releasing?
    ensures WorkIn(k, r, s).0.pc.Swapping? <==> k.Proc? && (!k.stage.multirate || |r.out| > 0)
    ensures WorkIn(k, r, s).0.pc.Swapping? || WorkIn(k, r, s).0.pc.Entry?
  {
  }

  /** Every call of doStop counts as one stop, and nothing else does. */
  lemma StopCountsOne<S, T>(k: Kind<S, T>, n: Node<S, T>, s: StreamState<T>)
    ensures CanControlIn(k, n, s) ==> ControlIn(k, n, s).0.stops == n.stops + if n.ctl.Live? then 1 else 0
    ensures CanControlOut(k, n) ==> ControlOut(k, n, s).0.stops == n.stops + if n.ctl.Live? then 1 else 0
    ensures CanControlAlone(n) ==> ControlAlone(k, n).stops == n.stops
  {
  }

  lemma ControlKeepsWriter<S, T>(k: Kind<S, T>, samples: nat, w: Node<S, T>, s: StreamState<T>, r: Node<S, T>)
    requires !k.Sink? && LocalInv(k, w, samples) && LinkInv(samples, w, s, r) && CanControlOut(k, w)
    ensures var (w', s') := ControlOut(k, w, s); LocalInv(k, w', samples) && LinkInv(samples, w', s', r)
  {
  }

  lemma ControlKeepsReader<S, T>(k: Kind<S, T>, samples: nat, w: Node<S, T>, s: StreamState<T>, r: Node<S, T>)
    requires !k.Source? && LocalInv(k, r, samples) && LinkInv(samples, w, s, r) && CanControlIn(k, r, s)
    ensures var (r', s') := ControlIn(k, r, s); LocalInv(k, r', samples) && LinkInv(samples, w, s', r')
  {
  }

  lemma HistoryIgnoresControl<S, T>(k: Kind<S, T>, n: Node<S, T>, ctl: Ctl, stops: nat)
    requires HistoryInv(k, n)
    ensures HistoryInv(k, n.(ctl := ctl, stops := stops))
  {
    hide Survivors;
    var n' := n.(ctl := ctl, stops := stops);
    assert Processed(n') == Processed(n);
    assert Produced(k, n') == Produced(k, n) && InFlight(k, n') == InFlight(k, n);
  }

  lemma ControlKeepsHistory<S, T>(k: Kind<S, T>, n: Node<S, T>, s: StreamState<T>)
    requires HistoryInv(k, n)
    ensures CanControlIn(k, n, s) ==> HistoryInv(k, ControlIn(k, n, s).0)
    ensures CanControlOut(k, n) ==> HistoryInv(k, ControlOut(k, n, s).0)
  {
    hide HistoryInv;
    forall c: Ctl, m: nat ensures HistoryInv(k, n.(ctl := c, stops := m)) {
      HistoryIgnoresControl(k, n, c, m);
    }
  }

  // ---- steps on no stream

  lemma AloneKeepsNode<S(!new), T(!new)>(k: Kind<S, T>, samples: nat, n: Node<S, T>)
    requires k.Proc? ==> Fits(k.stage, samples)
    requires LocalInv(k, n, samples) && HistoryInv(k, n) && CanWorkAlone(n)
    ensures LocalInv(k, WorkAlone(k, n), samples) && HistoryInv(k, WorkAlone(k, n))
  {
    var n' := WorkAlone(k, n);
    if n.pc.Loading? && k.Proc? {
      OutsSnoc(k.stage, n.consumed, n.acc);
      var done := Produced(k, n);
      assert Produced(k, n') == done + (if !k.stage.multirate || n'.out != [] then [n'.out] else []);
      assert Produced(k, n')[..|n.kept|] == done[..|n.kept|];
    }
  }

  lemma EmitKeepsNode<S, T>(k: Kind<S, T>, samples: nat, n: Node<S, T>, frame: Frame<T>)
    requires LocalInv(k, n, samples) && HistoryInv(k, n) && CanEmit(k, n) && |frame| <= samples
    ensures LocalInv(k, Emit(n, frame), samples) && HistoryInv(k, Emit(n, frame))
  {
    assert Emit(n, frame).consumed[..|n.kept|] == n.consumed[..|n.kept|];
  }

  lemma ControlKeepsNode<S, T>(k: Kind<S, T>, samples: nat, n: Node<S, T>)
    requires LocalInv(k, n, samples) && HistoryInv(k, n) && CanControlAlone(n)
    ensures LocalInv(k, ControlAlone(k, n), samples) && HistoryInv(k, ControlAlone(k, n))
  {
  }

  // ---- a step of a node that is not on a stream leaves that stream's invariant alone

  predicate SameWriter<S, T(==)>(n: Node<S, T>, n': Node<S, T>) {
    && n'.sent == n.sent && WriteStopped(n'.ctl) == WriteStopped(n.ctl)
    && n'.pc.Publishing? == n.pc.Publishing?
    && (n'.pc.Storing? ==> n'.pos == 0 || (n.pc.Storing? && n'.pos == n.pos && n'.out == n.out))
    && (n'.pc.Clearing? || n'.pc.Releasing? || n'.pc.Swapping? ==>
          n'.out == n.out && (n.pc.Clearing? || n.pc.Releasing? || n.pc.Swapping? || (n.pc.Storing? && n.pos >= |n.out|)))
  }

  predicate SameReader<S, T(==)>(n: Node<S, T>, n': Node<S, T>) {
    && n'.consumed == n.consumed && ReadStopped(n'.ctl) == ReadStopped(n.ctl)
    && n'.pc.Releasing? == n.pc.Releasing? && n'.pc.Waiting? == n.pc.Waiting?
    && (HoldsIn(n'.pc) ==> HoldsIn(n.pc) && n'.count == n.count && n'.acc == n.acc)
  }

  lemma StepsElsewhere<S, T>(k: Kind<S, T>, n: Node<S, T>, s: StreamState<T>)
    ensures CanWorkIn(k, n, s) ==> SameWriter(n, WorkIn(k, n, s).0)
    ensures CanWorkOut(n, s) ==> SameReader(n, WorkOut(n, s).0)
    ensures CanControlOut(k, n) && !k.Source? ==> SameReader(n, ControlOut(k, n, s).0)
    ensures CanControlIn(k, n, s) && !k.Sink? ==> SameWriter(n, ControlIn(k, n, s).0)
  {
  }

  lemma AloneElsewhere<S, T>(k: Kind<S, T>, samples: nat, n: Node<S, T>, frame: Frame<T>)
    requires LocalInv(k, n, samples)
    ensures CanWorkAlone(n) ==> (k.Sink? || SameWriter(n, WorkAlone(k, n))) && (k.Source? || SameReader(n, WorkAlone(k, n)))
    ensures CanEmit(k, n) ==> SameWriter(n, Emit(n, frame))
    ensures CanControlAlone(n) ==>
              (k.Sink? || SameWriter(n, ControlAlone(k, n))) && (k.Source? || SameReader(n, ControlAlone(k, n)))
  {
  }

  lemma SameWriterKeepsLink<S, T>(k: Kind<S, T>, samples: nat, w: Node<S, T>, s: StreamState<T>, r: Node<S, T>,
      w': Node<S, T>)
    requires LinkInv(samples, w, s, r) && SameWriter(w, w') && !k.Sink? && LocalInv(k, w', samples)
    ensures LinkInv(samples, w', s, r)
  {
  }

  lemma SameReaderKeepsLink<S, T>(samples: nat, w: Node<S, T>, s: StreamState<T>, r: Node<S, T>, r': Node<S, T>)
    requires LinkInv(samples, w, s, r) && SameReader(r, r')
    ensures LinkInv(samples, w, s, r')
  {
  }

  // ---- putting a step back into the system

  // Node i and its input stream have changed.
  lemma PutInKeepsInv<S(!new), T(!new)>(
    kinds: seq<Kind<S, T>>, samples: nat, sys: System<S, T>, i: nat, n': Node<S, T>, s': StreamState<T>)
    requires Inv(kinds, samples, sys) && 0 < i < |kinds|
    requires LocalInv(kinds[i], n', samples) && HistoryInv(kinds[i], n')
    requires LinkInv(samples, sys.nodes[i - 1], s', n')
    requires kinds[i].Sink? || SameWriter(sys.nodes[i], n')
    ensures Inv(kinds, samples, PutIn(sys, i, (n', s')))
  {
    hide LocalInv, HistoryInv, LinkInv, SameWriter, SameReader;
    if i < |kinds| - 1 {
      SameWriterKeepsLink(kinds[i], samples, sys.nodes[i], sys.streams[i], sys.nodes[i + 1], n');
    }
  }

  // Node i and its output stream have changed.
  lemma PutOutKeepsInv<S(!new), T(!new)>(
    kinds: seq<Kind<S, T>>, samples: nat, sys: System<S, T>, i: nat, n': Node<S, T>, s': StreamState<T>)
    requires Inv(kinds, samples, sys) && i < |kinds| - 1
    requires LocalInv(kinds[i], n', samples) && HistoryInv(kinds[i], n')
    requires LinkInv(samples, n', s', sys.nodes[i + 1])
    requires kinds[i].Source? || SameReader(sys.nodes[i], n')
    ensures Inv(kinds, samples, PutOut(sys, i, (n', s')))
  {
    hide LocalInv, HistoryInv, LinkInv, SameWriter, SameReader;
    if 0 < i {
      SameReaderKeepsLink(samples, sys.nodes[i - 1], sys.streams[i - 1], sys.nodes[i], n');
    }
  }

  // Only node i has changed.
  lemma PutAloneKeepsInv<S(!new), T(!new)>(
    kinds: seq<Kind<S, T>>, samples: nat, sys: System<S, T>, i: nat, n': Node<S, T>)
    requires Inv(kinds, samples, sys) && i < |kinds|
    requires LocalInv(kinds[i], n', samples) && HistoryInv(kinds[i], n')
    requires (kinds[i].Sink? || SameWriter(sys.nodes[i], n')) && (kinds[i].Source? || SameReader(sys.nodes[i], n'))
    ensures Inv(kinds, samples, PutAlone(sys, i, n'))
  {
    hide LocalInv, HistoryInv, LinkInv, SameWriter, SameReader;
    if 0 < i {
      SameReaderKeepsLink(samples, sys.nodes[i - 1], sys.streams[i - 1], sys.nodes[i], n');
    }
    if i < |kinds| - 1 {
      SameWriterKeepsLink(kinds[i], samples, sys.nodes[i], sys.streams[i], sys.nodes[i + 1], n');
    }
  }

  // ---- every step keeps the invariant

  lemma WorksKeepsInv<S(!new), T(!new)>(kinds: seq<Kind<S, T>>, samples: nat, sys: System<S, T>, i: nat,
      sys': System<S, T>)
    requires Inv(kinds, samples, sys) && i < |kinds| && Works(kinds, sys, i, sys')
    ensures Inv(kinds, samples, sys')
  {
    hide LocalInv, HistoryInv, LinkInv, SameWriter, SameReader, CanWorkIn, CanWorkOut, CanWorkAlone, WorkIn, WorkOut,
         WorkAlone;
    var k, n := kinds[i], sys.nodes[i];
    if 0 < i && CanWorkIn(k, n, sys.streams[i - 1]) && sys' == PutIn(sys, i, WorkIn(k, n, sys.streams[i - 1])) {
      var w, s := sys.nodes[i - 1], sys.streams[i - 1];
      assert LinkInv(samples, w, s, sys.nodes[i - 1 + 1]);
      ReaderKeepsLink(k, samples, w, s, n);
      ReaderKeepsNode(k, samples, w, s, n);
      StepsElsewhere(k, n, s);
      PutInKeepsInv(kinds, samples, sys, i, WorkIn(k, n, s).0, WorkIn(k, n, s).1);
    } else if i < |kinds| - 1 && CanWorkOut(n, sys.streams[i]) && sys' == PutOut(sys, i, WorkOut(n, sys.streams[i])) {
      var s := sys.streams[i];
      WriterKeepsLink(k, samples, n, s, sys.nodes[i + 1]);
      WriterKeepsLocal(k, samples, n, s, sys.nodes[i + 1]);
      WriterKeepsHistory(k, n, s);
      StepsElsewhere(k, n, s);
      PutOutKeepsInv(kinds, samples, sys, i, WorkOut(n, s).0, WorkOut(n, s).1);
    } else {
      AloneKeepsNode(k, samples, n);
      AloneElsewhere(k, samples, n, []);
      PutAloneKeepsInv(kinds, samples, sys, i, WorkAlone(k, n));
    }
  }

  lemma ControlsKeepsInv<S(!new), T(!new)>(kinds: seq<Kind<S, T>>, samples: nat, sys: System<S, T>, i: nat,
      sys': System<S, T>)
    requires Inv(kinds, samples, sys) && i < |kinds| && Controls(kinds, sys, i, sys')
    ensures Inv(kinds, samples, sys')
  {
    hide LocalInv, HistoryInv, LinkInv, SameWriter, SameReader, CanControlIn, CanControlOut, CanControlAlone,
         ControlIn, ControlOut, ControlAlone;
    var k, n := kinds[i], sys.nodes[i];
    if 0 < i && CanControlIn(k, n, sys.streams[i - 1]) && sys' == PutIn(sys, i, ControlIn(k, n, sys.streams[i - 1])) {
      var w, s := sys.nodes[i - 1], sys.streams[i - 1];
      assert LinkInv(samples, w, s, sys.nodes[i - 1 + 1]);
      ControlKeepsReader(k, samples, w, s, n);
      ControlKeepsHistory(k, n, s);
      StepsElsewhere(k, n, s);
      PutInKeepsInv(kinds, samples, sys, i, ControlIn(k, n, s).0, ControlIn(k, n, s).1);
    } else if i < |kinds| - 1 && CanControlOut(k, n) && sys' == PutOut(sys, i, ControlOut(k, n, sys.streams[i])) {
      var s := sys.streams[i];
      ControlKeepsWriter(k, samples, n, s, sys.nodes[i + 1]);
      ControlKeepsHistory(k, n, s);
      StepsElsewhere(k, n, s);
      PutOutKeepsInv(kinds, samples, sys, i, ControlOut(k, n, s).0, ControlOut(k, n, s).1);
    } else {
      ControlKeepsNode(k, samples, n);
      AloneElsewhere(k, samples, n, []);
      PutAloneKeepsInv(kinds, samples, sys, i, ControlAlone(k, n));
    }
  }

  lemma EmitsKeepsInv<S(!new), T(!new)>(kinds: seq<Kind<S, T>>, samples: nat, sys: System<S, T>, i: nat,
      sys': System<S, T>)
    requires Inv(kinds, samples, sys) && i < |kinds| && Emits(kinds, samples, sys, i, sys')
    ensures Inv(kinds, samples, sys')
  {
    hide LocalInv, HistoryInv, LinkInv, SameWriter, SameReader, Emit;
    var n := sys.nodes[i];
    var frame: Frame<T> :| |frame| <= samples && sys' == PutAlone(sys, i, Emit(n, frame));
    EmitKeepsNode(kinds[i], samples, n, frame);
    AloneElsewhere(kinds[i], samples, n, frame);
    PutAloneKeepsInv(kinds, samples, sys, i, Emit(n, frame));
  }

  /** The invariant is inductive. */
  lemma NextKeepsInv<S(!new), T(!new)>(kinds: seq<Kind<S, T>>, samples: nat, sys: System<S, T>, sys': System<S, T>)
    requires Inv(kinds, samples, sys) && Next(kinds, samples, sys, sys')
    ensures Inv(kinds, samples, sys')
  {
    hide LocalInv, HistoryInv, LinkInv, Works, Emits, Controls;
    var i: nat :| i < |kinds|
      && (Works(kinds, sys, i, sys') || Emits(kinds, samples, sys, i, sys') || Controls(kinds, sys, i, sys'));
    if Works(kinds, sys, i, sys') {
      WorksKeepsInv(kinds, samples, sys, i, sys');
    } else if Controls(kinds, sys, i, sys') {
      ControlsKeepsInv(kinds, samples, sys, i, sys');
    } else {
      EmitsKeepsInv(kinds, samples, sys, i, sys');
    }
  }

  lemma InitHasInv<S(!new), T(!new)>(kinds: seq<Kind<S, T>>, samples: nat, sys: System<S, T>)
    requires Config(kinds, samples) && Init(kinds, samples, sys)
    ensures Inv(kinds, samples, sys)
  {
    hide LocalInv, HistoryInv, LinkInv;
    forall i | 0 <= i < |kinds| ensures LocalInv(kinds[i], sys.nodes[i], samples) && HistoryInv(kinds[i], sys.nodes[i]) {
      InitHasNode(kinds[i], sys.nodes[i], samples);
    }
    forall k | 0 <= k < |kinds| - 1 ensures LinkInv(samples, sys.nodes[k], sys.streams[k], sys.nodes[k + 1]) {
      InitHasLink(samples, sys.nodes[k], sys.streams[k], sys.nodes[k + 1]);
    }
  }

  // A node that has just been started.
  predicate Started<S, T>(n: Node<S, T>) {
    n.pc == Entry && n.ctl == Live && n.consumed == [] && n.sent == [] && n.kept == [] && n.stops == 0
  }

  lemma InitHasNode<S, T>(k: Kind<S, T>, n: Node<S, T>, samples: nat)
    requires Started(n) && (k.Proc? ==> n.state == k.stage.init)
    ensures LocalInv(k, n, samples) && HistoryInv(k, n)
  {
  }

  lemma InitHasLink<S, T>(samples: nat, w: Node<S, T>, s: StreamState<T>, r: Node<S, T>)
    requires Started(w) && Started(r) && |s.writeBuf| == |s.readBuf| == samples && s == Fresh(s.writeBuf, s.readBuf)
    ensures LinkInv(samples, w, s, r)
  {
  }

  /** It holds in every state of every run. */
  lemma {:induction false} RunHasInv<S(!new), T(!new)>(kinds: seq<Kind<S, T>>, samples: nat, run: seq<System<S, T>>,
      t: nat)
    requires Config(kinds, samples) && Run(kinds, samples, run) && t < |run|
    ensures Inv(kinds, samples, run[t])
  {
    hide Init, Next, Inv;
    if t == 0 {
      InitHasInv(kinds, samples, run[0]);
    } else {
      RunHasInv(kinds, samples, run, t - 1);
      NextKeepsInv(kinds, samples, run[t - 1], run[t]);
    }
  }
}
