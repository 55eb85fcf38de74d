/** dsp::block and dsp::Processor (core/src/dsp/block.h, core/src/dsp/processor.h): the life of
    a worker thread. `Life` is the value of the flags that start, stop, tempStart and tempStop
    change; `Processor` is the object, and `Threads` the worker threads that exist. */
module Blocks {
  import opened Lists

  // ---- the flags

  /** `live` says that the worker thread exists. */
  datatype Life = Life(running: bool, tempStopped: bool, depth: nat, live: bool)
  {
    function Start(): Life { if running then this else this.(running := true, live := true) }

    function Stop(): Life { if !running then this else this.(running := false, live := false) }

    function TempStart(): Life {
      if depth == 0 then this
      else if depth > 1 then this.(depth := depth - 1)
      else if tempStopped then Life(running, false, 0, true)
      else this.(depth := 0)
    }

    function TempStop(): Life {
      if depth > 0 || !running || tempStopped then this.(depth := depth + 1)
      else Life(running, true, 1, false)
    }

    /** The worker lives exactly when the block is started and no bracket is open, and is held
        back exactly when the block is started and some bracket is open. */
    predicate Ok() { live == (running && depth == 0) && tempStopped == (running && depth > 0) }
  }

  const Stopped := Life(false, false, 0, false)

  datatype Call = Start | Stop | TempStart | TempStop

  function Apply(l: Life, call: Call): Life {
    match call
    case Start => l.Start()
    case Stop => l.Stop()
    case TempStart => l.TempStart()
    case TempStop => l.TempStop()
  }

  function ApplyAll(l: Life, calls: seq<Call>): Life {
    if calls == [] then l else Apply(ApplyAll(l, calls[..|calls| - 1]), calls[|calls| - 1])
  }

  /** When a call keeps the flags consistent: tempStart and tempStop always do; start and stop do
      exactly when they do nothing or are made outside every bracket. */
  lemma KeepsOkExactly(l: Life, call: Call)
    requires l.Ok()
    ensures Apply(l, call).Ok() <==>
            match call
            case Start => l.running || l.depth == 0
            case Stop => !l.running || l.depth == 0
            case _ => true
  {
  }

  /** A bracket leaves the flags as they were; while it is open the worker is gone. */
  lemma BracketUndone(l: Life)
    requires l.Ok()
    ensures l.TempStop().TempStart() == l && !l.TempStop().live && l.TempStop().depth == l.depth + 1
  {
  }

  /** The brackets open after a sequence of calls; a tempStart outside every bracket does nothing. */
  function Open(depth: nat, calls: seq<Call>): nat {
    if calls == [] then depth
    else
      var d := Open(depth, calls[..|calls| - 1]);
      match calls[|calls| - 1]
      case TempStart => if d == 0 then 0 else d - 1
      case TempStop => d + 1
      case _ => d
  }

  /** Whether the block is started after the calls: the last start or stop decides. */
  function Started(running: bool, calls: seq<Call>): bool {
    if calls == [] then running
    else
      match calls[|calls| - 1]
      case Start => true
      case Stop => false
      case _ => Started(running, calls[..|calls| - 1])
  }

  // start and stop are called outside the brackets only.
  predicate Disciplined(depth: nat, calls: seq<Call>) {
    forall k :: 0 <= k < |calls| && (calls[k].Start? || calls[k].Stop?) ==> Open(depth, calls[..k]) == 0
  }

  /** Over any run that calls start and stop outside the brackets only, the worker lives exactly
      when the last of these calls was a start and no bracket is open. */
  lemma {:induction false} LivesBetweenBrackets(l: Life, calls: seq<Call>)
    requires l.Ok() && Disciplined(l.depth, calls)
    ensures ApplyAll(l, calls).Ok()
    ensures ApplyAll(l, calls).depth == Open(l.depth, calls)
    ensures ApplyAll(l, calls).running == Started(l.running, calls)
    ensures ApplyAll(l, calls).live <==> Started(l.running, calls) && Open(l.depth, calls) == 0
  {
    if calls != [] {
      var n := |calls| - 1;
      forall k | 0 <= k < n && (calls[..n][k].Start? || calls[..n][k].Stop?)
        ensures Open(l.depth, calls[..n][..k]) == 0
      {
        assert calls[..n][..k] == calls[..k];
      }
      LivesBetweenBrackets(l, calls[..n]);
      KeepsOkExactly(ApplyAll(l, calls[..n]), calls[n]);
    }
  }

  /** A stop inside a bracket is undone by the tempStart that closes it, and a start inside a
      bracket runs the worker at once: two calls the code does not guard against. */
  lemma BracketsDoNotCoverStartAndStop()
    ensures var l := ApplyAll(Stopped, [Start, TempStop, Stop, TempStart]); !l.running && l.live
    ensures var l := ApplyAll(Stopped, [TempStop, Start]); l.depth == 1 && l.live
  {
    var a := [Start, TempStop, Stop, TempStart];
    assert a[..3] == [Start, TempStop, Stop] && a[..3][..2] == [Start, TempStop] && a[..3][..2][..1] == [Start];
    assert ApplyAll(Stopped, [Start]) == Life(true, false, 0, true);
    assert ApplyAll(Stopped, [Start, TempStop]) == Life(true, true, 1, false);
    assert ApplyAll(Stopped, [Start, TempStop, Stop]) == Life(false, true, 1, false);
    var b := [TempStop, Start];
    assert b[..1] == [TempStop];
    assert ApplyAll(Stopped, [TempStop]) == Life(false, false, 1, false);
  }

  // ---- the objects

  /** A pointer to a stream: none, one that is no modelled processor's output, or an output. */
  datatype Port = Null | Stream(id: int) | Out(of: Processor)

  /** Who reads what: the worker threads that exist, with the stream each reads. */
  type Readers = map<Processor, Port>

  /** No stream has two readers. */
  ghost predicate Exclusive(r: Readers) {
    forall a, b :: a in r && b in r && a != b ==> r[a] != r[b]
  }

  /** The worker threads, with the situation after every one that was started or joined. */
  class Threads {
    var live: Readers
    ghost var history: seq<Readers>

    constructor ()
      ensures live == map[] && history == []
    {
      live, history := map[], [];
    }

    // Assigning to a std::thread that is still joinable would terminate the program.
    method Spawn(p: Processor, input: Port)
      requires p !in live
      modifies this
      ensures live == old(live)[p := input]
      ensures history == old(history) + [live]
    {
      live := live[p := input];
      history := history + [live];
    }

    // The worker leaves once the stream it reads has been told to stop its reader.
    method Join(p: Processor, stopped: seq<Port>)
      requires p in live && (live[p].Null? || live[p] in stopped)
      modifies this
      ensures live == old(live) - {p}
      ensures history == old(history) + [live]
    {
      live := live - {p};
      history := history + [live];
    }
  }

  /** All situations since `from` have at most one reader for each stream. */
  ghost predicate ExclusiveSince(history: seq<Readers>, from: nat) {
    forall k :: from <= k < |history| ==> Exclusive(history[k])
  }

  lemma ExclusiveSoFar(history: seq<Readers>, since: nat, r: Readers)
    requires since <= |history|
    ensures ExclusiveSince(history, since) && Exclusive(r) ==> ExclusiveSince(history + [r], since)
  {
    hide Exclusive;
  }

  lemma NothingSince(history: seq<Readers>)
    ensures ExclusiveSince(history, |history|)
  {
  }

  lemma StillExclusive(before: seq<Readers>, now: seq<Readers>, since: nat)
    requires since <= |before| && before <= now
    ensures ExclusiveSince(now, since) <==> ExclusiveSince(before, since) && ExclusiveSince(now, |before|)
  {
    hide Exclusive;
    assert forall k :: 0 <= k < |before| ==> now[k] == before[k];
  }

  /** Readers that stop take no exclusiveness away. */
  lemma FewerAreExclusive(fewer: Readers, r: Readers)
    requires Exclusive(r) && forall p :: p in fewer ==> p in r && r[p] == fewer[p]
    ensures Exclusive(fewer)
  {
  }

  class Processor {
    const os: Threads
    var input: Port
    var inputs: seq<Port>
    var running: bool
    var tempStopped: bool
    var tempStopDepth: nat

    ghost function View(): Life
      reads this, os
    {
      Life(running, tempStopped, tempStopDepth, this in os.live)
    }

    // The list of inputs holds the input.
    ghost predicate Registered()
      reads this
    {
      inputs == [input] || (input.Null? && inputs == [])
    }

    /** The list of inputs holds the input, and the worker reads it. */
    ghost predicate Valid()
      reads this, os
    {
      Registered() && (this in os.live ==> os.live[this] == input)
    }

    /** Outside every bracket: the worker lives exactly when the block is started. */
    ghost predicate Unbracketed()
      reads this
    {
      Registered() && !tempStopped && tempStopDepth == 0
    }

    constructor (os: Threads, input: Port)
      ensures Valid() && View() == Stopped && this.os == os && this.input == input
    {
      this.os, this.input, inputs := os, input, [input];
      running, tempStopped, tempStopDepth := false, false, 0;
      new;
      assert this !in os.live;
    }

    method DoStart()
      requires Valid() && this !in os.live
      modifies os
      ensures os.live == old(os.live)[this := input] && os.history == old(os.history) + [os.live]
    {
      os.Spawn(this, input);
    }

    method DoStop()
      requires Valid()
      modifies os
      ensures os.live == old(os.live) - {this}
      ensures os.history == old(os.history) + if this in old(os.live) then [os.live] else []
    {
      if this in os.live {
        os.Join(this, inputs);
      }
    }

    method Start()
      requires Valid() && (running || this !in os.live)
      modifies this`running, os
      ensures Valid() && View() == old(View()).Start()
      ensures if old(running) then os.live == old(os.live) && os.history == old(os.history)
              else os.live == old(os.live)[this := input] && os.history == old(os.history) + [os.live]
    {
      if running { return; }
      running := true;
      DoStart();
    }

    method Stop()
      requires Valid()
      modifies this`running, os
      ensures Valid() && View() == old(View()).Stop()
      ensures if !old(running) then os.live == old(os.live) && os.history == old(os.history)
              else && os.live == old(os.live) - {this}
                   && os.history == old(os.history) + if this in old(os.live) then [os.live] else []
    {
      if !running { return; }
      DoStop();
      running := false;
    }

    method TempStart()
      requires Valid() && (tempStopDepth == 1 && tempStopped ==> this !in os.live)
      modifies this`tempStopped, this`tempStopDepth, os
      ensures Valid() && View() == old(View()).TempStart()
      ensures if old(tempStopDepth) == 1 && old(tempStopped)
              then os.live == old(os.live)[this := input] && os.history == old(os.history) + [os.live]
              else os.live == old(os.live) && os.history == old(os.history)
    {
      if tempStopDepth == 0 { return; }
      tempStopDepth := tempStopDepth - 1;
      if tempStopDepth > 0 { return; }
      if tempStopped {
        DoStart();
        tempStopped := false;
      }
    }

    method TempStop()
      requires Valid()
      modifies this`tempStopped, this`tempStopDepth, os
      ensures Valid() && View() == old(View()).TempStop()
      ensures if old(tempStopDepth) == 0 && running && !old(tempStopped)
              then && os.live == old(os.live) - {this}
                   && os.history == old(os.history) + if this in old(os.live) then [os.live] else []
              else os.live == old(os.live) && os.history == old(os.history)
    {
      tempStopDepth := tempStopDepth + 1;
      if tempStopDepth > 1 { return; }
      if running && !tempStopped {
        DoStop();
        tempStopped := true;
      }
    }

    // The second input of a block is refused by aborting the program.
    method RegisterInput(port: Port)
      requires !(|inputs| == 1 && port != Null)
      modifies this`inputs
      ensures inputs == old(inputs) + [port]
    {
      inputs := inputs + [port];
    }

    method UnregisterInput(port: Port)
      modifies this`inputs
      ensures inputs == Without(old(inputs), port)
    {
      inputs := Remove(inputs, port);
    }

    /** Moves the block to another input. Whatever brackets are open, the worker is gone while
        the input changes, the block never has two inputs, and its flags end as they were. */
    method SetInput(port: Port)
      requires Valid() && View().Ok()
      modifies this`input, this`inputs, this`tempStopped, this`tempStopDepth, os
      ensures Valid() && View() == old(View()) && input == port
      ensures os.live == if this in old(os.live) then old(os.live)[this := port] else old(os.live)
      ensures os.history == old(os.history) + if this in old(os.live) then [old(os.live) - {this}, os.live] else []
    {
      TempStop();
      UnregisterInput(input);
      assert inputs == [];
      input := port;
      if input != Null {
        RegisterInput(input);
      }
      TempStart();
      assert old(os.live) - {this} == if this in old(os.live) then old(os.live) - {this} else old(os.live);
    }
  }
}
