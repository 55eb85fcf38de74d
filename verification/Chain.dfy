/** dsp::chain (core/src/dsp/chain.h): processors in a fixed order, each switched on or off, and
    rewired while their workers run. `View` is the value of the chain, its blocks and the tap that
    reads its output; `Valid` says that the wiring is the one the input, the list and the flags
    determine, whatever calls have led there. */
module Chains {
  import opened Blocks
  import opened Lists
  import opened Wirings

  class Chain {
    const os: Threads
    var input: Port
    var links: seq<Processor>
    var states: map<Processor, bool>
    var out: Port
    var running: bool

    // The reader behind the callbacks, the inputs of the blocks and of the tap, and which run.
    ghost const tap: Processor
    ghost var inputs: Readers
    ghost var started: set<Processor>

    ghost function View(): Net
      reads this
    {
      Net(input, links, states, out, running, inputs, started)
    }

    /** Every block and the tap is outside all brackets, with its list of inputs in order, and the
        workers that exist are theirs. */
    ghost predicate Steady()
      reads this`inputs, this`started, os, inputs.Keys
    {
      && (forall p :: p in inputs ==>
            p.os == os && p.Unbracketed() && p.input == inputs[p] && (p.running <==> p in started))
      && os.live == ReadersOf(inputs, started)
    }

    ghost predicate Valid()
      reads this, os, inputs.Keys
    {
      Steady() && View().Ok(tap)
    }

    /** init(in): no blocks, the output is the input, and the tap reads it. */
    constructor (os: Threads, input: Port, ghost tap: Processor)
      requires tap.os == os && tap.Unbracketed() && tap.input == input
      requires os.live == if tap.running then map[tap := input] else map[]
      ensures this.os == os && this.tap == tap && this.input == input && links == [] && !running && Valid()
    {
      this.os, this.input, out, this.tap := os, input, input, tap;
      links, states, running := [], map[], false;
      inputs, started := map[tap := input], if tap.running then {tap} else {};
    }

    // The workers that exist read what the blocks' inputs say.
    lemma SteadyLive()
      requires Steady()
      ensures os.live == View().Readers()
    {
    }

    // ---- one step of one processor

    // p->setInput(port)
    method Move(p: Processor, port: Port)
      requires Steady() && p in inputs
      modifies this`inputs, p`input, p`inputs, p`tempStopped, p`tempStopDepth, os
      ensures Steady() && View() == old(View()).Move(p, port) && os.live == View().Readers()
      ensures os.history == old(os.history) + if p in old(os.live) then [old(os.live) - {p}, os.live] else []
    {
      ghost var n := View();
      ReadersAfter(n, p, port);
      assert p.Valid() && p.View().Ok();
      hide ReadersOf;
      p.SetInput(port);
      inputs := inputs[p := port];
      assert View() == n.Move(p, port) && os.live == n.Move(p, port).Readers();
      forall q | q in inputs ensures q.Unbracketed() && q.input == inputs[q] && (q.running <==> q in started) {
      }
    }

    // p->start()
    method Run(p: Processor)
      requires Steady() && p in inputs
      modifies this`started, p`running, os
      ensures Steady() && View() == old(View()).Run(p) && os.live == View().Readers()
      ensures os.history == old(os.history) + if p in old(os.live) then [] else [os.live]
    {
      ghost var n := View();
      ReadersAfter(n, p, Null);
      assert p.Valid() && p.View().Ok() && (p.running ==> n.Run(p) == n);
      hide ReadersOf;
      p.Start();
      started := started + {p};
      assert View() == n.Run(p) && os.live == n.Run(p).Readers();
      forall q | q in inputs ensures q.Unbracketed() && q.input == inputs[q] && (q.running <==> q in started) {
      }
    }

    // p->stop()
    method Halt(p: Processor)
      requires Steady() && p in inputs
      modifies this`started, p`running, os
      ensures Steady() && View() == old(View()).Halt(p) && os.live == View().Readers()
      ensures os.history == old(os.history) + if p in old(os.live) then [os.live] else []
    {
      ghost var n := View();
      ReadersAfter(n, p, Null);
      assert p.Valid() && p.View().Ok();
      hide ReadersOf;
      p.Stop();
      started := started - {p};
      assert View() == n.Halt(p) && os.live == n.Halt(p).Readers();
      forall q | q in inputs ensures q.Unbracketed() && q.input == inputs[q] && (q.running <==> q in started) {
      }
    }

    // p->setInput(port), p->start() if the chain runs, states[p] = true
    method SwitchOn(p: Processor, port: Port)
      requires Steady() && p in inputs && p !in os.live
      modifies this`states, this`inputs, this`started, inputs.Keys, os
      ensures Steady() && View() == old(View()).SwitchOn(p, port) && os.live == View().Readers()
      ensures os.history == old(os.history) + old(View()).SwitchOnEvents(p, port)
    {
      ghost var n := View();
      ReadersAfter(n, p, port);
      assert p !in Moved(n.Readers(), p, port);
      Move(p, port);
      if running { Run(p); }
      states := states[p := true];
    }

    // ---- neighbours

    method BlockBefore(block: Processor, ghost i: nat) returns (r: Processor?)
      requires Listed(links, states) && i < |links| && links[i] == block
      ensures var a := Path(links[..i], states); if a == [] then r == null else r == a[|a| - 1]
    {
      hide Path, Listed, Distinct;
      ListedOnce(links, states, i);
      PathOfNone(states);
      r := null;
      var k := 0;
      assert links[..k] == [];
      while k < |links|
        invariant k <= i
        invariant var a := Path(links[..k], states); if a == [] then r == null else r == a[|a| - 1]
      {
        if links[k] == block { return; }
        assert links[..k + 1] == links[..k] + [links[k]];
        PathOfSum(links[..k], [links[k]], states);
        PathOfOne(links[k], states);
        if states[links[k]] { r := links[k]; }
        k := k + 1;
      }
      return null;
    }

    method BlockAfter(block: Processor, ghost i: nat) returns (r: Processor?)
      requires Listed(links, states) && i < |links| && links[i] == block
      ensures var c := Path(links[i + 1..], states); if c == [] then r == null else r == c[0]
    {
      hide Path, Listed, Distinct;
      ListedOnce(links, states, i);
      PathOfNone(states);
      var found, k := false, 0;
      while k < |links|
        invariant k <= |links| && (found <==> k > i)
        invariant found ==> Path(links[i + 1..k], states) == []
      {
        if links[k] == block {
          found := true;
          k := k + 1;
          assert links[i + 1..k] == [];
          continue;
        }
        if found {
          PathSoFar(links, states, i + 1, k);
          if states[links[k]] { return links[k]; }
        }
        k := k + 1;
      }
      assert links[i + 1..k] == links[i + 1..];
      return null;
    }

    // ---- switching one block

    // Gives the stream to the next block, or makes it the output and runs the callback.
    method Connect(after: Processor?, port: Port, callback: Processor?, ghost c: seq<Processor>)
      requires Steady() && Next(c, tap) in inputs && (after == null ==> c == []) && (after != null ==> c != [] && after == c[0])
      requires tap !in c && (callback == null || callback == tap) && tap in inputs
      modifies this`out, this`inputs, inputs.Keys, os
      ensures Steady() && View() == old(View()).Connect(Next(c, tap), tap, port, callback != null)
              && os.live == View().Readers()
      ensures os.history == old(os.history) + old(View()).ConnectEvents(Next(c, tap), tap, port, callback != null)
    {
      if after != null {
        Move(after, port);
      } else {
        out := port;
        if callback != null { Move(callback, out); }
      }
    }

    // The neighbours are known: the reader behind moves to the block, and the block is switched on.
    method PutBetween(before: Processor?, block: Processor, after: Processor?, callback: Processor?,
                      ghost a: seq<Processor>, ghost c: seq<Processor>)
      requires Steady() && Next(c, tap) in inputs && (after == null ==> c == []) && (after != null ==> c != [] && after == c[0])
      requires if before == null then a == [] else a != [] && before == a[|a| - 1]
      requires tap !in c && (callback == null || callback == tap) && tap in inputs
      requires block in inputs && block != tap && block !in started
      modifies this`states, this`out, this`inputs, this`started, inputs.Keys, os
      ensures Steady() && os.live == View().Readers()
      ensures var n, told, port := old(View()), callback != null, Feed(old(input), a, |a|);
              var (n1, n2) := EnableSteps(n, tap, a, block, c, told);
              && View() == n2
              && os.history == old(os.history) + n.ConnectEvents(Next(c, tap), tap, Out(block), told)
                             + n1.SwitchOnEvents(block, port)
    {
      hide Path, ReadersOf, Steady, Net.ConnectEvents, Net.SwitchOnEvents;
      EnableStepsReaders(View(), tap, a, block, c, callback != null);
      SteadyLive();
      Connect(after, Out(block), callback, c);
      SwitchOn(block, if before != null then Out(before) else input);
    }

    // enableBlock behind its guards, for the i-th block.
    method InsertBlock(block: Processor, callback: Processor?, ghost i: nat)
      requires Valid() && (callback == null || callback == tap)
      requires i < |links| && links[i] == block && !states[block]
      modifies this`states, this`out, this`inputs, this`started, inputs.Keys, os
      ensures states == old(states)[block := true] && inputs.Keys == old(inputs.Keys)
      ensures tap in started <==> tap in old(started)
      ensures Steady() && View().Placed(tap) && View().Working() && View().Wired() && old(os.history) <= os.history
      ensures callback != null || out == old(out) ==> Valid() && ExclusiveSince(os.history, |old(os.history)|)
      ensures callback == null && out != old(out) ==>
                && inputs[tap] == old(out) && os.history == old(os.history) + (if running then [os.live] else [])
                && os.live == if running then old(os.live)[block := old(out)] else old(os.live)
    {
      hide Path, Listed, Distinct, Exclusive, ExclusiveSince, ReadersOf, Steady, Feed, EnableSteps,
           Net.Ok, Net.Placed, Net.Working, Net.Wired, Net.Tapped, Net.ConnectEvents, Net.SwitchOnEvents;
      ghost var n, h, told := View(), os.history, callback != null;
      ghost var a, c := Path(links[..i], states), Path(links[i + 1..], states);
      BlockAt(n, tap, i);
      Enabling(n, tap, i, told, h);
      EnableStepsReaders(n, tap, a, block, c, told);
      SteadyLive();

      var before := BlockBefore(block, i);
      var after := BlockAfter(block, i);
      PutBetween(before, block, after, callback, a, c);
    }

    /** Switches a block on. With a callback the chain stays valid and at no moment has a stream
        two readers. With an empty one, and no enabled block behind, the reader of the output is
        left where the block has been put in front of it. */
    method EnableBlock(block: Processor, callback: Processor?) returns (ok: bool)
      requires Valid() && (callback == null || callback == tap)
      modifies this`states, this`out, this`inputs, this`started, inputs.Keys, os
      ensures ok <==> block in old(states)
      ensures states == (if ok then old(states)[block := true] else old(states)) && inputs.Keys == old(inputs.Keys)
      ensures tap in started <==> tap in old(started)
      ensures Steady() && View().Placed(tap) && View().Working() && View().Wired() && old(os.history) <= os.history
      ensures callback != null || out == old(out) ==> Valid() && ExclusiveSince(os.history, |old(os.history)|)
      ensures callback == null && out != old(out) ==>
                && inputs[tap] == old(out) && os.history == old(os.history) + (if running then [os.live] else [])
                && os.live == if running then old(os.live)[block := old(out)] else old(os.live)
    {
      hide Path, Distinct, Exclusive, Steady, Net.Working, Net.Wired, Net.Tapped;
      if block !in states { return false; }
      if states[block] {
        assert states == states[block := true];
        return true;
      }
      ghost var i :| 0 <= i < |links| && links[i] == block;
      hide Listed, ExclusiveSince, Net.Placed;
      InsertBlock(block, callback, i);
      return true;
    }

    // p->stop(), states[p] = false
    method SwitchOff(p: Processor)
      requires Steady() && p in inputs
      modifies this`states, this`started, p`running, os
      ensures Steady() && View() == old(View()).SwitchOff(p) && os.live == View().Readers()
      ensures os.history == old(os.history) + old(View()).SwitchOffEvents(p)
    {
      Halt(p);
      states := states[p := false];
    }

    // disableBlock behind its guards, for the i-th block.
    method ExtractBlock(block: Processor, callback: Processor, ghost i: nat)
      requires Valid() && callback == tap
      requires i < |links| && links[i] == block && states[block]
      modifies this`states, this`out, this`inputs, this`started, inputs.Keys, os
      ensures states == old(states)[block := false] && inputs.Keys == old(inputs.Keys)
      ensures tap in started <==> tap in old(started)
      ensures Valid() && old(os.history) <= os.history && ExclusiveSince(os.history, |old(os.history)|)
    {
      hide Path, Listed, Distinct, Exclusive, ExclusiveSince, ReadersOf, Steady,
           Net.Ok, Net.Placed, Net.Working, Net.Wired, Net.Tapped, Net.ConnectEvents, Net.SwitchOffEvents;
      ghost var n, h := View(), os.history;
      ghost var a, c := Path(links[..i], states), Path(links[i + 1..], states);
      ghost var (n1, n2) := DisableSteps(n, tap, a, block, c);
      BlockAt(n, tap, i);
      Disabling(n, tap, i, h);
      SteadyLive();

      SwitchOff(block);
      assert View() == n1;
      var before := BlockBefore(block, i);
      var after := BlockAfter(block, i);
      Connect(after, if before != null then Out(before) else input, callback, c);
      assert View() == n2;
      assert os.history == h + n.SwitchOffEvents(block) + n1.ConnectEvents(Next(c, tap), tap, Feed(n.input, a, |a|), true);
    }

    /** Switches a block off: the chain stays valid and at no moment has a stream two readers. */
    method DisableBlock(block: Processor, callback: Processor) returns (ok: bool)
      requires Valid() && callback == tap
      modifies this`states, this`out, this`inputs, this`started, inputs.Keys, os
      ensures ok <==> block in old(states)
      ensures states == (if ok then old(states)[block := false] else old(states)) && inputs.Keys == old(inputs.Keys)
      ensures (tap in started <==> tap in old(started)) && (!ok ==> View() == old(View()))
      ensures Valid() && old(os.history) <= os.history && ExclusiveSince(os.history, |old(os.history)|)
    {
      hide Path, Distinct, Exclusive, Steady, Net.Working, Net.Wired, Net.Tapped;
      if block !in states { return false; }
      if !states[block] {
        assert states == states[block := false];
        return true;
      }
      ghost var i :| 0 <= i < |links| && links[i] == block;
      hide Listed, ExclusiveSince, Net.Placed;
      ExtractBlock(block, callback, i);
      return true;
    }

    method SetBlockEnabled(block: Processor, enabled: bool, callback: Processor) returns (ok: bool)
      requires Valid() && callback == tap
      modifies this`states, this`out, this`inputs, this`started, inputs.Keys, os
      ensures ok <==> block in old(states)
      ensures states == (if ok then old(states)[block := enabled] else old(states)) && inputs.Keys == old(inputs.Keys)
      ensures tap in started <==> tap in old(started)
      ensures Valid() && old(os.history) <= os.history && ExclusiveSince(os.history, |old(os.history)|)
    {
      hide *;
      if enabled {
        ok := EnableBlock(block, callback);
      } else {
        ok := DisableBlock(block, callback);
      }
    }

    // ---- the list

    // links.push_back(block), states[block] = false
    method Append(block: Processor)
      requires Valid() && block !in states
      requires block != tap && input != Out(block)
      requires block.os == os && block.Unbracketed() && !block.running
      modifies this`links, this`states, this`inputs
      ensures links == old(links) + [block] && states == old(states)[block := false]
      ensures inputs.Keys == old(inputs.Keys) + {block} && Valid() && block !in View().Enabled() && block !in os.live
    {
      hide Path, Listed, Distinct, Feed, Exclusive, Net.Working, Net.Wired;
      AddKeepsWiring(View(), tap, block, block.input);
      links := links + [block];
      states := states[block := false];
      inputs := inputs[block := block.input];
      PathMembers(links, states, block);
    }

    /** Adds a stopped block at the end of the list. Switched on at once in a running chain, it
        reads the stream that the tap still reads, as the callback is empty: then, if the tap is
        started, the stream has two readers. */
    method AddBlock(block: Processor, enabled: bool) returns (ok: bool)
      requires Valid()
      requires block !in states ==> block != tap && input != Out(block)
      requires block !in states ==> block.os == os && block.Unbracketed() && !block.running
      modifies this`links, this`states, this`out, this`inputs, this`started, inputs.Keys, block, os
      ensures ok <==> block !in old(states)
      ensures !ok ==> Valid() && View() == old(View()) && os.history == old(os.history)
      ensures ok ==> links == old(links) + [block] && states == old(states)[block := enabled]
      ensures ok ==> inputs.Keys == old(inputs.Keys) + {block} && inputs[tap] == old(out)
      ensures ok ==> os.history == old(os.history) + if enabled && running then [os.live] else []
      ensures ok && !enabled ==> Valid()
      ensures tap in started <==> tap in old(started)
      ensures ok && enabled ==> Steady() && View().Placed(tap) && View().Working() && View().Wired() && out == Out(block)
      ensures ok ==> (Exclusive(os.live) <==> !(enabled && running && tap in started))
    {
      hide Path, Listed, Distinct, Feed, Exclusive, ExclusiveSince, Steady, Net.Working, Net.Wired;
      if block in states { return false; }
      Append(block);
      OkIsExclusive(View(), tap);
      SteadyLive();
      SecondReader(View(), tap, block);
      if enabled {
        ok := EnableBlock(block, null);
        LastIsOut(View());
      }
      return true;
    }

    /** addBlock, and then the reader of the output is told of it (addPreprocessor of
        core/src/signal_path/iq_frontend.cpp). In the end the wiring is right; on the way a stream
        has two readers if and only if the block has been started and the tap runs. */
    method AddAndRetap(block: Processor, enabled: bool, callback: Processor) returns (ok: bool)
      requires Valid() && callback == tap
      requires block !in states ==> block != tap && input != Out(block)
      requires block !in states ==> block.os == os && block.Unbracketed() && !block.running
      modifies this`links, this`states, this`out, this`inputs, this`started, inputs.Keys, block, os
      ensures Valid() && (ok <==> block !in old(states))
      ensures !ok ==> View() == old(View()) && os.history == old(os.history)
      ensures ok ==> links == old(links) + [block] && states == old(states)[block := enabled]
      ensures ok ==> inputs.Keys == old(inputs.Keys) + {block}
      ensures (tap in started <==> tap in old(started)) && old(os.history) <= os.history
      ensures ExclusiveSince(os.history, |old(os.history)|) <==> !(ok && enabled && running && tap in started)
    {
      hide Path, Listed, Distinct, Feed, Exclusive, Steady, ReadersOf, Net.Placed, Net.Working, Net.Wired;
      ghost var h := os.history;
      ok := AddBlock(block, enabled);
      if !ok { return; }
      ghost var n, between := View(), os.history;
      RetapKeepsWiring(n, tap);
      OkIsExclusive(n.Move(tap, out), tap);
      SteadyLive();
      Move(callback, out);
      RetapEvents(h, between, os.history, n, tap);
    }

    /** Switches the block off and takes it out of the list. */
    method RemoveBlock(block: Processor, callback: Processor) returns (ok: bool)
      requires Valid() && callback == tap
      modifies this`links, this`states, this`out, this`inputs, this`started, inputs.Keys, os
      ensures ok <==> block in old(states)
      ensures !ok ==> View() == old(View())
      ensures ok ==> states == old(states) - {block} && links == Without(old(links), block)
      ensures ok ==> inputs.Keys == old(inputs.Keys) - {block} && block.Unbracketed() && !block.running
      ensures tap in started <==> tap in old(started)
      ensures Valid() && old(os.history) <= os.history && ExclusiveSince(os.history, |old(os.history)|)
    {
      hide Path, Listed, Distinct, Feed, Exclusive, ExclusiveSince, Steady, Net.Working, Net.Wired, ReadersOf;
      ok := DisableBlock(block, callback);
      if !ok { return; }
      assert states == old(states)[block := false];
      var k := Find(block);
      Erase(block, k);
    }

    // states.erase(block), links.erase(links.begin() + k)
    method Erase(block: Processor, k: nat)
      requires Valid() && k < |links| && links[k] == block && block in states && !states[block]
      modifies this`links, this`states, this`inputs
      ensures states == old(states) - {block} && links == Without(old(links), block) && Valid()
      ensures inputs.Keys == old(inputs.Keys) - {block} && block.Unbracketed() && !block.running
    {
      hide Path, Listed, Distinct, Feed, Exclusive, Net.Wired;
      ListedOnce(links, states, k);
      WithoutOne(links, k);
      RemoveKeepsWiring(View(), tap, k);
      states := states - {block};
      links := links[..k] + links[k + 1..];
      inputs := inputs - {block};
    }

    // std::find
    method Find(block: Processor) returns (k: nat)
      requires Listed(links, states) && block in states
      ensures k < |links| && links[k] == block
    {
      k := 0;
      while links[k] != block
        invariant k < |links| && block in links[k..]
        decreases |links| - k
      {
        k := k + 1;
      }
    }

    // ---- the input

    // _in = in
    method SetIn(port: Port)
      requires Steady()
      modifies this`input
      ensures Steady() && View() == old(View()).(input := port) && os.live == View().Readers()
    {
      input := port;
    }

    /** Moves the first reader of the path to another input. */
    method SetInput(port: Port, callback: Processor)
      requires Valid() && callback == tap
      requires forall p :: p in states ==> port != Out(p)
      modifies this`input, this`out, this`inputs, inputs.Keys, os
      ensures input == port && inputs.Keys == old(inputs.Keys)
      ensures Valid() && old(os.history) <= os.history && ExclusiveSince(os.history, |old(os.history)|)
    {
      hide Path, Listed, Distinct, Feed, Exclusive, ExclusiveSince, Steady, ReadersOf,
           Net.Placed, Net.Working, Net.Wired, Net.ConnectEvents;
      ghost var n, h := View(), os.history;
      SettingInput(n, tap, port, h);
      if links != [] { ListedOnce(links, states, 0); }
      PathOfNone(states);
      SetIn(port);
      var k := 0;
      assert links[0..0] == [] && links[0..] == links;
      while k < |links| && !states[links[k]]
        invariant k <= |links| && Path(links[0..k], states) == []
        modifies {}
      {
        PathSoFar(links, states, 0, k);
        k := k + 1;
      }
      if k < |links| {
        PathSoFar(links, states, 0, k);
        Connect(links[k], port, callback, Path(links, states));
        return;
      }
      assert links[0..k] == links;
      Connect(null, port, callback, []);
    }

    // ---- starting and stopping

    /** Starts the enabled blocks one after the other. */
    method Start()
      requires Valid()
      modifies this`running, this`started, inputs.Keys, os
      ensures running && Valid() && (tap in started <==> tap in old(started))
      ensures old(os.history) <= os.history && ExclusiveSince(os.history, |old(os.history)|)
    {
      hide Path, Listed, Distinct, Feed, Exclusive, ExclusiveSince, Steady, ReadersOf, EnabledSet, Net.Working,
           Net.Wired;
      NothingSince(os.history);
      if running { return; }
      ghost var n, h := View(), os.history;
      SteadyLive();
      StartingKeepsWiring(n, tap);
      NoneEnabled(states);
      var k := 0;
      assert links[..0] == [];
      while k < |links|
        invariant k <= |links| && Steady() && os.live == View().Readers()
        invariant View() == n.(started := n.started + EnabledSet(links[..k], states))
        invariant h <= os.history && ExclusiveSince(os.history, |h|)
      {
        EnabledSetGrows(links, states, k);
        ListedOnce(links, states, k);
        if states[links[k]] {
          StartedIsExclusive(n, tap, n.started + EnabledSet(links[..k + 1], states));
          ghost var h1 := os.history;
          Run(links[k]);
          assert View() == n.(started := n.started + EnabledSet(links[..k + 1], states));
          ExclusiveSoFar(h1, |h|, os.live);
          assert os.history == h1 || os.history == h1 + [os.live];
        }
        k := k + 1;
      }
      assert links[..k] == links;
      SetRunning(true);
    }

    /** Stops the enabled blocks one after the other. */
    method Stop()
      requires Valid()
      modifies this`running, this`started, inputs.Keys, os
      ensures !running && Valid() && (tap in started <==> tap in old(started))
      ensures old(os.history) <= os.history && ExclusiveSince(os.history, |old(os.history)|)
    {
      hide Path, Listed, Distinct, Feed, Exclusive, ExclusiveSince, Steady, ReadersOf, EnabledSet, Net.Working,
           Net.Wired;
      NothingSince(os.history);
      if !running { return; }
      ghost var n, h := View(), os.history;
      SteadyLive();
      StartingKeepsWiring(n, tap);
      NoneEnabled(states);
      var k := 0;
      assert links[..0] == [];
      while k < |links|
        invariant k <= |links| && Steady() && os.live == View().Readers()
        invariant View() == n.(started := n.started - EnabledSet(links[..k], states))
        invariant h <= os.history && ExclusiveSince(os.history, |h|)
      {
        EnabledSetGrows(links, states, k);
        ListedOnce(links, states, k);
        if states[links[k]] {
          StartedIsExclusive(n, tap, n.started - EnabledSet(links[..k + 1], states));
          ghost var h1 := os.history;
          Halt(links[k]);
          assert View() == n.(started := n.started - EnabledSet(links[..k + 1], states));
          ExclusiveSoFar(h1, |h|, os.live);
          assert os.history == h1 || os.history == h1 + [os.live];
        }
        k := k + 1;
      }
      assert links[..k] == links;
      SetRunning(false);
    }

    // running = on
    method SetRunning(on: bool)
      requires Steady()
      modifies this`running
      ensures Steady() && View() == old(View()).(running := on)
    {
      running := on;
    }

    // ---- all blocks

    method EnableAllBlocks(callback: Processor)
      requires Valid() && callback == tap
      modifies this`states, this`out, this`inputs, this`started, inputs.Keys, os
      ensures Valid() && states.Keys == old(states.Keys) && forall p :: p in states ==> states[p]
      ensures old(os.history) <= os.history && ExclusiveSince(os.history, |old(os.history)|)
    {
      SwitchAll(true, callback);
    }

    method DisableAllBlocks(callback: Processor)
      requires Valid() && callback == tap
      modifies this`states, this`out, this`inputs, this`started, inputs.Keys, os
      ensures Valid() && states.Keys == old(states.Keys) && forall p :: p in states ==> !states[p]
      ensures old(os.history) <= os.history && ExclusiveSince(os.history, |old(os.history)|)
    {
      SwitchAll(false, callback);
    }

    // The loop of both.
    method SwitchAll(enabled: bool, callback: Processor)
      requires Valid() && callback == tap
      modifies this`states, this`out, this`inputs, this`started, inputs.Keys, os
      ensures Valid() && states.Keys == old(states.Keys) && forall p :: p in states ==> states[p] == enabled
      ensures old(os.history) <= os.history && ExclusiveSince(os.history, |old(os.history)|)
    {
      hide Path, Distinct, Feed, Exclusive, ExclusiveSince, Steady, ReadersOf, Net.Working, Net.Wired, Net.Tapped;
      ghost var h := os.history;
      NothingSince(h);
      var k := 0;
      while k < |links|
        invariant k <= |links| && Valid() && states.Keys == old(states.Keys) && inputs.Keys == old(inputs.Keys)
        invariant forall j :: 0 <= j < k ==> links[j] in states && states[links[j]] == enabled
        invariant h <= os.history && ExclusiveSince(os.history, |h|)
      {
        ListedOnce(links, states, k);
        ghost var h1 := os.history;
        var ok := SetBlockEnabled(links[k], enabled, callback);
        StillExclusive(h1, os.history, |h|);
        k := k + 1;
      }
    }
  }
}
