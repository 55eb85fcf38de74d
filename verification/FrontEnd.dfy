/** The IQ front end (core/src/signal_path/iq_frontend.cpp): its chain of preprocessors with the
    splitter behind it, and the FFT branch that is reconfigured while its sink may be running. */
module FrontEnds {
  import opened Blocks
  import opened Chains
  import opened Lists
  import opened Wirings

  /** The preprocessing chain, whose output the splitter reads. */
  class Preprocessing {
    const preproc: Chain
    const split: Processor

    ghost predicate Valid()
      reads preproc, preproc.os, preproc.inputs.Keys
    {
      preproc.tap == split && preproc.Valid()
    }

    constructor (preproc: Chain, split: Processor)
      requires preproc.tap == split && preproc.Valid()
      ensures this.preproc == preproc && this.split == split && Valid()
    {
      this.preproc, this.split := preproc, split;
    }

    /** Adds a processor and moves the splitter to the output: in the end the wiring is right, but
        on the way a stream has two readers if and only if the processor has been started and the
        splitter runs. */
    method AddPreprocessor(p: Processor, enabled: bool) returns (ok: bool)
      requires Valid() && (p !in preproc.states ==> p != split && preproc.input != Out(p))
      requires p !in preproc.states ==> p.os == preproc.os && p.Unbracketed() && !p.running
      modifies preproc, preproc.inputs.Keys, p, preproc.os
      ensures Valid()
      ensures ok <==> p !in old(preproc.states)
      ensures preproc.states == if ok then old(preproc.states)[p := enabled] else old(preproc.states)
      ensures preproc.links == if ok then old(preproc.links) + [p] else old(preproc.links)
      ensures ExclusiveSince(preproc.os.history, |old(preproc.os.history)|) <==>
              !(ok && enabled && preproc.running && split in preproc.started)
    {
      hide Exclusive, ExclusiveSince, Chain.Steady, Net.Placed, Net.Working, Net.Wired;
      ok := preproc.AddAndRetap(p, enabled, split);
    }

    method RemovePreprocessor(p: Processor) returns (ok: bool)
      requires Valid()
      modifies preproc, preproc.inputs.Keys, preproc.os
      ensures Valid() && (ok <==> p in old(preproc.states))
      ensures preproc.states == if ok then old(preproc.states) - {p} else old(preproc.states)
      ensures preproc.links == if ok then Without(old(preproc.links), p) else old(preproc.links)
      ensures ExclusiveSince(preproc.os.history, |old(preproc.os.history)|)
    {
      ok := preproc.RemoveBlock(p, split);
    }

    method TogglePreprocessor(p: Processor, enabled: bool) returns (ok: bool)
      requires Valid()
      modifies preproc, preproc.inputs.Keys, preproc.os
      ensures Valid() && (ok <==> p in old(preproc.states))
      ensures preproc.states == if ok then old(preproc.states)[p := enabled] else old(preproc.states)
      ensures ExclusiveSince(preproc.os.history, |old(preproc.os.history)|)
    {
      ok := preproc.SetBlockEnabled(p, enabled, split);
    }
  }
}
