/** Any sequence of calls on a chain (core/src/dsp/chain.h), running or not: the settings follow from
    the calls, the wiring from the settings, and the streams that get a second reader on the way
    are known exactly. */
module ChainRuns {
  import opened Blocks
  import opened Lists
  import opened Wirings
  import opened Chains

  datatype Op =
    | Add(p: Processor, enabled: bool)
    | Toggle(p: Processor, on: bool)
    | Remove(p: Processor)
    | Input(port: Port)
    | Go
    | Halt

  /** What the calls before have set. */
  datatype Settings = Settings(input: Port, links: seq<Processor>, states: map<Processor, bool>, running: bool)

  function After(s: Settings, op: Op): Settings {
    match op
    case Add(p, enabled) => if p in s.states then s else s.(links := s.links + [p], states := s.states[p := enabled])
    case Toggle(p, on) => if p in s.states then s.(states := s.states[p := on]) else s
    case Remove(p) => if p in s.states then s.(links := Without(s.links, p), states := s.states - {p}) else s
    case Input(port) => s.(input := port)
    case Go => s.(running := true)
    case Halt => s.(running := false)
  }

  function AfterAll(s: Settings, ops: seq<Op>): Settings {
    if ops == [] then s else After(AfterAll(s, ops[..|ops| - 1]), ops[|ops| - 1])
  }

  /** The stream given to the chain is never the output of one of its blocks, and the tap is not
      added to it. */
  ghost predicate Allowed(s: Settings, tap: Processor, op: Op) {
    match op
    case Add(p, _) => p in s.states || (p != tap && s.input != Out(p))
    case Input(port) => forall p :: p in s.states ==> port != Out(p)
    case _ => true
  }

  ghost predicate AllAllowed(s: Settings, tap: Processor, ops: seq<Op>) {
    forall k :: 0 <= k < |ops| ==> Allowed(AfterAll(s, ops[..k]), tap, ops[k])
  }

  /** A new block is switched on at once in a running chain whose reader runs too. */
  predicate Clashes(s: Settings, tapped: bool, op: Op) {
    op.Add? && op.p !in s.states && op.enabled && s.running && tapped
  }

  ghost predicate NoneClashes(s: Settings, tapped: bool, ops: seq<Op>) {
    forall k :: 0 <= k < |ops| ==> !Clashes(AfterAll(s, ops[..k]), tapped, ops[k])
  }

  // The processors that the calls add.
  ghost function Pool(ops: seq<Op>): set<Processor> { set k | 0 <= k < |ops| && ops[k].Add? :: ops[k].p }

  // A processor is stopped, outside every bracket, when it is added.
  ghost predicate Ready(chain: Chain, pool: set<Processor>)
    reads chain, pool
  {
    forall p :: p in pool ==> p.os == chain.os && (p !in chain.states ==> p.Unbracketed() && !p.running)
  }

  ghost function SettingsOf(chain: Chain): Settings
    reads chain
  {
    Settings(chain.input, chain.links, chain.states, chain.running)
  }

  /** The enabled blocks, in list order, form one path from the input to the tap, and a block is
      started exactly when it is enabled and the chain runs. */
  ghost predicate WiredAs(s: Settings, tap: Processor)
    reads tap, s.states.Keys
  {
    var path := Path(s.links, s.states);
    && (forall k :: 0 <= k < |path| ==> path[k] in s.states && path[k].input == Feed(s.input, path, k))
    && tap.input == Feed(s.input, path, |path|)
    && (forall p :: p in s.states ==> (p.running <==> s.running && s.states[p]))
  }

  lemma ValidIsWired(chain: Chain)
    requires chain.Valid()
    ensures WiredAs(SettingsOf(chain), chain.tap)
  {
    PathIsListed(chain.links, chain.states);
    hide Path, Listed, Distinct, Feed;
  }

  /** One call, on a chain whose output `tap` reads. */
  method Apply(chain: Chain, tap: Processor, op: Op, ghost pool: set<Processor>)
    requires chain.Valid() && chain.tap == tap && Allowed(SettingsOf(chain), tap, op)
    requires Ready(chain, pool) && (op.Add? ==> op.p in pool)
    modifies chain, chain.inputs.Keys, pool, chain.os
    ensures chain.Valid() && SettingsOf(chain) == After(old(SettingsOf(chain)), op)
    ensures Ready(chain, pool) && chain.inputs.Keys <= old(chain.inputs.Keys) + pool
    ensures tap in chain.started <==> tap in old(chain.started)
    ensures old(chain.os.history) <= chain.os.history
    ensures ExclusiveSince(chain.os.history, |old(chain.os.history)|) <==>
            !Clashes(old(SettingsOf(chain)), tap in chain.started, op)
  {
    hide Net.Working, Net.Wired, Net.Tapped, Exclusive, ExclusiveSince, Listed, Distinct, Without;
    match op {
      case Add(p, enabled) => var _ := chain.AddAndRetap(p, enabled, tap);
      case Toggle(p, on) => var _ := chain.SetBlockEnabled(p, on, tap);
      case Remove(p) => var _ := chain.RemoveBlock(p, tap);
      case Input(port) => chain.SetInput(port, tap);
      case Go => chain.Start();
      case Halt => chain.Stop();
    }
  }

  /** Whatever the calls: the settings are those that the calls say, the wiring is the one that the
      settings say, and no stream has two readers at any moment if and only if no block has been
      switched on by its adding while the chain and its reader were running. */
  method Drive(chain: Chain, tap: Processor, ops: seq<Op>)
    requires chain.Valid() && chain.tap == tap && AllAllowed(SettingsOf(chain), tap, ops) && Ready(chain, Pool(ops))
    modifies chain, chain.inputs.Keys, Pool(ops), chain.os
    ensures chain.Valid() && SettingsOf(chain) == AfterAll(old(SettingsOf(chain)), ops)
    ensures WiredAs(AfterAll(old(SettingsOf(chain)), ops), tap)
    ensures old(chain.os.history) <= chain.os.history
    ensures ExclusiveSince(chain.os.history, |old(chain.os.history)|) <==>
            NoneClashes(old(SettingsOf(chain)), tap in old(chain.started), ops)
  {
    hide Chain.Valid, Exclusive, ExclusiveSince, After, Allowed, Clashes, WiredAs, Path;
    ghost var s, h, tapped, pool := SettingsOf(chain), chain.os.history, tap in chain.started, Pool(ops);
    NothingSince(h);
    var k := 0;
    while k < |ops|
      invariant k <= |ops| && chain.Valid() && Ready(chain, pool)
      invariant chain.inputs.Keys <= old(chain.inputs.Keys) + pool
      invariant SettingsOf(chain) == AfterAll(s, ops[..k]) && (tap in chain.started <==> tapped)
      invariant h <= chain.os.history
      invariant ExclusiveSince(chain.os.history, |h|) <==> NoneClashes(s, tapped, ops[..k])
    {
      ghost var h1 := chain.os.history;
      assert ops[..k + 1][..k] == ops[..k];
      Apply(chain, tap, ops[k], pool);
      StillExclusive(h1, chain.os.history, |h|);
      ClashesOneMore(s, tapped, ops, k);
      k := k + 1;
    }
    assert ops[..k] == ops;
    ValidIsWired(chain);
  }

  lemma ClashesOneMore(s: Settings, tapped: bool, ops: seq<Op>, k: nat)
    requires k < |ops|
    ensures NoneClashes(s, tapped, ops[..k + 1]) <==>
            NoneClashes(s, tapped, ops[..k]) && !Clashes(AfterAll(s, ops[..k]), tapped, ops[k])
  {
    hide AfterAll, Clashes;
    assert forall j :: 0 <= j <= k ==> ops[..k + 1][..j] == ops[..j];
    assert forall j :: 0 <= j <= k && j < k ==> ops[..k][..j] == ops[..j];
  }
}
