/** The wiring of a dsp::chain (core/src/dsp/chain.h) as a value: the path of its enabled blocks,
    who reads which stream, and what switching one block or changing the input does to both. The
    callback of the code is the reader of the chain's output (the splitter of the IQ front end):
    the `tap`, which moves with the output. */
module Wirings {
  import opened Blocks

  // ---- the path

  // states[p]; a std::map answers false for a key it has not seen.
  predicate On(states: map<Processor, bool>, p: Processor) { p in states && states[p] }

  /** The enabled blocks, in list order. */
  function Path(links: seq<Processor>, states: map<Processor, bool>): seq<Processor> {
    if links == [] then []
    else
      var last := links[|links| - 1];
      Path(links[..|links| - 1], states) + (if On(states, last) then [last] else [])
  }

  /** What the k-th reader of the path must read: the input of the chain, or the output of the
      enabled block before. The reader after the last block is the tap. */
  function Feed(input: Port, path: seq<Processor>, k: nat): Port
    requires k <= |path|
  {
    if k == 0 then input else Out(path[k - 1])
  }

  lemma FeedOfOther(input: Port, other: Port, path: seq<Processor>)
    ensures Feed(other, path, 0) == other
    ensures forall k :: 0 < k <= |path| ==> Feed(other, path, k) == Feed(input, path, k)
  {
  }

  lemma FeedOfSum(input: Port, a: seq<Processor>, rest: seq<Processor>)
    ensures Feed(input, a + rest, |a|) == Feed(input, a, |a|)
    ensures rest != [] ==> Feed(input, a + rest, |a + rest|) == Out(rest[|rest| - 1])
    ensures rest == [] ==> a + rest == a
  {
  }

  ghost predicate Distinct(s: seq<Processor>) { forall i, j :: 0 <= i < j < |s| ==> s[i] != s[j] }

  lemma {:induction false} PathMembers(links: seq<Processor>, states: map<Processor, bool>, p: Processor)
    ensures p in Path(links, states) <==> p in links && On(states, p)
  {
    if links != [] {
      PathMembers(links[..|links| - 1], states, p);
      assert links == links[..|links| - 1] + [links[|links| - 1]];
    }
  }

  lemma {:induction false} PathOfSum(a: seq<Processor>, b: seq<Processor>, states: map<Processor, bool>)
    ensures Path(a + b, states) == Path(a, states) + Path(b, states)
  {
    if b == [] {
      assert a + b == a;
    } else {
      var n := |b| - 1;
      assert (a + b)[..|a| + n] == a + b[..n];
      PathOfSum(a, b[..n], states);
    }
  }

  lemma PathOfOne(p: Processor, states: map<Processor, bool>)
    ensures Path([p], states) == if On(states, p) then [p] else []
  {
    assert [p][..0] == [];
  }

  lemma {:induction false} PathIgnores(links: seq<Processor>, p: Processor, states: map<Processor, bool>, on: bool)
    requires p !in links
    ensures Path(links, states[p := on]) == Path(links, states)
  {
    if links != [] {
      PathIgnores(links[..|links| - 1], p, states, on);
    }
  }

  lemma {:induction false} PathForgets(links: seq<Processor>, p: Processor, states: map<Processor, bool>)
    requires p !in links
    ensures Path(links, states - {p}) == Path(links, states)
  {
    if links != [] {
      PathForgets(links[..|links| - 1], p, states);
    }
  }

  lemma {:induction false} PathIsDistinct(links: seq<Processor>, states: map<Processor, bool>)
    requires Distinct(links)
    ensures Distinct(Path(links, states))
  {
    if links != [] {
      var n := |links| - 1;
      PathIsDistinct(links[..n], states);
      PathMembers(links[..n], states, links[n]);
      assert links[n] !in links[..n];
    }
  }

  // One block of the list, switched on or off.
  lemma PathWith(before: seq<Processor>, b: Processor, after: seq<Processor>, states: map<Processor, bool>, on: bool)
    requires b !in before && b !in after
    ensures Path(before + [b] + after, states[b := on])
         == Path(before, states) + (if on then [b] else []) + Path(after, states)
  {
    hide Path;
    var switched := states[b := on];
    PathOfSum(before + [b], after, switched);
    PathOfSum(before, [b], switched);
    PathOfOne(b, switched);
    PathIgnores(before, b, states, on);
    PathIgnores(after, b, states, on);
  }

  /** Switching the block at position i: the path is the same before and after it. */
  lemma PathAround(links: seq<Processor>, states: map<Processor, bool>, i: nat)
    requires i < |links| && Distinct(links)
    ensures var (a, c) := (Path(links[..i], states), Path(links[i + 1..], states));
            && Path(links, states[links[i] := true]) == a + [links[i]] + c
            && Path(links, states[links[i] := false]) == a + c
            && links[i] !in a && links[i] !in c
  {
    hide Path;
    var b, before, after := links[i], links[..i], links[i + 1..];
    assert b !in before && b !in after;
    assert links == before + [b] + after;
    PathMembers(before, states, b);
    PathMembers(after, states, b);
    PathWith(before, b, after, states, true);
    PathWith(before, b, after, states, false);
    assert Path(before, states) + [] + Path(after, states) == Path(before, states) + Path(after, states);
  }

  // The path of a stretch of the list, one block further.
  lemma PathSoFar(links: seq<Processor>, states: map<Processor, bool>, from: nat, k: nat)
    requires from <= k < |links| && Path(links[from..k], states) == []
    ensures if On(states, links[k]) then Path(links[from..], states) != [] && Path(links[from..], states)[0] == links[k]
            else Path(links[from..k + 1], states) == []
  {
    hide Path;
    assert links[from..k + 1] == links[from..k] + [links[k]];
    PathOfSum(links[from..k], [links[k]], states);
    PathOfOne(links[k], states);
    assert links[from..] == links[from..k + 1] + links[k + 1..];
    PathOfSum(links[from..k + 1], links[k + 1..], states);
  }

  // ---- who reads what

  /** Whoever reads as a block of the path, or as the tap behind it, reads what it must. */
  ghost predicate Along(r: Readers, input: Port, path: seq<Processor>, tap: Processor) {
    && (forall k :: 0 <= k < |path| && path[k] in r ==> r[path[k]] == Feed(input, path, k))
    && (tap in r ==> r[tap] == Feed(input, path, |path|))
  }

  /** Along a path every stream has one reader. */
  lemma AlongIsExclusive(r: Readers, input: Port, path: seq<Processor>, tap: Processor)
    requires Distinct(path) && tap !in path && forall k :: 0 <= k < |path| ==> input != Out(path[k])
    requires Along(r, input, path, tap) && forall p :: p in r ==> p in path || p == tap
    ensures Exclusive(r)
  {
    var all := path + [tap];
    forall a, b | a in r && b in r && a != b ensures r[a] != r[b] {
      assert all[|path|] == tap;
      assert forall k :: 0 <= k < |path| ==> all[k] == path[k];
      var i :| 0 <= i < |all| && all[i] == a;
      var j :| 0 <= j < |all| && all[j] == b;
      assert r[a] == Feed(input, path, i) && r[b] == Feed(input, path, j);
    }
  }

  /** The list holds each block that has a flag, once. */
  ghost predicate Listed(links: seq<Processor>, states: map<Processor, bool>) {
    && Distinct(links)
    && (forall k :: 0 <= k < |links| ==> links[k] in states)
    && (forall p :: p in states ==> p in links)
  }

  // The reader that moves to another stream, if it is there.
  function Moved(r: Readers, p: Processor, port: Port): Readers { if p in r then r[p := port] else r }

  // The reader that comes after the first |a| blocks of the path a + c.
  function Next(c: seq<Processor>, tap: Processor): Processor { if c == [] then tap else c[0] }

  /** Moving the reader behind it to the block's output makes room for the block. */
  lemma InsertAlong(r: Readers, input: Port, a: seq<Processor>, b: Processor, c: seq<Processor>, tap: Processor)
    requires Along(r, input, a + c, tap) && Distinct(a + c) && tap !in a + c
    requires b != tap && b !in a + c
    ensures Along(Moved(r, Next(c, tap), Out(b)) - {b}, input, a + [b] + c, tap)
  {
    var r', was, now := Moved(r, Next(c, tap), Out(b)) - {b}, a + c, a + [b] + c;
    assert forall k :: 0 <= k < |a| ==> now[k] == was[k];
    assert now[|a|] == b && (c != [] ==> c[0] == was[|a|]);
    forall k | |a| < k < |now| ensures now[k] == was[k - 1] && (now[k] in r' ==> r'[now[k]] == Feed(input, now, k)) {
      assert now[k] == c[k - |a| - 1] == was[k - 1];
      if k > |a| + 1 { assert now[k - 1] == was[k - 2] && now[k] != Next(c, tap); }
    }
    if c != [] { assert now[|now| - 1] == was[|was| - 1]; }
  }

  /** Moving the reader behind a block to the stream before it closes the gap. */
  lemma DeleteAlong(r: Readers, input: Port, a: seq<Processor>, b: Processor, c: seq<Processor>, tap: Processor)
    requires Along(r, input, a + [b] + c, tap) && Distinct(a + [b] + c) && tap !in a + [b] + c
    ensures Along(Moved(r, Next(c, tap), Feed(input, a, |a|)), input, a + c, tap)
  {
    var r', was, now := Moved(r, Next(c, tap), Feed(input, a, |a|)), a + [b] + c, a + c;
    assert forall k :: 0 <= k < |a| ==> now[k] == was[k];
    assert c != [] ==> c[0] == was[|a| + 1];
    forall k | |a| <= k < |now| ensures now[k] == was[k + 1] && (now[k] in r' ==> r'[now[k]] == Feed(input, now, k)) {
      assert now[k] == c[k - |a|] == was[k + 1];
      if k > |a| { assert now[k - 1] == was[k] && now[k] != Next(c, tap); }
    }
    if c != [] { assert now[|now| - 1] == was[|was| - 1]; }
  }

  // ---- the value of a chain and its tap

  function ReadersOf(inputs: Readers, started: set<Processor>): Readers {
    map p | p in inputs && p in started :: inputs[p]
  }

  /** The fields of the chain, the inputs of its blocks and of the tap, and which are started. */
  datatype Net = Net(
    input: Port, links: seq<Processor>, states: map<Processor, bool>, out: Port, running: bool,
    inputs: Readers, started: set<Processor>)
  {
    function Readers(): Readers { ReadersOf(inputs, started) }

    function Enabled(): seq<Processor> { Path(links, states) }

    function Move(p: Processor, port: Port): Net { this.(inputs := inputs[p := port]) }

    function Run(p: Processor): Net { this.(started := started + {p}) }

    function Halt(p: Processor): Net { this.(started := started - {p}) }

    /** The block gets an input, is started if the chain runs, and is flagged. */
    function SwitchOn(p: Processor, port: Port): Net {
      (if running then Move(p, port).Run(p) else Move(p, port)).(states := states[p := true])
    }

    /** Gives a stream to the reader `next`: a block, or the tap, which is not told of a new
        output when the callback is empty. */
    function Connect(next: Processor, tap: Processor, port: Port, told: bool): Net {
      if next != tap then Move(next, port)
      else if told then Move(tap, port).(out := port)
      else this.(out := port)
    }

    /** The block is stopped and its flag cleared. */
    function SwitchOff(p: Processor): Net { Halt(p).(states := states[p := false]) }

    function SwitchOffEvents(p: Processor): seq<Readers> { if p in Readers() then [SwitchOff(p).Readers()] else [] }

    /** The situations that Connect passes through: the reader stops, then reads the new stream. */
    function ConnectEvents(next: Processor, tap: Processor, port: Port, told: bool): seq<Readers> {
      if (next == tap && !told) || next !in Readers() then []
      else [Readers() - {next}, Connect(next, tap, port, told).Readers()]
    }

    // The situation after SwitchOn, if it starts the block.
    function SwitchOnEvents(p: Processor, port: Port): seq<Readers> {
      if running then [SwitchOn(p, port).Readers()] else []
    }

    /** None of the blocks feeds the input of the chain; the tap is not one of them. */
    ghost predicate Placed(tap: Processor) {
      && Listed(links, states) && tap !in states && (forall p :: p in states ==> input != Out(p))
      && inputs.Keys == states.Keys + {tap} && started <= inputs.Keys
    }

    /** A block is started exactly when it is enabled and the chain runs. */
    ghost predicate Working() { forall p :: p in states ==> (p in started <==> running && states[p]) }

    /** The wiring is a function of the input, the list and the flags only: the enabled blocks,
        in list order, form one path from the input to the output. */
    ghost predicate Wired() {
      && (forall k :: 0 <= k < |Enabled()| ==> Enabled()[k] in inputs && inputs[Enabled()[k]] == Feed(input, Enabled(), k))
      && out == Feed(input, Enabled(), |Enabled()|)
    }

    ghost predicate Tapped(tap: Processor) { tap in inputs && inputs[tap] == out }

    ghost predicate Ok(tap: Processor) { Placed(tap) && Working() && Wired() && Tapped(tap) }
  }

  lemma ListedOnce(links: seq<Processor>, states: map<Processor, bool>, i: nat)
    requires Listed(links, states) && i < |links|
    ensures forall k :: 0 <= k < |links| ==> links[k] in states && (links[k] == links[i] ==> k == i)
  {
  }

  lemma PathOfNone(states: map<Processor, bool>)
    ensures Path([], states) == []
  {
  }

  lemma PathIsListed(links: seq<Processor>, states: map<Processor, bool>)
    requires Listed(links, states)
    ensures Distinct(Path(links, states))
    ensures forall k :: 0 <= k < |Path(links, states)| ==> On(states, Path(links, states)[k])
  {
    PathIsDistinct(links, states);
    forall k | 0 <= k < |Path(links, states)| ensures On(states, Path(links, states)[k]) {
      PathMembers(links, states, Path(links, states)[k]);
    }
  }

  lemma ListedBySwitch(links: seq<Processor>, states: map<Processor, bool>, p: Processor, on: bool)
    requires Listed(links, states) && p in states
    ensures Listed(links, states[p := on]) && states[p := on].Keys == states.Keys
  {
  }

  /** In a consistent chain no stream has two readers. */
  lemma OkIsExclusive(n: Net, tap: Processor)
    requires n.Ok(tap)
    ensures Exclusive(n.Readers())
  {
    PathIsListed(n.links, n.states);
    forall p | p in n.Readers() ensures p in n.Enabled() || p == tap {
      PathMembers(n.links, n.states, p);
    }
    hide Path, Listed;
    AlongIsExclusive(n.Readers(), n.input, n.Enabled(), tap);
  }

  /** What the steps do to the readers: moving a block moves its reader, if it is started;
      starting it adds one on its input, stopping it takes it away. */
  lemma ReadersAfter(n: Net, p: Processor, port: Port)
    requires p in n.inputs
    ensures n.Move(p, port).Readers() == Moved(n.Readers(), p, port)
    ensures n.Run(p).Readers() == n.Readers()[p := n.inputs[p]]
    ensures n.Halt(p).Readers() == n.Readers() - {p}
  {
  }

  // No situation of a step has two readers if none before and after it has.
  lemma StepIsExclusive(history: seq<Readers>, since: nat, more: seq<Readers>)
    requires since <= |history| && ExclusiveSince(history, since)
    requires forall k :: 0 <= k < |more| ==> Exclusive(more[k])
    ensures ExclusiveSince(history + more, since)
  {
    hide Exclusive;
  }

  lemma NextIsKnown(n: Net, tap: Processor, before: seq<Processor>, c: seq<Processor>)
    requires n.Wired() && n.Tapped(tap) && n.Enabled() == before + c
    ensures Next(c, tap) in n.inputs
  {
    hide Path, Feed;
    if c != [] { assert n.Enabled()[|before|] == c[0]; }
  }

  /** What the calls before were leaves no trace: two consistent chains with the same input, list,
      flags and running state have the same output, the same started blocks, and the same input
      for every enabled block. */
  lemma HistoryIndependent(n: Net, m: Net, tap: Processor)
    requires n.Ok(tap) && m.Ok(tap)
    requires n.input == m.input && n.links == m.links && n.states == m.states && n.running == m.running
    ensures n.out == m.out && n.inputs[tap] == m.inputs[tap]
    ensures forall p :: p in n.states ==> (p in n.started <==> p in m.started)
    ensures forall p :: p in n.states && n.states[p] ==> n.inputs[p] == m.inputs[p]
  {
    forall p | p in n.states && n.states[p] ensures n.inputs[p] == m.inputs[p] {
      PathMembers(n.links, n.states, p);
      var k :| 0 <= k < |n.Enabled()| && n.Enabled()[k] == p;
      hide Path, Feed;
    }
  }

  // ---- switching a block, as steps on the value

  /** The steps of enableBlock: the reader behind the block moves to its output, the block gets its
      input and is started, and the flag is set. */
  function EnableSteps(n: Net, tap: Processor, a: seq<Processor>, b: Processor, c: seq<Processor>, told: bool): (Net,
      Net) {
    var n1 := n.Connect(Next(c, tap), tap, Out(b), told);
    (n1, n1.SwitchOn(b, Feed(n.input, a, |a|)))
  }

  /** With an empty callback and no enabled block behind, the tap is left on the old output, which
      the new block now reads too. */
  lemma EnableUntold(n: Net, tap: Processor, a: seq<Processor>, b: Processor)
    requires n.Ok(tap) && b in n.states && !On(n.states, b) && b !in a && n.Enabled() == a
    ensures var (n1, n2) := EnableSteps(n, tap, a, b, [], false);
            && n2.out == Out(b) != n.out && n2.inputs[tap] == n.out
            && n2.Readers() == if n.running then n.Readers()[b := n.out] else n.Readers()
  {
    assert n.out != Out(b);
    hide Path, Listed, Feed;
  }

  lemma EnableKeepsPlaces(n: Net, tap: Processor, a: seq<Processor>, b: Processor, c: seq<Processor>, told: bool)
    requires n.Ok(tap) && b in n.states && Next(c, tap) in n.inputs
    ensures EnableSteps(n, tap, a, b, c, told).1.Placed(tap) && EnableSteps(n, tap, a, b, c, told).1.Working()
  {
    hide Path, Listed, Distinct, Feed, Net.Wired;
    var n2 := EnableSteps(n, tap, a, b, c, told).1;
    assert n2.inputs.Keys == n.inputs.Keys;
    ListedBySwitch(n.links, n.states, b, true);
    assert n2.started <= n.started + {b};
  }

  lemma EnableKeepsWiring(n: Net, tap: Processor, a: seq<Processor>, b: Processor, c: seq<Processor>, told: bool)
    requires n.Ok(tap) && b in n.states && !On(n.states, b) && b !in a + c
    requires n.Enabled() == a + c && Path(n.links, n.states[b := true]) == a + [b] + c
    ensures var (n1, n2) := EnableSteps(n, tap, a, b, c, told);
            && n2.Placed(tap) && n2.Working() && n2.Wired()
            && (told || c != [] ==> n2.Tapped(tap) && Exclusive(n1.Readers()) && Exclusive(n2.Readers()))
  {
    var (n1, n2) := EnableSteps(n, tap, a, b, c, told);
    PathIsListed(n.links, n.states);
    NextIsKnown(n, tap, a, c);
    EnableKeepsPlaces(n, tap, a, b, c, told);
    EnabledIsWired(n, tap, a, b, c, told);
    if told || c != [] {
      OkIsExclusive(n2, tap);
      FewerAreExclusive(n1.Readers(), n2.Readers());
    }
  }

  lemma EnabledIsWired(n: Net, tap: Processor, a: seq<Processor>, b: Processor, c: seq<Processor>, told: bool)
    requires n.Ok(tap) && b in n.states && !On(n.states, b) && b !in a + c
    requires Distinct(a + c) && tap !in a + c && Next(c, tap) in n.inputs
    requires n.Enabled() == a + c && Path(n.links, n.states[b := true]) == a + [b] + c
    ensures var n2 := EnableSteps(n, tap, a, b, c, told).1; n2.Wired() && (told || c != [] ==> n2.Tapped(tap))
  {
    var n2 := EnableSteps(n, tap, a, b, c, told).1;
    var inputs := if told || c != [] then n.inputs else n.inputs - {tap};
    hide Path, Listed, Distinct, Feed;
    InsertAlong(inputs, n.input, a, b, c, tap);
    var path := a + [b] + c;
    FeedOfSum(n.input, a, [b] + c);
    assert a + ([b] + c) == path && path[|a|] == b;
    FeedOfSum(n.input, a, c);
    var moved := Moved(inputs, Next(c, tap), Out(b)) - {b};
    forall k | 0 <= k < |path| ensures path[k] in n2.inputs && n2.inputs[path[k]] == Feed(n.input, path, k) {
      if k != |a| {
        assert path[k] == (a + c)[if k < |a| then k else k - 1];
        assert path[k] in moved && n2.inputs[path[k]] == moved[path[k]];
      }
    }
    assert n2.Enabled() == path;
  }

  lemma EventsAreExclusive(n: Net, n1: Net, next: Processor, tap: Processor, port: Port, told: bool,
                           b: Processor, feed: Port, h: seq<Readers>)
    requires n1 == n.Connect(next, tap, port, told)
    requires Exclusive(n.Readers()) && Exclusive(n1.Readers()) && Exclusive(n1.SwitchOn(b, feed).Readers())
    ensures ExclusiveSince(h + n.ConnectEvents(next, tap, port, told) + n1.SwitchOnEvents(b, feed), |h|)
  {
    FewerAreExclusive(n.Readers() - {next}, n.Readers());
    hide Exclusive;
    StepIsExclusive(h, |h|, n.ConnectEvents(next, tap, port, told));
    StepIsExclusive(h + n.ConnectEvents(next, tap, port, told), |h|, n1.SwitchOnEvents(b, feed));
  }

  // What the steps do to the readers and to the fields that tell them.
  lemma EnableStepsReaders(n: Net, tap: Processor, a: seq<Processor>, b: Processor, c: seq<Processor>, told: bool)
    requires Next(c, tap) in n.inputs && tap in n.inputs && b in n.inputs && b !in n.started && b != tap && tap !in c
    ensures var (n1, n2) := EnableSteps(n, tap, a, b, c, told);
            && n1.Readers() == (if told || c != [] then Moved(n.Readers(), Next(c, tap), Out(b)) else n.Readers())
            && b !in n.Readers() && b !in n1.Readers() && n1.inputs.Keys == n2.inputs.Keys == n.inputs.Keys
            && (tap in n2.started <==> tap in n.started) && n2.states == n.states[b := true]
            && (n2.out == n.out || (c == [] && n2.out == Out(b)))
  {
    ReadersAfter(n, Next(c, tap), Out(b));
  }

  // The i-th block of a consistent chain, the path before it and the path behind it.
  lemma BlockAt(n: Net, tap: Processor, i: nat)
    requires n.Ok(tap) && i < |n.links|
    ensures var (a, b, c) := (Path(n.links[..i], n.states), n.links[i], Path(n.links[i + 1..], n.states));
            && Next(c, tap) in n.inputs && tap !in c && b !in c && tap in n.inputs && b in n.inputs && b in n.states && b != tap
            && (b in n.started <==> n.running && n.states[b])
            && Listed(n.links, n.states) && b !in a + c && Distinct(n.Enabled())
            && n.Enabled() == (if n.states[b] then a + [b] + c else a + c)
            && Path(n.links, n.states[b := true]) == a + [b] + c
            && Path(n.links, n.states[b := false]) == a + c
  {
    var a, b, c := Path(n.links[..i], n.states), n.links[i], Path(n.links[i + 1..], n.states);
    PathAround(n.links, n.states, i);
    assert n.states == n.states[b := n.states[b]];
    PathIsListed(n.links, n.states);
    PathMembers(n.links, n.states, tap);
    hide Path, Distinct, Feed;
    assert tap !in n.Enabled();
    NextIsKnown(n, tap, if n.states[b] then a + [b] else a, c);
  }

  /** enableBlock on the i-th block, which is disabled, with the path a before it and c behind it:
      the wiring is again the one that the input, the list and the flags determine; and if the tap
      is told, or there is an enabled block behind, no stream has two readers at any moment. */
  lemma Enabling(n: Net, tap: Processor, i: nat, told: bool, h: seq<Readers>)
    requires n.Ok(tap) && i < |n.links| && !n.states[n.links[i]]
    ensures var (a, b, c) := (Path(n.links[..i], n.states), n.links[i], Path(n.links[i + 1..], n.states));
            var (n1, n2) := EnableSteps(n, tap, a, b, c, told);
            var port := Feed(n.input, a, |a|);
            && n2.Placed(tap) && n2.Working() && n2.Wired()
            && (if told || c != []
                then n2.Ok(tap) && ExclusiveSince(h + n.ConnectEvents(Next(c, tap), tap, Out(b), told)
                                                        + n1.SwitchOnEvents(b, port), |h|)
                else && n2.out != n.out && n2.inputs[tap] == n.out
                     && n.ConnectEvents(Next(c, tap), tap, Out(b), told) + n1.SwitchOnEvents(b, port)
                        == (if n.running then [n2.Readers()] else [])
                     && n2.Readers() == if n.running then n.Readers()[b := n.out] else n.Readers())
  {
    var a, b, c := Path(n.links[..i], n.states), n.links[i], Path(n.links[i + 1..], n.states);
    BlockAt(n, tap, i);
    EnableKeepsWiring(n, tap, a, b, c, told);
    if told || c != [] {
      OkIsExclusive(n, tap);
      hide Path, Listed, Feed, Net.Wired, Net.Working, Net.Placed, Distinct, Exclusive, ExclusiveSince;
      var (n1, n2) := EnableSteps(n, tap, a, b, c, told);
      EventsAreExclusive(n, n1, Next(c, tap), tap, Out(b), told, b, Feed(n.input, a, |a|), h);
    } else {
      assert a + c == a;
      EnableUntold(n, tap, a, b);
    }
  }

  /** The steps of disableBlock: the block is stopped and its flag cleared, then the reader behind
      it moves to the stream before it. */
  function DisableSteps(n: Net, tap: Processor, a: seq<Processor>, b: Processor, c: seq<Processor>): (Net, Net) {
    var n1 := n.SwitchOff(b);
    (n1, n1.Connect(Next(c, tap), tap, Feed(n.input, a, |a|), true))
  }

  lemma DisableKeepsWiring(n: Net, tap: Processor, a: seq<Processor>, b: Processor, c: seq<Processor>)
    requires n.Ok(tap) && b in n.states && b !in a + c
    requires n.Enabled() == a + [b] + c && Path(n.links, n.states[b := false]) == a + c
    ensures var (n1, n2) := DisableSteps(n, tap, a, b, c); n2.Ok(tap) && Exclusive(n1.Readers())
  {
    var (n1, n2) := DisableSteps(n, tap, a, b, c);
    PathIsListed(n.links, n.states);
    OkIsExclusive(n, tap);
    hide Path, Listed, Distinct, Feed;
    FewerAreExclusive(n1.Readers(), n.Readers());
    hide Exclusive;
    NextIsKnown(n, tap, a + [b], c);
    DisableKeepsPlaces(n, tap, a, b, c);
    DisabledIsWired(n, tap, a, b, c);
  }

  lemma DisableKeepsPlaces(n: Net, tap: Processor, a: seq<Processor>, b: Processor, c: seq<Processor>)
    requires n.Ok(tap) && b in n.states && Next(c, tap) in n.inputs
    ensures DisableSteps(n, tap, a, b, c).1.Placed(tap) && DisableSteps(n, tap, a, b, c).1.Working()
  {
    hide Path, Listed, Distinct, Feed, Net.Wired;
    var n2 := DisableSteps(n, tap, a, b, c).1;
    assert n2.inputs.Keys == n.inputs.Keys;
    ListedBySwitch(n.links, n.states, b, false);
  }

  lemma DisabledIsWired(n: Net, tap: Processor, a: seq<Processor>, b: Processor, c: seq<Processor>)
    requires n.Ok(tap) && b in n.states && Next(c, tap) in n.inputs
    requires Distinct(a + [b] + c) && tap !in a + [b] + c
    requires n.Enabled() == a + [b] + c && Path(n.links, n.states[b := false]) == a + c
    ensures var n2 := DisableSteps(n, tap, a, b, c).1; n2.Wired() && n2.Tapped(tap)
  {
    var n2 := DisableSteps(n, tap, a, b, c).1;
    hide Path, Listed, Distinct, Feed, Net.Placed, Net.Working;
    DeleteAlong(n.inputs, n.input, a, b, c, tap);
    var path := a + c;
    FeedOfSum(n.input, a, [b] + c);
    FeedOfSum(n.input, a, c);
    assert a + ([b] + c) == a + [b] + c;
    assert n2.inputs == Moved(n.inputs, Next(c, tap), Feed(n.input, a, |a|));
    forall k | 0 <= k < |path| ensures path[k] in n2.inputs {
      assert path[k] == n.Enabled()[if k < |a| then k else k + 1];
    }
    assert n2.Enabled() == path;
  }

  /** disableBlock on the i-th block, which is enabled: the chain stays consistent and no stream has
      two readers at any moment. */
  lemma Disabling(n: Net, tap: Processor, i: nat, h: seq<Readers>)
    requires n.Ok(tap) && i < |n.links| && n.states[n.links[i]]
    ensures var (a, b, c) := (Path(n.links[..i], n.states), n.links[i], Path(n.links[i + 1..], n.states));
            var (n1, n2) := DisableSteps(n, tap, a, b, c);
            && Path(n.links[..i], n1.states) == a && Path(n.links[i + 1..], n1.states) == c && Listed(n.links, n1.states)
            && n2.Ok(tap)
            && ExclusiveSince(h + n.SwitchOffEvents(b) + n1.ConnectEvents(Next(c, tap), tap, Feed(n.input, a, |a|), true), |h|)
  {
    var a, b, c := Path(n.links[..i], n.states), n.links[i], Path(n.links[i + 1..], n.states);
    BlockAt(n, tap, i);
    DisableKeepsWiring(n, tap, a, b, c);
    OkIsExclusive(n, tap);
    var (n1, n2) := DisableSteps(n, tap, a, b, c);
    OkIsExclusive(n2, tap);
    ListedBySwitch(n.links, n.states, b, false);
    assert b !in n.links[..i] && b !in n.links[i + 1..];
    PathIgnores(n.links[..i], b, n.states, false);
    PathIgnores(n.links[i + 1..], b, n.states, false);
    hide Path, Listed, Feed, Net.Wired, Net.Working, Net.Placed, Distinct, Exclusive, ExclusiveSince;
    OffEventsAreExclusive(n, n1, n2, Next(c, tap), tap, Feed(n.input, a, |a|), b, h);
  }

  lemma OffEventsAreExclusive(n: Net, n1: Net, n2: Net, next: Processor, tap: Processor, port: Port, b: Processor,
      h: seq<Readers>)
    requires n1 == n.SwitchOff(b) && n2 == n1.Connect(next, tap, port, true)
    requires Exclusive(n1.Readers()) && Exclusive(n2.Readers())
    ensures ExclusiveSince(h + n.SwitchOffEvents(b) + n1.ConnectEvents(next, tap, port, true), |h|)
  {
    FewerAreExclusive(n1.Readers() - {next}, n1.Readers());
    hide Exclusive;
    StepIsExclusive(h, |h|, n.SwitchOffEvents(b));
    StepIsExclusive(h + n.SwitchOffEvents(b), |h|, n1.ConnectEvents(next, tap, port, true));
  }

  /** The step of setInput: the first reader of the path moves to the new input. */
  function SetInputStep(n: Net, tap: Processor, port: Port): Net {
    n.(input := port).Connect(Next(n.Enabled(), tap), tap, port, true)
  }

  lemma SetInputKeepsWiring(n: Net, tap: Processor, port: Port)
    requires n.Ok(tap) && forall p :: p in n.states ==> port != Out(p)
    ensures SetInputStep(n, tap, port).Ok(tap)
  {
    PathIsListed(n.links, n.states);
    hide Path, Listed, Feed;
    assert [] + n.Enabled() == n.Enabled();
    NextIsKnown(n, tap, [], n.Enabled());
    SetInputKeepsPlaces(n, tap, port);
    SetInputIsWired(n, tap, port);
  }

  /** setInput: the chain stays consistent and no stream has two readers at any moment. */
  lemma SettingInput(n: Net, tap: Processor, port: Port, h: seq<Readers>)
    requires n.Ok(tap) && forall p :: p in n.states ==> port != Out(p)
    ensures Next(n.Enabled(), tap) in n.inputs && tap in n.inputs && tap !in n.Enabled() && Listed(n.links, n.states)
    ensures SetInputStep(n, tap, port).Ok(tap)
    ensures ExclusiveSince(h + n.(input := port).ConnectEvents(Next(n.Enabled(), tap), tap, port, true), |h|)
  {
    hide Path, Distinct, Feed, Exclusive, Net.Wired, Net.Working;
    SetInputKeepsWiring(n, tap, port);
    OkIsExclusive(n, tap);
    OkIsExclusive(SetInputStep(n, tap, port), tap);
    PathMembers(n.links, n.states, tap);
    assert [] + n.Enabled() == n.Enabled();
    hide Listed, Net.Placed;
    NextIsKnown(n, tap, [], n.Enabled());
    FewerAreExclusive(n.Readers() - {Next(n.Enabled(), tap)}, n.Readers());
    StepIsExclusive(h, |h|, n.(input := port).ConnectEvents(Next(n.Enabled(), tap), tap, port, true));
  }

  lemma SetInputKeepsPlaces(n: Net, tap: Processor, port: Port)
    requires n.Ok(tap) && (forall p :: p in n.states ==> port != Out(p)) && Next(n.Enabled(), tap) in n.inputs
    ensures SetInputStep(n, tap, port).Placed(tap) && SetInputStep(n, tap, port).Working()
  {
    hide Path, Listed, Distinct, Feed, Net.Wired;
    assert SetInputStep(n, tap, port).inputs.Keys == n.inputs.Keys;
  }

  lemma SetInputIsWired(n: Net, tap: Processor, port: Port)
    requires n.Wired() && n.Tapped(tap) && Distinct(n.Enabled()) && tap !in n.Enabled()
    ensures SetInputStep(n, tap, port).Wired() && SetInputStep(n, tap, port).Tapped(tap)
  {
    var path, n2 := n.Enabled(), SetInputStep(n, tap, port);
    FeedOfOther(n.input, port, path);
    hide Path, Feed;
    assert n2.Enabled() == path;
  }

  // ---- the list itself

  lemma AddKeepsPath(links: seq<Processor>, states: map<Processor, bool>, b: Processor)
    requires Listed(links, states) && b !in states
    ensures Listed(links + [b], states[b := false])
    ensures Path(links + [b], states[b := false]) == Path(links, states)
  {
    hide Path;
    var links', states' := links + [b], states[b := false];
    assert b !in links;
    assert forall k :: 0 <= k < |links'| ==> links'[k] in states';
    forall p | p in states' ensures p in links' {
      assert links'[|links|] == b;
    }
    PathOfSum(links, [b], states');
    PathOfOne(b, states');
    PathIgnores(links, b, states, false);
  }

  /** A block that is added, disabled, changes nothing for the others. */
  lemma AddKeepsWiring(n: Net, tap: Processor, b: Processor, port: Port)
    requires n.Ok(tap) && b !in n.states && b != tap && n.input != Out(b)
    ensures var n' := n.(links := n.links + [b], states := n.states[b := false], inputs := n.inputs[b := port]);
            n'.Ok(tap) && n'.Readers() == n.Readers()
  {
    hide Path, Listed, Distinct, Feed;
    AddKeepsPath(n.links, n.states, b);
    PathIsListed(n.links, n.states);
    var n' := n.(links := n.links + [b], states := n.states[b := false], inputs := n.inputs[b := port]);
    assert forall k :: 0 <= k < |n.Enabled()| ==> n.Enabled()[k] != b;
    assert n'.Enabled() == n.Enabled();
    assert n'.Wired() && n'.Tapped(tap) by { hide Net.Placed, Net.Working; }
    assert n'.Placed(tap) by { hide Net.Wired, Net.Working; }
  }

  lemma RemoveKeepsPath(links: seq<Processor>, states: map<Processor, bool>, i: nat)
    requires Listed(links, states) && i < |links| && !states[links[i]]
    ensures var (links', states') := (links[..i] + links[i + 1..], states - {links[i]});
            Listed(links', states') && Path(links', states') == Path(links, states)
  {
    hide Path;
    var b, before, after := links[i], links[..i], links[i + 1..];
    var links', states' := before + after, states - {b};
    assert b !in before && b !in after && links == before + [b] + after;
    RemoveKeepsList(links, states, i);
    PathForgets(before, b, states);
    PathForgets(after, b, states);
    PathOfSum(before, after, states');
    PathAround(links, states, i);
    assert states == states[b := false];
  }

  lemma RemoveKeepsList(links: seq<Processor>, states: map<Processor, bool>, i: nat)
    requires Listed(links, states) && i < |links|
    ensures Listed(links[..i] + links[i + 1..], states - {links[i]})
  {
    var b, links', states' := links[i], links[..i] + links[i + 1..], states - {links[i]};
    assert forall k :: 0 <= k < |links'| ==> links'[k] == links[if k < i then k else k + 1];
    forall p | p in states' ensures p in links' {
      var k :| 0 <= k < |links| && links[k] == p;
      assert p == links'[if k < i then k else k - 1];
    }
  }

  /** A disabled block that is removed changes nothing for the others. */
  lemma RemoveKeepsWiring(n: Net, tap: Processor, i: nat)
    requires n.Ok(tap) && i < |n.links| && !n.states[n.links[i]]
    ensures var b := n.links[i];
            var n' := n.(links := n.links[..i] + n.links[i + 1..], states := n.states - {b}, inputs := n.inputs - {b});
            n'.Ok(tap) && n'.Readers() == n.Readers()
  {
    hide Path, Listed, Distinct, Feed;
    var b := n.links[i];
    BlockAt(n, tap, i);
    RemoveKeepsPath(n.links, n.states, i);
    PathIsListed(n.links, n.states);
    assert forall k :: 0 <= k < |n.Enabled()| ==> n.Enabled()[k] != b;
    var n' := n.(links := n.links[..i] + n.links[i + 1..], states := n.states - {b}, inputs := n.inputs - {b});
    assert n'.Enabled() == n.Enabled();
    assert n'.Wired() && n'.Tapped(tap) by { hide Net.Placed, Net.Working; }
    assert n'.Placed(tap) by { hide Net.Wired, Net.Working; }
  }

  /** An enabled block at the end of the list gives the output. */
  lemma LastIsOut(n: Net)
    requires n.Wired() && n.links != [] && On(n.states, n.links[|n.links| - 1])
    ensures n.out == Out(n.links[|n.links| - 1])
  {
  }

  /** A reader put on the output of a consistent chain is one too many exactly when the tap is
      started. */
  lemma SecondReader(n: Net, tap: Processor, b: Processor)
    requires n.Ok(tap) && b != tap && b !in n.Enabled() && b !in n.Readers() && n.input != Out(b)
    ensures n.out != Out(b)
    ensures Exclusive(n.Readers()[b := n.out]) <==> tap !in n.started
  {
    var r := n.Readers()[b := n.out];
    if tap in n.started {
      assert r[tap] == r[b];
    } else {
      PathIsListed(n.links, n.states);
      forall p | p in r ensures p in n.Enabled() || p == b {
        PathMembers(n.links, n.states, p);
      }
      hide Path, Listed, Feed;
      AlongIsExclusive(r, n.input, n.Enabled(), b);
    }
  }

  /** Telling the tap of the output afterwards makes the chain consistent. */
  lemma RetapKeepsWiring(n: Net, tap: Processor)
    requires n.Placed(tap) && n.Working() && n.Wired()
    ensures tap in n.inputs && n.Move(tap, n.out).Ok(tap)
  {
    hide Path, Listed, Distinct, Feed;
    PathIsListed(n.links, n.states);
    assert n.Move(tap, n.out).Enabled() == n.Enabled();
    assert n.Move(tap, n.out).inputs.Keys == n.inputs.Keys;
  }

  // The tap leaves the stream that it reads, and reads the output.
  lemma RetapEvents(h: seq<Readers>, between: seq<Readers>, now: seq<Readers>, n: Net, tap: Processor)
    requires h <= between && tap in n.inputs && Exclusive(n.Move(tap, n.out).Readers())
    requires between == h || between == h + [n.Readers()]
    requires now == between + if tap in n.Readers() then [n.Readers() - {tap}, n.Move(tap, n.out).Readers()] else []
    ensures h <= now
    ensures ExclusiveSince(now, |h|) <==> between == h || Exclusive(n.Readers())
  {
    FewerAreExclusive(n.Readers() - {tap}, n.Move(tap, n.out).Readers());
    hide Exclusive;
    NothingSince(h);
    StillExclusive(between, now, |h|);
    assert between != h ==> between[|h|] == n.Readers();
  }

  // ---- starting and stopping

  function EnabledSet(links: seq<Processor>, states: map<Processor, bool>): set<Processor> {
    set p | p in links && On(states, p)
  }

  lemma EnabledSetGrows(links: seq<Processor>, states: map<Processor, bool>, k: nat)
    requires k < |links|
    ensures EnabledSet(links[..k + 1], states) ==
            if On(states, links[k]) then EnabledSet(links[..k], states) + {links[k]} else EnabledSet(links[..k], states)
    ensures EnabledSet(links[..k + 1], states) <= EnabledSet(links, states)
  {
    assert links[..k + 1] == links[..k] + [links[k]];
  }

  /** Starting every enabled block, and stopping every one, keeps the chain consistent. */
  lemma StartingKeepsWiring(n: Net, tap: Processor)
    requires n.Ok(tap)
    ensures tap !in EnabledSet(n.links, n.states) && EnabledSet(n.links, n.states) <= n.states.Keys
    ensures var started := n.started + EnabledSet(n.links, n.states);
            n.(running := true, started := started).Ok(tap) && Exclusive(n.(started := started).Readers())
    ensures n.(running := false, started := n.started - EnabledSet(n.links, n.states)).Ok(tap) && Exclusive(n.Readers())
  {
    var all := EnabledSet(n.links, n.states);
    assert forall p :: p in n.links ==> p in n.states;
    hide Path, Distinct, Feed, Exclusive, Net.Wired;
    StartKeepsWiring(n, tap, true, n.started + all);
    StartKeepsWiring(n, tap, false, n.started - all);
    OkIsExclusive(n, tap);
    OkIsExclusive(n.(running := true, started := n.started + all), tap);
  }

  lemma NoneEnabled(states: map<Processor, bool>)
    ensures EnabledSet([], states) == {}
  {
  }

  // While the blocks are started one after the other.
  lemma StartedIsExclusive(n: Net, tap: Processor, some: set<Processor>)
    requires n.Ok(tap) && some <= n.started + EnabledSet(n.links, n.states)
    ensures Exclusive(n.(started := some).Readers())
  {
    hide Path, Listed, Distinct, Feed, Exclusive, EnabledSet, Net.Wired;
    StartingKeepsWiring(n, tap);
    FewerStarted(n.(started := n.started + EnabledSet(n.links, n.states)), some);
  }

  // Only the flag and the set of started processors change.
  lemma StartKeepsWiring(n: Net, tap: Processor, running: bool, started: set<Processor>)
    requires n.Ok(tap) && started <= n.inputs.Keys
    requires forall p :: p in n.links ==> (p in started <==> running && On(n.states, p))
    ensures n.(running := running, started := started).Ok(tap)
  {
    assert forall p :: p in n.states ==> p in n.links;
    hide Path, Listed, Distinct, Feed;
    assert n.(running := running, started := started).Enabled() == n.Enabled();
  }

  lemma FewerStarted(n: Net, fewer: set<Processor>)
    requires fewer <= n.started && Exclusive(n.Readers())
    ensures Exclusive(n.(started := fewer).Readers())
  {
    FewerAreExclusive(n.(started := fewer).Readers(), n.Readers());
  }
}
