/** The remote menu end to end: the server records the widget calls of a frame and stores them,
    the client loads the bytes, validates and draws them (core/src/gui/smgui.cpp). */
module RemoteMenus {
  import opened DrawListWire
  import opened Widgets
  import opened Replay
  import opened DrawLists
  import opened Recorders

  const Blank := Drawn([], false, [], DiffValue(StepTag, false, 0, 0, []), false)

  lemma {:induction false} IssuedAre(cs: seq<Call>, vs: seq<Widget>)
    requires forall k :: 0 <= k < |cs| ==> cs[k].Typed()
    requires |cs| == |vs| && forall k :: 0 <= k < |cs| ==> cs[k].Widget() == vs[k] && !vs[k].Unknown?
    ensures Issued(cs) == vs
  {
    hide Call.Typed, Call.Widget;
    if cs != [] { IssuedAre(cs[1..], vs[1..]); }
  }

  lemma CallableIsKnown(w: Widget)
    requires Callable(w)
    ensures !w.Unknown?
  {
  }

  lemma {:induction false} FrameCalls(ws: seq<Widget>, force: bool)
    ensures |Frame(ws, force)| == |ws| && forall k :: 0 <= k < |ws| ==> Frame(ws, force)[k].0 == ws[k]
  {
    hide TakesSync;
    if ws != [] { FrameCalls(ws[1..], force && !TakesSync(ws[0])); }
  }

  // The calls of a recorded frame.
  lemma FrameFacts(ws: seq<Widget>, force: bool)
    requires forall k :: 0 <= k < |ws| ==> Callable(ws[k])
    ensures var cs := RecordAll(Frame(ws, force));
            AllTyped(cs) && Validates(Flat(cs)) && Parse(Flat(cs)) == cs && Issued(cs) == ws
  {
    hide RecordAll, Flat, Validates, Callable, StepOf, Args, WidgetAt, Signature, CheckTypes;
    var frame := Frame(ws, force);
    FrameCalls(ws, force);
    RecordStoreLoad(frame, []);
    forall k | 0 <= k < |ws| ensures !ws[k].Unknown? { CallableIsKnown(ws[k]); }
    RecordedAre(frame);
    IssuedAre(RecordAll(frame), ws);
  }

  lemma RecordedAre(ws: seq<(Widget, bool)>)
    ensures |RecordAll(ws)| == |ws|
  {
  }

  /** What the client issues is what the server recorded, minus the insides of closed popups and
      tables; and with all of them open it is exactly the recorded calls, in order. */
  method ShowFrame(recorder: Recorder, ws: seq<Widget>, screen: DrawList, client: Client) returns (r: int, d: Drawn)
    requires recorder.list.elements == [] && recorder.list != screen
    requires forall k :: 0 <= k < |ws| ==> Callable(ws[k])
    requires ShortStrings(Flat(RecordAll(Frame(ws, recorder.forceSyncForNext))))
    modifies recorder`forceSyncForNext, recorder.list, screen
    ensures r == Size(recorder.list.elements)
    ensures var cs := RecordAll(Frame(ws, old(recorder.forceSyncForNext)));
            && AllTyped(cs) && recorder.list.elements == Flat(cs)
            && d == Play(cs, client, Blank).1 && screen.elements == Flat(Play(cs, client, Blank).0)
            && (NotNested(cs) ==> d == PlayBracketed(cs, client, Blank).1)
            && ((forall n: nat, w :: client(n, w).open) ==> WidgetsOf(d.trace) == ws)
  {
    hide Frame, RecordAll, Flat, Play, Stored, Size, LoadAll, Validates, ShortStrings, Issued, NotNested, Callable;
    ghost var cs := RecordAll(Frame(ws, recorder.forceSyncForNext));
    FrameFacts(ws, recorder.forceSyncForNext);
    recorder.CallAll(ws);
    assert recorder.list.elements == Flat(cs);
    var size := recorder.list.GetSize();
    var buf := new byte[size];
    var stored := recorder.list.Store(buf, size);
    assert buf[..] == buf[..stored] == Stored(Flat(cs)) + [];
    LoadStored(Flat(cs), []);
    r := screen.Load(buf, size);
    d := screen.Draw(client, Blank);
    if NotNested(cs) { PlayIsBracketed(cs, client, Blank); }
    if forall n: nat, w :: client(n, w).open {
      OpenPlayIssuesAll(cs, client, Blank);
    }
  }
}
