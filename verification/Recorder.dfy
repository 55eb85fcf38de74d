/** The recording side of the SmGui functions: with a draw list set, each pushes its step and
    arguments, and then takes the difference received from the client if it is addressed to it
    (core/src/gui/smgui.cpp in server mode). */
module Recorders {
  import opened DrawListWire
  import opened Widgets
  import opened Replay
  import opened DrawLists

  class Recorder {
    const list: DrawList
    var forceSyncForNext: bool
    var diffId: bytes
    var diffValue: DiffValue

    constructor (list: DrawList)
      ensures this.list == list && !forceSyncForNext && diffId == []
    {
      this.list := list;
      forceSyncForNext := false;
      diffId := [];
      diffValue := DiffValue(StepTag, false, 0, 0, []);
    }

    // setDiff
    method SetDiff(id: bytes, value: DiffValue)
      modifies this
      ensures diffId == id && diffValue == value && forceSyncForNext == old(forceSyncForNext)
    {
      diffId, diffValue := id, value;
    }

    // ForceSyncForNext
    method ForceSyncForNext()
      modifies this`forceSyncForNext
      ensures forceSyncForNext
    {
      forceSyncForNext := true;
    }

    method Push(e: Elem)
      modifies list
      ensures list.elements == old(list.elements) + [e]
    {
      match e
      case StepElem(step, force) => list.PushStep(step, force);
      case BoolElem(b) => list.PushBool(b);
      case IntElem(i) => list.PushInt(i);
      case FloatElem(f) => list.PushFloat(f);
      case StringElem(str) => list.PushString(str);
    }

    /** A widget function: the step, with the sync flag if the widget takes it, then the
        arguments; then the answer to the widget. */
    method Call(w: Widget) returns (hit: bool, w': Widget)
      modifies this`forceSyncForNext, list
      ensures list.elements == old(list.elements) + Recorded(w, TakesSync(w) && old(forceSyncForNext)).Elems()
      ensures forceSyncForNext == (old(forceSyncForNext) && !TakesSync(w))
      ensures (hit, w') == Answer(w, diffId, diffValue)
    {
      hide Args, StepOf, Answer, TakesSync;
      list.PushStep(StepOf(w), TakesSync(w) && forceSyncForNext);
      if TakesSync(w) { forceSyncForNext := false; }
      var args, k := Args(w), 0;
      ghost var before := list.elements;
      while k < |args|
        invariant k <= |args| && list.elements == before + args[..k]
        invariant forceSyncForNext == (old(forceSyncForNext) && !TakesSync(w))
      {
        Push(args[k]);
        assert args[..k + 1] == args[..k] + [args[k]];
        k := k + 1;
      }
      var answer := Answer(w, diffId, diffValue);
      hit, w' := answer.0, answer.1;
    }

    /** A frame of the menu: its widget calls in order. */
    method CallAll(ws: seq<Widget>)
      modifies this`forceSyncForNext, list
      ensures list.elements == old(list.elements) + Flat(RecordAll(Frame(ws, old(forceSyncForNext))))
    {
      hide Recorded, TakesSync, Widgets.Call.Elems;
      var k := 0;
      EmptyFlat();
      assert RecordAll(Frame([], forceSyncForNext)) == [];
      while k < |ws|
        invariant k <= |ws|
        invariant old(list.elements) + Flat(RecordAll(Frame(ws, old(forceSyncForNext))))
                  == list.elements + Flat(RecordAll(Frame(ws[k..], forceSyncForNext)))
      {
        FrameHead(ws[k..], forceSyncForNext);
        assert ws[k..][1..] == ws[k + 1..];
        var _, _ := Call(ws[k]);
        k := k + 1;
      }
    }
  }

  /** The calls with the sync flag each takes, when the flag is first `force`: it goes to the
      first widget that takes it. */
  function Frame(ws: seq<Widget>, force: bool): seq<(Widget, bool)> {
    if ws == [] then []
    else [(ws[0], TakesSync(ws[0]) && force)] + Frame(ws[1..], force && !TakesSync(ws[0]))
  }

  lemma FrameHead(ws: seq<Widget>, force: bool)
    requires ws != []
    ensures Flat(RecordAll(Frame(ws, force))) ==
            Recorded(ws[0], TakesSync(ws[0]) && force).Elems()
            + Flat(RecordAll(Frame(ws[1..], force && !TakesSync(ws[0]))))
  {
    hide Recorded, TakesSync, Widgets.Call.Elems;
    var rest := Frame(ws[1..], force && !TakesSync(ws[0]));
    var c := Recorded(ws[0], TakesSync(ws[0]) && force);
    assert RecordAll(Frame(ws, force)) == [c] + RecordAll(rest);
    FlatHead(c, RecordAll(rest));
  }
}
