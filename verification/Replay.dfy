/** What drawing a draw list means, call by call: the widget calls issued, the popups and tables
    skipped because they are closed, the value a widget is given by the user and the difference
    sent back for it (core/src/gui/smgui.cpp, DrawList::draw), and what the recording side does
    with that difference. */
module Replay {
  import opened DrawListWire
  import opened Widgets

  /** The client's answer to a widget call: whether the user changed or pressed it, the new value,
      and, for a popup or table, whether it is open. */
  datatype Reply = Reply(pressed: bool, open: bool, i: int32, f: word, b: bool, s: bytes)

  /** The answer to the n-th call of a run. */
  type Client = (nat, Widget) -> Reply

  /** One call as issued; `filled` marks a button drawn across the width that is left. */
  datatype Event = Event(widget: Widget, filled: bool)

  // The difference for the server: a DrawListElem whose other fields keep older values.
  datatype DiffValue = DiffValue(tag: Tag, b: bool, i: int32, f: word, str: bytes)

  datatype Drawn = Drawn(trace: seq<Event>, fillWidth: bool, diffId: bytes, diffValue: DiffValue, sync: bool)

  datatype ValueKind = NoValue | Press | IntValue | FloatValue | BoolValue | StringValue

  /** What the user can do to a widget. */
  function KindOf(step: byte): ValueKind {
    if step == BUTTON || step == RADIO_BUTTON then Press
    else if step == COMBO || step == SLIDER_INT || step == INPUT_INT then IntValue
    else if step == SLIDER_FLOAT_WITH_STEPS || step == SLIDER_FLOAT then FloatValue
    else if step == CHECKBOX then BoolValue
    else if step == INPUT_TEXT then StringValue
    else NoValue
  }

  function NewValue(k: ValueKind, r: Reply): Elem
    requires !k.NoValue? && !k.Press?
  {
    match k
    case IntValue => IntElem(r.i)
    case FloatValue => FloatElem(r.f)
    case BoolValue => BoolElem(r.b)
    case StringValue => StringElem(CStr(r.s))
  }

  /** The call as it is in the list after the user's answer: its value is its second argument. */
  function Pressed(c: Call, r: Reply): Call
    requires c.Typed()
  {
    var k := KindOf(c.step);
    if !r.pressed || k.NoValue? || k.Press? then c
    else c.(args := c.args[1 := NewValue(k, r)])
  }

  /** The difference a pressed widget leaves; a button only sets the type. */
  function DiffOf(k: ValueKind, was: DiffValue, r: Reply): DiffValue {
    match k
    case NoValue => was
    case Press => was.(tag := BoolTag)
    case IntValue => was.(tag := IntTag, i := r.i)
    case FloatValue => was.(tag := FloatTag, f := r.f)
    case BoolValue => was.(tag := BoolTag, b := r.b)
    case StringValue => was.(tag := StringTag, str := CStr(r.s))
  }

  /** One step of draw(). */
  function Show(c: Call, r: Reply, d: Drawn): Drawn
    requires c.Typed()
  {
    var w := c.Widget();
    var shown := if w.Unknown? then d else d.(trace := d.trace + [Event(w, w.Button? && d.fillWidth)]);
    var k := KindOf(c.step);
    (if r.pressed && !k.NoValue? then
       shown.(diffId := c.args[0].str, diffValue := DiffOf(k, d.diffValue, r), sync := c.force)
     else shown).(fillWidth := w.FillWidth?)
  }

  predicate Closes(c: Call, r: Reply) { (c.step == BEGIN_POPUP || c.step == BEGIN_TABLE) && !r.open }

  function EndOf(step: byte): byte { if step == BEGIN_POPUP then END_POPUP else END_TABLE }

  /** How many calls there are up to and including the first one with this step. */
  function Past(cs: seq<Call>, end: byte): (r: nat)
    ensures r <= |cs| && (cs != [] ==> r > 0)
  {
    if cs == [] then 0 else if cs[0].step == end then 1 else 1 + Past(cs[1..], end)
  }

  /** Drawing the calls: the calls as they are afterwards, and what was drawn. */
  function Play(cs: seq<Call>, client: Client, d: Drawn): (seq<Call>, Drawn)
    requires forall k :: 0 <= k < |cs| ==> cs[k].Typed()
    decreases |cs|
  {
    if cs == [] then ([], d)
    else
      var r := client(|d.trace|, cs[0].Widget());
      var skip := if Closes(cs[0], r) then Past(cs[1..], EndOf(cs[0].step)) else 0;
      var (rest, end) := Play(cs[1 + skip..], client, Show(cs[0], r, d));
      ([Pressed(cs[0], r)] + cs[1..1 + skip] + rest, end)
  }

  // ---- which call is drawn next

  lemma {:induction false} PastFirst(cs: seq<Call>, end: byte, k: nat)
    requires k < |cs| && cs[k].step == end && forall j :: 0 <= j < k ==> cs[j].step != end
    ensures Past(cs, end) == k + 1
  {
    if k > 0 { PastFirst(cs[1..], end, k - 1); }
  }

  lemma {:induction false} PastNone(cs: seq<Call>, end: byte)
    requires forall j :: 0 <= j < |cs| ==> cs[j].step != end
    ensures Past(cs, end) == |cs|
  {
    if cs != [] { PastNone(cs[1..], end); }
  }

  /** The first step `end` behind the first call is at k. */
  predicate FirstAt(cs: seq<Call>, end: byte, k: nat) {
    0 < k < |cs| && cs[k].step == end && forall j :: 0 < j < k ==> cs[j].step != end
  }

  predicate NoneBehind(cs: seq<Call>, end: byte) { forall j :: 0 < j < |cs| ==> cs[j].step != end }

  // Behind the first call, drawing goes on with the i-th.
  predicate GoesOn(cs: seq<Call>, client: Client, d: Drawn, i: nat)
    requires (forall k :: 0 <= k < |cs| ==> cs[k].Typed()) && 0 < i <= |cs|
  {
    var r := client(|d.trace|, cs[0].Widget());
    var (after, end) := Play(cs[i..], client, Show(cs[0], r, d));
    Play(cs, client, d) == ([Pressed(cs[0], r)] + cs[1..i] + after, end)
  }

  lemma PlayTurns(cs: seq<Call>, client: Client, d: Drawn)
    requires AllTyped(cs) && cs != []
    ensures var r := client(|d.trace|, cs[0].Widget());
            var skip := if Closes(cs[0], r) then Past(cs[1..], EndOf(cs[0].step)) else 0;
            GoesOn(cs, client, d, 1 + skip)
  {
    hide Show, Pressed, WidgetAt, Signature, Past, Closes, EndOf, CheckTypes;
  }

  // When drawing goes on at the end of the list, nothing more is drawn.
  lemma NothingBehind(cs: seq<Call>, client: Client, d: Drawn)
    requires AllTyped(cs) && cs != [] && GoesOn(cs, client, d, |cs|)
    ensures Play(cs, client, d).1 == Show(cs[0], client(|d.trace|, cs[0].Widget()), d)
  {
    hide Show, Pressed, WidgetAt, Signature, CheckTypes;
    assert cs[|cs|..] == [];
  }

  /** After a closed popup drawing goes on behind the next end of a popup, and ends if there is none;
      after a closed table behind the next end of a table; and behind every other call, whatever the
      client answers to it, with the next one. The calls that are skipped stay as they are. */
  lemma PlayGoesOn(cs: seq<Call>, client: Client, d: Drawn, k: nat)
    requires AllTyped(cs) && cs != []
    ensures var r := client(|d.trace|, cs[0].Widget());
            var end := Show(cs[0], r, d);
            && (cs[0].step == BEGIN_POPUP && !r.open && FirstAt(cs, END_POPUP, k) ==>
                  GoesOn(cs, client, d, k + 1))
            && (cs[0].step == BEGIN_POPUP && !r.open && NoneBehind(cs, END_POPUP) ==> Play(cs, client, d).1 == end)
            && (cs[0].step == BEGIN_TABLE && !r.open && FirstAt(cs, END_TABLE, k) ==>
                  GoesOn(cs, client, d, k + 1))
            && (cs[0].step == BEGIN_TABLE && !r.open && NoneBehind(cs, END_TABLE) ==> Play(cs, client, d).1 == end)
            && ((cs[0].step != BEGIN_POPUP && cs[0].step != BEGIN_TABLE) || r.open ==> GoesOn(cs, client, d, 1))
  {
    hide Show, Pressed, WidgetAt, Signature, Past, Play, GoesOn, CheckTypes, Call.Typed, Call.Widget;
    var r, step := client(|d.trace|, cs[0].Widget()), cs[0].step;
    PlayTurns(cs, client, d);
    if !r.open && (step == BEGIN_POPUP || step == BEGIN_TABLE) {
      var end := if step == BEGIN_POPUP then END_POPUP else END_TABLE;
      if FirstAt(cs, end, k) { PastFirst(cs[1..], end, k - 1); }
      if NoneBehind(cs, end) {
        PastNone(cs[1..], end);
        NothingBehind(cs, client, d);
      }
    }
  }

  // ---- what a call shows and reports

  /** A known call is issued once, last; a button is drawn across the width that is left exactly if
      the step drawn before it was the one that asks for it. */
  lemma ShowIssues(c: Call, r: Reply, d: Drawn)
    requires c.Typed()
    ensures var shown := Show(c, r, d);
            && (Known(c.step) ==> shown.trace == d.trace + [Event(WidgetAt(c.step, c.args), c.step == BUTTON && d.fillWidth)])
            && (!Known(c.step) ==> shown.trace == d.trace)
            && (shown.fillWidth <==> c.step == FILL_WIDTH)
  {
    KnownIsDrawn(c.step, c.args);
    StepOfWidgetAt(c.step, c.args);
    FillWidthStep(c.step, c.args);
    hide WidgetAt, Signature, KindOf, DiffOf, Known;
  }

  /** Which calls report what the user did, and what they report: the nine widgets with a value or
      a button, under the name and the sync flag in the list, with the type of their value; every
      other call, and one that was not touched, leaves the last difference and the list alone. */
  lemma ShowReports(c: Call, r: Reply, d: Drawn)
    requires c.Typed()
    ensures var (shown, was, now) := (Show(c, r, d), d.diffValue, Show(c, r, d).diffValue);
            && (r.pressed && Reports(c.step) ==> c.args[0].StringElem? && shown.diffId == c.args[0].str && shown.sync == c.force)
            && (!r.pressed || !Reports(c.step) ==>
                  shown.diffId == d.diffId && now == was && shown.sync == d.sync && Pressed(c, r) == c)
            && (r.pressed && (c.step == BUTTON || c.step == RADIO_BUTTON) ==> now == was.(tag := BoolTag) && Pressed(c, r) == c)
            && (r.pressed && (c.step == COMBO || c.step == SLIDER_INT || c.step == INPUT_INT) ==>
                  now == was.(tag := IntTag, i := r.i) && Pressed(c, r) == c.(args := c.args[1 := IntElem(r.i)]))
            && (r.pressed && (c.step == SLIDER_FLOAT || c.step == SLIDER_FLOAT_WITH_STEPS) ==>
                  now == was.(tag := FloatTag, f := r.f) && Pressed(c, r) == c.(args := c.args[1 := FloatElem(r.f)]))
            && (r.pressed && c.step == CHECKBOX ==>
                  now == was.(tag := BoolTag, b := r.b) && Pressed(c, r) == c.(args := c.args[1 := BoolElem(r.b)]))
            && (r.pressed && c.step == INPUT_TEXT ==>
                  now == was.(tag := StringTag, str := CStr(r.s)) && Pressed(c, r) == c.(args := c.args[1 := StringElem(CStr(r.s))]))
  {
    PressableArgs(c.step);
    hide WidgetAt, CStr;
  }

  predicate Reports(step: byte) {
    || step == BUTTON || step == RADIO_BUTTON || step == COMBO || step == SLIDER_INT || step == INPUT_INT
    || step == SLIDER_FLOAT_WITH_STEPS || step == SLIDER_FLOAT || step == CHECKBOX || step == INPUT_TEXT
  }

  // ---- drawing keeps the list well-formed

  // A widget the user can act on has its name first, and its value, if it has one, second.
  lemma PressableArgs(step: byte)
    ensures !KindOf(step).NoValue? ==> |Signature(step)| >= 2 && Signature(step)[0] == StringTag
    ensures !KindOf(step).NoValue? ==> step != BEGIN_POPUP && step != BEGIN_TABLE
    ensures Signature(END_POPUP) == [] && Signature(END_TABLE) == []
  {
  }

  lemma FillWidthStep(step: byte, a: seq<Elem>)
    requires Widgets.CheckTypes(a, Signature(step))
    ensures WidgetAt(step, a).FillWidth? <==> step == FILL_WIDTH
  {
  }

  lemma PressedTyped(c: Call, r: Reply)
    requires c.Typed()
    ensures Pressed(c, r).Typed() && |Pressed(c, r).args| == |c.args|
  {
  }

  lemma SameStep(c: Call, r: Reply)
    requires c.Typed()
    ensures Pressed(c, r).step == c.step && Pressed(c, r).force == c.force
  {
  }

  /** A drawn list is a list of the same steps with arguments of the same types: it validates
      again, whatever the user did. */
  lemma {:induction false} PlayTyped(cs: seq<Call>, client: Client, d: Drawn)
    requires AllTyped(cs)
    ensures Like(Play(cs, client, d).0, cs)
    decreases |cs|
  {
    hide Signature, WidgetAt, Show, Pressed, Closes, Past, EndOf, Call.Typed;
    if cs != [] {
      var r := client(|d.trace|, cs[0].Widget());
      var skip := if Closes(cs[0], r) then Past(cs[1..], EndOf(cs[0].step)) else 0;
      PlayTyped(cs[1 + skip..], client, Show(cs[0], r, d));
      PressedTyped(cs[0], r);
      SameStep(cs[0], r);
      var rest := Play(cs[1 + skip..], client, Show(cs[0], r, d)).0;
      LikeJoined(cs, Pressed(cs[0], r), skip, rest);
    }
  }

  // The same steps with arguments of the same types.
  ghost predicate Like(after: seq<Call>, cs: seq<Call>) {
    && AllTyped(after) && |after| == |cs|
    && forall k :: 0 <= k < |cs| ==> after[k].step == cs[k].step && after[k].force == cs[k].force
  }

  lemma LikeJoined(cs: seq<Call>, first: Call, skip: nat, rest: seq<Call>)
    requires AllTyped(cs) && 1 + skip <= |cs| && Like([first], cs[..1]) && Like(rest, cs[1 + skip..])
    ensures Like([first] + cs[1..1 + skip] + rest, cs)
  {
    hide Call.Typed;
    var after := [first] + cs[1..1 + skip] + rest;
    forall k | 0 <= k < |cs| ensures after[k].Typed() && after[k].step == cs[k].step && after[k].force == cs[k].force {
      if k == 0 {
        assert [first][0] == first && cs[..1][0] == cs[0];
      } else if k <= skip {
        assert after[k] == cs[k];
      } else {
        assert after[k] == rest[k - 1 - skip] && cs[k] == cs[1 + skip..][k - 1 - skip];
      }
    }
  }

  // ---- the skip loop of draw() works on elements and still lands on a step

  predicate IsStep(e: Elem, step: byte) { e.StepElem? && e.step == step }

  /** The index of the first element that is the wanted step, or the length. */
  function FirstElem(es: seq<Elem>, step: byte): (r: nat)
    ensures r <= |es| && (forall k :: 0 <= k < r ==> !IsStep(es[k], step)) && (r < |es| ==> IsStep(es[r], step))
  {
    if es == [] then 0 else if IsStep(es[0], step) then 0 else 1 + FirstElem(es[1..], step)
  }

  lemma {:induction false} FirstElemAfter(xs: seq<Elem>, ys: seq<Elem>, step: byte)
    requires forall k :: 0 <= k < |xs| ==> !IsStep(xs[k], step)
    ensures FirstElem(xs + ys, step) == |xs| + FirstElem(ys, step)
  {
    if xs == [] {
      assert xs + ys == ys;
    } else {
      FirstElemAfter(xs[1..], ys, step);
      assert (xs + ys)[1..] == xs[1..] + ys;
    }
  }

  /** Scanning the elements for an end step, and going one past it, skips whole calls: what is
      left is the list of the calls after the first end, or nothing. */
  lemma {:induction false} SkipLandsOnStep(cs: seq<Call>, end: byte)
    requires AllTyped(cs) && Signature(end) == []
    ensures var es, k := Flat(cs), FirstElem(Flat(cs), end);
            es[if k < |es| then k + 1 else k..] == Flat(cs[Past(cs, end)..])
  {
    hide Signature;
    if cs != [] {
      var es, c, rest := Flat(cs), cs[0], Flat(cs[1..]);
      assert es == c.Elems() + rest;
      if c.step == end {
        assert c.args == [] && cs[1..] == cs[Past(cs, end)..];
        assert es[1..] == rest;
      } else {
        OtherStepNotEnd(c, end);
        hide IsStep, Call.Elems;
        FirstElemAfter(c.Elems(), rest, end);
        SkipLandsOnStep(cs[1..], end);
        var k := FirstElem(rest, end);
        assert es[|c.Elems()|..] == rest;
        var j := if k < |rest| then k + 1 else k;
        assert es[|c.Elems()| + j..] == rest[j..];
        assert cs[Past(cs, end)..] == cs[1..][Past(cs[1..], end)..];
      }
    }
  }

  lemma OtherStepNotEnd(c: Call, end: byte)
    requires c.Typed() && c.step != end
    ensures forall k :: 0 <= k < |c.Elems()| ==> !IsStep(c.Elems()[k], end)
  {
    hide Signature;
    forall k | 0 <= k < |c.Elems()| ensures !IsStep(c.Elems()[k], end) {
      if k > 0 {
        assert c.Elems()[k] == c.args[k - 1];
        NoStepTag(c.step, k - 1);
      }
    }
  }

  lemma NoStepTag(step: byte, k: nat)
    requires k < |Signature(step)|
    ensures !Signature(step)[k].StepTag?
  {
  }

  // ---- skipping the right bracket

  /** How many calls there are up to and including the end that matches `depth` open brackets. */
  function PastMatching(cs: seq<Call>, begin: byte, end: byte, depth: nat): (r: nat)
    requires depth > 0
    ensures r <= |cs|
  {
    if cs == [] then 0
    else if cs[0].step == end then (if depth == 1 then 1 else 1 + PastMatching(cs[1..], begin, end, depth - 1))
    else 1 + PastMatching(cs[1..], begin, end, if cs[0].step == begin then depth + 1 else depth)
  }

  predicate NoneBefore(cs: seq<Call>, begin: byte, k: nat)
    requires k <= |cs|
  {
    forall j :: 0 <= j < k ==> cs[j].step != begin
  }

  lemma {:induction false} DeeperEndsLater(cs: seq<Call>, begin: byte, end: byte, depth: nat)
    requires depth > 1 && begin != end
    ensures PastMatching(cs, begin, end, depth) > Past(cs, end) || PastMatching(cs, begin, end, depth) == |cs|
  {
    if cs != [] && cs[0].step != end {
      DeeperEndsLater(cs[1..], begin, end, if cs[0].step == begin then depth + 1 else depth);
    }
  }

  /** A closed popup or table is skipped with its own bracket exactly when no bracket of its kind
      opens before its first end step (or everything that is left is skipped anyway). */
  lemma {:induction false} SkipsOwnBracket(cs: seq<Call>, begin: byte, end: byte)
    requires begin != end
    ensures NoneBefore(cs, begin, Past(cs, end)) ==> Past(cs, end) == PastMatching(cs, begin, end, 1)
    ensures Past(cs, end) < |cs| ==>
              (Past(cs, end) == PastMatching(cs, begin, end, 1) <==> NoneBefore(cs, begin, Past(cs, end)))
  {
    if cs != [] && cs[0].step != end {
      if cs[0].step == begin {
        DeeperEndsLater(cs[1..], begin, end, 2);
      } else {
        SkipsOwnBracket(cs[1..], begin, end);
        assert NoneBefore(cs, begin, Past(cs, end)) <==> NoneBefore(cs[1..], begin, Past(cs[1..], end)) by {
          if NoneBefore(cs[1..], begin, Past(cs[1..], end)) {
            forall j | 0 <= j < Past(cs, end) ensures cs[j].step != begin {
              if j > 0 { assert cs[j] == cs[1..][j - 1]; }
            }
          } else {
            var j :| 0 <= j < Past(cs[1..], end) && cs[1..][j].step == begin;
            assert cs[j + 1].step == begin;
          }
        }
      }
    }
  }

  /** Drawing as it should be: a closed popup or table is skipped up to its matching end. */
  function PlayBracketed(cs: seq<Call>, client: Client, d: Drawn): (seq<Call>, Drawn)
    requires forall k :: 0 <= k < |cs| ==> cs[k].Typed()
    decreases |cs|
  {
    if cs == [] then ([], d)
    else
      var r := client(|d.trace|, cs[0].Widget());
      var skip :=
        if r.open then 0
        else if cs[0].step == BEGIN_POPUP then PastMatching(cs[1..], BEGIN_POPUP, END_POPUP, 1)
        else if cs[0].step == BEGIN_TABLE then PastMatching(cs[1..], BEGIN_TABLE, END_TABLE, 1)
        else 0;
      var (rest, end) := PlayBracketed(cs[1 + skip..], client, Show(cs[0], r, d));
      ([Pressed(cs[0], r)] + cs[1..1 + skip] + rest, end)
  }

  /** No popup is opened inside a popup, and no table inside a table. */
  ghost predicate NotNested(cs: seq<Call>) {
    && (forall k :: 0 <= k < |cs| && cs[k].step == BEGIN_POPUP ==>
          NoneBefore(cs[k + 1..], BEGIN_POPUP, Past(cs[k + 1..], END_POPUP)))
    && (forall k :: 0 <= k < |cs| && cs[k].step == BEGIN_TABLE ==>
          NoneBefore(cs[k + 1..], BEGIN_TABLE, Past(cs[k + 1..], END_TABLE)))
  }

  /** On such lists draw() issues exactly the calls outside closed brackets. */
  lemma {:induction false} PlayIsBracketed(cs: seq<Call>, client: Client, d: Drawn)
    requires AllTyped(cs) && NotNested(cs)
    ensures Play(cs, client, d) == PlayBracketed(cs, client, d)
    decreases |cs|
  {
    hide Signature, WidgetAt, Show, Pressed, NoneBefore, Past, PastMatching, NotNested, Call.Typed, Call.Widget;
    if cs != [] {
      var r := client(|d.trace|, cs[0].Widget());
      var skip := if Closes(cs[0], r) then Past(cs[1..], EndOf(cs[0].step)) else 0;
      FirstIsMatched(cs);
      NotNestedBehind(cs, 1 + skip);
      PlayIsBracketed(cs[1 + skip..], client, Show(cs[0], r, d));
    }
  }

  lemma NotNestedBehind(cs: seq<Call>, i: nat)
    requires NotNested(cs) && i <= |cs|
    ensures NotNested(cs[i..])
  {
    hide NoneBefore, Past;
    var rest := cs[i..];
    forall k | 0 <= k < |rest| ensures rest[k] == cs[i + k] && rest[k + 1..] == cs[i + k + 1..] {
    }
  }

  lemma FirstIsMatched(cs: seq<Call>)
    requires NotNested(cs) && cs != []
    ensures cs[0].step == BEGIN_POPUP ==> Past(cs[1..], END_POPUP) == PastMatching(cs[1..], BEGIN_POPUP, END_POPUP, 1)
    ensures cs[0].step == BEGIN_TABLE ==> Past(cs[1..], END_TABLE) == PastMatching(cs[1..], BEGIN_TABLE, END_TABLE, 1)
  {
    hide NoneBefore, Past, PastMatching;
    assert cs[0 + 1..] == cs[1..];
    SkipsOwnBracket(cs[1..], BEGIN_POPUP, END_POPUP);
    SkipsOwnBracket(cs[1..], BEGIN_TABLE, END_TABLE);
  }

  // ---- the client and the recording side

  /** What a widget function of the recording side returns, and the value it leaves in its
      argument, when the difference (id, v) has been received. */
  function Answer(w: Widget, id: bytes, v: DiffValue): (bool, Widget) {
    match w
    case Combo(name, _, items, height) =>
      if id == name && v.tag.IntTag? then (true, Combo(name, v.i, items, height)) else (false, w)
    case SliderInt(name, _, min, max, format, flags) =>
      if id == name && v.tag.IntTag? then (true, SliderInt(name, v.i, min, max, format, flags)) else (false, w)
    case InputInt(name, _, step, fast, flags) =>
      if id == name && v.tag.IntTag? then (true, InputInt(name, v.i, step, fast, flags)) else (false, w)
    case SliderFloatWithSteps(name, _, min, max, step, format) =>
      if id == name && v.tag.FloatTag? then (true, SliderFloatWithSteps(name, v.f, min, max, step, format)) else (false, w)
    case SliderFloat(name, _, min, max, format, flags) =>
      if id == name && v.tag.FloatTag? then (true, SliderFloat(name, v.f, min, max, format, flags)) else (false, w)
    case Checkbox(name, _) =>
      if id == name && v.tag.BoolTag? then (true, Checkbox(name, v.b)) else (false, w)
    case InputText(name, _, size, flags) =>
      if id == name && v.tag.StringTag? && |v.str| <= size as int then (true, InputText(name, v.str, size, flags)) else (false, w)
    case Button(name, _, _) => (id == name, w)
    case RadioButton(name, _) => (id == name, w)
    // always open on the recording side
    case CollapsingHeader(_) => (true, w)
    case BeginPopup(_, _) => (true, w)
    case BeginTable(_, _, _, _, _, _) => (true, w)
    case _ => (false, w)
  }

  /** The user's answer makes the round trip: when a recorded widget is drawn and pressed, the
      difference sent back makes the recording side's call of that widget return true with the
      very value the client's list shows. */
  lemma AnswerRoundTrip(w: Widget, force: bool, r: Reply, d: Drawn)
    requires Callable(w) && !KindOf(StepOf(w)).NoValue? && r.pressed
    requires w.InputText? ==> |CStr(r.s)| <= w.bufSize as int
    ensures Recorded(w, force).Typed() && Pressed(Recorded(w, force), r).Typed()
    ensures var shown := Show(Recorded(w, force), r, d);
            && Answer(w, shown.diffId, shown.diffValue) == (true, Pressed(Recorded(w, force), r).Widget())
            && shown.sync == force
  {
    RecordedReadsBack(w);
    var c := Recorded(w, force);
    PressedTyped(c, r);
    if w.Combo? {
      assert Pressed(c, r).args == Args(w.(current := r.i));
      RecordedReadsBack(w.(current := r.i));
    }
  }

  /** Nobody else answers: a widget function returns true, and changes its value, only for the
      difference that names its widget and has the type of its value; the calls that open
      something always return true. */
  lemma OnlyTheNamed(w: Widget, id: bytes, v: DiffValue)
    requires Callable(w)
    ensures Signature(StepOf(w)) == [] ==> Answer(w, id, v) == (false, w)
    ensures w.CollapsingHeader? || w.BeginPopup? || w.BeginTable? ==> Answer(w, id, v) == (true, w)
    ensures !(w.CollapsingHeader? || w.BeginPopup? || w.BeginTable?) && Answer(w, id, v).0 ==>
              Reports(StepOf(w)) && Args(w)[0] == StringElem(id)
    ensures !Answer(w, id, v).0 ==> Answer(w, id, v).1 == w
    ensures Reports(StepOf(w)) && Args(w)[0] == StringElem(id) ==>
              (Answer(w, id, v).0 <==>
                 && (w.Combo? || w.SliderInt? || w.InputInt? ==> v.tag.IntTag?)
                 && (w.SliderFloat? || w.SliderFloatWithSteps? ==> v.tag.FloatTag?)
                 && (w.Checkbox? ==> v.tag.BoolTag?)
                 && (w.InputText? ==> v.tag.StringTag? && |v.str| <= w.bufSize as int))
  {
    hide CStr, JoinItems;
  }

  /** When one widget has been pressed, the recording side's calls of all others return false. */
  lemma OthersDoNotAnswer(w: Widget, force: bool, r: Reply, d: Drawn, other: Widget)
    requires Callable(w) && Callable(other) && Reports(StepOf(w)) && r.pressed
    requires !(other.CollapsingHeader? || other.BeginPopup? || other.BeginTable?) && |Args(other)| > 0 && Args(other)[0] != Args(w)[0]
    ensures Recorded(w, force).Typed()
    ensures var shown := Show(Recorded(w, force), r, d); Answer(other, shown.diffId, shown.diffValue) == (false, other)
  {
    RecordedReadsBack(w);
    PressableArgs(StepOf(w));
    ShowReports(Recorded(w, force), r, d);
    var shown := Show(Recorded(w, force), r, d);
    OnlyTheNamed(other, shown.diffId, shown.diffValue);
    hide Answer, Show, Args, Signature, WidgetAt;
  }

  // ---- end to end

  /** What recording a sequence of widget calls leaves in the list. */
  function RecordAll(ws: seq<(Widget, bool)>): seq<Call> {
    seq(|ws|, k requires 0 <= k < |ws| => Recorded(ws[k].0, ws[k].1))
  }

  /** Recording any widget calls gives a list that validates, that its bytes load back to, and
      whose steps read back as the very calls recorded, in order. */
  lemma RecordStoreLoad(ws: seq<(Widget, bool)>, after: seq<byte>)
    requires forall k :: 0 <= k < |ws| ==> Callable(ws[k].0)
    ensures var cs := RecordAll(ws);
            && AllTyped(cs) && Validates(Flat(cs)) && Parse(Flat(cs)) == cs
            && (forall k :: 0 <= k < |ws| ==> cs[k].Widget() == ws[k].0)
            && (LoadAll(Stored(Flat(cs)) + after, Size(Flat(cs))) == All(Flat(cs), Size(Flat(cs))) <==> ShortStrings(Flat(cs)))
  {
    hide Signature, WidgetAt, Args, StepOf, Callable, LoadAll;
    var cs := RecordAll(ws);
    forall k | 0 <= k < |ws| ensures cs[k].Typed() && cs[k].Widget() == ws[k].0 {
      RecordedReadsBack(ws[k].0);
    }
    TypedValidates(cs);
    RoundTripExactly(Flat(cs), after);
  }

  /** The calls that are not steps unknown to draw(), as a trace without filled buttons. */
  function Issued(cs: seq<Call>): seq<Widget>
    requires forall k :: 0 <= k < |cs| ==> cs[k].Typed()
  {
    if cs == [] then [] else (if cs[0].Widget().Unknown? then [] else [cs[0].Widget()]) + Issued(cs[1..])
  }

  // The codes of the list that are in the enumeration, in order.
  function KnownSteps(cs: seq<Call>): seq<byte> {
    if cs == [] then [] else (if Known(cs[0].step) then [cs[0].step] else []) + KnownSteps(cs[1..])
  }

  function StepsOf(ws: seq<Widget>): seq<byte> {
    if ws == [] then [] else [StepOf(ws[0])] + StepsOf(ws[1..])
  }

  /** draw() makes for each code the call that records that code, and leaves out exactly the codes
      that are not in the enumeration. */
  lemma {:induction false} IssuedSteps(cs: seq<Call>)
    requires AllTyped(cs)
    ensures StepsOf(Issued(cs)) == KnownSteps(cs)
  {
    hide Signature, WidgetAt, CheckTypes, Known, StepOf;
    if cs != [] {
      IssuedSteps(cs[1..]);
      StepOfWidgetAt(cs[0].step, cs[0].args);
      KnownIsDrawn(cs[0].step, cs[0].args);
      var w, rest := WidgetAt(cs[0].step, cs[0].args), Issued(cs[1..]);
      if w.Unknown? {
        assert Issued(cs) == rest;
      } else {
        assert Issued(cs) == [w] + rest && ([w] + rest)[1..] == rest;
      }
    }
  }

  function WidgetsOf(trace: seq<Event>): seq<Widget> {
    seq(|trace|, k requires 0 <= k < |trace| => trace[k].widget)
  }

  lemma ShowAppends(c: Call, r: Reply, d: Drawn)
    requires c.Typed()
    ensures WidgetsOf(Show(c, r, d).trace) == WidgetsOf(d.trace) + (if c.Widget().Unknown? then [] else [c.Widget()])
  {
    hide WidgetAt, Signature;
  }

  /** With every popup and table open, draw() issues every call of the list, in order; the codes that
      record these calls are those of the list. */
  lemma {:induction false} OpenPlayIssuesAll(cs: seq<Call>, client: Client, d: Drawn)
    requires AllTyped(cs)
    requires forall n: nat, w :: client(n, w).open
    ensures WidgetsOf(Play(cs, client, d).1.trace) == WidgetsOf(d.trace) + Issued(cs)
    ensures StepsOf(Issued(cs)) == KnownSteps(cs)
    decreases |cs|
  {
    hide Signature, WidgetAt, Pressed, Past, Show, StepsOf, KnownSteps;
    IssuedSteps(cs);
    if cs != [] {
      var r := client(|d.trace|, cs[0].Widget());
      assert cs[1 + 0..] == cs[1..];
      OpenPlayIssuesAll(cs[1..], client, Show(cs[0], r, d));
      ShowAppends(cs[0], r, d);
    }
  }
}
