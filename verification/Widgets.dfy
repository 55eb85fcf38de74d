/** SmGui's widget calls, how each is recorded in a draw list, what validate() expects of it and
    how draw() reads it back: core/src/gui/smgui.cpp and core/src/gui/smgui.h. The three
    descriptions are separate in the code and are kept separate here (`Args`, `Signature`,
    `WidgetAt` with `Arity`); the lemmas at the end say that they agree. */
module Widgets {
  import opened DrawListWire

  type bytes = seq<byte>

  // enum DrawStep
  const FILL_WIDTH: byte := 0x00
  const SAME_LINE: byte := 0x01
  const BEGIN_DISABLED: byte := 0x02
  const END_DISABLED: byte := 0x03
  const COMBO: byte := 0x80
  const BUTTON: byte := 0x81
  const COLUMNS: byte := 0x82
  const NEXT_COLUMN: byte := 0x83
  const RADIO_BUTTON: byte := 0x84
  const BEGIN_GROUP: byte := 0x85
  const END_GROUP: byte := 0x86
  const LEFT_LABEL: byte := 0x87
  const SLIDER_INT: byte := 0x88
  const SLIDER_FLOAT_WITH_STEPS: byte := 0x89
  const INPUT_INT: byte := 0x8A
  const CHECKBOX: byte := 0x8B
  const SLIDER_FLOAT: byte := 0x8C
  const INPUT_TEXT: byte := 0x8D
  const TEXT: byte := 0x8E
  const TEXT_COLORED: byte := 0x8F
  const OPEN_POPUP: byte := 0x90
  const BEGIN_POPUP: byte := 0x91
  const END_POPUP: byte := 0x92
  const BEGIN_TABLE: byte := 0x93
  const END_TABLE: byte := 0x94
  const TABLE_NEXT_ROW: byte := 0x95
  const TABLE_SET_COLUMN_INDEX: byte := 0x96
  const SET_NEXT_ITEM_WIDTH: byte := 0x97
  const POP_STYLE_COLOR: byte := 0x98
  const PUSH_STYLE_COLOR: byte := 0x99
  const COLLAPSING_HEADER: byte := 0x9A

  /** A call of a SmGui function, with the arguments that reach the draw list. A combo's items
      are the strings of its list; `Unknown` is a step byte no SmGui function records. */
  datatype Widget =
    | FillWidth | SameLine | BeginDisabled | EndDisabled
    | Combo(name: bytes, current: int32, items: seq<bytes>, maxHeight: int32)
    | Button(name: bytes, width: word, height: word)
    | Columns(count: int32, id: bytes, border: bool)
    | NextColumn
    | RadioButton(name: bytes, active: bool)
    | BeginGroup | EndGroup
    | LeftLabel(text: bytes)
    | SliderInt(name: bytes, value: int32, min: int32, max: int32, format: int32, flags: int32)
    | SliderFloatWithSteps(name: bytes, fvalue: word, fmin: word, fmax: word, fstep: word, format: int32)
    | InputInt(name: bytes, value: int32, step: int32, stepFast: int32, flags: int32)
    | Checkbox(name: bytes, checked: bool)
    | SliderFloat(name: bytes, fvalue: word, fmin: word, fmax: word, format: int32, flags: int32)
    | InputText(name: bytes, text: bytes, bufSize: int32, flags: int32)
    | Text(text: bytes)
    | TextColored(x: word, y: word, z: word, w: word, text: bytes)
    | OpenPopup(id: bytes, flags: int32)
    | BeginPopup(id: bytes, flags: int32)
    | EndPopup
    | BeginTable(id: bytes, column: int32, flags: int32, width: word, height: word, innerWidth: word)
    | EndTable
    | TableNextRow(flags: int32, minHeight: word)
    | TableSetColumnIndex(column: int32)
    | SetNextItemWidth(width: word)
    | PopStyleColor(fcount: word)
    | PushStyleColor(idx: int32, x: word, y: word, z: word, w: word)
    | CollapsingHeader(name: bytes)
    | Unknown(code: byte)

  // ---- C strings

  predicate CString(s: bytes) { 0 !in s }

  /** What c_str() yields to a callee: the bytes before the first NUL. */
  function CStr(s: bytes): (r: bytes)
    ensures CString(r) && r <= s && (CString(s) ==> r == s)
  {
    if s == [] || s[0] == 0 then [] else [s[0]] + CStr(s[1..])
  }

  /** ImStrToString of a list of strings, each ended by a NUL and the list by a second one. */
  function JoinItems(items: seq<bytes>): bytes {
    if items == [] then [] else items[0] + [0] + JoinItems(items[1..])
  }

  /** The items a combo finds at c_str(): up to the first empty one. */
  function SplitItems(s: bytes): seq<bytes>
    decreases |s|
  {
    var first := CStr(s);
    if first == [] then []
    else if |first| == |s| then [first]
    else [first] + SplitItems(s[|first| + 1..])
  }

  lemma {:induction false} CStrStops(s: bytes, rest: bytes)
    requires CString(s)
    ensures CStr(s + [0] + rest) == s
  {
    if s != [] {
      assert (s + [0] + rest)[1..] == s[1..] + [0] + rest;
      CStrStops(s[1..], rest);
    }
  }

  lemma SplitNone()
    ensures SplitItems([]) == []
  {
  }

  lemma SplitFirst(item: bytes, rest: bytes)
    requires CString(item) && item != []
    ensures SplitItems(item + [0] + rest) == [item] + SplitItems(rest)
  {
    hide CStr, CString;
    CStrStops(item, rest);
    assert (item + [0] + rest)[|item| + 1..] == rest;
  }

  /** What is joined is split again. */
  lemma {:induction false} SplitJoinedItems(items: seq<bytes>)
    requires forall k :: 0 <= k < |items| ==> CString(items[k]) && items[k] != []
    ensures SplitItems(JoinItems(items)) == items
  {
    hide SplitItems, CString;
    if items == [] {
      SplitNone();
    } else {
      SplitFirst(items[0], JoinItems(items[1..]));
      SplitJoinedItems(items[1..]);
    }
  }

  // ---- recording

  function StepOf(w: Widget): byte {
    match w
    case FillWidth => FILL_WIDTH
    case SameLine => SAME_LINE
    case BeginDisabled => BEGIN_DISABLED
    case EndDisabled => END_DISABLED
    case Combo(_, _, _, _) => COMBO
    case Button(_, _, _) => BUTTON
    case Columns(_, _, _) => COLUMNS
    case NextColumn => NEXT_COLUMN
    case RadioButton(_, _) => RADIO_BUTTON
    case BeginGroup => BEGIN_GROUP
    case EndGroup => END_GROUP
    case LeftLabel(_) => LEFT_LABEL
    case SliderInt(_, _, _, _, _, _) => SLIDER_INT
    case SliderFloatWithSteps(_, _, _, _, _, _) => SLIDER_FLOAT_WITH_STEPS
    case InputInt(_, _, _, _, _) => INPUT_INT
    case Checkbox(_, _) => CHECKBOX
    case SliderFloat(_, _, _, _, _, _) => SLIDER_FLOAT
    case InputText(_, _, _, _) => INPUT_TEXT
    case Text(_) => TEXT
    case TextColored(_, _, _, _, _) => TEXT_COLORED
    case OpenPopup(_, _) => OPEN_POPUP
    case BeginPopup(_, _) => BEGIN_POPUP
    case EndPopup => END_POPUP
    case BeginTable(_, _, _, _, _, _) => BEGIN_TABLE
    case EndTable => END_TABLE
    case TableNextRow(_, _) => TABLE_NEXT_ROW
    case TableSetColumnIndex(_) => TABLE_SET_COLUMN_INDEX
    case SetNextItemWidth(_) => SET_NEXT_ITEM_WIDTH
    case PopStyleColor(_) => POP_STYLE_COLOR
    case PushStyleColor(_, _, _, _, _) => PUSH_STYLE_COLOR
    case CollapsingHeader(_) => COLLAPSING_HEADER
    case Unknown(code) => code
  }

  /** The elements each function pushes after its step. */
  function Args(w: Widget): seq<Elem> {
    match w
    case Combo(name, current, items, maxHeight) =>
      [StringElem(name), IntElem(current), StringElem(JoinItems(items)), IntElem(maxHeight)]
    case Button(name, width, height) => [StringElem(name), FloatElem(width), FloatElem(height)]
    case Columns(count, id, border) => [IntElem(count), StringElem(id), BoolElem(border)]
    case RadioButton(name, active) => [StringElem(name), BoolElem(active)]
    case LeftLabel(text) => [StringElem(text)]
    case SliderInt(name, value, min, max, format, flags) =>
      [StringElem(name), IntElem(value), IntElem(min), IntElem(max), IntElem(format), IntElem(flags)]
    case SliderFloatWithSteps(name, value, min, max, step, format) =>
      [StringElem(name), FloatElem(value), FloatElem(min), FloatElem(max), FloatElem(step), IntElem(format)]
    case InputInt(name, value, step, stepFast, flags) =>
      [StringElem(name), IntElem(value), IntElem(step), IntElem(stepFast), IntElem(flags)]
    case Checkbox(name, checked) => [StringElem(name), BoolElem(checked)]
    case SliderFloat(name, value, min, max, format, flags) =>
      [StringElem(name), FloatElem(value), FloatElem(min), FloatElem(max), IntElem(format), IntElem(flags)]
    case InputText(name, text, bufSize, flags) => [StringElem(name), StringElem(text), IntElem(bufSize), IntElem(flags)]
    case Text(text) => [StringElem(text)]
    case TextColored(x, y, z, w, text) => [FloatElem(x), FloatElem(y), FloatElem(z), FloatElem(w), StringElem(text)]
    case OpenPopup(id, flags) => [StringElem(id), IntElem(flags)]
    case BeginPopup(id, flags) => [StringElem(id), IntElem(flags)]
    case BeginTable(id, column, flags, width, height, innerWidth) =>
      [StringElem(id), IntElem(column), IntElem(flags), FloatElem(width), FloatElem(height), FloatElem(innerWidth)]
    case TableNextRow(flags, minHeight) => [IntElem(flags), FloatElem(minHeight)]
    case TableSetColumnIndex(column) => [IntElem(column)]
    case SetNextItemWidth(width) => [FloatElem(width)]
    case PopStyleColor(count) => [FloatElem(count)]
    case PushStyleColor(idx, x, y, z, w) => [IntElem(idx), FloatElem(x), FloatElem(y), FloatElem(z), FloatElem(w)]
    case CollapsingHeader(name) => [StringElem(name)]
    case _ => []
  }

  /** The functions that push their step with forceSyncForNext and clear it; the others push it
      with false and leave forceSyncForNext for the next widget. */
  predicate TakesSync(w: Widget) {
    w.Combo? || w.Button? || w.Columns? || w.RadioButton? || w.LeftLabel? || w.SliderInt? || w.SliderFloatWithSteps?
    || w.InputInt? || w.Checkbox? || w.SliderFloat? || w.InputText? || w.CollapsingHeader?
  }

  /** The calls that take the flag, by their codes. */
  lemma TakesSyncExactly(w: Widget)
    requires !w.Unknown?
    ensures TakesSync(w) <==>
            StepOf(w) in [COMBO, BUTTON, COLUMNS, RADIO_BUTTON, LEFT_LABEL, SLIDER_INT, SLIDER_FLOAT_WITH_STEPS,
                          INPUT_INT, CHECKBOX, SLIDER_FLOAT, INPUT_TEXT, COLLAPSING_HEADER]
  {
  }

  /** What C callers can pass: strings without NUL, and non-empty items. */
  predicate Callable(w: Widget) {
    match w
    case Combo(name, _, items, _) => CString(name) && forall k :: 0 <= k < |items| ==> CString(items[k]) && items[k] != []
    case Button(name, _, _) => CString(name)
    case Columns(_, id, _) => CString(id)
    case RadioButton(name, _) => CString(name)
    case LeftLabel(text) => CString(text)
    case SliderInt(name, _, _, _, _, _) => CString(name)
    case SliderFloatWithSteps(name, _, _, _, _, _) => CString(name)
    case InputInt(name, _, _, _, _) => CString(name)
    case Checkbox(name, _) => CString(name)
    case SliderFloat(name, _, _, _, _, _) => CString(name)
    case InputText(name, text, _, _) => CString(name) && CString(text)
    case Text(text) => CString(text)
    case TextColored(_, _, _, _, text) => CString(text)
    case OpenPopup(id, _) => CString(id)
    case BeginPopup(id, _) => CString(id)
    case BeginTable(id, _, _, _, _, _) => CString(id)
    case CollapsingHeader(name) => CString(name)
    case Unknown(_) => false
    case _ => true
  }

  // ---- validating

  /** The argument types validate() demands after a step; none for a step it does not list. */
  function Signature(step: byte): seq<Tag> {
    if step == COMBO then [StringTag, IntTag, StringTag, IntTag]
    else if step == BUTTON then [StringTag, FloatTag, FloatTag]
    else if step == COLUMNS then [IntTag, StringTag, BoolTag]
    else if step == RADIO_BUTTON then [StringTag, BoolTag]
    else if step == LEFT_LABEL then [StringTag]
    else if step == SLIDER_INT then [StringTag, IntTag, IntTag, IntTag, IntTag, IntTag]
    else if step == SLIDER_FLOAT_WITH_STEPS then [StringTag, FloatTag, FloatTag, FloatTag, FloatTag, IntTag]
    else if step == INPUT_INT then [StringTag, IntTag, IntTag, IntTag, IntTag]
    else if step == CHECKBOX then [StringTag, BoolTag]
    else if step == SLIDER_FLOAT then [StringTag, FloatTag, FloatTag, FloatTag, IntTag, IntTag]
    else if step == INPUT_TEXT then [StringTag, StringTag, IntTag, IntTag]
    else if step == TEXT then [StringTag]
    else if step == TEXT_COLORED then [FloatTag, FloatTag, FloatTag, FloatTag, StringTag]
    else if step == OPEN_POPUP then [StringTag, IntTag]
    else if step == BEGIN_POPUP then [StringTag, IntTag]
    else if step == BEGIN_TABLE then [StringTag, IntTag, IntTag, FloatTag, FloatTag, FloatTag]
    else if step == TABLE_NEXT_ROW then [IntTag, FloatTag]
    else if step == TABLE_SET_COLUMN_INDEX then [IntTag]
    else if step == SET_NEXT_ITEM_WIDTH then [FloatTag]
    else if step == POP_STYLE_COLOR then [FloatTag]
    else if step == PUSH_STYLE_COLOR then [IntTag, FloatTag, FloatTag, FloatTag, FloatTag]
    else if step == COLLAPSING_HEADER then [StringTag]
    else []
  }

  /** checkTypes: enough elements are left and they have the wanted types. */
  predicate CheckTypes(es: seq<Elem>, tags: seq<Tag>) {
    |tags| <= |es| && forall k :: 0 <= k < |tags| ==> es[k].Tag() == tags[k]
  }

  /** validate() on a list. */
  predicate Validates(es: seq<Elem>)
    decreases |es|
  {
    es == [] ||
    (&& es[0].StepElem?
     && CheckTypes(es[1..], Signature(es[0].step))
     && Validates(es[1 + |Signature(es[0].step)|..]))
  }

  // ---- drawing

  /** How far draw() advances past a step's arguments. */
  function Arity(step: byte): nat {
    if step == COMBO then 4
    else if step == BUTTON then 3
    else if step == COLUMNS then 3
    else if step == RADIO_BUTTON then 2
    else if step == LEFT_LABEL then 1
    else if step == SLIDER_INT then 6
    else if step == SLIDER_FLOAT_WITH_STEPS then 6
    else if step == INPUT_INT then 5
    else if step == CHECKBOX then 2
    else if step == SLIDER_FLOAT then 6
    else if step == INPUT_TEXT then 4
    else if step == TEXT then 1
    else if step == TEXT_COLORED then 5
    else if step == OPEN_POPUP then 2
    else if step == BEGIN_POPUP then 2
    else if step == BEGIN_TABLE then 6
    else if step == TABLE_NEXT_ROW then 2
    else if step == TABLE_SET_COLUMN_INDEX then 1
    else if step == SET_NEXT_ITEM_WIDTH then 1
    else if step == POP_STYLE_COLOR then 1
    else if step == PUSH_STYLE_COLOR then 5
    else if step == COLLAPSING_HEADER then 1
    else 0
  }

  /** The call draw() makes for a step, read from the elements that follow it. */
  function WidgetAt(step: byte, a: seq<Elem>): Widget
    requires CheckTypes(a, Signature(step))
  {
    if step == FILL_WIDTH then FillWidth
    else if step == SAME_LINE then SameLine
    else if step == BEGIN_DISABLED then BeginDisabled
    else if step == END_DISABLED then EndDisabled
    else if step == COMBO then Combo(CStr(a[0].str), a[1].i, SplitItems(a[2].str), a[3].i)
    else if step == BUTTON then Button(CStr(a[0].str), a[1].f, a[2].f)
    else if step == COLUMNS then Columns(a[0].i, CStr(a[1].str), a[2].b)
    else if step == NEXT_COLUMN then NextColumn
    else if step == RADIO_BUTTON then RadioButton(CStr(a[0].str), a[1].b)
    else if step == BEGIN_GROUP then BeginGroup
    else if step == END_GROUP then EndGroup
    else if step == LEFT_LABEL then LeftLabel(CStr(a[0].str))
    else if step == SLIDER_INT then SliderInt(CStr(a[0].str), a[1].i, a[2].i, a[3].i, a[4].i, a[5].i)
    else if step == SLIDER_FLOAT_WITH_STEPS then
      SliderFloatWithSteps(CStr(a[0].str), a[1].f, a[2].f, a[3].f, a[4].f, a[5].i)
    else if step == INPUT_INT then InputInt(CStr(a[0].str), a[1].i, a[2].i, a[3].i, a[4].i)
    else if step == CHECKBOX then Checkbox(CStr(a[0].str), a[1].b)
    else if step == SLIDER_FLOAT then SliderFloat(CStr(a[0].str), a[1].f, a[2].f, a[3].f, a[4].i, a[5].i)
    else if step == INPUT_TEXT then InputText(CStr(a[0].str), CStr(a[1].str), a[2].i, a[3].i)
    else if step == TEXT then Text(CStr(a[0].str))
    else if step == TEXT_COLORED then TextColored(a[0].f, a[1].f, a[2].f, a[3].f, CStr(a[4].str))
    else if step == OPEN_POPUP then OpenPopup(CStr(a[0].str), a[1].i)
    else if step == BEGIN_POPUP then BeginPopup(CStr(a[0].str), a[1].i)
    else if step == END_POPUP then EndPopup
    else if step == BEGIN_TABLE then BeginTable(CStr(a[0].str), a[1].i, a[2].i, a[3].f, a[4].f, a[5].f)
    else if step == END_TABLE then EndTable
    else if step == TABLE_NEXT_ROW then TableNextRow(a[0].i, a[1].f)
    else if step == TABLE_SET_COLUMN_INDEX then TableSetColumnIndex(a[0].i)
    else if step == SET_NEXT_ITEM_WIDTH then SetNextItemWidth(a[0].f)
    else if step == POP_STYLE_COLOR then PopStyleColor(a[0].f)
    else if step == PUSH_STYLE_COLOR then PushStyleColor(a[0].i, a[1].f, a[2].f, a[3].f, a[4].f)
    else if step == COLLAPSING_HEADER then CollapsingHeader(CStr(a[0].str))
    else Unknown(step)
  }

  // ---- the tables agree

  /** draw() advances past exactly the arguments validate() has checked, for every step byte. */
  lemma ArityAgrees(step: byte)
    ensures Arity(step) == |Signature(step)|
  {
  }

  predicate Bare(w: Widget) { Args(w) == [] }

  predicate Edited(w: Widget) {
    w.Combo? || w.SliderInt? || w.SliderFloatWithSteps? || w.InputInt? || w.Checkbox? || w.SliderFloat? || w.InputText?
  }

  lemma BareReadsBack(w: Widget)
    requires Callable(w) && Bare(w)
    ensures Recorded(w, false).Typed() && WidgetAt(StepOf(w), Args(w)) == w
  {
    hide CStr, SplitItems, JoinItems;
  }

  lemma EditedReadsBack(w: Widget)
    requires Callable(w) && Edited(w)
    ensures Recorded(w, false).Typed() && WidgetAt(StepOf(w), Args(w)) == w
  {
    hide CStr, SplitItems, JoinItems;
    if w.Combo? { SplitJoinedItems(w.items); }
  }

  lemma OtherReadsBack(w: Widget)
    requires Callable(w) && !Edited(w) && !Bare(w)
    ensures Recorded(w, false).Typed() && WidgetAt(StepOf(w), Args(w)) == w
  {
    hide CStr, SplitItems, JoinItems;
  }

  /** What a widget function pushes is what validate() wants of its step, and draw() reads the
      same call back from it. */
  lemma RecordedReadsBack(w: Widget)
    requires Callable(w)
    ensures Recorded(w, false).Typed()
    ensures WidgetAt(StepOf(w), Args(w)) == w
  {
    hide WidgetAt, StepOf, Args, Signature, Callable, Bare, Edited;
    if Bare(w) { BareReadsBack(w); }
    else if Edited(w) { EditedReadsBack(w); }
    else { OtherReadsBack(w); }
  }

  /** The step read back from any checked arguments is the step that was there. */
  lemma StepOfWidgetAt(step: byte, a: seq<Elem>)
    requires CheckTypes(a, Signature(step))
    ensures StepOf(WidgetAt(step, a)) == step
  {
  }

  /** The codes of the enumeration. */
  predicate Known(step: byte) { step <= END_DISABLED || COMBO <= step <= COLLAPSING_HEADER }

  lemma KnownIsDrawn(step: byte, a: seq<Elem>)
    requires CheckTypes(a, Signature(step))
    ensures WidgetAt(step, a).Unknown? <==> !Known(step)
  {
  }

  // ---- validated lists are lists of calls

  /** A step of a draw list with the elements that follow it. */
  datatype Call = Call(step: byte, force: bool, args: seq<Elem>)
  {
    predicate Typed() { |args| == |Signature(step)| && CheckTypes(args, Signature(step)) }
    function Elems(): seq<Elem> { [StepElem(step, force)] + args }
    function Widget(): Widget
      requires Typed()
    {
      WidgetAt(step, args)
    }
  }

  /** What a widget function leaves in the list while recording. */
  function Recorded(w: Widget, force: bool): Call { Call(StepOf(w), force, Args(w)) }

  ghost predicate AllTyped(cs: seq<Call>) { forall k :: 0 <= k < |cs| ==> cs[k].Typed() }

  function Flat(cs: seq<Call>): seq<Elem> {
    if cs == [] then [] else cs[0].Elems() + Flat(cs[1..])
  }

  function Parse(es: seq<Elem>): seq<Call>
    requires Validates(es)
    decreases |es|
  {
    if es == [] then []
    else
      var n := |Signature(es[0].step)|;
      [Call(es[0].step, es[0].forceSync, es[1..1 + n])] + Parse(es[1 + n..])
  }

  /** validate() accepts a list exactly when it is made of steps with arguments of the right
      types, and it can be cut into steps in one way only. */
  lemma {:induction false} ValidatesIsTyped(es: seq<Elem>)
    requires Validates(es)
    ensures AllTyped(Parse(es)) && Flat(Parse(es)) == es
    decreases |es|
  {
    hide Signature, CheckTypes, Call.Typed, Flat;
    if es == [] {
      FlatNone();
    } else {
      var n := |Signature(es[0].step)|;
      CheckedIsLong(es[1..], Signature(es[0].step));
      var c, rest := Call(es[0].step, es[0].forceSync, es[1..1 + n]), es[1 + n..];
      ValidatesIsTyped(rest);
      FirstIsTyped(es, c, n);
      FlatFirst(c, Parse(rest));
      assert es == c.Elems() + rest;
    }
  }

  lemma CheckedIsLong(es: seq<Elem>, tags: seq<Tag>)
    requires CheckTypes(es, tags)
    ensures |tags| <= |es|
  {
  }

  lemma FlatNone()
    ensures Flat([]) == []
  {
  }

  lemma FlatFirst(c: Call, cs: seq<Call>)
    ensures Flat([c] + cs) == c.Elems() + Flat(cs)
  {
    assert ([c] + cs)[1..] == cs;
  }

  lemma FirstIsTyped(es: seq<Elem>, c: Call, n: nat)
    requires es != [] && es[0].StepElem? && n == |Signature(es[0].step)| && CheckTypes(es[1..], Signature(es[0].step))
    requires 1 + n <= |es| && c == Call(es[0].step, es[0].forceSync, es[1..1 + n])
    ensures c.Typed()
  {
    hide Signature;
    assert forall k :: 0 <= k < n ==> es[1..1 + n][k] == es[1..][k];
  }

  lemma CheckTypesPrefix(args: seq<Elem>, tail: seq<Elem>, tags: seq<Tag>)
    requires |tags| <= |args|
    ensures CheckTypes(args + tail, tags) <==> CheckTypes(args, tags)
  {
    assert forall k :: 0 <= k < |tags| ==> (args + tail)[k] == args[k];
  }

  lemma {:induction false} TypedValidates(cs: seq<Call>)
    requires AllTyped(cs)
    ensures Validates(Flat(cs)) && Parse(Flat(cs)) == cs
  {
    hide Signature, CheckTypes;
    if cs != [] {
      TypedValidates(cs[1..]);
      var es, n := Flat(cs), |Signature(cs[0].step)|;
      assert es[1..] == cs[0].args + Flat(cs[1..]);
      assert es[1 + n..] == Flat(cs[1..]);
      assert es[1..1 + n] == cs[0].args;
      CheckTypesPrefix(cs[0].args, Flat(cs[1..]), Signature(cs[0].step));
      assert cs == [cs[0]] + cs[1..];
    }
  }
}
