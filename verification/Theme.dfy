/** Theme documents (core/src/gui/theme_manager.cpp): applying one to the live values, writing the
    live values as one, and dropping what this build does not understand. A document is a map from
    keys to JSON values; the tables of known keys are a `Schema`. */
module Themes {
  import opened Gradients

  const NAME := "name"
  const AUTHOR := "author"
  const GRADIENT_KEY := "FFTGradient"
  const COLOR_MAP_KEY := "ColorMap"

  datatype Value = Text(s: string) | Num(n: real) | Stops(entries: seq<Entry>) | Other

  type Data = map<string, Value>

  datatype Document = Object(data: Data) | NotAnObject

  datatype Choice = Choice(options: seq<string>, def: nat)

  datatype Slider = Slider(min: real, max: real, def: real)

  /** The keys of the colours, choices and sliders, with their defaults. */
  datatype Schema = Schema(colors: map<string, Color>, choices: map<string, Choice>, sliders: map<string, Slider>,
                           gradient: seq<Stop>)

  /** The values that the drawing code reads. */
  datatype Live = Live(colors: map<string, Color>, choices: map<string, int>, sliders: map<string, real>,
                       gradient: seq<Stop>, colorMap: string)

  function LowerChar(c: char): char { if 'A' <= c <= 'Z' then c + 32 as char else c }

  function Lower(s: string): (r: string)
    ensures |r| == |s|
  {
    if s == "" then "" else Lower(s[..|s| - 1]) + [LowerChar(s[|s| - 1])]
  }

  predicate Special(key: string) { key == NAME || key == AUTHOR || key == GRADIENT_KEY || key == COLOR_MAP_KEY }

  /** Every key has one meaning; options are stored in lower case; the ends of a slider have three
      decimals; the default gradient is a gradient. */
  ghost predicate Good(schema: Schema) {
    && schema.colors.Keys !! schema.choices.Keys !! schema.sliders.Keys
    && (forall k :: k in schema.colors || k in schema.choices || k in schema.sliders ==> !Special(k))
    && (forall k :: k in schema.choices ==>
          var c := schema.choices[k];
          c.options != [] && c.def < |c.options| && forall i :: 0 <= i < |c.options| ==> Lower(c.options[i]) == c.options[i])
    && (forall k :: k in schema.sliders ==>
          var s := schema.sliders[k];
          0.0 <= s.min <= s.def <= s.max && Rounded(s.min) == s.min && Rounded(s.max) == s.max)
    && schema.gradient != [] && Sorted(schema.gradient) && InRange(schema.gradient)
  }

  /** A value for each known key, whatever it is. */
  ghost predicate Keyed(schema: Schema, live: Live) {
    && live.colors.Keys == schema.colors.Keys && live.choices.Keys == schema.choices.Keys
    && live.sliders.Keys == schema.sliders.Keys
  }

  /** Sliders within their ends, and a gradient with its stops in order, as an applied document
      leaves them. A choice may hold any number. */
  ghost predicate GoodLive(schema: Schema, live: Live) {
    && Keyed(schema, live)
    && (forall k :: k in schema.sliders ==> schema.sliders[k].min <= live.sliders[k] <= schema.sliders[k].max)
    && live.gradient != [] && Sorted(live.gradient) && InRange(live.gradient)
  }

  /** Capital letters become small, nothing else changes. */
  lemma {:induction false} LowerExactly(s: string, i: nat)
    requires i < |s|
    ensures var (capitals, small) := ("ABCDEFGHIJKLMNOPQRSTUVWXYZ", "abcdefghijklmnopqrstuvwxyz");
            && (forall k :: 0 <= k < 26 && s[i] == capitals[k] ==> Lower(s)[i] == small[k])
            && (s[i] !in capitals ==> Lower(s)[i] == s[i])
  {
    if i < |s| - 1 {
      LowerExactly(s[..|s| - 1], i);
    } else {
      Alphabet(s[i]);
    }
  }

  lemma Alphabet(c: char)
    ensures 'A' <= c <= 'Z' ==> "ABCDEFGHIJKLMNOPQRSTUVWXYZ"[c as int - 'A' as int] == c
    ensures forall k :: 0 <= k < 26 ==> "ABCDEFGHIJKLMNOPQRSTUVWXYZ"[k] == 'A' + k as char
    ensures forall k :: 0 <= k < 26 ==> "abcdefghijklmnopqrstuvwxyz"[k] == 'a' + k as char
  {
  }

  lemma {:induction false} LowerKeeps(s: string)
    requires forall i :: 0 <= i < |s| ==> !('A' <= s[i] <= 'Z')
    ensures Lower(s) == s
  {
    if s != "" { LowerKeeps(s[..|s| - 1]); }
  }

  const TRACE_STYLES := ["solid", "reflection", "gradient"]
  const FILL_STYLES := ["none", "solid", "reflection", "gradient"]

  /** The choices and sliders of this build and its default gradient, with any table of colours. */
  function Builtin(colors: map<string, Color>): Schema {
    Schema(colors,
           map["FFTTraceStyle" := Choice(TRACE_STYLES, 0), "FFTFillStyle" := Choice(FILL_STYLES, 1)],
           map["FFTTraceIntensity" := Slider(0.05, 1.0, 1.0), "FFTFillIntensity" := Slider(0.0, 1.0, 0.2)],
           [Stop(0.0, Color(0.04, 0.09, 0.20, 1.0)), Stop(0.55, Color(0.12, 0.59, 0.98, 1.0)),
            Stop(1.0, Color(1.0, 1.0, 1.0, 1.0))])
  }

  /** They meet what the theorems ask, whatever the colours are called, as long as no name is taken. */
  lemma BuiltinIsGood(colors: map<string, Color>)
    requires forall k :: k in colors ==> !Special(k)
    requires colors.Keys !! {"FFTTraceStyle", "FFTFillStyle", "FFTTraceIntensity", "FFTFillIntensity"}
    ensures Good(Builtin(colors))
  {
    hide Lower, Rounded;
    BuiltinNames();
    BuiltinOptions();
    BuiltinEnds();
    hide Special;
    var schema := Builtin(colors);
    assert schema.choices.Keys == {"FFTTraceStyle", "FFTFillStyle"};
    assert schema.sliders.Keys == {"FFTTraceIntensity", "FFTFillIntensity"};
  }

  /** The look of an empty document: solid lines and filling, full and a fifth of the intensity, and
      the built-in gradient. */
  lemma BuiltinDefaults(colors: map<string, Color>)
    ensures var live := Applied(Builtin(colors), map[]);
            && live.colors == colors && live.colorMap == "" && live.gradient == Builtin(colors).gradient
            && "FFTTraceStyle" in live.choices && "FFTFillStyle" in live.choices
            && OptionName(Builtin(colors).choices["FFTTraceStyle"], live.choices["FFTTraceStyle"]) == "solid"
            && OptionName(Builtin(colors).choices["FFTFillStyle"], live.choices["FFTFillStyle"]) == "solid"
            && "FFTTraceIntensity" in live.sliders && live.sliders["FFTTraceIntensity"] == 1.0
            && "FFTFillIntensity" in live.sliders && live.sliders["FFTFillIntensity"] == 1.0 / 5.0
  {
    hide Lower, Good;
    BuiltinNames();
  }

  lemma BuiltinGradient(colors: map<string, Color>)
    ensures EncodeGradient(Builtin(colors).gradient)
         == [Entry(0.0, "#0A1733FF"), Entry(0.55, "#1F96FAFF"), Entry(1.0, "#FFFFFFFF")]
  {
    BuiltinColors();
    hide Rounded, EncodeRgba;
    var g := Builtin(colors).gradient;
    assert g[..2][..1] == g[..1] && g[..1][..0] == [];
    assert EncodeGradient(g) == [Entry(Rounded(0.0), EncodeRgba(g[0].color)), Entry(Rounded(0.55), EncodeRgba(g[1].color)),
                                 Entry(Rounded(1.0), EncodeRgba(g[2].color))];
  }

  lemma BuiltinColors()
    ensures EncodeRgba(Color(0.04, 0.09, 0.20, 1.0)) == "#0A1733FF" && EncodeRgba(Color(0.12, 0.59, 0.98, 1.0)) == "#1F96FAFF"
    ensures EncodeRgba(Color(1.0, 1.0, 1.0, 1.0)) == "#FFFFFFFF"
    ensures Rounded(0.0) == 0.0 && Rounded(0.55) == 0.55 && Rounded(1.0) == 1.0
  {
    assert Channel(0.04) == 10 && Channel(0.09) == 23 && Channel(0.20) == 51 && Channel(1.0) == 255;
    assert Channel(0.12) == 31 && Channel(0.59) == 150 && Channel(0.98) == 250;
    hide Channel, Truncated;
    assert Hex(10) == "0A" && Hex(23) == "17" && Hex(51) == "33" && Hex(255) == "FF";
    assert Hex(31) == "1F" && Hex(150) == "96" && Hex(250) == "FA";
    UnitRounds();
    RoundedTwice(0.55);
  }

  lemma BuiltinNames()
    ensures !Special("FFTTraceStyle") && !Special("FFTFillStyle")
    ensures !Special("FFTTraceIntensity") && !Special("FFTFillIntensity")
    ensures {"FFTTraceStyle", "FFTFillStyle"} !! {"FFTTraceIntensity", "FFTFillIntensity"}
    ensures "FFTTraceStyle" != "FFTFillStyle" && "FFTTraceIntensity" != "FFTFillIntensity"
  {
    assert |"FFTTraceStyle"| == 13 && |"FFTFillStyle"| == 12;
    assert |"FFTTraceIntensity"| == 17 && |"FFTFillIntensity"| == 16;
    assert |NAME| == 4 && |AUTHOR| == 6 && |GRADIENT_KEY| == 11 && |COLOR_MAP_KEY| == 8;
  }

  lemma BuiltinOptions()
    ensures forall i :: 0 <= i < |TRACE_STYLES| ==> Lower(TRACE_STYLES[i]) == TRACE_STYLES[i]
    ensures forall i :: 0 <= i < |FILL_STYLES| ==> Lower(FILL_STYLES[i]) == FILL_STYLES[i]
  {
    hide Lower;
    LowerKeeps("none");
    LowerKeeps("solid");
    LowerKeeps("reflection");
    LowerKeeps("gradient");
  }

  lemma BuiltinEnds()
    ensures Rounded(0.0) == 0.0 && Rounded(0.05) == 0.05 && Rounded(1.0) == 1.0
  {
    UnitRounds();
  }

  // ---- reading one value

  /** decodeChoice: the first option that the text names, in any case. */
  function FindOption(options: seq<string>, s: string, i: nat): (r: Option<nat>)
    requires i <= |options|
    ensures r.Some? ==> r.value < |options| && options[r.value] == s
    ensures r.None? ==> forall k :: i <= k < |options| ==> options[k] != s
    decreases |options| - i
  {
    if i == |options| then None else if options[i] == s then Some(i) else FindOption(options, s, i + 1)
  }

  function ReadColor(v: Value, def: Color): Color {
    if v.Text? && DecodeRgba(v.s).Some? then DecodeRgba(v.s).value else def
  }

  function ReadSlider(v: Value, s: Slider): real
    requires s.min <= s.max
  {
    if v.Num? then Clamp(v.n, s.min, s.max) else s.def
  }

  function ReadChoice(v: Value, c: Choice): int {
    if v.Text? && FindOption(c.options, Lower(v.s), 0).Some? then FindOption(c.options, Lower(v.s), 0).value else c.def
  }

  /** setGradient: decoded, clamped and sorted, or left alone. */
  function ReadGradient(v: Value, def: seq<Stop>): seq<Stop> {
    if v.Stops? then GradientFrom(v.entries, def) else def
  }

  // The value at a key, if there is one.
  function Get(data: Data, key: string): Value { if key in data then data[key] else Other }

  function ReadColors(table: map<string, Color>, data: Data): map<string, Color> {
    map k | k in table :: ReadColor(Get(data, k), table[k])
  }

  function ReadChoices(table: map<string, Choice>, data: Data): map<string, int> {
    map k | k in table :: ReadChoice(Get(data, k), table[k])
  }

  function ReadSliders(table: map<string, Slider>, data: Data): map<string, real>
    requires forall k :: k in table ==> table[k].min <= table[k].max
  {
    map k | k in table :: ReadSlider(Get(data, k), table[k])
  }

  /** What applying a document leaves: for every key the value that the document gives for it, if it
      gives one that can be read, and the default otherwise. Nothing of the state before. */
  function Applied(schema: Schema, data: Data): Live
    requires forall k :: k in schema.sliders ==> schema.sliders[k].min <= schema.sliders[k].max
  {
    Live(ReadColors(schema.colors, data), ReadChoices(schema.choices, data), ReadSliders(schema.sliders, data),
         ReadGradient(Get(data, GRADIENT_KEY), schema.gradient),
         if Get(data, COLOR_MAP_KEY).Text? then Get(data, COLOR_MAP_KEY).s else "")
  }

  // ---- writing

  // A choice, whatever number it holds, as the name of an option.
  function OptionName(c: Choice, v: int): string
    requires c.options != []
  {
    c.options[if v < 0 then 0 else if v >= |c.options| then |c.options| - 1 else v]
  }

  /** What the live values are written as at a key. */
  function Written(schema: Schema, live: Live, name: string, author: string, key: string): Option<Value>
    requires forall k :: k in schema.choices ==> schema.choices[k].options != []
    requires Keyed(schema, live)
  {
    if key == NAME then Some(Text(name))
    else if key == AUTHOR then Some(Text(author))
    else if key == GRADIENT_KEY then Some(Stops(EncodeGradient(live.gradient)))
    else if key == COLOR_MAP_KEY then if live.colorMap == "" then None else Some(Text(live.colorMap))
    else if key in schema.colors then Some(Text(EncodeRgba(live.colors[key])))
    else if key in schema.choices then Some(Text(OptionName(schema.choices[key], live.choices[key])))
    else if key in schema.sliders then Some(Num(Rounded(live.sliders[key])))
    else None
  }

  /** The document holds exactly what is written at each key. */
  ghost predicate IsDump(data: Data, schema: Schema, live: Live, name: string, author: string)
    requires Good(schema) && Keyed(schema, live)
  {
    && (forall k :: k in data ==> Written(schema, live, name, author, k) == Some(data[k]))
    && (forall k :: Written(schema, live, name, author, k).Some? ==> k in data)
  }

  // ---- the round trip

  lemma OptionReadsBack(c: Choice, v: int)
    requires c.options != [] && forall i :: 0 <= i < |c.options| ==> Lower(c.options[i]) == c.options[i]
    ensures OptionName(c, ReadChoice(Text(OptionName(c, v)), c)) == OptionName(c, v)
  {
    var s := OptionName(c, v);
    assert s in c.options;
  }

  /** What is written can be read as it is: every slider as it is written lies within its ends,
      and the gradient as it is written is one. */
  ghost predicate Readable(schema: Schema, live: Live)
    requires Keyed(schema, live)
  {
    && (forall k :: k in schema.sliders ==>
          schema.sliders[k].min <= Rounded(live.sliders[k]) <= schema.sliders[k].max)
    && RoundsToGradient(live.gradient)
  }

  /** A slider is written and read as it was written exactly when that lies within its ends. */
  lemma SliderExactly(s: Slider, v: real)
    requires 0.0 <= s.min <= s.max && Rounded(s.min) == s.min && Rounded(s.max) == s.max
    ensures Rounded(ReadSlider(Num(Rounded(v)), s)) == Rounded(v) <==> s.min <= Rounded(v) <= s.max
  {
    RoundedAgain(v);
  }

  /** Reading what was written at a key, and writing it again, gives the same: always for colours,
      choices and texts, for a slider and the gradient exactly when what was written is in order. */
  lemma KeyRoundTrip(schema: Schema, live: Live, name: string, author: string, data: Data, key: string)
    requires Good(schema) && Keyed(schema, live) && IsDump(data, schema, live, name, author)
    requires Keyed(schema, Applied(schema, data))
    ensures Written(schema, Applied(schema, data), name, author, key) == Written(schema, live, name, author, key) <==>
            if key == GRADIENT_KEY then RoundsToGradient(live.gradient)
            else key in schema.sliders ==> schema.sliders[key].min <= Rounded(live.sliders[key]) <= schema.sliders[key].max
  {
    hide Rounded, EncodeRgba, DecodeRgba, EncodeGradient, GradientFrom, Sorted, InRange, FindOption, OptionName, Lower,
         ReadChoice, RoundsToGradient;
    var w := Written(schema, live, name, author, key);
    if w.Some? { assert key in data && data[key] == w.value; } else { assert key !in data; }
    if Special(key) {
      if key == GRADIENT_KEY { GradientExactly(live.gradient, schema.gradient); }
    } else if key in schema.colors {
      ColorRoundTrip(live.colors[key]);
    } else if key in schema.choices {
      OptionReadsBack(schema.choices[key], live.choices[key]);
    } else if key in schema.sliders {
      SliderExactly(schema.sliders[key], live.sliders[key]);
    }
  }

  /** Whatever is in the document, applying it leaves values that can be drawn and written. */
  lemma AppliedIsGood(schema: Schema, data: Data)
    requires Good(schema)
    ensures GoodLive(schema, Applied(schema, data))
  {
    hide DecodeRgba, FindOption, Lower, StableSort;
    var v := Get(data, GRADIENT_KEY);
    if v.Stops? && DecodeGradient(v.entries).Some? {
      var d := DecodeGradient(v.entries).value;
      StableSortSorts(d, 0.0);
      SortStays(d);
    }
    var live := Applied(schema, data);
    assert live.colors.Keys == schema.colors.Keys && live.choices.Keys == schema.choices.Keys;
    assert live.sliders.Keys == schema.sliders.Keys;
  }

  // Documents are the same exactly when they say the same at every key.
  lemma SameDump(schema: Schema, live: Live, other: Live, name: string, author: string, data: Data, again: Data)
    requires Good(schema) && Keyed(schema, live) && Keyed(schema, other)
    requires IsDump(data, schema, live, name, author) && IsDump(again, schema, other, name, author)
    ensures again == data <==> forall k :: Written(schema, other, name, author, k) == Written(schema, live, name, author, k)
  {
    hide Written, Lower, Rounded, Sorted, InRange, Special;
    if forall k :: Written(schema, other, name, author, k) == Written(schema, live, name, author, k) {
      assert forall k :: k in data <==> k in again;
    } else {
      var k :| Written(schema, other, name, author, k) != Written(schema, live, name, author, k);
      assert k in data || k in again;
    }
  }

  // Every key is written the same exactly when the sliders and the gradient are.
  lemma ReadableByKey(schema: Schema, live: Live, name: string, author: string, data: Data)
    requires Good(schema) && Keyed(schema, live) && IsDump(data, schema, live, name, author)
    requires Keyed(schema, Applied(schema, data))
    ensures Readable(schema, live) <==>
            forall k :: Written(schema, Applied(schema, data), name, author, k) == Written(schema, live, name, author, k)
  {
    hide Written, Applied, IsDump, RoundsToGradient, Rounded, Lower, Sorted, InRange;
    if Readable(schema, live) {
      forall k ensures Written(schema, Applied(schema, data), name, author, k) == Written(schema, live, name, author, k) {
        KeyRoundTrip(schema, live, name, author, data, k);
      }
    } else {
      KeyRoundTrip(schema, live, name, author, data, GRADIENT_KEY);
      if k :| k in schema.sliders && !(schema.sliders[k].min <= Rounded(live.sliders[k]) <= schema.sliders[k].max) {
        KeyRoundTrip(schema, live, name, author, data, k);
      }
    }
  }

  /** For any live values: written, applied and written again they give the same document if and
      only if every slider as it is written lies within its ends, and the gradient as it is written
      has stops, between 0 and 1 and in order. */
  lemma DumpApplyDump(schema: Schema, live: Live, name: string, author: string, data: Data, again: Data)
    requires Good(schema) && Keyed(schema, live) && IsDump(data, schema, live, name, author)
    ensures GoodLive(schema, Applied(schema, data))
    ensures IsDump(again, schema, Applied(schema, data), name, author) ==> (again == data <==> Readable(schema, live))
  {
    AppliedIsGood(schema, data);
    hide Written, Applied, IsDump, Keyed, Readable;
    ReadableByKey(schema, live, name, author, data);
    if IsDump(again, schema, Applied(schema, data), name, author) {
      SameDump(schema, live, Applied(schema, data), name, author, data, again);
    }
  }

  /** What applying a document has left can always be written and read as it is. */
  lemma GoodIsReadable(schema: Schema, live: Live)
    requires Good(schema) && GoodLive(schema, live)
    ensures Readable(schema, live)
  {
    hide Rounded, Lower;
    GradientRounds(live.gradient);
    forall k | k in schema.sliders
      ensures schema.sliders[k].min <= Rounded(live.sliders[k]) <= schema.sliders[k].max
    {
      RoundedStaysInRange(live.sliders[k], schema.sliders[k].min, schema.sliders[k].max);
    }
  }

  // ---- what a saved theme says, and what selecting it brings back

  /** The option that a choice holds: by its number, or at the end that the number has passed. */
  predicate Names(s: string, c: Choice, v: int)
    requires c.options != []
  {
    && (0 <= v < |c.options| ==> s == c.options[v])
    && (v < 0 ==> s == c.options[0])
    && (v >= |c.options| ==> s == c.options[|c.options| - 1])
  }

  /** A document that says exactly what is written at each key says this: the name of every option, a
      colour within half a step, a slider to the nearest thousandth, every stop; and nothing else. */
  lemma DumpSays(schema: Schema, live: Live, name: string, author: string, data: Data, key: string)
    requires Good(schema) && Keyed(schema, live) && IsDump(data, schema, live, name, author)
    ensures NAME in data && data[NAME] == Text(name) && AUTHOR in data && data[AUTHOR] == Text(author)
    ensures GRADIENT_KEY in data && data[GRADIENT_KEY].Stops? && |data[GRADIENT_KEY].entries| == |live.gradient|
    ensures COLOR_MAP_KEY in data <==> live.colorMap != ""
    ensures live.colorMap != "" ==> data[COLOR_MAP_KEY] == Text(live.colorMap)
    ensures key in schema.choices ==> key in data && data[key].Text? && Names(data[key].s, schema.choices[key], live.choices[key])
    ensures key in schema.colors && Shown(live.colors[key]) ==>
              && key in data && data[key].Text? && DecodeRgba(data[key].s).Some?
              && ColorNear(DecodeRgba(data[key].s).value, live.colors[key], 1.0 / 510.0)
    ensures key in schema.sliders && live.sliders[key] >= 0.0 ==>
              key in data && data[key].Num? && Near(data[key].n, live.sliders[key], 0.0005)
    ensures key in data ==>
              Special(key) || key in schema.choices || key in schema.colors || key in schema.sliders
  {
    hide Rounded, EncodeRgba, DecodeRgba, Shown, ColorNear, Near, Lower, Sorted, InRange;
    SpecialNames();
    assert Written(schema, live, name, author, NAME).Some? && Written(schema, live, name, author, AUTHOR).Some?;
    assert Written(schema, live, name, author, GRADIENT_KEY).Some?;
    assert Written(schema, live, name, author, COLOR_MAP_KEY).Some? <==> live.colorMap != "";
    if key in schema.colors && Shown(live.colors[key]) { ColorComesBack(live.colors[key]); }
    if key in schema.sliders && live.sliders[key] >= 0.0 { RoundedIsNear(live.sliders[key]); }
    if !Special(key) && (key in schema.choices || key in schema.colors || key in schema.sliders) {
      assert Written(schema, live, name, author, key).Some?;
    }
  }

  lemma SpecialNames()
    ensures NAME != AUTHOR && NAME != GRADIENT_KEY && NAME != COLOR_MAP_KEY
    ensures AUTHOR != GRADIENT_KEY && AUTHOR != COLOR_MAP_KEY && GRADIENT_KEY != COLOR_MAP_KEY
  {
    assert |NAME| == 4 && |AUTHOR| == 6 && |GRADIENT_KEY| == 11 && |COLOR_MAP_KEY| == 8;
  }

  ghost predicate Different(options: seq<string>) { forall i, j :: 0 <= i < j < |options| ==> options[i] != options[j] }

  lemma OptionComesBack(c: Choice, v: int)
    requires c.options != [] && forall i :: 0 <= i < |c.options| ==> Lower(c.options[i]) == c.options[i]
    requires Different(c.options)
    ensures ReadChoice(Text(OptionName(c, v)), c) == if v < 0 then 0 else if v < |c.options| then v else |c.options| - 1
  {
    var s := OptionName(c, v);
    assert s in c.options;
  }

  // The values that a saved document holds, key by key.
  lemma SavedHolds(schema: Schema, live: Live, name: string, author: string, data: Data)
    requires Good(schema) && Keyed(schema, live) && IsDump(data, schema, live, name, author)
    ensures Get(data, COLOR_MAP_KEY) == if live.colorMap == "" then Other else Text(live.colorMap)
    ensures Get(data, GRADIENT_KEY) == Stops(EncodeGradient(live.gradient))
    ensures forall k :: k in schema.choices ==> Get(data, k) == Text(OptionName(schema.choices[k], live.choices[k]))
    ensures forall k :: k in schema.colors ==> Get(data, k) == Text(EncodeRgba(live.colors[k]))
    ensures forall k :: k in schema.sliders ==> Get(data, k) == Num(Rounded(live.sliders[k]))
  {
    hide Rounded, EncodeRgba, Lower, Sorted, InRange, EncodeGradient, OptionName;
    SpecialNames();
    assert forall k :: Written(schema, live, name, author, k) == if k in data then Some(data[k]) else None;
  }

  /** Selecting a saved theme brings the live values back, key by key: every choice whose options
      differ, every colour within half a step, every slider within its ends to the nearest thousandth,
      and the colour map. */
  lemma SavedComesBack(schema: Schema, live: Live, name: string, author: string, data: Data, key: string)
    requires Good(schema) && Keyed(schema, live) && IsDump(data, schema, live, name, author)
    ensures Keyed(schema, Applied(schema, data)) && Applied(schema, data).colorMap == live.colorMap
    ensures var back := Applied(schema, data);
            && (key in schema.choices && Different(schema.choices[key].options)
                && 0 <= live.choices[key] < |schema.choices[key].options| ==>
                  back.choices[key] == live.choices[key])
            && (key in schema.colors && Shown(live.colors[key]) ==>
                  ColorNear(back.colors[key], live.colors[key], 1.0 / 510.0))
            && (key in schema.sliders && schema.sliders[key].min <= live.sliders[key] <= schema.sliders[key].max ==>
                  Near(back.sliders[key], live.sliders[key], 0.0005))
  {
    hide Rounded, EncodeRgba, DecodeRgba, Shown, ColorNear, Near, Lower, Sorted, InRange, EncodeGradient, GradientFrom,
         OptionName, FindOption, ReadChoice, IsDump;
    AppliedIsGood(schema, data);
    SavedHolds(schema, live, name, author, data);
    if key in schema.choices {
      if Different(schema.choices[key].options) { OptionComesBack(schema.choices[key], live.choices[key]); }
    } else if key in schema.colors {
      if Shown(live.colors[key]) { ColorComesBack(live.colors[key]); }
    } else if key in schema.sliders {
      var s, v := schema.sliders[key], live.sliders[key];
      if s.min <= v <= s.max {
        RoundedIsNear(v);
        RoundedStaysInRange(v, s.min, s.max);
      }
    }
  }

  /** And every stop of a sorted gradient between 0 and 1. */
  lemma SavedGradientComesBack(schema: Schema, live: Live, name: string, author: string, data: Data, i: nat)
    requires Good(schema) && Keyed(schema, live) && IsDump(data, schema, live, name, author)
    requires live.gradient != [] && Sorted(live.gradient) && InRange(live.gradient)
    requires i < |live.gradient| && Shown(live.gradient[i].color)
    ensures var s, t := live.gradient[i], Applied(schema, data).gradient;
            |t| == |live.gradient| && Near(t[i].pos, s.pos, 0.0005) && ColorNear(t[i].color, s.color, 1.0 / 510.0)
  {
    hide Rounded, EncodeRgba, DecodeRgba, Shown, ColorNear, Near, Lower, Sorted, InRange, EncodeGradient, GradientFrom,
         OptionName, IsDump;
    SavedHolds(schema, live, name, author, data);
    GradientComesBack(live.gradient, schema.gradient, i);
  }

  /** A slider edited past its end is written as it is, 2, and comes back as the end, 1. */
  lemma SliderPastItsEnd()
    ensures Rounded(2.0) == 2.0 && Rounded(ReadSlider(Num(2.0), Slider(0.05, 1.0, 1.0))) == 1.0
  {
    UnitRounds();
  }

  // ---- dropping what is not understood

  function Cleaned(schema: Schema, key: string, v: Value): Option<Value>
    requires forall k :: k in schema.sliders ==> schema.sliders[k].min <= schema.sliders[k].max
  {
    if key == NAME || key == AUTHOR then Some(v)
    else if key == GRADIENT_KEY then
      if v.Stops? && DecodeGradient(v.entries).Some? then Some(Stops(EncodeGradient(StableSort(DecodeGradient(v.entries).value))))
      else None
    else if key in schema.sliders then
      if v.Num? then Some(Num(Rounded(Clamp(v.n, schema.sliders[key].min, schema.sliders[key].max)))) else None
    else if key in schema.choices then
      if v.Text? && FindOption(schema.choices[key].options, Lower(v.s), 0).Some? then Some(v) else None
    else if !v.Text? then None
    else if key == COLOR_MAP_KEY then Some(v)
    else if key in schema.colors && DecodeRgba(v.s).Some? then Some(v)
    else None
  }

  /** Exactly the values that are understood, each in its cleaned form. */
  ghost predicate IsCleaned(out: Data, schema: Schema, data: Data)
    requires Good(schema)
  {
    && (forall k :: k in out ==> k in data && Cleaned(schema, k, data[k]) == Some(out[k]))
    && (forall k :: k in data && Cleaned(schema, k, data[k]).Some? ==> k in out)
  }

  /** What cleaning keeps of a value: a name and an author whatever they are; of a gradient that can be
      read its sorted stops; of a slider its number, within its ends; the text of an option, of the
      colour map and of a colour that can be read; and of any other key nothing. */
  lemma CleanedExactly(schema: Schema, key: string, v: Value)
    requires Good(schema)
    ensures var c := Cleaned(schema, key, v);
            && (key == "name" || key == "author" ==> c == Some(v))
            && (key == "FFTGradient" ==>
                  c == if v.Stops? && DecodeGradient(v.entries).Some?
                       then Some(Stops(EncodeGradient(StableSort(DecodeGradient(v.entries).value)))) else None)
            && (key == "ColorMap" ==> c == if v.Text? then Some(v) else None)
            && (key in schema.sliders ==>
                  var s := schema.sliders[key];
                  c == if v.Num? then Some(Num(Rounded(if v.n < s.min then s.min else if v.n > s.max then s.max else v.n))) else None)
            && (key in schema.choices ==>
                  c == if v.Text? && Lower(v.s) in schema.choices[key].options then Some(v) else None)
            && (key in schema.colors ==> c == if v.Text? && IsRgba(v.s) then Some(v) else None)
            && (!Special(key) && key !in schema.sliders && key !in schema.choices && key !in schema.colors ==> c == None)
  {
    hide Rounded, EncodeGradient, StableSort, Sorted, InRange, Lower, IsRgba;
    SpecialNames();
  }

  /** A cleaned value is understood, and cleaning it again leaves it as it is. */
  lemma CleanedTwice(schema: Schema, key: string, v: Value)
    requires Good(schema) && Cleaned(schema, key, v).Some?
    ensures Cleaned(schema, key, Cleaned(schema, key, v).value) == Cleaned(schema, key, v)
  {
    hide Rounded, EncodeRgba, DecodeRgba, EncodeGradient, StableSort, Sorted, InRange, FindOption, Lower;
    if key == GRADIENT_KEY {
      CleanedGradient(v);
    } else if key in schema.sliders && !Special(key) {
      var s := schema.sliders[key];
      RoundedStaysInRange(Clamp(v.n, s.min, s.max), s.min, s.max);
    }
  }

  // A gradient that can be read is sorted and in range when it has been read.
  lemma CleanedGradient(v: Value)
    requires v.Stops? && DecodeGradient(v.entries).Some?
    ensures var d := StableSort(DecodeGradient(v.entries).value);
            var again := DecodeGradient(EncodeGradient(d));
            && again.Some? && EncodeGradient(StableSort(again.value)) == EncodeGradient(d)
  {
    var d := DecodeGradient(v.entries).value;
    assert InRange(d);
    StableSortSorts(d, 0.0);
    SortStays(d);
    hide StableSort, EncodeGradient, Sorted, InRange, DecodeGradient;
    GradientRounds(StableSort(d));
    GradientRoundTrip(StableSort(d));
  }

  /** Cleaning a document twice is cleaning it once. */
  lemma SanitizeIsIdempotent(schema: Schema, data: Data, once: Data, twice: Data)
    requires Good(schema) && IsCleaned(once, schema, data) && IsCleaned(twice, schema, once)
    ensures twice == once
  {
    hide Cleaned;
    forall k | k in once ensures Cleaned(schema, k, once[k]) == Some(once[k]) {
      CleanedTwice(schema, k, data[k]);
    }
  }

  // A key of a kind, in a document and in the cleaned one.
  lemma LookOfKey(schema: Schema, data: Data, clean: Data, key: string)
    requires Good(schema) && IsCleaned(clean, schema, data)
    ensures key in schema.colors ==> ReadColor(Get(clean, key), schema.colors[key]) == ReadColor(Get(data, key), schema.colors[key])
    ensures key in schema.choices ==> ReadChoice(Get(clean, key), schema.choices[key]) == ReadChoice(Get(data, key), schema.choices[key])
    ensures key == COLOR_MAP_KEY ==> Get(clean, key).Text? == Get(data, key).Text?
                                     && (Get(data, key).Text? ==> Get(clean, key) == Get(data, key))
  {
    hide Rounded, DecodeRgba, FindOption, Lower, DecodeGradient, EncodeGradient, StableSort;
    assert key in clean <==> key in data && Cleaned(schema, key, data[key]).Some?;
  }

  lemma LookOfSlider(schema: Schema, data: Data, clean: Data, key: string)
    requires Good(schema) && IsCleaned(clean, schema, data) && key in schema.sliders
    ensures Rounded(ReadSlider(Get(clean, key), schema.sliders[key])) == Rounded(ReadSlider(Get(data, key), schema.sliders[key]))
  {
    hide Rounded, DecodeRgba, FindOption, Lower, DecodeGradient, EncodeGradient, StableSort;
    assert key in clean <==> key in data && Cleaned(schema, key, data[key]).Some?;
    var s, v := schema.sliders[key], Get(data, key);
    if v.Num? { RoundedStaysInRange(Clamp(v.n, s.min, s.max), s.min, s.max); }
  }

  lemma LookOfGradient(schema: Schema, data: Data, clean: Data)
    requires Good(schema) && IsCleaned(clean, schema, data)
    ensures EncodeGradient(ReadGradient(Get(clean, GRADIENT_KEY), schema.gradient))
         == EncodeGradient(ReadGradient(Get(data, GRADIENT_KEY), schema.gradient))
  {
    hide Rounded, DecodeRgba, FindOption, Lower, EncodeGradient, StableSort;
    var key := GRADIENT_KEY;
    assert key in clean <==> key in data && Cleaned(schema, key, data[key]).Some?;
    var v := Get(data, key);
    if v.Stops? && DecodeGradient(v.entries).Some? { CleanedGradient(v); }
  }

  /** Cleaning does not change what a document looks like: applied, it is written the same. */
  lemma SanitizeKeepsTheLook(schema: Schema, data: Data, clean: Data, name: string, author: string, key: string)
    requires Good(schema) && IsCleaned(clean, schema, data)
    ensures GoodLive(schema, Applied(schema, clean)) && GoodLive(schema, Applied(schema, data))
    ensures Written(schema, Applied(schema, clean), name, author, key) == Written(schema, Applied(schema, data), name, author, key)
  {
    hide ReadColor, ReadChoice, ReadSlider, ReadGradient, Rounded, EncodeRgba, EncodeGradient, OptionName, IsCleaned,
         Get;
    AppliedIsGood(schema, clean);
    AppliedIsGood(schema, data);
    LookOfKey(schema, data, clean, key);
    LookOfGradient(schema, data, clean);
    if key in schema.sliders { LookOfSlider(schema, data, clean, key); }
    LookOfKey(schema, data, clean, COLOR_MAP_KEY);
  }

  // ---- the live values

  /** What one entry does to the live values, when its key had none before. */
  function WithEntry(schema: Schema, l: Live, key: string, v: Value): Live
    requires Good(schema)
  {
    if key == GRADIENT_KEY then l.(gradient := ReadGradient(v, l.gradient))
    else if key in schema.sliders then l.(sliders := l.sliders[key := ReadSlider(v, schema.sliders[key])])
    else if key in schema.choices then l.(choices := l.choices[key := ReadChoice(v, schema.choices[key])])
    else if key == COLOR_MAP_KEY then l.(colorMap := if v.Text? then v.s else "")
    else if key in schema.colors then l.(colors := l.colors[key := ReadColor(v, schema.colors[key])])
    else l
  }

  lemma EntryApplied(schema: Schema, done: Data, key: string, v: Value)
    requires Good(schema) && key !in done
    ensures Applied(schema, done[key := v]) == WithEntry(schema, Applied(schema, done), key, v)
    ensures var l := Applied(schema, done);
            && (key in schema.colors ==> key in l.colors && l.colors[key] == schema.colors[key])
            && (key in schema.choices ==> key in l.choices && l.choices[key] == schema.choices[key].def)
            && (key in schema.sliders ==> key in l.sliders && l.sliders[key] == schema.sliders[key].def)
            && (key == COLOR_MAP_KEY ==> l.colorMap == "")
  {
    hide Rounded, Lower, FindOption, DecodeRgba, DecodeGradient, Sorted, InRange;
    assert forall k :: k != key ==> Get(done[key := v], k) == Get(done, k);
    assert Get(done[key := v], key) == v && Get(done, key) == Other;
    EntryInMaps(schema, done, key, v);
  }

  lemma EntryInMaps(schema: Schema, done: Data, key: string, v: Value)
    requires Good(schema) && key !in done
    ensures var (l, m) := (Applied(schema, done), Applied(schema, done[key := v]));
            && m.colors == (if key in schema.colors then l.colors[key := ReadColor(v, schema.colors[key])] else l.colors)
            && m.choices == (if key in schema.choices then l.choices[key := ReadChoice(v, schema.choices[key])] else l.choices)
            && m.sliders == (if key in schema.sliders then l.sliders[key := ReadSlider(v, schema.sliders[key])] else l.sliders)
  {
    hide ReadColors, ReadChoices, ReadSliders, ReadColor, ReadChoice, ReadSlider, ReadGradient, Rounded, Lower,
         Sorted, InRange;
    EntryInColors(schema.colors, done, key, v);
    EntryInChoices(schema.choices, done, key, v);
    EntryInSliders(schema.sliders, done, key, v);
  }

  lemma EntryInColors(table: map<string, Color>, done: Data, key: string, v: Value)
    ensures var (l, m) := (ReadColors(table, done), ReadColors(table, done[key := v]));
            m == if key in table then l[key := ReadColor(v, table[key])] else l
  {
    hide ReadColor;
    GetAfter(done, key, v);
  }

  lemma EntryInChoices(table: map<string, Choice>, done: Data, key: string, v: Value)
    ensures var (l, m) := (ReadChoices(table, done), ReadChoices(table, done[key := v]));
            m == if key in table then l[key := ReadChoice(v, table[key])] else l
  {
    hide ReadChoice;
    GetAfter(done, key, v);
  }

  lemma EntryInSliders(table: map<string, Slider>, done: Data, key: string, v: Value)
    requires forall k :: k in table ==> table[k].min <= table[k].max
    ensures var (l, m) := (ReadSliders(table, done), ReadSliders(table, done[key := v]));
            m == if key in table then l[key := ReadSlider(v, table[key])] else l
  {
    hide ReadSlider;
    GetAfter(done, key, v);
  }

  lemma GetAfter(done: Data, key: string, v: Value)
    ensures Get(done[key := v], key) == v
    ensures forall k :: k != key ==> Get(done[key := v], k) == Get(done, k)
  {
  }

  class ThemeManager {
    const schema: Schema
    var colors: map<string, Color>
    var choices: map<string, int>
    var sliders: map<string, real>
    var fftGradient: seq<Stop>
    var colorMap: string

    ghost function View(): Live
      reads this
    {
      Live(colors, choices, sliders, fftGradient, colorMap)
    }

    ghost predicate Valid()
      reads this
    {
      Good(schema) && GoodLive(schema, View())
    }

    // What writing the live values needs: there is one for each key.
    ghost predicate Known()
      reads this
    {
      Good(schema) && Keyed(schema, View())
    }

    constructor (schema: Schema)
      requires Good(schema)
      ensures this.schema == schema && Valid() && View() == Applied(schema, map[])
    {
      this.schema := schema;
      colors, choices, sliders, fftGradient, colorMap := map[], map[], map[], [], "";
      new;
      hide Applied, GoodLive;
      ResetToDefaults();
      AppliedIsGood(schema, map[]);
    }

    /** normalizeGradient: never empty, clamped, and in order. */
    method NormalizeGradient()
      requires Good(schema)
      modifies this`fftGradient
      ensures fftGradient != [] && Sorted(fftGradient) && InRange(fftGradient)
      ensures old(fftGradient) != [] && InRange(old(fftGradient)) ==> fftGradient == StableSort(old(fftGradient))
    {
      hide Sorted, StableSort, Rounded, Lower;
      if fftGradient == [] { fftGradient := schema.gradient; }
      ghost var was := fftGradient;
      var i := 0;
      while i < |fftGradient|
        invariant i <= |fftGradient| == |was|
        invariant forall k :: 0 <= k < |was| ==>
                    fftGradient[k] == if k < i then was[k].(pos := Clamp(was[k].pos, 0.0, 1.0)) else was[k]
      {
        fftGradient := fftGradient[i := fftGradient[i].(pos := Clamp(fftGradient[i].pos, 0.0, 1.0))];
        i := i + 1;
      }
      assert InRange(was) ==> fftGradient == was;
      assert InRange(fftGradient);
      StableSortSorts(fftGradient, 0.0);
      SortStays(fftGradient);
      fftGradient := StableSort(fftGradient);
    }

    method SetGradient(v: Value) returns (ok: bool)
      requires Good(schema)
      modifies this`fftGradient
      ensures ok <==> v.Stops? && DecodeGradient(v.entries).Some?
      ensures fftGradient == ReadGradient(v, old(fftGradient))
    {
      hide StableSort;
      if !v.Stops? { return false; }
      var stops := DecodeGradient(v.entries);
      if stops.None? { return false; }
      fftGradient := stops.value;
      NormalizeGradient();
      return true;
    }

    method ResetToDefaults()
      requires Good(schema)
      modifies this
      ensures View() == Applied(schema, map[])
    {
      hide Sorted, InRange, Rounded, Lower;
      colorMap := "";
      fftGradient := schema.gradient;
      choices := map k | k in schema.choices :: schema.choices[k].def;
      sliders := map k | k in schema.sliders :: schema.sliders[k].def;
      colors := schema.colors;
    }

    // One entry of the document.
    method ApplyEntry(key: string, v: Value, ghost done: Data)
      requires Good(schema) && key !in done && View() == Applied(schema, done)
      modifies this
      ensures View() == Applied(schema, done[key := v])
    {
      hide Applied, ReadGradient, FindOption, Lower, DecodeRgba, Rounded, Sorted, InRange;
      EntryApplied(schema, done, key, v);
      if key == NAME || key == AUTHOR {
      } else if key == GRADIENT_KEY {
        var ok := SetGradient(v);
      } else if key in schema.sliders {
        if v.Num? { sliders := sliders[key := Clamp(v.n, schema.sliders[key].min, schema.sliders[key].max)]; }
      } else if key in schema.choices {
        if v.Text? {
          var decoded := FindOption(schema.choices[key].options, Lower(v.s), 0);
          if decoded.Some? { choices := choices[key := decoded.value]; }
        }
      } else if v.Text? {
        if key == COLOR_MAP_KEY {
          colorMap := v.s;
        } else if key in schema.colors && DecodeRgba(v.s).Some? {
          colors := colors[key := DecodeRgba(v.s).value];
        }
      }
    }

    /** applyThemeData: the live values are those of the document, and nothing of before is left. */
    method ApplyThemeData(document: Document) returns (ok: bool)
      requires Good(schema)
      modifies this
      ensures ok <==> document.Object?
      ensures Valid() && View() == Applied(schema, if document.Object? then document.data else map[])
    {
      hide GoodLive, Applied, Rounded, Lower, Sorted, InRange;
      ResetToDefaults();
      AppliedIsGood(schema, map[]);
      if document.NotAnObject? { return false; }
      AppliedIsGood(schema, document.data);
      var rest := document.data.Keys;
      ghost var done: Data := map[];
      while rest != {}
        invariant rest <= document.data.Keys && done == document.data - rest
        invariant View() == Applied(schema, done)
      {
        var key :| key in rest;
        ApplyEntry(key, document.data[key], done);
        done := done[key := document.data[key]];
        rest := rest - {key};
        assert done == document.data - rest;
      }
      assert done == document.data;
      return true;
    }

    // Every key of the document so far has the value that is written at it.
    ghost predicate Follows(data: Data, keys: set<string>, name: string, author: string)
      reads this
      requires Known()
    {
      data.Keys == keys && forall k :: k in data ==> Written(schema, View(), name, author, k) == Some(data[k])
    }

    // Adds what is written at some more keys.
    method AddKeys(data: Data, more: set<string>, ghost keys: set<string>, ghost name: string, ghost author: string)
        returns (out: Data)
      requires Known() && Follows(data, keys, name, author)
      requires more <= schema.colors.Keys || more <= schema.choices.Keys || more <= schema.sliders.Keys
      ensures Follows(out, keys + more, name, author)
    {
      hide EncodeRgba, OptionName, Rounded, Lower, Sorted, InRange;
      out := data;
      var rest := more;
      while rest != {}
        invariant rest <= more && Follows(out, keys + (more - rest), name, author)
      {
        var key :| key in rest;
        if key in schema.colors {
          out := out[key := Text(EncodeRgba(colors[key]))];
        } else if key in schema.choices {
          out := out[key := Text(OptionName(schema.choices[key], choices[key]))];
        } else {
          out := out[key := Num(Rounded(sliders[key]))];
        }
        rest := rest - {key};
      }
    }

    // The name, the author and every key of the tables.
    method DumpTables(name: string, author: string) returns (data: Data)
      requires Known()
      ensures Follows(data, {NAME, AUTHOR} + schema.colors.Keys + schema.choices.Keys + schema.sliders.Keys, name, author)
    {
      hide EncodeRgba, EncodeGradient, OptionName, Rounded, Lower, Sorted, InRange;
      data := map[NAME := Text(name), AUTHOR := Text(author)];
      ghost var keys := {NAME, AUTHOR};
      assert Follows(data, keys, name, author);
      hide Follows, Good, Keyed;
      data := AddKeys(data, schema.colors.Keys, keys, name, author);
      keys := keys + schema.colors.Keys;
      data := AddKeys(data, schema.choices.Keys, keys, name, author);
      keys := keys + schema.choices.Keys;
      data := AddKeys(data, schema.sliders.Keys, keys, name, author);
    }

    /** dumpLiveTheme: a document that says what is written at each key, and nothing else. */
    method DumpLiveTheme(name: string, author: string) returns (data: Data)
      requires Known()
      ensures IsDump(data, schema, View(), name, author)
    {
      hide EncodeRgba, EncodeGradient, OptionName, Rounded, Lower, Sorted, InRange;
      data := DumpTables(name, author);
      data := data[GRADIENT_KEY := Stops(EncodeGradient(fftGradient))];
      if colorMap != "" { data := data[COLOR_MAP_KEY := Text(colorMap)]; }
    }

    /** sanitizeThemeData: what is not understood is dropped, key by key. */
    method SanitizeThemeData(data: Data) returns (cleaned: Data)
      requires Good(schema)
      ensures IsCleaned(cleaned, schema, data)
    {
      hide Cleaned;
      cleaned := map[];
      var rest := data.Keys;
      while rest != {}
        invariant rest <= data.Keys
        invariant forall k :: k in cleaned ==> k in data && k !in rest && Cleaned(schema, k, data[k]) == Some(cleaned[k])
        invariant forall k :: k in data && k !in rest && Cleaned(schema, k, data[k]).Some? ==> k in cleaned
      {
        var key :| key in rest;
        var v := Cleaned(schema, key, data[key]);
        if v.Some? { cleaned := cleaned[key := v.value]; }
        rest := rest - {key};
      }
    }

    /** Writing what is on screen, selecting that document and writing it again, twice: the second
        document is the first exactly when that could be read as it was written, and the third is
        always the second. */
    method SaveSelectSave(name: string, author: string) returns (data: Data, again: Data, third: Data)
      requires Known()
      modifies this
      ensures Valid() && IsDump(data, schema, old(View()), name, author)
      ensures again == data <==> Readable(schema, old(View()))
      ensures third == again
    {
      hide IsDump, Applied, Readable, Rounded, Lower, Sorted, InRange;
      data := DumpLiveTheme(name, author);
      ghost var before := View();
      var ok := ApplyThemeData(Object(data));
      again := DumpLiveTheme(name, author);
      DumpApplyDump(schema, before, name, author, data, again);
      before := View();
      GoodIsReadable(schema, before);
      ok := ApplyThemeData(Object(again));
      third := DumpLiveTheme(name, author);
      DumpApplyDump(schema, before, name, author, again, third);
    }
  }
}
