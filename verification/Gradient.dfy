/** Theme colours and gradients (core/src/gui/theme_manager.cpp): how they are written to a theme
    document and read back, how stops are ordered, and how a gradient is sampled. Floats are reals. */
module Gradients {

  datatype Color = Color(x: real, y: real, z: real, w: real)

  datatype Option<T> = None | Some(value: T)

  function Clamp(v: real, lo: real, hi: real): (r: real)
    requires lo <= hi
    ensures lo <= r <= hi && (lo <= v <= hi ==> r == v)
  {
    if v < lo then lo else if v > hi then hi else v
  }

  // ---- colours as text

  type Byte = b: int | 0 <= b < 256

  function Channel(v: real): Byte { (Clamp(v, 0.0, 1.0) * 255.0 + 0.5).Floor }

  function Digit(d: int): char
    requires 0 <= d < 16
  {
    "0123456789ABCDEF"[d]
  }

  // %02X
  function Hex(b: Byte): (s: string)
    ensures |s| == 2
  {
    [Digit(b / 16), Digit(b % 16)]
  }

  predicate IsHexDigit(c: char) { '0' <= c <= '9' || 'a' <= c <= 'f' || 'A' <= c <= 'F' }

  function DigitValue(c: char): int
    requires IsHexDigit(c)
    ensures 0 <= DigitValue(c) < 16
  {
    if c <= '9' then c as int - '0' as int
    else if c <= 'F' then c as int - 'A' as int + 10
    else c as int - 'a' as int + 10
  }

  function EncodeRgba(c: Color): string {
    "#" + Hex(Channel(c.x)) + Hex(Channel(c.y)) + Hex(Channel(c.z)) + Hex(Channel(c.w))
  }

  // std::stoi of two hexadecimal digits
  function Pair(s: string, i: nat): Byte
    requires i + 1 < |s| && IsHexDigit(s[i]) && IsHexDigit(s[i + 1])
  {
    16 * DigitValue(s[i]) + DigitValue(s[i + 1])
  }

  predicate IsRgba(s: string) { |s| == 9 && s[0] == '#' && forall i :: 1 <= i < 9 ==> IsHexDigit(s[i]) }

  // The live colour that a text stands for.
  function DecodeRgba(s: string): Option<Color> {
    if !IsRgba(s) then None
    else Some(Color(Pair(s, 1) as real / 255.0, Pair(s, 3) as real / 255.0,
                    Pair(s, 5) as real / 255.0, Pair(s, 7) as real / 255.0))
  }

  lemma ChannelOfByte(b: Byte)
    ensures Channel(b as real / 255.0) == b
  {
    var v := b as real / 255.0;
    assert v * 255.0 == b as real && 0.0 <= v <= 1.0;
  }

  lemma HexReadsBack(b: Byte)
    ensures IsHexDigit(Hex(b)[0]) && IsHexDigit(Hex(b)[1]) && Pair(Hex(b), 0) == b
  {
    DigitReadsBack(b / 16);
    DigitReadsBack(b % 16);
  }

  lemma DigitReadsBack(d: int)
    requires 0 <= d < 16
    ensures IsHexDigit(Digit(d)) && DigitValue(Digit(d)) == d
  {
    assert Digit(d) == if d < 10 then '0' + d as char else 'A' + (d - 10) as char;
  }

  /** What is written can be read, and writing what was read changes nothing: a colour is kept to
      the nearest of 256 steps a channel. */
  lemma ColorRoundTrip(c: Color)
    ensures var d := DecodeRgba(EncodeRgba(c)); d.Some? && EncodeRgba(d.value) == EncodeRgba(c)
    ensures var d := DecodeRgba(EncodeRgba(c)).value;
            d == Color(Channel(c.x) as real / 255.0, Channel(c.y) as real / 255.0,
                       Channel(c.z) as real / 255.0, Channel(c.w) as real / 255.0)
  {
    hide Channel, Hex, DigitValue, IsHexDigit;
    var s, x, y, z, w := EncodeRgba(c), Channel(c.x), Channel(c.y), Channel(c.z), Channel(c.w);
    HexReadsBack(x);
    HexReadsBack(y);
    HexReadsBack(z);
    HexReadsBack(w);
    assert |s| == 9 && s[0] == '#';
    assert s[1] == Hex(x)[0] && s[2] == Hex(x)[1] && s[3] == Hex(y)[0] && s[4] == Hex(y)[1];
    assert s[5] == Hex(z)[0] && s[6] == Hex(z)[1] && s[7] == Hex(w)[0] && s[8] == Hex(w)[1];
    ChannelOfByte(x);
    ChannelOfByte(y);
    ChannelOfByte(z);
    ChannelOfByte(w);
  }

  predicate Shown(c: Color) { 0.0 <= c.x <= 1.0 && 0.0 <= c.y <= 1.0 && 0.0 <= c.z <= 1.0 && 0.0 <= c.w <= 1.0 }

  predicate ColorNear(c: Color, d: Color, e: real) {
    Near(c.x, d.x, e) && Near(c.y, d.y, e) && Near(c.z, d.z, e) && Near(c.w, d.w, e)
  }

  lemma ChannelIsNear(v: real)
    requires 0.0 <= v <= 1.0
    ensures Near(Channel(v) as real / 255.0, v, 1.0 / 510.0)
  {
    var b := Channel(v);
    assert b as real <= v * 255.0 + 0.5 < b as real + 1.0;
  }

  /** A colour that can be shown comes back with every channel within half a step of 255. */
  lemma ColorComesBack(c: Color)
    requires Shown(c)
    ensures DecodeRgba(EncodeRgba(c)).Some? && ColorNear(DecodeRgba(EncodeRgba(c)).value, c, 1.0 / 510.0)
  {
    ColorRoundTrip(c);
    ChannelIsNear(c.x);
    ChannelIsNear(c.y);
    ChannelIsNear(c.z);
    ChannelIsNear(c.w);
    hide EncodeRgba, DecodeRgba, Channel;
  }

  // ---- three decimals

  // A conversion to an integer type: towards zero.
  function Truncated(v: real): int { if v >= 0.0 then v.Floor else -(-v).Floor }

  /** roundSetting */
  function Rounded(v: real): real { Truncated(v * 1000.0 + 0.5) as real / 1000.0 }

  // At most `e` apart.
  predicate Near(a: real, b: real, e: real) { -e <= a - b <= e }

  /** A value that is not negative is rounded to the nearest thousandth. */
  lemma RoundedIsNear(v: real)
    requires v >= 0.0
    ensures Near(Rounded(v), v, 0.0005) && Rounded(v) * 1000.0 == (Rounded(v) * 1000.0).Floor as real
  {
    var k := Truncated(v * 1000.0 + 0.5);
    assert Rounded(v) * 1000.0 == k as real;
  }

  /** Rounding twice is rounding once exactly from -0.0015 on; below, the truncation moves the
      value once more towards zero. */
  lemma RoundedTwice(v: real)
    ensures Rounded(Rounded(v)) == Rounded(v) <==> v > -0.0015
  {
    var k := Truncated(v * 1000.0 + 0.5);
    assert Rounded(v) * 1000.0 == k as real;
    assert Truncated(k as real + 0.5) == if k >= 0 then k else k + 1;
    assert k >= 0 <==> v * 1000.0 + 0.5 > -1.0;
  }

  // Below that, it has been rounded to a negative number.
  lemma RoundedAgain(v: real)
    ensures Rounded(v) >= 0.0 ==> Rounded(Rounded(v)) == Rounded(v)
  {
    RoundedTwice(v);
    assert Truncated(v * 1000.0 + 0.5) >= 0 ==> v * 1000.0 + 0.5 > -1.0;
  }

  lemma RoundedKeepsOrder(v: real, w: real)
    requires v <= w
    ensures Rounded(v) <= Rounded(w)
  {
    assert v * 1000.0 + 0.5 <= w * 1000.0 + 0.5;
    assert Truncated(v * 1000.0 + 0.5) <= Truncated(w * 1000.0 + 0.5);
  }

  /** A bound with three decimals is a bound for the rounded value too. */
  lemma RoundedStaysInRange(v: real, lo: real, hi: real)
    requires 0.0 <= lo <= v <= hi && Rounded(lo) == lo && Rounded(hi) == hi
    ensures lo <= Rounded(v) <= hi && Rounded(Rounded(v)) == Rounded(v)
  {
    RoundedKeepsOrder(lo, v);
    RoundedKeepsOrder(v, hi);
    RoundedTwice(v);
  }

  // ---- stops

  datatype Stop = Stop(pos: real, color: Color)

  ghost predicate Sorted(s: seq<Stop>) { forall i, j :: 0 <= i < j < |s| ==> s[i].pos <= s[j].pos }

  ghost predicate InRange(s: seq<Stop>) { forall i :: 0 <= i < |s| ==> 0.0 <= s[i].pos <= 1.0 }

  // Behind all stops that are not after it in position.
  function Insert(s: seq<Stop>, x: Stop): (r: seq<Stop>)
    ensures |r| == |s| + 1
  {
    if s == [] || s[|s| - 1].pos <= x.pos then s + [x]
    else Insert(s[..|s| - 1], x) + [s[|s| - 1]]
  }

  /** std::stable_sort by position. */
  function StableSort(s: seq<Stop>): (r: seq<Stop>)
    ensures |r| == |s|
  {
    if s == [] then [] else Insert(StableSort(s[..|s| - 1]), s[|s| - 1])
  }

  /** The stops at one position, in their order. */
  function At(s: seq<Stop>, pos: real): seq<Stop> {
    if s == [] then [] else At(s[..|s| - 1], pos) + if s[|s| - 1].pos == pos then [s[|s| - 1]] else []
  }

  lemma {:induction false} InsertSorts(s: seq<Stop>, x: Stop)
    requires Sorted(s)
    ensures Sorted(Insert(s, x))
    ensures forall i :: 0 <= i < |Insert(s, x)| ==> Insert(s, x)[i].pos <= x.pos || (s != [] && Insert(s, x)[i].pos <= s[|s| - 1].pos)
  {
    if s != [] && s[|s| - 1].pos > x.pos {
      InsertSorts(s[..|s| - 1], x);
    }
  }

  lemma {:induction false} InsertAdds(s: seq<Stop>, x: Stop, pos: real)
    ensures At(Insert(s, x), pos) == At(s + [x], pos)
    ensures multiset(Insert(s, x)) == multiset(s + [x])
  {
    hide At;
    if s != [] && s[|s| - 1].pos > x.pos {
      var n := |s| - 1;
      var t, y := s[..n], s[n];
      InsertAdds(t, x, pos);
      AtLast(Insert(t, x), y, pos);
      AtLast(t, x, pos);
      AtLast(t, y, pos);
      AtLast(s, x, pos);
      assert s == t + [y];
    }
  }

  lemma AtLast(s: seq<Stop>, x: Stop, pos: real)
    ensures At(s + [x], pos) == At(s, pos) + if x.pos == pos then [x] else []
  {
    assert (s + [x])[..|s|] == s;
  }

  /** Sorting gives the same stops in order, and stops at the same position keep their order. */
  lemma {:induction false} StableSortSorts(s: seq<Stop>, pos: real)
    ensures Sorted(StableSort(s)) && multiset(StableSort(s)) == multiset(s) && At(StableSort(s), pos) == At(s, pos)
  {
    if s != [] {
      var n := |s| - 1;
      StableSortSorts(s[..n], pos);
      var r := StableSort(s[..n]);
      hide Insert, Sorted, StableSort;
      InsertSorts(r, s[n]);
      InsertAdds(r, s[n], pos);
      assert (r + [s[n]])[..n] == r && s == s[..n] + [s[n]];
    }
  }

  /** Stops that are in order stay as they are. */
  lemma {:induction false} StableSortKeeps(s: seq<Stop>)
    requires Sorted(s)
    ensures StableSort(s) == s
  {
    if s != [] {
      var n := |s| - 1;
      StableSortKeeps(s[..n]);
      assert s == s[..n] + [s[n]];
    }
  }

  // ---- a gradient in a document

  /** An element of a gradient's array: a position and a colour text, or something else. */
  datatype Entry = Entry(pos: real, color: string) | Malformed

  function EncodeGradient(s: seq<Stop>): (r: seq<Entry>)
    ensures |r| == |s|
    ensures forall i :: 0 <= i < |s| ==> r[i] == Entry(Rounded(s[i].pos), EncodeRgba(s[i].color))
  {
    if s == [] then [] else EncodeGradient(s[..|s| - 1]) + [Entry(Rounded(s[|s| - 1].pos), EncodeRgba(s[|s| - 1].color))]
  }

  predicate Decodable(e: Entry) { e.Entry? && DecodeRgba(e.color).Some? }

  function Decoded(e: Entry): Stop
    requires Decodable(e)
  {
    Stop(Clamp(e.pos, 0.0, 1.0), DecodeRgba(e.color).value)
  }

  /** One element that cannot be decoded spoils the whole list, and so does having none. */
  function DecodeGradient(entries: seq<Entry>): (r: Option<seq<Stop>>)
    ensures r.Some? <==> entries != [] && forall i :: 0 <= i < |entries| ==> Decodable(entries[i])
    ensures r.Some? ==> |r.value| == |entries| && forall i :: 0 <= i < |entries| ==> r.value[i] == Decoded(entries[i])
  {
    if entries != [] && forall i :: 0 <= i < |entries| ==> Decodable(entries[i])
    then Some(seq(|entries|, i requires 0 <= i < |entries| && Decodable(entries[i]) => Decoded(entries[i])))
    else None
  }

  lemma {:induction false} InsertStays(s: seq<Stop>, x: Stop)
    requires InRange(s) && 0.0 <= x.pos <= 1.0
    ensures InRange(Insert(s, x))
  {
    if s != [] && s[|s| - 1].pos > x.pos { InsertStays(s[..|s| - 1], x); }
  }

  lemma {:induction false} SortStays(s: seq<Stop>)
    requires InRange(s)
    ensures InRange(StableSort(s))
  {
    if s != [] {
      SortStays(s[..|s| - 1]);
      InsertStays(StableSort(s[..|s| - 1]), s[|s| - 1]);
    }
  }

  /** The positions, as they are written, are those of a gradient: between 0 and 1 and in order. */
  ghost predicate RoundsToGradient(s: seq<Stop>) {
    && s != [] && (forall i :: 0 <= i < |s| ==> 0.0 <= Rounded(s[i].pos) <= 1.0)
    && (forall i, j :: 0 <= i < j < |s| ==> Rounded(s[i].pos) <= Rounded(s[j].pos))
  }

  lemma GradientRounds(s: seq<Stop>)
    requires s != [] && Sorted(s) && InRange(s)
    ensures RoundsToGradient(s)
  {
    hide Rounded;
    UnitRounds();
    forall i | 0 <= i < |s| ensures 0.0 <= Rounded(s[i].pos) <= 1.0 {
      RoundedStaysInRange(s[i].pos, 0.0, 1.0);
    }
    forall i, j | 0 <= i < j < |s| ensures Rounded(s[i].pos) <= Rounded(s[j].pos) {
      RoundedKeepsOrder(s[i].pos, s[j].pos);
    }
  }

  /** Such a gradient is read back sorted and in range once it has been written, and written the same. */
  lemma GradientRoundTrip(s: seq<Stop>)
    requires RoundsToGradient(s)
    ensures var d := DecodeGradient(EncodeGradient(s));
            && d.Some? && Sorted(d.value) && InRange(d.value)
            && StableSort(d.value) == d.value && EncodeGradient(d.value) == EncodeGradient(s)
  {
    hide EncodeRgba, DecodeRgba, Rounded;
    var e := EncodeGradient(s);
    forall i | 0 <= i < |s| ensures Decodable(e[i]) && Entry(Rounded(Decoded(e[i]).pos), EncodeRgba(Decoded(e[i]).color)) == e[i]
                                    && Decoded(e[i]).pos == Rounded(s[i].pos) {
      ColorRoundTrip(s[i].color);
      RoundedAgain(s[i].pos);
    }
    var d := DecodeGradient(e).value;
    StableSortKeeps(d);
    assert forall i :: 0 <= i < |s| ==> EncodeGradient(d)[i] == e[i];
  }

  /** What applying the entries leaves: the stops that they say, in order, or what was there. */
  function GradientFrom(entries: seq<Entry>, def: seq<Stop>): seq<Stop> {
    if DecodeGradient(entries).Some? then StableSort(DecodeGradient(entries).value) else def
  }

  /** For any list of stops: written, read and written again it is the same, if and only if there are
      stops and their positions, as they are written, are between 0 and 1 and in order. */
  lemma GradientExactly(s: seq<Stop>, def: seq<Stop>)
    requires def != []
    ensures EncodeGradient(GradientFrom(EncodeGradient(s), def)) == EncodeGradient(s) <==> RoundsToGradient(s)
  {
    hide EncodeRgba, DecodeRgba, Rounded;
    if RoundsToGradient(s) {
      GradientRoundTrip(s);
    } else if s != [] && EncodeGradient(GradientFrom(EncodeGradient(s), def)) == EncodeGradient(s) {
      WrittenFromGradient(s, def);
    }
  }

  lemma WrittenFromGradient(s: seq<Stop>, def: seq<Stop>)
    requires s != [] && EncodeGradient(GradientFrom(EncodeGradient(s), def)) == EncodeGradient(s)
    ensures RoundsToGradient(s)
  {
    hide EncodeRgba, DecodeRgba, Rounded, StableSort;
    var e := EncodeGradient(s);
    forall i | 0 <= i < |s| ensures Decodable(e[i]) {
      ColorRoundTrip(s[i].color);
    }
    var d := DecodeGradient(e).value;
    StableSortSorts(d, 0.0);
    SortStays(d);
    GradientRounds(StableSort(d));
    assert forall i :: 0 <= i < |s| ==> EncodeGradient(StableSort(d))[i] == e[i];
  }

  /** What comes back of a gradient that has been written: as many stops in the same order, each at
      its place to the nearest thousandth and in its colour to half a step. */
  lemma GradientComesBack(s: seq<Stop>, def: seq<Stop>, i: nat)
    requires s != [] && Sorted(s) && InRange(s) && i < |s| && Shown(s[i].color)
    ensures var t := GradientFrom(EncodeGradient(s), def);
            |t| == |s| && Near(t[i].pos, s[i].pos, 0.0005) && ColorNear(t[i].color, s[i].color, 1.0 / 510.0)
  {
    GradientRounds(s);
    GradientRoundTrip(s);
    ColorComesBack(s[i].color);
    RoundedIsNear(s[i].pos);
    hide EncodeRgba, DecodeRgba, Rounded, StableSort, ColorNear, Shown, Near;
    var e := EncodeGradient(s);
    assert e[i] == Entry(Rounded(s[i].pos), EncodeRgba(s[i].color));
    var d := DecodeGradient(e).value;
    assert d[i] == Decoded(e[i]) && EncodeGradient(d)[i] == e[i];
    GradientRounded(s, i);
  }

  lemma GradientRounded(s: seq<Stop>, i: nat)
    requires i < |s| && InRange(s)
    ensures 0.0 <= Rounded(s[i].pos) <= 1.0
  {
    UnitRounds();
    RoundedStaysInRange(s[i].pos, 0.0, 1.0);
  }

  lemma UnitRounds()
    ensures Rounded(0.0) == 0.0 && Rounded(1.0) == 1.0
  {
  }

  // ---- sampling

  function Part(d: real, f: real): real { d * f }

  function Mix(a: real, b: real, f: real): real { a + Part(b - a, f) }

  function MixColor(a: Color, b: Color, f: real): Color {
    Color(Mix(a.x, b.x, f), Mix(a.y, b.y, f), Mix(a.z, b.z, f), Mix(a.w, b.w, f))
  }

  /** The part f of the way from a to b. */
  lemma MixExactly(a: real, b: real, f: real)
    ensures Mix(a, b, 0.0) == a && Mix(a, b, 1.0) == b && Mix(a, b, f) == a + f * (b - a)
  {
  }

  /** Every channel is mixed with its own. */
  lemma MixedByChannel(a: Color, b: Color, f: real)
    ensures var c := MixColor(a, b, f);
            && c.x == a.x + f * (b.x - a.x) && c.y == a.y + f * (b.y - a.y)
            && c.z == a.z + f * (b.z - a.z) && c.w == a.w + f * (b.w - a.w)
  {
    MixExactly(a.x, b.x, f);
    MixExactly(a.y, b.y, f);
    MixExactly(a.z, b.z, f);
    MixExactly(a.w, b.w, f);
    hide Mix;
  }

  predicate Between(v: real, a: real, b: real) { a <= v <= b || b <= v <= a }

  lemma MixIsBetween(a: real, b: real, f: real)
    requires 0.0 <= f <= 1.0
    ensures Between(Mix(a, b, f), a, b)
  {
    hide Part;
    PartOf(b - a, f);
  }

  lemma PartOf(d: real, f: real)
    requires 0.0 <= f <= 1.0
    ensures if d >= 0.0 then 0.0 <= Part(d, f) <= d else d <= Part(d, f) <= 0.0
  {
    if d >= 0.0 {
      Product(d, f);
      Product(d, 1.0 - f);
    } else {
      Product(-d, f);
      Product(-d, 1.0 - f);
      assert (-d) * f == -(d * f) && (-d) * (1.0 - f) == -d - (-d) * f;
    }
  }

  lemma Product(d: real, f: real)
    requires d >= 0.0 && f >= 0.0
    ensures d * f >= 0.0 && d * (1.0 - f) == d - d * f
  {
  }

  predicate ColorBetween(c: Color, a: Color, b: Color) {
    Between(c.x, a.x, b.x) && Between(c.y, a.y, b.y) && Between(c.z, a.z, b.z) && Between(c.w, a.w, b.w)
  }

  /** The first stop that is not before t, or the number of stops. */
  function Reached(s: seq<Stop>, t: real, k: nat): (r: nat)
    requires k <= |s|
    ensures k <= r <= |s| && (r < |s| ==> t <= s[r].pos) && forall i :: k <= i < r ==> s[i].pos < t
    decreases |s| - k
  {
    if k == |s| || t <= s[k].pos then k else Reached(s, t, k + 1)
  }

  /** sampleGradient. Whatever the order of the stops, the two that are mixed enclose t, so that
      the division is never by zero; the colour lies between theirs. */
  method SampleGradient(s: seq<Stop>, t: real) returns (c: Color)
    ensures s == [] ==> c == Color(0.0, 0.0, 0.0, 0.0)
    ensures var u := Clamp(t, 0.0, 1.0);
            s != [] ==>
              var k := Reached(s, u, 0);
              if k == |s| then c == s[|s| - 1].color
              else if k == 0 then c == s[0].color
              else && s[k - 1].pos < u <= s[k].pos
                   && c == MixColor(s[k - 1].color, s[k].color, (u - s[k - 1].pos) / (s[k].pos - s[k - 1].pos))
                   && ColorBetween(c, s[k - 1].color, s[k].color)
  {
    if s == [] { return Color(0.0, 0.0, 0.0, 0.0); }
    var u := Clamp(t, 0.0, 1.0);
    var prev := s[0];
    if u <= prev.pos { return prev.color; }
    var k := 0;
    while k < |s| && s[k].pos < u
      invariant k <= |s| && Reached(s, u, 0) == Reached(s, u, k)
      invariant prev.pos < u && prev == s[if k == 0 then 0 else k - 1]
    {
      prev := s[k];
      k := k + 1;
    }
    if k == |s| { return s[|s| - 1].color; }
    var span := s[k].pos - prev.pos;
    assert span > 0.0;
    var f := if span > 0.0 then (u - prev.pos) / span else 1.0;
    Fraction(u - prev.pos, span);
    hide Mix, Reached;
    var a, b := prev.color, s[k].color;
    MixIsBetween(a.x, b.x, f);
    MixIsBetween(a.y, b.y, f);
    MixIsBetween(a.z, b.z, f);
    MixIsBetween(a.w, b.w, f);
    c := MixColor(a, b, f);
  }

  lemma Fraction(part: real, whole: real)
    requires 0.0 <= part <= whole && whole > 0.0
    ensures 0.0 <= part / whole <= 1.0
  {
  }
}
