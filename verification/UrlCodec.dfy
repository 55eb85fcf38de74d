/** Percent-encoding as in section 2.1 of RFC 3986 (core/src/EmbeddableWebServer.h): the encoder
    writes to a growing heap string, the decoder to a buffer of fixed capacity. A C string is a
    sequence of bytes without NUL, followed by one. */
module UrlCodec {

  type Byte = b: int | 0 <= b < 256

  const AMPERSAND: Byte := 38
  const PERCENT: Byte := 37
  const PLUS: Byte := 43
  const SPACE: Byte := 32

  /** The text before the first NUL. */
  function Text(s: seq<Byte>): seq<Byte> {
    if s == [] || s[0] == 0 then [] else [s[0]] + Text(s[1..])
  }

  // ---- encoding

  predicate Plain(c: Byte) {
    65 <= c <= 90 || 97 <= c <= 122 || 48 <= c <= 57 || c == 46 || c == 47 || c == 45
  }

  // %x of one digit
  function HexDigit(d: int): Byte
    requires 0 <= d < 16
  {
    if d < 10 then 48 + d else 87 + d
  }

  function EscapeByte(c: Byte): seq<Byte> {
    if Plain(c) then [c] else [PERCENT, HexDigit(c / 16), HexDigit(c % 16)]
  }

  function Escape(s: seq<Byte>): seq<Byte> {
    if s == [] then [] else EscapeByte(s[0]) + Escape(s[1..])
  }

  lemma {:induction false} EscapeSum(s: seq<Byte>, t: seq<Byte>)
    ensures Escape(s + t) == Escape(s) + Escape(t)
  {
    if s == [] {
      assert s + t == t;
    } else {
      assert (s + t)[1..] == s[1..] + t;
      EscapeSum(s[1..], t);
    }
  }

  lemma EscapeOfNone()
    ensures Escape([]) == []
  {
  }

  // The escaped text and the rest of a C string, one byte further.
  lemma EscapeGrows(s: seq<Byte>, i: nat)
    requires i < |s| && s[i] != 0
    ensures Escape(s[..i + 1]) == Escape(s[..i]) + EscapeByte(s[i])
    ensures Text(s[i..]) == [s[i]] + Text(s[i + 1..])
    ensures s[..i] + Text(s[i..]) == s[..i + 1] + Text(s[i + 1..])
  {
    EscapeSum(s[..i], [s[i]]);
    assert s[..i] + [s[i]] == s[..i + 1];
    assert Escape([s[i]]) == EscapeByte(s[i]) + [];
    assert s[i..][1..] == s[i + 1..];
  }

  lemma TextEnds(s: seq<Byte>, i: nat)
    requires i <= |s| && (i < |s| ==> s[i] == 0)
    ensures Text(s[i..]) == []
  {
  }

  /** The escaped text is a C string, and no byte of it ends a parameter. */
  lemma {:induction false} EscapeIsText(s: seq<Byte>)
    ensures 0 !in Escape(s) && AMPERSAND !in Escape(s) && PLUS !in Escape(s)
    ensures |s| <= |Escape(s)| <= 3 * |s|
  {
    if s != [] { EscapeIsText(s[1..]); }
  }

  // ---- decoding

  datatype Kind = WholeUrl | Parameter

  /** What sscanf("%02x") makes of two characters: a byte, or nothing. Of the C library the model
      knows only what it does with two hexadecimal digits. */
  type Scan = (Byte, Byte) -> Option
  datatype Option = None | Some(value: Byte)

  // The value of a hexadecimal digit, small or capital.
  function HexValue(c: Byte): (r: Option)
    ensures r.Some? ==> r.value < 16
  {
    if 48 <= c <= 57 then Some(c - 48)
    else if 97 <= c <= 102 then Some(c - 87)
    else if 65 <= c <= 70 then Some(c - 55)
    else None
  }

  lemma HexValueExactly(c: Byte, d: Byte)
    ensures HexValue(c) == Some(d) <==>
            d < 16 && (c as char == "0123456789abcdef"[d] || c as char == "0123456789ABCDEF"[d])
  {
    if d < 16 {
      assert "0123456789abcdef"[d] as int == if d < 10 then 48 + d else 87 + d;
      assert "0123456789ABCDEF"[d] as int == if d < 10 then 48 + d else 55 + d;
    }
  }

  ghost predicate ScansHex(scan: Scan) {
    forall d, e :: HexValue(d).Some? && HexValue(e).Some? ==>
      scan(d, e) == Some(16 * HexValue(d).value + HexValue(e).value)
  }

  /** Letters, digits, the dot, the slash and the hyphen are written as they are; of every other byte a
      percent sign and its two digits, small letters. */
  lemma EscapeOfOne(c: Byte)
    ensures var ch := c as char;
            if 'A' <= ch <= 'Z' || 'a' <= ch <= 'z' || '0' <= ch <= '9' || ch in "./-" then Escape([c]) == [c]
            else
              var e := Escape([c]);
              && |e| == 3 && e[0] as char == '%'
              && HexValue(e[1]) == Some(c / 16) && HexValue(e[2]) == Some(c % 16)
              && !('A' <= e[1] as char <= 'F') && !('A' <= e[2] as char <= 'F')
  {
    assert Escape([c][1..]) == [];
    assert Escape([c]) == EscapeByte(c) + [];
  }

  datatype Mode = Normal | FirstDigit | SecondDigit(first: Byte)

  /** One turn of the decoder's loop: the mode and the decoded bytes after the byte c. */
  function Step(mode: Mode, out: seq<Byte>, c: Byte, scan: Scan): (Mode, seq<Byte>) {
    match mode
    case Normal =>
      if c == PERCENT then (FirstDigit, out) else (Normal, out + [if c == PLUS then SPACE else c])
    case FirstDigit => (SecondDigit(c), out)
    case SecondDigit(first) =>
      match scan(first, c)
      case None => (Normal, out)
      case Some(v) => (Normal, out + [v])
  }

  /** The decoded bytes, and whether the capacity was enough. */
  function Decode(t: seq<Byte>, mode: Mode, out: seq<Byte>, capacity: int, kind: Kind, scan: Scan): (seq<Byte>, bool)
    decreases |t|
  {
    if t == [] || (t[0] == AMPERSAND && kind == Parameter) then (out, true)
    else if |out| >= capacity - 1 then (out, false)
    else
      var (mode', out') := Step(mode, out, t[0], scan);
      Decode(t[1..], mode', out', capacity, kind, scan)
  }

  /** Decoding never writes more than it reads, and a buffer with one byte more than the text is
      always enough. */
  lemma {:induction false} DecodedIsNoLonger(t: seq<Byte>, mode: Mode, out: seq<Byte>, capacity: int, kind: Kind,
      scan: Scan)
    ensures |Decode(t, mode, out, capacity, kind, scan).0| <= |out| + |t|
    ensures |out| < capacity ==> |Decode(t, mode, out, capacity, kind, scan).0| < capacity
    ensures |out| + |t| < capacity ==> Decode(t, mode, out, capacity, kind, scan).1
    decreases |t|
  {
    if !(t == [] || (t[0] == AMPERSAND && kind == Parameter)) && |out| < capacity - 1 {
      var (mode', out') := Step(mode, out, t[0], scan);
      DecodedIsNoLonger(t[1..], mode', out', capacity, kind, scan);
    }
  }

  /** Decoding an escaped text gives the text back, in both kinds, as far as the capacity goes; and
      the decoder reports success exactly when the capacity is greater than the text's length. */
  lemma {:induction false} DecodeEscape(s: seq<Byte>, out: seq<Byte>, capacity: int, kind: Kind, scan: Scan)
    requires ScansHex(scan) && |out| < capacity
    ensures var room := capacity - 1 - |out|;
            Decode(Escape(s), Normal, out, capacity, kind, scan)
            == if |s| <= room then (out + s, true) else (out + s[..room], false)
  {
    hide ScansHex, Step, EscapeByte;
    if s == [] {
      assert out + s == out;
    } else if |out| == capacity - 1 {
      assert out + s[..0] == out;
      EscapeIsText(s);
      assert Escape(s)[0] in Escape(s);
    } else {
      DecodeOne(s[0], Escape(s[1..]), out, capacity, kind, scan);
      DecodeEscape(s[1..], out + [s[0]], capacity, kind, scan);
      var room := capacity - 1 - |out|;
      if |s| <= room {
        assert out + [s[0]] + s[1..] == out + s;
      } else {
        assert out + [s[0]] + s[1..][..room - 1] == out + s[..room];
      }
    }
  }

  // The decoder's turns for one escaped byte.
  lemma DecodeOne(c: Byte, rest: seq<Byte>, out: seq<Byte>, capacity: int, kind: Kind, scan: Scan)
    requires ScansHex(scan) && |out| < capacity - 1
    ensures Decode(EscapeByte(c) + rest, Normal, out, capacity, kind, scan)
         == Decode(rest, Normal, out + [c], capacity, kind, scan)
  {
    var t := EscapeByte(c) + rest;
    if Plain(c) {
      assert t[1..] == rest;
    } else {
      var d, e := c / 16, c % 16;
      assert HexValue(HexDigit(d)) == Some(d) && HexValue(HexDigit(e)) == Some(e) && 16 * d + e == c;
      assert scan(HexDigit(d), HexDigit(e)) == Some(c);
      assert t[0] == PERCENT && t[1..][0] == HexDigit(d) && t[1..][1..][0] == HexDigit(e) && t[1..][1..][1..] == rest;
      assert Decode(t, Normal, out, capacity, kind, scan) == Decode(t[1..], FirstDigit, out, capacity, kind, scan);
      assert Decode(t[1..], FirstDigit, out, capacity, kind, scan)
          == Decode(t[1..][1..], SecondDigit(HexDigit(d)), out, capacity, kind, scan);
    }
  }

  /** Text without percent signs is taken as it is, but for the plus signs, which become spaces. */
  lemma {:induction false} DecodePlain(t: seq<Byte>, out: seq<Byte>, capacity: int, kind: Kind, scan: Scan)
    requires PERCENT !in t && (kind == Parameter ==> AMPERSAND !in t) && |out| + |t| < capacity
    ensures var (r, ok) := Decode(t, Normal, out, capacity, kind, scan);
            && ok && |r| == |out| + |t| && r[..|out|] == out
            && forall i :: 0 <= i < |t| ==> r[|out| + i] == if t[i] as char == '+' then ' ' as int else t[i]
  {
    if t != [] {
      var c := if t[0] == PLUS then SPACE else t[0];
      DecodePlain(t[1..], out + [c], capacity, kind, scan);
      var r := Decode(t, Normal, out, capacity, kind, scan).0;
      assert r[..|out|] == r[..|out| + 1][..|out|];
      assert r[|out|] == r[..|out| + 1][|out|];
      forall i | 0 < i < |t| ensures r[|out| + i] == if t[i] == PLUS then SPACE else t[i] {
        assert r[|out| + i] == r[|out + [c]| + (i - 1)] && t[i] == t[1..][i - 1];
      }
    }
  }

  /** A parameter ends at the first ampersand, whatever stands behind it; a whole URL does not. */
  lemma {:induction false} DecodeStops(t: seq<Byte>, rest: seq<Byte>, mode: Mode, out: seq<Byte>, capacity: int, scan: Scan)
    ensures Decode(t + [AMPERSAND] + rest, mode, out, capacity, Parameter, scan) == Decode(t, mode, out, capacity, Parameter, scan)
    ensures |out| < capacity - 1 ==>
              Decode([AMPERSAND] + rest, Normal, out, capacity, WholeUrl, scan)
              == Decode(rest, Normal, out + ['&' as int], capacity, WholeUrl, scan)
    decreases |t|
  {
    hide Step;
    var all := t + [AMPERSAND] + rest;
    if t != [] && t[0] != AMPERSAND && |out| < capacity - 1 {
      var (mode', out') := Step(mode, out, t[0], scan);
      DecodeStops(t[1..], rest, mode', out', capacity, scan);
      assert all[1..] == t[1..] + [AMPERSAND] + rest;
    }
    if |out| < capacity - 1 { WholeUrlGoesOn(rest, out, capacity, scan); }
  }

  lemma WholeUrlGoesOn(rest: seq<Byte>, out: seq<Byte>, capacity: int, scan: Scan)
    requires |out| < capacity - 1
    ensures Decode([AMPERSAND] + rest, Normal, out, capacity, WholeUrl, scan)
         == Decode(rest, Normal, out + ['&' as int], capacity, WholeUrl, scan)
  {
    assert ([AMPERSAND] + rest)[1..] == rest;
  }

  /** A percent sign and two bytes stand for what sscanf makes of the two, and for nothing if that is
      nothing. */
  lemma DecodeTriple(d: Byte, e: Byte, rest: seq<Byte>, out: seq<Byte>, capacity: int, kind: Kind, scan: Scan)
    requires |out| < capacity - 1 && (kind == Parameter ==> d != AMPERSAND && e != AMPERSAND)
    ensures Decode([PERCENT, d, e] + rest, Normal, out, capacity, kind, scan)
         == Decode(rest, Normal, match scan(d, e) case Some(v) => out + [v] case None => out, capacity, kind, scan)
  {
    var t := [PERCENT, d, e] + rest;
    assert t[1..] == [d, e] + rest && t[1..][1..] == [e] + rest && t[1..][1..][1..] == rest;
    assert Decode(t, Normal, out, capacity, kind, scan) == Decode(t[1..], FirstDigit, out, capacity, kind, scan);
    assert Decode(t[1..], FirstDigit, out, capacity, kind, scan)
        == Decode(t[1..][1..], SecondDigit(d), out, capacity, kind, scan);
  }

  lemma {:induction false} TextOfCString(s: seq<Byte>, rest: seq<Byte>)
    ensures Text(s + [0] + rest) == Text(s)
    ensures 0 !in s ==> Text(s) == s
  {
    if s != [] && s[0] != 0 {
      assert (s + [0] + rest)[1..] == s[1..] + [0] + rest;
      TextOfCString(s[1..], rest);
    }
  }

  /** Decoding the C string that the encoder returns: the original text for every capacity that is
      greater than its length, and its first bytes with a failure for every other. */
  lemma UrlRoundTrip(s: seq<Byte>, rest: seq<Byte>, capacity: nat, kind: Kind, scan: Scan)
    requires ScansHex(scan) && capacity >= 1
    ensures Decode(Text(Escape(s) + [0] + rest), Normal, [], capacity, kind, scan)
         == if |s| < capacity then (s, true) else (s[..capacity - 1], false)
  {
    EscapeIsText(s);
    TextOfCString(Escape(s), rest);
    DecodeEscape(s, [], capacity, kind, scan);
    assert [] + s == s && (|s| >= capacity ==> [] + s[..capacity - 1] == s[..capacity - 1]);
  }

  // ---- the heap string

  class HeapString {
    var contents: array?<Byte>
    var length: nat
    var capacity: nat

    ghost predicate Valid()
      reads this, contents
    {
      if contents == null then capacity == 0 && length == 0
      else capacity == contents.Length && length < capacity && contents[length] == 0
    }

    ghost function Value(): seq<Byte>
      reads this, contents
      requires Valid()
    {
      if contents == null then [] else contents[..length]
    }

    constructor ()
      ensures Valid() && contents == null && Value() == []
    {
      contents, length, capacity := null, 0, 0;
    }

    // At least 256, and a power of two.
    static method NextAllocationSize(required: nat) returns (size: nat)
      ensures required <= size && 256 <= size && (size == 256 || size < 2 * required)
    {
      size := 256;
      while size < required
        invariant 256 <= size && (size == 256 || size < 2 * required)
      {
        size := 2 * size;
      }
    }

    // realloc, with the rest zeroed
    method ReallocIfNeeded(minimum: nat)
      requires Valid()
      modifies this`contents, this`capacity
      ensures Valid() && Value() == old(Value()) && minimum <= capacity
      ensures contents == old(contents) || fresh(contents)
    {
      if minimum <= capacity { return; }
      capacity := NextAllocationSize(minimum);
      var moved := new Byte[capacity](_ => 0);
      if contents != null {
        forall i | 0 <= i < length {
          moved[i] := contents[i];
        }
        assert moved[..length] == contents[..length];
      }
      contents := moved;
    }

    /** Appends formatted text: the value grows by it and stays terminated. */
    method Append(text: seq<Byte>)
      requires Valid()
      modifies this, contents
      ensures Valid() && contents != null && Value() == old(Value()) + text
      ensures contents == old(contents) || fresh(contents)
    {
      ReallocIfNeeded(length + |text| + 1);
      var i := 0;
      ghost var was := Value();
      while i < |text|
        invariant i <= |text| && contents != null && length == |was| + i && |was| + |text| < contents.Length == capacity
        invariant contents[..length] == was + text[..i]
        invariant contents == old(contents) || fresh(contents)
      {
        contents[length] := text[i];
        length := length + 1;
        i := i + 1;
      }
      contents[length] := 0;
    }
  }

  // ---- the two routines

  /** strdupEscapeForURL: the escaped text, or a null pointer for the empty one. */
  method EscapeForUrl(s: seq<Byte>) returns (r: HeapString)
    ensures fresh(r) && r.Valid() && r.Value() == Escape(Text(s)) && (r.contents == null <==> Text(s) == [])
  {
    hide Escape, Text;
    EscapeOfNone();
    assert s[..0] == [] && s[0..] == s;
    r := new HeapString();
    var i := 0;
    while i < |s| && s[i] != 0
      invariant i <= |s| && fresh(r) && r.Valid() && (r.contents != null ==> fresh(r.contents))
      invariant r.Value() == Escape(s[..i]) && Text(s) == s[..i] + Text(s[i..])
      invariant r.contents == null <==> i == 0
    {
      EscapeGrows(s, i);
      if Plain(s[i]) {
        r.Append([s[i]]);
      } else {
        r.Append([PERCENT, HexDigit(s[i] / 16), HexDigit(s[i] % 16)]);
      }
      i := i + 1;
    }
    TextEnds(s, i);
    assert Text(s[i..]) == [] && s[..i] + [] == s[..i];
  }

  /** URLDecode: the decoded text with a NUL behind it, and whether all of it fitted. */
  method UrlDecode(encoded: seq<Byte>, decoded: array<Byte>, kind: Kind, scan: Scan) returns (length: nat, ok: bool)
    requires 0 in encoded && decoded.Length >= 1
    modifies decoded
    ensures length < decoded.Length && decoded[length] == 0
    ensures (decoded[..length], ok) == Decode(Text(encoded), Normal, [], decoded.Length, kind, scan)
    ensures forall i :: length < i < decoded.Length ==> decoded[i] == old(decoded[i])
  {
    ghost var all := Decode(Text(encoded), Normal, [], decoded.Length, kind, scan);
    var mode, e := Normal, 0;
    length, ok := 0, true;
    assert encoded[0..] == encoded && decoded[..0] == [];
    while encoded[e] != 0 && !(encoded[e] == AMPERSAND && kind == Parameter)
      invariant e < |encoded| && 0 in encoded[e..] && length < decoded.Length && ok
      invariant Decode(Text(encoded[e..]), mode, decoded[..length], decoded.Length, kind, scan) == all
      invariant forall i :: length <= i < decoded.Length ==> decoded[i] == old(decoded[i])
      decreases |encoded| - e
    {
      assert Text(encoded[e..]) == [encoded[e]] + Text(encoded[e + 1..]);
      if length >= decoded.Length - 1 {
        ok := false;
        break;
      }
      ghost var (mode', out') := Step(mode, decoded[..length], encoded[e], scan);
      match mode {
        case Normal =>
          if encoded[e] == PERCENT {
            mode := FirstDigit;
          } else if encoded[e] == PLUS {
            decoded[length] := SPACE;
            length := length + 1;
          } else {
            decoded[length] := encoded[e];
            length := length + 1;
          }
        case FirstDigit =>
          mode := SecondDigit(encoded[e]);
        case SecondDigit(first) =>
          match scan(first, encoded[e]) {
            case Some(v) =>
              decoded[length] := v;
              length := length + 1;
            case None =>
          }
          mode := Normal;
      }
      assert mode == mode' && decoded[..length] == out';
      e := e + 1;
    }
    decoded[length] := 0;
  }
}
