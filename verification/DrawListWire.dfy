/** The elements of a SmGui draw list and their bytes: core/src/gui/smgui.h and the functions
    storeItem, store, loadItem, load, getItemSize and getSize of core/src/gui/smgui.cpp. */
module DrawListWire {

  newtype byte = x: int | 0 <= x < 0x100
  newtype int32 = x: int | -0x8000_0000 <= x < 0x8000_0000
  // A float is only ever copied, so it is the 32 bits of its representation.
  newtype word = x: int | 0 <= x < 0x1_0000_0000

  datatype Tag = StepTag | BoolTag | IntTag | FloatTag | StringTag

  datatype Elem =
    | StepElem(step: byte, forceSync: bool)
    | BoolElem(b: bool)
    | IntElem(i: int32)
    | FloatElem(f: word)
    | StringElem(str: seq<byte>)
  {
    function Tag(): Tag {
      match this
      case StepElem(_, _) => StepTag
      case BoolElem(_) => BoolTag
      case IntElem(_) => IntTag
      case FloatElem(_) => FloatTag
      case StringElem(_) => StringTag
    }
  }

  const MAX_STRING := 0x1_0000

  // ---- machine words in memory, least significant byte first

  function WordOfInt(i: int32): word {
    if i < 0 then (i as int + 0x1_0000_0000) as word else i as int as word
  }

  function IntOfWord(w: word): int32 {
    if w as int >= 0x8000_0000 then (w as int - 0x1_0000_0000) as int32 else w as int as int32
  }

  function Bytes4(w: word): seq<byte> {
    var n := w as int;
    [(n % 0x100) as byte, (n / 0x100 % 0x100) as byte, (n / 0x100 / 0x100 % 0x100) as byte, (n / 0x100 / 0x100 / 0x100) as byte]
  }

  function Word4(s: seq<byte>): word
    requires |s| >= 4
  {
    (s[0] as int + 0x100 * (s[1] as int + 0x100 * (s[2] as int + 0x100 * (s[3] as int)))) as word
  }

  // The length of a string is stored in 16 bits.
  function Bytes2(n: nat): seq<byte> {
    [(n % 0x100) as byte, (n / 0x100 % 0x100) as byte]
  }

  function Word2(s: seq<byte>): nat
    requires |s| >= 2
  {
    s[0] as int + 0x100 * (s[1] as int)
  }

  function BoolByte(b: bool): byte { if b then 1 else 0 }

  lemma Word4Bytes4(w: word, rest: seq<byte>)
    ensures Word4(Bytes4(w) + rest) == w
  {
    var n := w as int;
    var q := n / 0x100;
    assert q == q % 0x100 + 0x100 * (q / 0x100 % 0x100 + 0x100 * (q / 0x100 / 0x100));
    var s := Bytes4(w) + rest;
    assert s[0] as int == n % 0x100 && s[1] as int == q % 0x100;
    assert s[2] as int == q / 0x100 % 0x100 && s[3] as int == q / 0x100 / 0x100;
  }

  lemma Word2Bytes2(n: nat, rest: seq<byte>)
    ensures Word2(Bytes2(n) + rest) == n % MAX_STRING
  {
    assert n % 0x1_0000 == n % 0x100 + 0x100 * (n / 0x100 % 0x100);
  }

  lemma IntThroughWord(i: int32)
    ensures IntOfWord(WordOfInt(i)) == i
  {
  }

  // ---- storing

  function ItemSize(e: Elem): nat {
    match e
    case StepElem(_, _) => 3
    case BoolElem(_) => 2
    case IntElem(_) => 5
    case FloatElem(_) => 5
    case StringElem(str) => 3 + |str|
  }

  function TypeByte(e: Elem): byte {
    match e
    case StepElem(_, _) => 0
    case BoolElem(_) => 1
    case IntElem(_) => 2
    case FloatElem(_) => 3
    case StringElem(_) => 4
  }

  function Payload(e: Elem): (r: seq<byte>)
    ensures 1 + |r| == ItemSize(e)
  {
    match e
    case StepElem(step, force) => [step, BoolByte(force)]
    case BoolElem(b) => [BoolByte(b)]
    case IntElem(i) => Bytes4(WordOfInt(i))
    case FloatElem(f) => Bytes4(f)
    case StringElem(str) => Bytes2(|str|) + str
  }

  function Item(e: Elem): (r: seq<byte>)
    ensures |r| == ItemSize(e)
  {
    [TypeByte(e)] + Payload(e)
  }

  // The number in four bytes, least significant first.
  predicate IsNumber(s: seq<byte>, n: int) {
    |s| == 4 && s[0] as int + 256 * (s[1] as int) + 65536 * (s[2] as int) + 16777216 * (s[3] as int) == n
  }

  /** The bytes of an item: its type, 0 to 4 in the order of the enumeration; of a step its code and its
      flag, 0 or 1; of a number four bytes, a negative one as its complement; of a string its length
      modulo 65536 in two bytes, least significant first, and its bytes. */
  lemma ItemLayout(e: Elem)
    ensures match e
            case StepElem(step, force) => Item(e) == [0, step, if force then 1 else 0]
            case BoolElem(b) => Item(e) == [1, if b then 1 else 0]
            case IntElem(i) => Item(e)[0] == 2 && IsNumber(Item(e)[1..], if i < 0 then 4294967296 + i as int else i as int)
            case FloatElem(f) => Item(e)[0] == 3 && IsNumber(Item(e)[1..], f as int)
            case StringElem(str) =>
              && Item(e)[0] == 4 && Item(e)[1] as int + 256 * (Item(e)[2] as int) == |str| % 65536 && Item(e)[3..] == str
  {
    match e
    case StepElem(_, _) =>
    case BoolElem(_) =>
    case IntElem(i) => BytesAreNumber(WordOfInt(i));
    case FloatElem(f) => BytesAreNumber(f);
    case StringElem(str) => Word2Bytes2(|str|, []);
  }

  lemma BytesAreNumber(w: word)
    ensures IsNumber(Bytes4(w), w as int)
  {
    Word4Bytes4(w, []);
    assert Bytes4(w) + [] == Bytes4(w);
  }

  function Size(es: seq<Elem>): nat {
    if es == [] then 0 else ItemSize(es[0]) + Size(es[1..])
  }

  /** The bytes of a list, one item after the other. */
  function Stored(es: seq<Elem>): (r: seq<byte>)
    ensures |r| == Size(es)
  {
    if es == [] then [] else Item(es[0]) + Stored(es[1..])
  }

  lemma {:induction false} StoredSnoc(es: seq<Elem>, e: Elem)
    ensures Stored(es + [e]) == Stored(es) + Item(e)
    ensures Size(es + [e]) == Size(es) + ItemSize(e)
  {
    hide Item, ItemSize;
    if es == [] {
      assert es + [e] == [e] && [e][1..] == [];
    } else {
      StoredSnoc(es[1..], e);
      assert (es + [e])[1..] == es[1..] + [e];
    }
  }

  // ---- loading

  /** What loadItem does at the start of memory `data` with `len` bytes claimed: an element and
      the bytes consumed, a refusal, or a read outside the memory. */
  datatype Loaded = Got(elem: Elem, consumed: nat) | Refused | Overrun

  function LoadItem(data: seq<byte>, len: int): (r: Loaded)
    requires len > 0
    ensures r.Got? ==> 0 < r.consumed <= |data| && r.consumed <= len + 1
  {
    if data == [] then Overrun
    else if data[0] == 0 && len >= 2 then
      if |data| < 3 then Overrun else Got(StepElem(data[1], data[2] != 0), 3)
    else if data[0] == 1 then
      if |data| < 2 then Overrun else Got(BoolElem(data[1] != 0), 2)
    else if data[0] == 2 && len >= 4 then
      if |data| < 5 then Overrun else Got(IntElem(IntOfWord(Word4(data[1..]))), 5)
    else if data[0] == 3 && len >= 4 then
      if |data| < 5 then Overrun else Got(FloatElem(Word4(data[1..])), 5)
    else if data[0] == 4 && len >= 2 then
      if |data| < 3 then Overrun
      else
        var slen := Word2(data[1..]);
        if len < slen + 2 then Refused
        else if |data| < 3 + slen then Overrun
        else Got(StringElem(data[3..3 + slen]), slen + 3)
    else Refused
  }

  /** What the loop of load() does: all the elements, those before a refused item, or a read
      outside the memory. */
  datatype LoadedAll = All(elems: seq<Elem>, consumed: nat) | Partial(elems: seq<Elem>) | Overran

  function LoadAll(data: seq<byte>, len: int): LoadedAll
    decreases len
  {
    if len <= 0 then All([], 0)
    else match LoadItem(data, len)
      case Overrun => Overran
      case Refused => Partial([])
      case Got(e, n) =>
        match LoadAll(data[n..], len - n)
        case Overran => Overran
        case Partial(es) => Partial([e] + es)
        case All(es, m) => All([e] + es, n + m)
  }

  // ---- loading what was stored

  lemma StringBytes(str: seq<byte>, after: seq<byte>, n: nat)
    requires n <= |str|
    ensures var data := [4 as byte] + (Bytes2(|str|) + str) + after;
            |data| == 3 + |str| + |after| && data[0] == 4
            && data[1..] == Bytes2(|str|) + (str + after)
            && data[3..3 + n] == str[..n]
  {
    var head, tail := [4 as byte] + Bytes2(|str|), str + after;
    hide Bytes2;
    var data := [4 as byte] + (Bytes2(|str|) + str) + after;
    assert data == head + tail;
    assert (head + tail)[3..3 + n] == tail[..n] == str[..n];
  }

  // A string comes back cut to the low 16 bits of its length.
  lemma LoadStoredString(str: seq<byte>, after: seq<byte>, len: int)
    requires 3 + |str| <= len
    ensures LoadItem(Item(StringElem(str)) + after, len)
            == Got(StringElem(str[..|str| % MAX_STRING]), |str| % MAX_STRING + 3)
  {
    var slen := |str| % MAX_STRING;
    assert slen <= |str|;
    StringBytes(str, after, slen);
    Word2Bytes2(|str|, str + after);
    assert Item(StringElem(str)) == [4] + (Bytes2(|str|) + str);
    hide Bytes2, Word2, Word4, IntOfWord, Item, Payload, ItemSize;
  }

  lemma LoadStoredItem(e: Elem, after: seq<byte>, len: int)
    requires ItemSize(e) <= len
    requires e.StringElem? ==> |e.str| < MAX_STRING
    ensures LoadItem(Item(e) + after, len) == Got(e, ItemSize(e))
  {
    var data := Item(e) + after;
    match e
    case StepElem(step, force) =>
    case BoolElem(b) =>
    case IntElem(v) =>
      assert data[1..] == Bytes4(WordOfInt(v)) + after;
      Word4Bytes4(WordOfInt(v), after);
      IntThroughWord(v);
    case FloatElem(f) =>
      assert data[1..] == Bytes4(f) + after;
      Word4Bytes4(f, after);
    case StringElem(str) =>
      LoadStoredString(str, after, len);
      assert str[..|str|] == str;
  }

  predicate ShortStrings(es: seq<Elem>) {
    forall k :: 0 <= k < |es| && es[k].StringElem? ==> |es[k].str| < MAX_STRING
  }

  // One item of a stored list, then the rest of it.
  lemma LoadOne(es: seq<Elem>, after: seq<byte>)
    requires es != [] && (es[0].StringElem? ==> |es[0].str| < MAX_STRING)
    ensures LoadAll(Stored(es) + after, Size(es)) ==
            match LoadAll(Stored(es[1..]) + after, Size(es[1..])) {
              case Overran => Overran
              case Partial(rest) => Partial([es[0]] + rest)
              case All(rest, m) => All([es[0]] + rest, ItemSize(es[0]) + m)
            }
  {
    hide Item, LoadItem;
    var tail := Stored(es[1..]) + after;
    assert Stored(es) + after == Item(es[0]) + tail;
    LoadStoredItem(es[0], tail, Size(es));
    assert (Item(es[0]) + tail)[ItemSize(es[0])..] == tail;
  }

  /** Loading the stored bytes of a list gives the list back and reads no byte beyond them,
      whatever follows in memory. */
  lemma {:induction false} LoadStored(es: seq<Elem>, after: seq<byte>)
    requires ShortStrings(es)
    ensures LoadAll(Stored(es) + after, Size(es)) == All(es, Size(es))
  {
    if es != [] {
      LoadOne(es, after);
      LoadStored(es[1..], after);
      assert es == [es[0]] + es[1..];
    }
  }

  lemma {:induction false} LongStringIsLost(es: seq<Elem>, after: seq<byte>)
    requires !ShortStrings(es)
    ensures var r := LoadAll(Stored(es) + after, Size(es)); r.Overran? || r.elems != es
  {
    var e, rest := es[0], es[1..];
    if e.StringElem? && |e.str| >= MAX_STRING {
      assert Stored(es) + after == Item(e) + (Stored(rest) + after);
      LoadStoredString(e.str, Stored(rest) + after, Size(es));
    } else {
      LoadOne(es, after);
      assert !ShortStrings(rest) by {
        var k :| 0 <= k < |es| && es[k].StringElem? && |es[k].str| >= MAX_STRING;
        assert rest[k - 1] == es[k];
      }
      LongStringIsLost(rest, after);
      var r := LoadAll(Stored(rest) + after, Size(rest));
      assert !r.Overran? ==> ([e] + r.elems)[1..] == r.elems;
    }
  }

  /** The round trip holds exactly for lists whose strings are shorter than 65536 bytes. */
  lemma RoundTripExactly(es: seq<Elem>, after: seq<byte>)
    ensures LoadAll(Stored(es) + after, Size(es)) == All(es, Size(es)) <==> ShortStrings(es)
  {
    if ShortStrings(es) {
      LoadStored(es, after);
    } else {
      LongStringIsLost(es, after);
    }
  }

  // ---- the length checks of loadItem

  /** The bytes the first item takes up, as far as its type byte and length field say. */
  function Extent(data: seq<byte>): nat
    requires data != []
  {
    if data[0] == 0 then 3 else if data[0] == 1 then 2 else if data[0] == 2 || data[0] == 3 then 5
    else if data[0] == 4 then (if |data| > 2 then 3 + Word2(data[1..]) else 3)
    else 1
  }

  /** loadItem counts the type byte as payload: given memory that ends where the claimed length
      ends, it reads past the end exactly when the item is cut by one byte. A longer cut is
      refused, and an item that is whole is read within bounds. */
  lemma OverrunExactly(data: seq<byte>)
    requires data != []
    ensures LoadItem(data, |data|).Overrun? <==> Extent(data) == |data| + 1
    ensures data[0] <= 4 ==> (LoadItem(data, |data|).Refused? <==> Extent(data) > |data| + 1)
  {
  }
}
