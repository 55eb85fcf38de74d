/** Parsing inverts printing: for every message that keeps the fixed limits, the parser of
    core/src/EmbeddableWebServer.h recovers the request line, every header field and the body, and
    is done with exactly the last byte. */
module HttpRoundTrip {
  import opened HttpRequests
  import opened UrlCodec

  datatype Field = Field(name: seq<Byte>, value: seq<Byte>)

  datatype Message = Message(method_: seq<Byte>, path: seq<Byte>, version: seq<Byte>, fields: seq<Field>, body: seq<Byte>)

  // ---- printing

  function Line(f: Field): seq<Byte> { f.name + [COLON, SPACE] + f.value + [CR, LF] }

  function Lines(fs: seq<Field>): seq<Byte> {
    if fs == [] then [] else Lines(fs[..|fs| - 1]) + Line(fs[|fs| - 1])
  }

  function StartLine(m: Message): seq<Byte> {
    m.method_ + [SPACE] + m.path + [SPACE] + m.version + [CR, LF]
  }

  function Print(m: Message): seq<Byte> { StartLine(m) + Lines(m.fields) + [CR, LF] + m.body }

  // ---- the limits

  predicate GoodField(f: Field) {
    && f.name != [] && COLON !in f.name && CR !in f.name
    && f.value != [] && CR !in f.value && f.value[0] != SPACE
  }

  /** The fields as they lie in the pool, each with its NUL. */
  function Packed(fs: seq<Field>): seq<Byte> {
    if fs == [] then []
    else var f := fs[|fs| - 1]; Packed(fs[..|fs| - 1]) + f.name + [0] + f.value + [0]
  }

  /** The offset of the pool: the NUL of the last string is not counted. */
  function Used(fs: seq<Field>): nat { if Packed(fs) == [] then 0 else |Packed(fs)| - 1 }

  predicate GoodLine(m: Message) {
    && |m.method_| < METHOD_SIZE && SPACE !in m.method_
    && |m.path| < PATH_SIZE && SPACE !in m.path
    && |m.version| < VERSION_SIZE && CR !in m.version
  }

  predicate GoodFields(fs: seq<Field>) {
    && (forall i :: 0 <= i < |fs| ==> GoodField(fs[i]))
    && |fs| <= MAX_HEADERS && Used(fs) <= POOL_LIMIT
  }

  // ---- states on the way

  function Filled(s: seq<Byte>): seq<Byte>
    requires |s| <= POOL_SIZE
  {
    s + seq(POOL_SIZE - |s|, _ => 0)
  }

  lemma FilledByte(s: seq<Byte>, c: Byte)
    requires |s| < POOL_SIZE
    ensures Filled(s)[|s| := c] == Filled(s + [c]) && Filled(s + [0]) == Filled(s)
  {
    assert Filled(s)[|s| := c] == Filled(s + [c]);
    assert Filled(s + [0]) == Filled(s);
  }

  /** Where the i-th field lies. */
  function Slot(fs: seq<Field>, i: nat): Header
    requires i < |fs|
  {
    var b := |Packed(fs[..i])|;
    Header(In(b, |fs[i].name|), In(b + |fs[i].name| + 1, |fs[i].value|))
  }

  function Table(fs: seq<Field>): seq<Header> {
    seq(MAX_HEADERS, i requires 0 <= i => if i < |fs| then Slot(fs, i) else Header(Unset, Unset))
  }

  /** After the start line of m. */
  function Started(m: Message, lib: Library): Request {
    Fresh().(state := SeenCRLF, method_ := m.method_, path := m.path, version := m.version,
             pathDecoded := Decode(Text(m.path), Normal, [], PATH_SIZE, WholeUrl, lib.hex).0)
  }

  /** After the lines of the fields. */
  function Has(l: Request, fs: seq<Field>): Request
    requires |Packed(fs)| <= POOL_SIZE
  {
    l.(headers := Table(fs), count := |fs|, pool := Filled(Packed(fs)), offset := Used(fs))
  }

  /** In the name of the field f, after its first j bytes. */
  function NameState(l: Request, fs: seq<Field>, f: Field, j: nat): Request
    requires |fs| < MAX_HEADERS && j <= |f.name| && |Packed(fs)| + j <= POOL_SIZE
  {
    var b := |Packed(fs)|;
    l.(state := HeaderName, headers := Table(fs)[|fs| := Header(In(b, j), Unset)], count := |fs|,
       pool := Filled(Packed(fs) + f.name[..j]), offset := b + j)
  }

  /** In its value, after the first j bytes of it. */
  function ValueState(l: Request, fs: seq<Field>, f: Field, j: nat): Request
    requires |fs| < MAX_HEADERS && j <= |f.value| && |Packed(fs)| + |f.name| + 1 + j <= POOL_SIZE
  {
    var b := |Packed(fs)|;
    var h := Header(In(b, |f.name|), if j == 0 then Unset else In(b + |f.name| + 1, j));
    l.(state := HeaderValue, headers := Table(fs)[|fs| := h], count := |fs|,
       pool := Filled(Packed(fs) + f.name + [0] + f.value[..j]), offset := b + |f.name| + if j == 0 then 0 else 1 + j)
  }

  /** A start line that has left no warning. */
  predicate Clean(l: Request) {
    l.state == SeenCRLF && l.warnings == Warnings(false, false, false, false, false, false) && l.body == Body([], 0)
  }

  // ---- one field

  lemma PackedGrows(fs: seq<Field>, f: Field)
    ensures Packed(fs + [f]) == Packed(fs) + f.name + [0] + f.value + [0]
    ensures Used(fs + [f]) == |Packed(fs)| + |f.name| + 1 + |f.value|
    ensures Used(fs) == if |Packed(fs)| == 0 then 0 else |Packed(fs)| - 1
  {
    assert (fs + [f])[..|fs|] == fs;
  }

  lemma FirstNameByte(l: Request, fs: seq<Field>, f: Field, lib: Library)
    requires Clean(l) && |fs| < MAX_HEADERS && GoodField(f) && |Packed(fs)| + |f.name| + 1 + |f.value| <= POOL_LIMIT
    requires Ok(Has(l, fs)) && (Packed(fs) == [] || |Packed(fs)| > 1)
    ensures Feed(Has(l, fs), f.name[0], lib) == NameState(l, fs, f, 1)
  {
    hide Packed, Decode, EndOfHeaders;
    FilledByte(Packed(fs), f.name[0]);
    assert f.name[..1] == [f.name[0]];
    assert f.name[0] in f.name;
    assert Has(l, fs).headers[|fs|] == Header(Unset, Unset);
    hide Filled, Table;
  }

  /** The field fits behind the fields before it. */
  ghost predicate Fits(l: Request, fs: seq<Field>, f: Field) {
    && Clean(l) && |fs| < MAX_HEADERS && GoodField(f) && |Packed(fs)| + |f.name| + 1 + |f.value| <= POOL_LIMIT
    && Ok(Has(l, fs)) && (Packed(fs) == [] || |Packed(fs)| > 1)
  }

  lemma NextNameByte(l: Request, fs: seq<Field>, f: Field, j: nat, lib: Library)
    requires Fits(l, fs, f) && 1 <= j < |f.name| && Ok(NameState(l, fs, f, j))
    ensures Feed(NameState(l, fs, f, j), f.name[j], lib) == NameState(l, fs, f, j + 1)
  {
    hide Packed, Decode, EndOfHeaders;
    FilledByte(Packed(fs) + f.name[..j], f.name[j]);
    assert f.name[..j + 1] == f.name[..j] + [f.name[j]];
    assert Packed(fs) + f.name[..j] + [f.name[j]] == Packed(fs) + f.name[..j + 1];
    assert f.name[j] in f.name;
    hide Filled, Table;
  }

  lemma {:induction false} FeedName(l: Request, fs: seq<Field>, f: Field, j: nat, lib: Library)
    requires Fits(l, fs, f) && 1 <= j <= |f.name|
    ensures FeedAll(Has(l, fs), f.name[..j], lib) == NameState(l, fs, f, j)
  {
    hide Feed, Filled, Table, Packed, NameState, Has, Ok;
    if j == 1 {
      FirstNameByte(l, fs, f, lib);
      FeedOne(Has(l, fs), f.name[0], lib);
      assert f.name[..1] == [f.name[0]];
    } else {
      FeedName(l, fs, f, j - 1, lib);
      NextNameByte(l, fs, f, j - 1, lib);
      FeedMore(Has(l, fs), f.name[..j - 1], f.name[j - 1], lib);
      assert f.name[..j - 1] + [f.name[j - 1]] == f.name[..j];
    }
  }

  /** The colon and the space after it. */
  lemma FeedColon(l: Request, fs: seq<Field>, f: Field, lib: Library)
    requires Fits(l, fs, f)
    ensures FeedAll(Has(l, fs), f.name + [COLON, SPACE], lib) == ValueState(l, fs, f, 0)
  {
    hide Filled, Table, Packed, Decode, EndOfHeaders;
    var n := |f.name|;
    FeedName(l, fs, f, n, lib);
    assert f.name[..n] == f.name && f.value[..0] == [];
    FilledByte(Packed(fs) + f.name, 0);
    FeedMore(Has(l, fs), f.name, COLON, lib);
    FeedMore(Has(l, fs), f.name + [COLON], SPACE, lib);
    assert f.name + [COLON] + [SPACE] == f.name + [COLON, SPACE];
    assert Packed(fs) + f.name + [0] + [] == Packed(fs) + f.name + [0];
    hide Feed;
    ColonByte(l, fs, f, lib);
  }

  lemma ColonByte(l: Request, fs: seq<Field>, f: Field, lib: Library)
    requires Fits(l, fs, f) && Ok(NameState(l, fs, f, |f.name|))
    ensures var r := Feed(NameState(l, fs, f, |f.name|), COLON, lib);
            Ok(r) && Feed(r, SPACE, lib) == ValueState(l, fs, f, 0)
  {
    hide Packed, Decode, EndOfHeaders, Table;
    FeedKeepsOk(NameState(l, fs, f, |f.name|), COLON, lib);
    FilledByte(Packed(fs) + f.name, 0);
    assert f.name[..|f.name|] == f.name;
    assert Packed(fs) + f.name + [0] + f.value[..0] == Packed(fs) + f.name + [0];
    hide Filled;
  }

  lemma NextValueByte(l: Request, fs: seq<Field>, f: Field, j: nat, lib: Library)
    requires Fits(l, fs, f) && j < |f.value| && Ok(ValueState(l, fs, f, j))
    ensures Feed(ValueState(l, fs, f, j), f.value[j], lib) == ValueState(l, fs, f, j + 1)
  {
    hide Packed, Decode, EndOfHeaders;
    var before := Packed(fs) + f.name + [0];
    FilledByte(before + f.value[..j], f.value[j]);
    assert f.value[..j + 1] == f.value[..j] + [f.value[j]];
    assert before + f.value[..j] + [f.value[j]] == before + f.value[..j + 1];
    assert f.value[j] in f.value;
    hide Filled, Table;
  }

  lemma {:induction false} FeedValue(l: Request, fs: seq<Field>, f: Field, j: nat, lib: Library)
    requires Fits(l, fs, f) && j <= |f.value|
    ensures FeedAll(Has(l, fs), f.name + [COLON, SPACE] + f.value[..j], lib) == ValueState(l, fs, f, j)
  {
    hide Feed, Filled, Table, Packed, ValueState, Has, Ok;
    var before := f.name + [COLON, SPACE];
    if j == 0 {
      FeedColon(l, fs, f, lib);
      assert before + f.value[..0] == before;
    } else {
      FeedValue(l, fs, f, j - 1, lib);
      NextValueByte(l, fs, f, j - 1, lib);
      FeedMore(Has(l, fs), before + f.value[..j - 1], f.value[j - 1], lib);
      assert before + f.value[..j - 1] + [f.value[j - 1]] == before + f.value[..j];
    }
  }

  lemma TableGrows(fs: seq<Field>, f: Field)
    requires |fs| < MAX_HEADERS
    ensures var b := |Packed(fs)|;
            Table(fs + [f]) == Table(fs)[|fs| := Header(In(b, |f.name|), In(b + |f.name| + 1, |f.value|))]
  {
    hide Packed;
    var gs := fs + [f];
    assert gs[..|fs|] == fs;
    forall i | 0 <= i < |fs| ensures Slot(gs, i) == Slot(fs, i) {
      assert gs[..i] == fs[..i];
    }
    assert forall i :: 0 <= i < MAX_HEADERS && i != |fs| ==> Table(gs)[i] == Table(fs)[i];
  }

  // The line end after a value.
  lemma EndOfLine(l: Request, fs: seq<Field>, f: Field, lib: Library)
    requires Fits(l, fs, f) && Ok(ValueState(l, fs, f, |f.value|))
    ensures |Packed(fs + [f])| <= POOL_SIZE
    ensures var r := Feed(ValueState(l, fs, f, |f.value|), CR, lib);
            Ok(r) && Feed(r, LF, lib) == Has(l, fs + [f])
  {
    FeedKeepsOk(ValueState(l, fs, f, |f.value|), CR, lib);
    PackedGrows(fs, f);
    TableGrows(fs, f);
    FilledByte(Packed(fs) + f.name + [0] + f.value, 0);
    assert f.value[..|f.value|] == f.value;
    hide Packed, Decode, EndOfHeaders, Table, Filled;
  }

  /** One header line brings one field more. */
  lemma FeedLine(l: Request, fs: seq<Field>, f: Field, lib: Library)
    requires Fits(l, fs, f)
    ensures |Packed(fs + [f])| <= POOL_SIZE
    ensures FeedAll(Has(l, fs), Line(f), lib) == Has(l, fs + [f])
  {
    hide Packed, Table, Filled, Feed;
    var before := f.name + [COLON, SPACE] + f.value;
    FeedValue(l, fs, f, |f.value|, lib);
    assert f.value[..|f.value|] == f.value;
    FeedMore(Has(l, fs), before, CR, lib);
    FeedMore(Has(l, fs), before + [CR], LF, lib);
    assert before + [CR] + [LF] == Line(f);
    EndOfLine(l, fs, f, lib);
  }

  // ---- all fields

  lemma PackedSize(fs: seq<Field>)
    requires fs != [] && GoodField(fs[|fs| - 1])
    ensures |Packed(fs)| >= 4 && |Packed(fs)| == Used(fs) + 1
    ensures |Packed(fs[..|fs| - 1])| + |fs[|fs| - 1].name| + 1 + |fs[|fs| - 1].value| == Used(fs)
  {
    var n := |fs| - 1;
    assert fs[..n] + [fs[n]] == fs;
    PackedGrows(fs[..n], fs[n]);
  }

  lemma FewerFields(fs: seq<Field>)
    requires fs != [] && GoodFields(fs)
    ensures GoodFields(fs[..|fs| - 1])
  {
    hide Packed;
    PackedSize(fs);
    if |fs| > 1 { PackedSize(fs[..|fs| - 1]); }
    hide Used, GoodField;
    assert Used(fs[..|fs| - 1]) <= Used(fs) by { PackedEmpty(); }
  }

  lemma PackedEmpty()
    ensures Packed([]) == [] && Used([]) == 0
  {
  }

  lemma {:induction false} FeedLines(l: Request, fs: seq<Field>, lib: Library)
    requires Clean(l) && GoodFields(fs) && Ok(l) && l == Has(l, [])
    ensures |Packed(fs)| <= POOL_SIZE
    ensures FeedAll(l, Lines(fs), lib) == Has(l, fs)
  {
    hide Packed, Table, Filled, Feed, Ok, Used;
    if fs != [] {
      var n := |fs| - 1;
      FewerFields(fs);
      FeedLines(l, fs[..n], lib);
      PackedSize(fs);
      if n > 0 { PackedSize(fs[..n]); } else { PackedEmpty(); }
      assert fs[..n] + [fs[n]] == fs;
      FeedLine(l, fs[..n], fs[n], lib);
      FragmentsDoNotMatter(l, Lines(fs[..n]), Line(fs[n]), lib);
    } else {
      PackedEmpty();
    }
  }

  // ---- the start line

  lemma {:induction false} FeedMethod(s: seq<Byte>, lib: Library)
    requires Ok(Fresh()) && |s| < METHOD_SIZE && SPACE !in s
    ensures FeedAll(Fresh(), s, lib) == Fresh().(method_ := s)
  {
    if s != [] {
      var n := |s| - 1;
      FeedMethod(s[..n], lib);
      assert s[..n] + [s[n]] == s;
    }
  }

  lemma {:induction false} FeedPath(r: Request, s: seq<Byte>, lib: Library)
    requires Ok(r) && r.state == InPath && r.path == [] && |s| < PATH_SIZE && SPACE !in s
    ensures FeedAll(r, s, lib) == r.(path := s)
  {
    if s != [] {
      var n := |s| - 1;
      FeedPath(r, s[..n], lib);
      assert s[..n] + [s[n]] == s;
    }
  }

  lemma {:induction false} FeedVersion(r: Request, s: seq<Byte>, lib: Library)
    requires Ok(r) && r.state == InVersion && r.version == [] && |s| < VERSION_SIZE && CR !in s
    ensures FeedAll(r, s, lib) == r.(version := s)
  {
    if s != [] {
      var n := |s| - 1;
      FeedVersion(r, s[..n], lib);
      assert s[..n] + [s[n]] == s;
    }
  }

  /** After the method and the request target. */
  function Targeted(m: Message, lib: Library): Request {
    Fresh().(state := InVersion, method_ := m.method_, path := m.path,
             pathDecoded := Decode(Text(m.path), Normal, [], PATH_SIZE, WholeUrl, lib.hex).0)
  }

  lemma FeedTarget(m: Message, lib: Library)
    requires Ok(Fresh()) && GoodLine(m)
    ensures FeedAll(Fresh(), m.method_ + [SPACE] + m.path + [SPACE], lib) == Targeted(m, lib)
  {
    hide Ok, Decode, Text;
    var t := m.method_ + [SPACE];
    FeedMethod(m.method_, lib);
    FeedMore(Fresh(), m.method_, SPACE, lib);
    FeedPath(FeedAll(Fresh(), t, lib), m.path, lib);
    FragmentsDoNotMatter(Fresh(), t, m.path, lib);
    FeedMore(Fresh(), t + m.path, SPACE, lib);
  }

  lemma FeedStartLine(m: Message, lib: Library)
    requires Ok(Fresh()) && GoodLine(m)
    ensures FeedAll(Fresh(), StartLine(m), lib) == Started(m, lib)
  {
    hide Ok, Decode, Text, Fresh;
    var t := m.method_ + [SPACE] + m.path + [SPACE];
    FeedTarget(m, lib);
    TargetedHasNoVersion(m, lib);
    FeedVersion(Targeted(m, lib), m.version, lib);
    FragmentsDoNotMatter(Fresh(), t, m.version, lib);
    FeedMore(Fresh(), t + m.version, CR, lib);
    FeedMore(Fresh(), t + m.version + [CR], LF, lib);
    assert t + m.version + [CR] + [LF] == StartLine(m);
  }

  lemma TargetedHasNoVersion(m: Message, lib: Library)
    ensures Targeted(m, lib).version == []
  {
  }

  lemma FreshIsOk(m: Message, lib: Library)
    requires GoodLine(m)
    ensures Ok(Fresh()) && Clean(Started(m, lib)) && Started(m, lib) == Has(Started(m, lib), [])
  {
    hide Decode, Text;
    assert Filled([]) == seq(POOL_SIZE, _ => 0);
    assert Table([]) == seq(MAX_HEADERS, _ => Header(Unset, Unset));
  }

  // ---- the fields in the pool

  lemma {:induction false} PackedPrefix(fs: seq<Field>, k: nat)
    requires k <= |fs|
    ensures Packed(fs[..k]) <= Packed(fs)
  {
    if k < |fs| {
      var n := |fs| - 1;
      assert fs[..n] + [fs[n]] == fs && fs[..n][..k] == fs[..k];
      PackedGrows(fs[..n], fs[n]);
      PackedPrefix(fs[..n], k);
    } else {
      assert fs[..k] == fs;
    }
  }

  // A name and a value, each with its NUL, in a longer text.
  lemma PairInText(pool: seq<Byte>, before: seq<Byte>, f: Field)
    requires before + f.name + [0] + f.value + [0] <= pool
    ensures var (b, v) := (|before|, |before| + |f.name| + 1);
            && v + |f.value| < |pool|
            && pool[b..b + |f.name|] == f.name && pool[b + |f.name|] == 0
            && pool[v..v + |f.value|] == f.value && pool[v + |f.value|] == 0
  {
    var all := before + f.name + [0] + f.value + [0];
    assert forall k :: 0 <= k < |all| ==> pool[k] == all[k];
  }

  /** The i-th field lies at its slot, name and value each with a NUL behind. */
  lemma FieldInPool(fs: seq<Field>, i: nat)
    requires i < |fs| && |Packed(fs)| <= POOL_SIZE
    ensures var (f, b, pool) := (fs[i], |Packed(fs[..i])|, Filled(Packed(fs)));
            var v := b + |f.name| + 1;
            && v + |f.value| < |Packed(fs)|
            && pool[b..b + |f.name|] == f.name && pool[b + |f.name|] == 0
            && pool[v..v + |f.value|] == f.value && pool[v + |f.value|] == 0
  {
    assert fs[..i] + [fs[i]] == fs[..i + 1];
    PackedGrows(fs[..i], fs[i]);
    PackedPrefix(fs, i + 1);
    hide Packed;
    var all := Packed(fs[..i]) + fs[i].name + [0] + fs[i].value + [0];
    assert all <= Filled(Packed(fs));
    PairInText(Filled(Packed(fs)), Packed(fs[..i]), fs[i]);
  }

  // ---- the end of the headers, and the body

  /** The first field from the i-th on that has the name, or the number of fields. */
  function FieldIndex(fs: seq<Field>, name: seq<Byte>, i: nat): (k: nat)
    requires i <= |fs|
    ensures i <= k <= |fs| && (k < |fs| ==> SameIgnoringCase(Text(fs[k].name), name))
    ensures forall j :: i <= j < k ==> !SameIgnoringCase(Text(fs[j].name), name)
    decreases |fs| - i
  {
    if i == |fs| || SameIgnoringCase(Text(fs[i].name), name) then i else FieldIndex(fs, name, i + 1)
  }

  datatype BodySize = NoSize | Size(n: nat)

  /** What a Content-Length asks for: the number itself, but no body for a negative one and no more
      than the parser takes. */
  function BodyLength(n: int): nat {
    if 0 <= n <= MAX_BODY then n else if n > MAX_BODY then MAX_BODY else 0
  }

  /** The size of the body that the fields announce, if they do. */
  function Announced(fs: seq<Field>, lib: Library): BodySize {
    var k := FieldIndex(fs, CONTENT_LENGTH, 0);
    if k == |fs| then NoSize
    else
      match lib.long(Text(fs[k].value))
      case NoNumber => NoSize
      case Number(n) => Size(BodyLength(n))
  }

  /** The pointers of a field point at C strings with its name and its value. */
  lemma FieldStrings(l: Request, fs: seq<Field>, i: nat)
    requires i < |fs| <= MAX_HEADERS && |Packed(fs)| <= POOL_SIZE
    ensures var (r, h) := (Has(l, fs), Slot(fs, i));
            && h.name.base <= |r.pool| && h.value.base <= |r.pool| && r.headers[i] == h
            && CString(r, h.name) == Text(fs[i].name) && CString(r, h.value) == Text(fs[i].value)
  {
    hide Packed, Text;
    FieldInPool(fs, i);
    var f, pool, h := fs[i], Filled(Packed(fs)), Slot(fs, i);
    var b, v := h.name.base, h.value.base;
    TextOfCString(f.name, pool[b + |f.name| + 1..]);
    TextOfCString(f.value, pool[v + |f.value| + 1..]);
    assert pool[b..] == f.name + [0] + pool[b + |f.name| + 1..];
    assert pool[v..] == f.value + [0] + pool[v + |f.value| + 1..];
  }

  /** Looking a name up in the pool finds the first field of that name in the message. */
  lemma {:induction false} HeaderFound(l: Request, fs: seq<Field>, name: seq<Byte>, i: nat)
    requires |fs| <= MAX_HEADERS && |Packed(fs)| <= POOL_SIZE && Ok(Has(l, fs)) && i <= |fs|
    ensures HeaderIndex(Has(l, fs), name, i) == FieldIndex(fs, name, i)
    decreases |fs| - i
  {
    hide Packed, Text, CString, Filled, SameIgnoringCase;
    if i < |fs| {
      FieldStrings(l, fs, i);
      hide Table, Slot;
      HeaderFound(l, fs, name, i + 1);
    }
  }

  /** The empty line ends the message, or starts the body that is announced. */
  function AfterHeaders(r: Request, size: BodySize): Request {
    match size
    case NoSize => r.(state := Done)
    case Size(n) => r.(state := InBody, body := Body([], n))
  }

  lemma EndFound(l: Request, fs: seq<Field>, lib: Library)
    requires |fs| <= MAX_HEADERS && |Packed(fs)| <= POOL_SIZE && Ok(Has(l, fs))
    ensures EndOfHeaders(Has(l, fs), lib) == AfterHeaders(Has(l, fs), Announced(fs, lib))
  {
    hide Packed, Text, CString, Filled, SameIgnoringCase, Table, Slot, Ok;
    HeaderFound(l, fs, CONTENT_LENGTH, 0);
    if FieldIndex(fs, CONTENT_LENGTH, 0) < |fs| { FieldStrings(l, fs, FieldIndex(fs, CONTENT_LENGTH, 0)); }
  }

  // Neither the state nor an earlier body matters to the end of the headers.
  lemma EndAside(r: Request, s: State, lib: Library)
    requires Ok(r) && Ok(r.(state := s))
    ensures EndOfHeaders(r.(state := s), lib) == EndOfHeaders(r, lib)
  {
    LookupAside(r, s, CONTENT_LENGTH, 0);
  }

  lemma {:induction false} LookupAside(r: Request, s: State, name: seq<Byte>, i: nat)
    requires Ok(r) && Ok(r.(state := s)) && i <= r.count
    ensures HeaderIndex(r.(state := s), name, i) == HeaderIndex(r, name, i)
    decreases r.count - i
  {
    hide Text;
    if i < r.count { LookupAside(r, s, name, i + 1); }
  }

  lemma FeedEmptyLine(l: Request, fs: seq<Field>, lib: Library)
    requires |fs| <= MAX_HEADERS && |Packed(fs)| <= POOL_SIZE && Ok(Has(l, fs)) && l.state == SeenCRLF
    ensures FeedAll(Has(l, fs), [CR], lib).state == SeenCRLFCR
    ensures FeedAll(Has(l, fs), [CR, LF], lib) == AfterHeaders(Has(l, fs), Announced(fs, lib))
  {
    var r := Has(l, fs);
    FeedOne(r, CR, lib);
    FeedMore(r, [CR], LF, lib);
    assert [CR] + [LF] == [CR, LF];
    hide Packed, Filled, Table, EndOfHeaders, AfterHeaders;
    EndAside(r, SeenCRLFCR, lib);
    EndFound(l, fs, lib);
  }

  lemma BodyIsFed(r: Request, c: Byte, lib: Library)
    requires Ok(r) && r.state == InBody
    ensures Feed(r, c, lib) == BodyByte(r, c)
  {
    hide Ok;
  }

  lemma {:induction false} FeedBody(r: Request, s: seq<Byte>, lib: Library)
    requires Ok(r) && r.state == InBody && r.body.contents == [] && |s| <= r.body.capacity
    ensures FeedAll(r, s, lib) == r.(body := r.body.(contents := s),
                                     state := if s != [] && |s| == r.body.capacity then Done else InBody)
  {
    hide Ok, Feed;
    if s != [] {
      var n := |s| - 1;
      FeedBody(r, s[..n], lib);
      BodyIsFed(FeedAll(r, s[..n], lib), s[n], lib);
      assert s[..n] + [s[n]] == s;
    }
  }

  // ---- the theorem

  /** The message keeps the limits, and its body is as long as the fields announce. */
  predicate Good(m: Message, lib: Library) {
    && GoodLine(m) && GoodFields(m.fields)
    && match Announced(m.fields, lib)
       case NoSize => m.body == []
       case Size(n) => |m.body| == n
  }

  /** What the parser makes of the message: everything recovered and no warning. A body announced
      as empty is the one that the parser still waits for. */
  function Parsed(m: Message, lib: Library): Request
    requires |Packed(m.fields)| <= POOL_SIZE
  {
    Has(Started(m, lib), m.fields).(body := Body(m.body, |m.body|),
                                    state := if Announced(m.fields, lib) == Size(0) then InBody else Done)
  }

  lemma FeedHead(m: Message, lib: Library)
    requires Good(m, lib)
    ensures Ok(Fresh()) && |Packed(m.fields)| <= POOL_SIZE && |m.fields| <= MAX_HEADERS && Clean(Started(m, lib))
    ensures FeedAll(Fresh(), StartLine(m) + Lines(m.fields), lib) == Has(Started(m, lib), m.fields)
  {
    hide Packed, Table, Filled, Feed, Ok, Decode, Text, Used, Lines, StartLine, GoodField;
    FreshIsOk(m, lib);
    FeedStartLine(m, lib);
    FeedLines(Started(m, lib), m.fields, lib);
    FragmentsDoNotMatter(Fresh(), StartLine(m), Lines(m.fields), lib);
  }

  /** Parsing what has been printed gives the message back. */
  lemma ParseInvertsPrint(m: Message, lib: Library)
    requires Good(m, lib)
    ensures Ok(Fresh()) && |Packed(m.fields)| <= POOL_SIZE
    ensures FeedAll(Fresh(), Print(m), lib) == Parsed(m, lib)
  {
    hide Packed, Table, Filled, Feed, Ok, Decode, Text, Used, Lines, StartLine, GoodFields, GoodLine, Announced, Fresh;
    FeedHead(m, lib);
    var head, r := StartLine(m) + Lines(m.fields), Has(Started(m, lib), m.fields);
    FeedEmptyLine(Started(m, lib), m.fields, lib);
    FragmentsDoNotMatter(Fresh(), head, [CR, LF], lib);
    FragmentsDoNotMatter(Fresh(), head + [CR, LF], m.body, lib);
    if Announced(m.fields, lib).Size? {
      FeedBody(AfterHeaders(r, Announced(m.fields, lib)), m.body, lib);
    }
  }

  /** The ordinary message with a body: its first Content-Length field, whatever the case of its name,
      reads as the number of bytes that follow. It is recovered whole, and done with exactly its last
      byte. */
  lemma BodyRecovered(m: Message, lib: Library, k: nat, n: int)
    requires GoodLine(m) && GoodFields(m.fields) && 1 <= n <= MAX_BODY && |m.body| == n
    requires k < |m.fields| && SameIgnoringCase(Text(m.fields[k].name), CONTENT_LENGTH)
    requires forall j :: 0 <= j < k ==> !SameIgnoringCase(Text(m.fields[j].name), CONTENT_LENGTH)
    requires lib.long(Text(m.fields[k].value)) == Number(n)
    ensures Ok(Fresh())
    ensures var r := FeedAll(Fresh(), Print(m), lib);
            && r.state == Done && r.body.contents == m.body && r.body.capacity == n && r.count == |m.fields|
            && r.method_ == m.method_ && r.path == m.path && r.version == m.version
            && !r.warnings.bodyTruncated
    ensures forall j :: 0 <= j < |Print(m)| ==> FeedAll(Fresh(), Print(m)[..j], lib).state != Done
  {
    FirstField(m.fields, k, 0);
    hide Print, FeedAll, Fresh, Packed, Text, GoodLine, GoodFields, Ok, SameIgnoringCase;
    assert Announced(m.fields, lib) == Size(n);
    ParseInvertsPrint(m, lib);
    forall j | 0 <= j < |Print(m)| ensures FeedAll(Fresh(), Print(m)[..j], lib).state != Done {
      DoneWithTheLastByte(m, lib, j);
    }
  }

  lemma {:induction false} FirstField(fs: seq<Field>, k: nat, i: nat)
    requires i <= k < |fs| && SameIgnoringCase(Text(fs[k].name), CONTENT_LENGTH)
    requires forall j :: i <= j < k ==> !SameIgnoringCase(Text(fs[j].name), CONTENT_LENGTH)
    ensures FieldIndex(fs, CONTENT_LENGTH, i) == k
    decreases k - i
  {
    hide SameIgnoringCase, Text;
    if i < k { FirstField(fs, k, i + 1); }
  }

  /** The parser is done with the last byte and not before; only a body announced as empty keeps it
      waiting, until one more byte comes. */
  lemma DoneWithTheLastByte(m: Message, lib: Library, k: nat)
    requires Good(m, lib) && k < |Print(m)|
    ensures Ok(Fresh()) && FeedAll(Fresh(), Print(m)[..k], lib).state != Done
    ensures FeedAll(Fresh(), Print(m), lib).state == Done <==> Announced(m.fields, lib) != Size(0)
    ensures Announced(m.fields, lib) == Size(0) ==>
              forall c: Byte :: FeedAll(Fresh(), Print(m) + [c], lib).state == Done
                             && FeedAll(Fresh(), Print(m) + [c], lib).body == Body([], 0)
  {
    hide Packed, Table, Filled, Ok, Decode, Text, Used, Lines, StartLine, GoodFields, GoodLine, Announced, Fresh, Feed;
    ParseInvertsPrint(m, lib);
    BeforeTheLastByte(m, lib);
    var all, n := Print(m), |Print(m)| - 1;
    FragmentsDoNotMatter(Fresh(), all[..k], all[k..n], lib);
    assert all[..k] + all[k..n] == all[..n];
    if FeedAll(Fresh(), all[..k], lib).state == Done {
      DoneForGood(FeedAll(Fresh(), all[..k], lib), all[k..n], lib);
    }
    if Announced(m.fields, lib) == Size(0) {
      forall c: Byte ensures FeedAll(Fresh(), all + [c], lib).state == Done && FeedAll(Fresh(), all + [c], lib).body == Body([], 0) {
        FeedMore(Fresh(), all, c, lib);
        WaitingIsOver(Parsed(m, lib), c, lib);
      }
    }
  }

  lemma WaitingIsOver(r: Request, c: Byte, lib: Library)
    requires Ok(r) && r.state == InBody && r.body == Body([], 0)
    ensures Feed(r, c, lib).state == Done && Feed(r, c, lib).body == Body([], 0)
  {
    hide Ok;
  }

  lemma {:induction false} DoneForGood(r: Request, bytes: seq<Byte>, lib: Library)
    requires Ok(r) && r.state == Done
    ensures FeedAll(r, bytes, lib).state == Done
  {
    hide Ok;
    if bytes != [] { DoneForGood(r, bytes[..|bytes| - 1], lib); }
  }

  lemma BeforeTheLastByte(m: Message, lib: Library)
    requires Good(m, lib)
    ensures Ok(Fresh()) && |Print(m)| > 0 && FeedAll(Fresh(), Print(m)[..|Print(m)| - 1], lib).state != Done
  {
    hide Packed, Table, Filled, Feed, Ok, Decode, Text, Used, Lines, StartLine, GoodFields, GoodLine, Announced, Fresh;
    FeedHead(m, lib);
    var head, r, n := StartLine(m) + Lines(m.fields), Has(Started(m, lib), m.fields), |m.body| - 1;
    FeedEmptyLine(Started(m, lib), m.fields, lib);
    if m.body == [] {
      FragmentsDoNotMatter(Fresh(), head, [CR], lib);
      assert Print(m)[..|Print(m)| - 1] == head + [CR];
    } else {
      FragmentsDoNotMatter(Fresh(), head, [CR, LF], lib);
      FragmentsDoNotMatter(Fresh(), head + [CR, LF], m.body[..n], lib);
      FeedBody(AfterHeaders(r, Announced(m.fields, lib)), m.body[..n], lib);
      assert Print(m)[..|Print(m)| - 1] == head + [CR, LF] + m.body[..n];
    }
  }

  /** What a program reads from the parsed request: the request line, every name and every value,
      NUL-terminated, apart from one another and in order in the pool, and the body. */
  lemma ParsedIsReadable(m: Message, lib: Library, i: nat)
    requires Good(m, lib) && i < |m.fields|
    ensures |Packed(m.fields)| <= POOL_SIZE
    ensures var (r, f) := (Parsed(m, lib), m.fields[i]);
            && r.method_ == m.method_ && r.path == m.path && r.version == m.version && r.body.contents == m.body
            && r.count == |m.fields| <= |r.headers| && r.headers[i].name.In? && r.headers[i].value.In?
            && var (name, value) := (r.headers[i].name, r.headers[i].value);
               && name.length == |f.name| && value.length == |f.value|
               && name.base + name.length < value.base && value.base + value.length < |r.pool|
               && r.pool[name.base..name.base + name.length] == f.name && r.pool[name.base + name.length] == 0
               && r.pool[value.base..value.base + value.length] == f.value && r.pool[value.base + value.length] == 0
               && (i > 0 ==> r.headers[i - 1].value.In?
                             && r.headers[i - 1].value.base + r.headers[i - 1].value.length < name.base)
  {
    hide Packed, Decode, Text, Used, GoodFields, GoodLine, Announced, Fresh, Ok;
    FeedHead(m, lib);
    FieldInPool(m.fields, i);
    if i > 0 {
      var gs := m.fields[..i];
      assert gs[..i - 1] == m.fields[..i - 1] && gs[..i - 1] + [m.fields[i - 1]] == gs;
      PackedGrows(gs[..i - 1], m.fields[i - 1]);
    }
    assert Table(m.fields)[i] == Slot(m.fields, i);
    assert i > 0 ==> Table(m.fields)[i - 1] == Slot(m.fields, i - 1);
  }
}
