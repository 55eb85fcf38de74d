/** Which header lines the parser of core/src/EmbeddableWebServer.h keeps: exactly those with a name
    and a value. A line with an empty value is put in front of the next one, and after a line with
    an empty name the next value is written over the next name. */
module HttpFields {
  import opened HttpRequests
  import opened HttpRoundTrip
  import opened UrlCodec

  // ---- exactly when a line brings a field

  /** A header line that may lack the name or the value, and for which there is room. */
  ghost predicate Room(l: Request, fs: seq<Field>, f: Field) {
    && Clean(l) && |fs| < MAX_HEADERS && |Packed(fs)| + |f.name| + 1 + |f.value| <= POOL_LIMIT
    && Ok(Has(l, fs)) && (Packed(fs) == [] || |Packed(fs)| > 1)
    && COLON !in f.name && CR !in f.name && CR !in f.value && (f.value != [] ==> f.value[0] != SPACE)
  }

  /** Reading the n-th header, which lacks a name. */
  predicate Nameless(r: Request, n: nat) {
    r.state.HeaderValue? && r.count == n < |r.headers| && Empty(r.headers[n].name)
  }

  /** Reading the n-th header, which lacks a value. */
  predicate Valueless(r: Request, n: nat) {
    (r.state.HeaderName? || r.state.HeaderValue?) && r.count == n < |r.headers| && Empty(r.headers[n].value)
  }

  lemma ByteStaysNameless(r: Request, n: nat, c: Byte, lib: Library)
    requires Ok(r) && Nameless(r, n)
    ensures c != CR ==> Nameless(Feed(r, c, lib), n)
    ensures c == CR ==> Feed(r, c, lib).count == n && Feed(r, c, lib).state == SeenCR
  {
  }

  lemma {:induction false} StaysNameless(r: Request, n: nat, bytes: seq<Byte>, lib: Library)
    requires Ok(r) && Nameless(r, n) && CR !in bytes
    ensures Nameless(FeedAll(r, bytes, lib), n)
  {
    hide Ok, Feed, Nameless;
    if bytes != [] {
      var k := |bytes| - 1;
      assert bytes == bytes[..k] + [bytes[k]];
      StaysNameless(r, n, bytes[..k], lib);
      ByteStaysNameless(FeedAll(r, bytes[..k], lib), n, bytes[k], lib);
    }
  }

  lemma ByteStaysValueless(r: Request, n: nat, c: Byte, lib: Library)
    requires Ok(r) && Valueless(r, n) && (r.state.HeaderValue? ==> c == SPACE || c == CR)
    ensures r.state.HeaderName? && c != COLON && c != CR ==> Valueless(Feed(r, c, lib), n) && Feed(r, c, lib).state.HeaderName?
    ensures r.state.HeaderName? && c == COLON ==> Valueless(Feed(r, c, lib), n) && Feed(r, c, lib).state.HeaderValue?
    ensures r.state.HeaderValue? && c == SPACE ==> Valueless(Feed(r, c, lib), n) && Feed(r, c, lib).state.HeaderValue?
    ensures c == CR ==> Feed(r, c, lib).count == n && Feed(r, c, lib).state == SeenCR
  {
  }

  // The first byte of a line, looked at as part of the name.
  lemma LineStarts(l: Request, fs: seq<Field>, c: Byte, lib: Library)
    requires Clean(l) && |fs| < MAX_HEADERS && |Packed(fs)| <= POOL_SIZE && Ok(Has(l, fs)) && c != CR
    ensures var r := Feed(Has(l, fs), c, lib);
            && Ok(r) && Valueless(r, |fs|)
            && (if c == COLON then r.state.HeaderValue? && Nameless(r, |fs|) else r.state.HeaderName?)
  {
    hide Packed, Filled;
    FeedKeepsOk(Has(l, fs), c, lib);
    assert Table(fs)[|fs|] == Header(Unset, Unset);
  }

  lemma {:induction false} NameStaysValueless(l: Request, fs: seq<Field>, name: seq<Byte>, lib: Library)
    requires Clean(l) && |fs| < MAX_HEADERS && |Packed(fs)| <= POOL_SIZE && Ok(Has(l, fs))
    requires name != [] && COLON !in name && CR !in name
    ensures var r := FeedAll(Has(l, fs), name, lib); Valueless(r, |fs|) && r.state.HeaderName?
  {
    hide Packed, Has, Ok, Feed, Valueless;
    var k := |name| - 1;
    assert name == name[..k] + [name[k]];
    if k == 0 {
      FeedOne(Has(l, fs), name[0], lib);
      LineStarts(l, fs, name[0], lib);
    } else {
      NameStaysValueless(l, fs, name[..k], lib);
      ByteStaysValueless(FeedAll(Has(l, fs), name[..k], lib), |fs|, name[k], lib);
    }
  }

  /** A line without a name, or without a value, brings no field. */
  lemma NothingNew(l: Request, fs: seq<Field>, f: Field, lib: Library)
    requires Room(l, fs, f) && (f.name == [] || f.value == [])
    ensures FeedAll(Has(l, fs), Line(f), lib).count == |fs|
  {
    hide Packed, Has, Ok, Feed, Nameless, Valueless, FeedAll, Table;
    var r0 := Has(l, fs);
    var before := f.name + [COLON, SPACE] + f.value;
    if f.name == [] {
      var more := [SPACE] + f.value;
      LineStarts(l, fs, COLON, lib);
      FeedOne(r0, COLON, lib);
      assert CR !in more;
      StaysNameless(Feed(r0, COLON, lib), |fs|, more, lib);
      FragmentsDoNotMatter(r0, [COLON], more, lib);
      assert [COLON] + more == before;
      ByteStaysNameless(FeedAll(r0, before, lib), |fs|, CR, lib);
    } else {
      NameStaysValueless(l, fs, f.name, lib);
      FeedMore(r0, f.name, COLON, lib);
      ByteStaysValueless(FeedAll(r0, f.name, lib), |fs|, COLON, lib);
      FeedMore(r0, f.name + [COLON], SPACE, lib);
      ByteStaysValueless(FeedAll(r0, f.name + [COLON], lib), |fs|, SPACE, lib);
      assert f.name + [COLON] + [SPACE] == before;
      ByteStaysValueless(FeedAll(r0, before, lib), |fs|, CR, lib);
    }
    FeedMore(r0, before, CR, lib);
    FeedMore(r0, before + [CR], LF, lib);
    assert before + [CR] + [LF] == Line(f);
    LineEnds(FeedAll(r0, before + [CR], lib), lib);
  }

  lemma LineEnds(r: Request, lib: Library)
    requires Ok(r) && r.state == SeenCR
    ensures Feed(r, LF, lib) == r.(state := SeenCRLF)
  {
  }

  /** A header line brings its field, and nothing else, if and only if neither its name nor its
      value is empty. */
  lemma LineExactly(l: Request, fs: seq<Field>, f: Field, lib: Library)
    requires Room(l, fs, f)
    ensures |Packed(fs + [f])| <= POOL_SIZE && Ok(Has(l, fs))
    ensures FeedAll(Has(l, fs), Line(f), lib) == Has(l, fs + [f]) <==> f.name != [] && f.value != []
  {
    hide Packed, Table, Filled, Feed, FeedAll, Line;
    PackedGrows(fs, f);
    if f.name != [] && f.value != [] {
      FeedLine(l, fs, f, lib);
    } else {
      NothingNew(l, fs, f, lib);
    }
  }

  // ---- a field without a value

  // From the line end after an empty value, the next name goes on where the last one stopped.
  lemma NameGoesOn(l: Request, fs: seq<Field>, n1: seq<Byte>, f: Field, lib: Library)
    requires Fits(l, fs, f) && n1 != [] && |n1| < |f.name| && f.name[..|n1|] == n1
    requires Fits(l, fs, Field(n1, f.value)) && Ok(ValueState(l, fs, Field(n1, f.value), 0))
    ensures var r0 := ValueState(l, fs, Field(n1, f.value), 0);
            var r1 := Feed(r0, CR, lib);
            Ok(r1) && Ok(Feed(r1, LF, lib)) && Feed(Feed(r1, LF, lib), f.name[|n1|], lib) == NameState(l, fs, f, |n1| + 1)
  {
    hide Packed, Decode, EndOfHeaders, Table;
    var r0 := ValueState(l, fs, Field(n1, f.value), 0);
    FeedKeepsOk(r0, CR, lib);
    FeedKeepsOk(Feed(r0, CR, lib), LF, lib);
    FilledByte(Packed(fs) + n1, 0);
    FilledByte(Packed(fs) + n1, f.name[|n1|]);
    assert f.value[..0] == [] && Packed(fs) + n1 + [0] + [] == Packed(fs) + n1 + [0];
    assert Packed(fs) + n1 + [f.name[|n1|]] == Packed(fs) + f.name[..|n1| + 1];
    assert f.name[|n1|] in f.name;
    hide Filled;
  }

  lemma FitsShorter(l: Request, fs: seq<Field>, n1: seq<Byte>, f: Field)
    requires Fits(l, fs, f) && n1 != [] && |n1| < |f.name| && f.name[..|n1|] == n1
    ensures Fits(l, fs, Field(n1, f.value)) && |Packed(fs)| <= POOL_SIZE && Ok(Has(l, fs))
  {
    hide Packed, Has, Ok, Clean;
    assert forall k :: 0 <= k < |n1| ==> n1[k] in f.name;
  }

  /** A header line with an empty value is not dropped: its name is put in front of the next line's,
      so that the two lines are one to the parser. */
  lemma EmptyValueMerges(l: Request, fs: seq<Field>, n1: seq<Byte>, f: Field, lib: Library)
    requires n1 != [] && |n1| < |f.name| && f.name[..|n1|] == n1 && Fits(l, fs, f)
    ensures var n2 := f.name[|n1|..];
            FeedAll(Has(l, fs), n1 + [COLON, SPACE] + [CR, LF] + Line(Field(n2, f.value)), lib)
            == FeedAll(Has(l, fs), Line(f), lib)
  {
    hide Packed, Filled, Table, Feed, NameState, ValueState, Ok, Fits;
    FitsShorter(l, fs, n1, f);
    hide Has;
    var r, k, g := Has(l, fs), |n1|, Field(n1, f.value);
    var short := n1 + [COLON, SPACE];
    var x, rest := short + [CR] + [LF] + [f.name[k]], f.name[k + 1..] + [COLON, SPACE] + f.value + [CR, LF];
    FeedColon(l, fs, g, lib);
    NameGoesOn(l, fs, n1, f, lib);
    FeedMore(r, short, CR, lib);
    FeedMore(r, short + [CR], LF, lib);
    FeedMore(r, short + [CR] + [LF], f.name[k], lib);
    FeedName(l, fs, f, k + 1, lib);
    FragmentsDoNotMatter(r, x, rest, lib);
    FragmentsDoNotMatter(r, f.name[..k + 1], rest, lib);
    assert f.name[..k + 1] + rest == Line(f);
    assert x + rest == short + [CR, LF] + Line(Field(f.name[k..], f.value));
  }

  // ---- a field without a name

  lemma NothingYet(l: Request)
    requires l == Has(l, [])
    ensures |l.headers| == MAX_HEADERS && l.headers[0] == Header(Unset, Unset) && l.count == 0 && l.offset == 0
    ensures |l.pool| == POOL_SIZE && forall k :: 0 <= k < POOL_SIZE ==> l.pool[k] == 0
  {
    PackedEmpty();
  }

  // The first line: its value is the only string, and no header is counted.
  lemma NamelessLine(l: Request, lib: Library)
    requires Clean(l) && Ok(l) && l == Has(l, [])
    ensures FeedAll(l, [COLON, SPACE, 97, CR, LF], lib)
         == l.(headers := l.headers[0 := Header(Unset, In(0, 1))], pool := l.pool[0 := 97], offset := 1)
  {
    hide Packed, Filled, FeedAll, Decode, Has, Table;
    NothingYet(l);
    FeedOne(l, COLON, lib);
    FeedMore(l, [COLON], SPACE, lib);
    FeedMore(l, [COLON] + [SPACE], 97, lib);
    FeedMore(l, [COLON] + [SPACE] + [97], CR, lib);
    FeedMore(l, [COLON] + [SPACE] + [97] + [CR], LF, lib);
    assert [COLON] + [SPACE] + [97] + [CR] + [LF] == [COLON, SPACE, 97, CR, LF];
  }

  /** After ": a", the line "n: b" leaves one header whose value starts before its name: the byte
      of the name has become the last one of the value. */
  lemma NamelessOverwrites(l: Request, lib: Library)
    requires Clean(l) && Ok(l) && l == Has(l, [])
    ensures var r := FeedAll(l, [COLON, SPACE, 97, CR, LF] + [110, COLON, SPACE, 98, CR, LF], lib);
            && r.count == 1 && r.headers[0] == Header(In(2, 1), In(0, 3))
            && r.pool[0..4] == [97, SPACE, 98, 0] && CString(r, r.headers[0].name) == [98]
  {
    hide Packed, Filled, FeedAll, Decode, Has, Table;
    NothingYet(l);
    var a := [COLON, SPACE, 97, CR, LF];
    NamelessLine(l, lib);
    var r := FeedAll(l, a, lib);
    FragmentsDoNotMatter(l, a, [110, COLON, SPACE, 98, CR, LF], lib);
    FeedOne(r, 110, lib);
    FeedMore(r, [110], COLON, lib);
    FeedMore(r, [110] + [COLON], SPACE, lib);
    FeedMore(r, [110] + [COLON] + [SPACE], 98, lib);
    FeedMore(r, [110] + [COLON] + [SPACE] + [98], CR, lib);
    FeedMore(r, [110] + [COLON] + [SPACE] + [98] + [CR], LF, lib);
    assert [110] + [COLON] + [SPACE] + [98] + [CR] + [LF] == [110, COLON, SPACE, 98, CR, LF];
    var pool := FeedAll(r, [110, COLON, SPACE, 98, CR, LF], lib).pool;
    assert pool == l.pool[0 := 97][2 := 110][1 := SPACE][2 := 98];
    TextOfCString([98], pool[4..]);
    assert pool[2..] == [98] + [0] + pool[4..];
  }
}
