/** Whether the strings in the pool of the HTTP parser (core/src/EmbeddableWebServer.h) stay apart:
    for arbitrary bytes, exactly when they do and when one is written over another. */
module HttpPools {
  import opened HttpRequests
  import opened UrlCodec

  /** The strings lie apart, the NUL behind each included. */
  predicate Apart(s: PoolString, t: PoolString) {
    s.Unset? || t.Unset? || s.base + s.length < t.base || t.base + t.length < s.base
  }

  const STRINGS: nat := 2 * MAX_HEADERS

  /** The k-th pointer into the pool: the names and the values of the headers in turn. */
  function Str(headers: seq<Header>, k: nat): PoolString
    requires |headers| == MAX_HEADERS && k < STRINGS
  {
    if k % 2 == 0 then headers[k / 2].name else headers[k / 2].value
  }

  /** No two strings of the request share a byte. */
  ghost predicate Disjoint(headers: seq<Header>)
    requires |headers| == MAX_HEADERS
  {
    forall j, k :: 0 <= j < k < STRINGS ==> Apart(Str(headers, j), Str(headers, k))
  }

  /** The byte is appended to a value that lies before its own name: the name has been started
      behind it, as the line that brought the value had no name. */
  predicate Overwrites(r: Request, c: Byte)
    requires Ok(r)
  {
    r.state.HeaderValue? && c != CR && r.offset < POOL_LIMIT
    && var h := r.headers[r.count];
       h.name.In? && h.value.In? && h.value.base < h.name.base && !(c == SPACE && Empty(h.value))
  }

  // ---- the shape of the pool as long as nothing has been overwritten

  function End(s: PoolString): nat
    requires s.In?
  {
    s.base + s.length
  }

  /** The header being read, while the pool has room: the string started last ends at the offset;
      a name behind its value follows it directly. */
  predicate Reading(h: Header, offset: nat, inValue: bool) {
    var (n, v) := (h.name, h.value);
    offset < POOL_LIMIT ==>
      && (n.In? ==> n.length > 0) && (v.In? ==> v.length > 0)
      && (n.In? && v.Unset? ==> End(n) == offset) && (v.In? && n.Unset? ==> End(v) == offset)
      && (n.In? && v.In? ==> if n.base < v.base then inValue && End(v) == offset else End(v) + 1 == n.base && End(n) == offset)
  }

  ghost predicate UnsetFrom(headers: seq<Header>, k: nat)
    requires |headers| == MAX_HEADERS
  {
    forall i :: k <= i < MAX_HEADERS ==> headers[i] == Header(Unset, Unset)
  }

  ghost predicate Tidy(r: Request) {
    && Ok(r) && Disjoint(r.headers) && UnsetFrom(r.headers, r.count + 1) && (r.offset == 0 ==> UnsetFrom(r.headers, 0))
    && (r.count < MAX_HEADERS ==> Reading(r.headers[r.count], r.offset, r.state.HeaderValue?))
  }

  ghost predicate AllInPool(headers: seq<Header>, offset: nat)
    requires |headers| == MAX_HEADERS
  {
    forall k :: 0 <= k < STRINGS ==> InPool(Str(headers, k), offset)
  }

  lemma OkInPool(r: Request)
    requires Ok(r)
    ensures AllInPool(r.headers, r.offset)
  {
  }

  // A string that is started, or goes on at the offset, keeps apart from the others.
  lemma AppendIsApart(headers: seq<Header>, headers': seq<Header>, q: nat, offset: nat, t: PoolString)
    requires |headers| == |headers'| == MAX_HEADERS && q < STRINGS
    requires Disjoint(headers) && AllInPool(headers, offset)
    requires forall k :: 0 <= k < STRINGS ==> Str(headers', k) == if k == q then t else Str(headers, k)
    requires var s := Str(headers, q);
             || t == s
             || (s.In? && t.In? && End(s) == offset && t.base == s.base)
             || (s.Unset? && t.In? && (t.base == offset + 1 || forall k :: 0 <= k < STRINGS ==> Str(headers, k).Unset?))
    ensures Disjoint(headers')
  {
    var s := Str(headers, q);
    forall j, k | 0 <= j < k < STRINGS ensures Apart(Str(headers', j), Str(headers', k)) {
      assert Apart(Str(headers, j), Str(headers, k));
      assert InPool(Str(headers, j), offset) && InPool(Str(headers, k), offset);
    }
  }

  // The strings after one of the two pointers of the n-th header has changed.
  lemma StrAfter(headers: seq<Header>, n: nat, h: Header)
    requires |headers| == MAX_HEADERS && n < MAX_HEADERS
    ensures |headers[n := h]| == MAX_HEADERS
    ensures forall k :: 0 <= k < STRINGS ==>
              Str(headers[n := h], k) == if k == 2 * n then h.name else if k == 2 * n + 1 then h.value else Str(headers, k)
  {
    forall k | 0 <= k < STRINGS
      ensures Str(headers[n := h], k) == if k == 2 * n then h.name else if k == 2 * n + 1 then h.value else Str(headers, k)
    {
      assert k == 2 * (k / 2) + k % 2;
    }
  }

  lemma NameIsTidy(r: Request, c: Byte)
    requires Tidy(r) && r.count < MAX_HEADERS && !r.state.HeaderValue?
    ensures Ok(NameByte(r, c)) ==> Tidy(NameByte(r, c))
  {
    OkInPool(r);
    var h, r' := r.headers[r.count], NameByte(r, c);
    var t := r'.headers[r.count].name;
    StrAfter(r.headers, r.count, h.(name := t));
    hide Ok, InPool;
    AppendIsApart(r.headers, r'.headers, 2 * r.count, r.offset, t);
    hide Disjoint, AllInPool;
  }

  lemma ValueIsTidy(r: Request, c: Byte)
    requires Tidy(r) && r.state.HeaderValue? && c != CR && !(c == SPACE && Empty(r.headers[r.count].value))
    requires !Overwrites(r, c)
    ensures Ok(ValueByte(r, c)) ==> Tidy(ValueByte(r, c))
  {
    OkInPool(r);
    var h, r' := r.headers[r.count], ValueByte(r, c);
    var t := r'.headers[r.count].value;
    StrAfter(r.headers, r.count, h.(value := t));
    AppendIsApart(r.headers, r'.headers, 2 * r.count + 1, r.offset, t);
    hide Disjoint, AllInPool, Ok, InPool;
  }

  lemma InNameIsTidy(r: Request, c: Byte)
    requires Tidy(r) && r.count < MAX_HEADERS && r.state.HeaderName? && Ok(InName(r, c))
    ensures Tidy(InName(r, c))
  {
    if c != COLON && c != CR { NameIsTidy(r, c); }
    hide Disjoint, NameByte;
  }

  lemma InValueIsTidy(r: Request, c: Byte)
    requires Tidy(r) && r.state.HeaderValue? && !Overwrites(r, c) && Ok(InValue(r, c))
    ensures Tidy(InValue(r, c))
  {
    if c != CR && !(c == SPACE && Empty(r.headers[r.count].value)) { ValueIsTidy(r, c); }
    hide Disjoint, ValueByte;
  }

  // Nothing but the header that is read has changed, and no header is read.
  lemma ElsewhereIsTidy(r: Request, r': Request)
    requires Tidy(r) && Ok(r') && r'.headers == r.headers && r'.count == r.count && r'.offset == r.offset
    requires !r.state.HeaderValue? && !r'.state.HeaderValue?
    ensures Tidy(r')
  {
    hide Disjoint, Ok;
  }

  /** A byte that overwrites nothing leaves the strings apart. */
  lemma FeedIsTidy(r: Request, c: Byte, lib: Library)
    requires Tidy(r) && !Overwrites(r, c)
    ensures Tidy(Feed(r, c, lib))
  {
    FeedKeepsOk(r, c, lib);
    var r' := Feed(r, c, lib);
    if r.state.HeaderName? {
      InNameIsTidy(r, c);
    } else if r.state.HeaderValue? {
      InValueIsTidy(r, c);
    } else if r.state.SeenCRLF? && c != CR && SpaceLeft(r).state.HeaderName? {
      SpaceLeftKeepsOk(r);
      ElsewhereIsTidy(r, SpaceLeft(r));
      InNameIsTidy(SpaceLeft(r), c);
    } else {
      hide Disjoint, Ok, Tidy, Decode, HeaderIndex, InName, InValue;
      ElsewhereIsTidy(r, r');
    }
  }

  // ---- once overwritten

  /** The value now ends where the name starts. */
  lemma OverwritingOverlaps(r: Request, c: Byte, lib: Library)
    requires Tidy(r) && Overwrites(r, c)
    ensures Ok(Feed(r, c, lib)) && !Disjoint(Feed(r, c, lib).headers)
  {
    FeedKeepsOk(r, c, lib);
    var r' := Feed(r, c, lib);
    var n := r.count;
    assert r'.headers == r.headers[n := r.headers[n].(value := In(r.headers[n].value.base, r.headers[n].value.length + 1))];
    StrAfter(r.headers, n, r'.headers[n]);
    assert !Apart(Str(r'.headers, 2 * n), Str(r'.headers, 2 * n + 1));
  }

  // A string stays where it starts, and gets no shorter.
  predicate Longer(s: PoolString, t: PoolString) {
    s.In? ==> t.In? && t.base == s.base && t.length >= s.length
  }

  lemma FeedGrows(r: Request, c: Byte, lib: Library, i: nat)
    requires Ok(r) && i < MAX_HEADERS
    ensures var r' := Feed(r, c, lib);
            && |r'.headers| == MAX_HEADERS
            && Longer(r.headers[i].name, r'.headers[i].name) && Longer(r.headers[i].value, r'.headers[i].value)
  {
    hide Decode, HeaderIndex, CString, Text;
    FeedKeepsOk(r, c, lib);
  }

  /** Strings that overlap stay overlapping. */
  lemma OverlapStays(r: Request, c: Byte, lib: Library)
    requires Ok(r) && !Disjoint(r.headers)
    ensures Ok(Feed(r, c, lib)) && !Disjoint(Feed(r, c, lib).headers)
  {
    hide Feed;
    FeedKeepsOk(r, c, lib);
    var j, k :| 0 <= j < k < STRINGS && !Apart(Str(r.headers, j), Str(r.headers, k));
    FeedGrows(r, c, lib, j / 2);
    FeedGrows(r, c, lib, k / 2);
    assert !Apart(Str(Feed(r, c, lib).headers, j), Str(Feed(r, c, lib).headers, k));
  }

  // ---- the theorem

  lemma FreshIsTidy()
    ensures Tidy(Fresh())
  {
  }

  /** None of the bytes is written over a name. */
  ghost predicate NeverOverwrites(bytes: seq<Byte>, lib: Library)
    requires Ok(Fresh())
  {
    forall k :: 0 <= k < |bytes| ==> !Overwrites(FeedAll(Fresh(), bytes[..k], lib), bytes[k])
  }

  lemma NeverOneMore(bytes: seq<Byte>, lib: Library)
    requires Ok(Fresh()) && bytes != []
    ensures var n := |bytes| - 1;
            NeverOverwrites(bytes, lib) <==>
            NeverOverwrites(bytes[..n], lib) && !Overwrites(FeedAll(Fresh(), bytes[..n], lib), bytes[n])
  {
    hide Overwrites, FeedAll, Fresh, Ok;
    var n := |bytes| - 1;
    assert forall k :: 0 <= k < n ==> bytes[..n][..k] == bytes[..k];
  }

  /** For arbitrary bytes: the strings of the request are apart, if and only if no byte has been
      appended to a value that lies before its name. */
  lemma {:induction false} ApartExactly(bytes: seq<Byte>, lib: Library)
    ensures Ok(Fresh()) && |FeedAll(Fresh(), bytes, lib).headers| == MAX_HEADERS
    ensures Disjoint(FeedAll(Fresh(), bytes, lib).headers) <==> NeverOverwrites(bytes, lib)
    ensures NeverOverwrites(bytes, lib) ==> Tidy(FeedAll(Fresh(), bytes, lib))
  {
    FreshIsTidy();
    hide Feed, Overwrites, Disjoint, Fresh;
    if bytes != [] {
      var n := |bytes| - 1;
      var r := FeedAll(Fresh(), bytes[..n], lib);
      ApartExactly(bytes[..n], lib);
      NeverOneMore(bytes, lib);
      if !Disjoint(r.headers) {
        OverlapStays(r, bytes[n], lib);
      } else if Overwrites(r, bytes[n]) {
        OverwritingOverlaps(r, bytes[n], lib);
      } else {
        FeedIsTidy(r, bytes[n], lib);
      }
    }
  }
}
