/** What the parser of core/src/EmbeddableWebServer.h does with a message that is too long for it:
    how much of each part is kept, and that a warning is raised exactly if something was lost. */
module HttpLimits {
  import opened HttpRequests
  import opened UrlCodec

  function AtMost(n: nat, limit: nat): nat { if n < limit then n else limit }

  // ---- the request line

  // One byte of each part, as long as it lasts.
  lemma LineByte(r: Request, c: Byte, lib: Library)
    requires Ok(r)
    ensures r.state == InMethod && c != SPACE ==>
              Feed(r, c, lib) == if |r.method_| < 63 then r.(method_ := r.method_ + [c])
                                 else r.(warnings := r.warnings.(methodTruncated := true))
    ensures r.state == InPath && c != SPACE ==>
              Feed(r, c, lib) == if |r.path| < 1023 then r.(path := r.path + [c])
                                 else r.(warnings := r.warnings.(pathTruncated := true))
    ensures r.state == InVersion && c != CR ==>
              Feed(r, c, lib) == if |r.version| < 15 then r.(version := r.version + [c])
                                 else r.(warnings := r.warnings.(versionTruncated := true))
  {
    hide Ok;
  }

  /** Of the method the first 63 bytes are kept. */
  lemma {:induction false} MethodKept(r: Request, s: seq<Byte>, lib: Library)
    requires Ok(r) && r.state == InMethod && r.method_ == [] && SPACE !in s
    ensures FeedAll(r, s, lib)
         == r.(method_ := s[..AtMost(|s|, 63)], warnings := r.warnings.(methodTruncated := r.warnings.methodTruncated || |s| > 63))
  {
    hide Ok, Feed;
    if s != [] {
      var n := |s| - 1;
      MethodKept(r, s[..n], lib);
      LineByte(FeedAll(r, s[..n], lib), s[n], lib);
      assert s == s[..n] + [s[n]] && s[..n][..AtMost(n, 63)] == s[..AtMost(n, 63)];
      assert n < 63 ==> s[..n] + [s[n]] == s[..AtMost(|s|, 63)];
    }
  }

  /** Of the path the first 1023 bytes are kept. */
  lemma {:induction false} PathKept(r: Request, s: seq<Byte>, lib: Library)
    requires Ok(r) && r.state == InPath && r.path == [] && SPACE !in s
    ensures FeedAll(r, s, lib)
         == r.(path := s[..AtMost(|s|, 1023)], warnings := r.warnings.(pathTruncated := r.warnings.pathTruncated || |s| > 1023))
  {
    hide Ok, Feed;
    if s != [] {
      var n := |s| - 1;
      PathKept(r, s[..n], lib);
      LineByte(FeedAll(r, s[..n], lib), s[n], lib);
      assert s == s[..n] + [s[n]] && s[..n][..AtMost(n, 1023)] == s[..AtMost(n, 1023)];
      assert n < 1023 ==> s[..n] + [s[n]] == s[..AtMost(|s|, 1023)];
    }
  }

  /** Of the version the first 15 bytes are kept. */
  lemma {:induction false} VersionKept(r: Request, s: seq<Byte>, lib: Library)
    requires Ok(r) && r.state == InVersion && r.version == [] && CR !in s
    ensures FeedAll(r, s, lib)
         == r.(version := s[..AtMost(|s|, 15)], warnings := r.warnings.(versionTruncated := r.warnings.versionTruncated || |s| > 15))
  {
    hide Ok, Feed;
    if s != [] {
      var n := |s| - 1;
      VersionKept(r, s[..n], lib);
      LineByte(FeedAll(r, s[..n], lib), s[n], lib);
      assert s == s[..n] + [s[n]] && s[..n][..AtMost(n, 15)] == s[..AtMost(n, 15)];
      assert n < 15 ==> s[..n] + [s[n]] == s[..AtMost(|s|, 15)];
    }
  }

  // ---- header bytes

  // Where the next byte of the string would lie.
  function NextPlace(s: PoolString, offset: nat): nat {
    match s
    case In(base, length) => base + length
    case Unset => if offset == 0 then 0 else offset + 1
  }

  // Whether the next byte of the string fits.
  predicate RoomFor(s: PoolString, offset: nat) { offset + (if s.Unset? && offset > 0 then 1 else 0) < 8190 }

  /** A byte for a string is stored at its end and counted, or it is lost and the warning is raised:
      exactly if the two last places of the pool have been reached. */
  lemma StringByteKept(s: PoolString, pool: seq<Byte>, offset: nat, c: Byte)
    requires |pool| == POOL_SIZE && InPool(s, offset) && offset <= POOL_LIMIT
    ensures var ((t, pool', offset', lost), place) := (AddByte(s, pool, offset, c), NextPlace(s, offset));
            && lost == !RoomFor(s, offset)
            && (!lost ==> t == In(if s.In? then s.base else place, (if s.In? then s.length else 0) + 1)
                          && place < |pool| && pool' == pool[place := c]
                          && offset' == offset + (if s.Unset? && offset > 0 then 2 else 1))
            && (lost ==> pool' == pool && (s.In? ==> t == s))
  {
  }

  /** A byte of a name goes to the name of the header that is read, one of a value to its value; the
      warning stays once it has been raised. */
  lemma HeaderByteKept(r: Request, c: Byte)
    requires Ok(r) && r.count < MAX_HEADERS
    ensures var (h, n, v) := (r.headers[r.count], NameByte(r, c), ValueByte(r, c));
            var name := AddByte(h.name, r.pool, r.offset, c);
            var value := AddByte(h.value, r.pool, r.offset, c);
            && n == r.(headers := r.headers[r.count := Header(name.0, h.value)], pool := name.1, offset := name.2,
                       warnings := r.warnings.(poolExhausted := r.warnings.poolExhausted || !RoomFor(h.name, r.offset)))
            && v == r.(headers := r.headers[r.count := Header(h.name, value.0)], pool := value.1, offset := value.2,
                       warnings := r.warnings.(poolExhausted := r.warnings.poolExhausted || !RoomFor(h.value, r.offset)))
  {
    var h := r.headers[r.count];
    StringByteKept(h.name, r.pool, r.offset, c);
    StringByteKept(h.value, r.pool, r.offset, c);
    hide AddByte, RoomFor;
  }

  /** The first byte of a line: while there is room for a header and the pool is not exhausted, the
      line is read; otherwise it is eaten up to its end, and too many headers are warned of. */
  lemma LineReadOrEaten(r: Request, c: Byte, lib: Library)
    requires Ok(r) && r.state == SeenCRLF && c != CR
    ensures var r' := Feed(r, c, lib);
            && (r.count < 64 && !r.warnings.poolExhausted ==>
                  && r'.state == (if c == COLON then HeaderValue else HeaderName)
                  && r'.warnings.tooManyHeaders == r.warnings.tooManyHeaders)
            && (r.count < 64 && r.warnings.poolExhausted ==> r' == r.(state := EatHeaders))
            && (r.count == 64 ==> r' == r.(state := EatHeaders, warnings := r.warnings.(tooManyHeaders := true)))
  {
  }

  lemma ByteEaten(r: Request, c: Byte, lib: Library)
    requires Ok(r)
    ensures r.state == EatHeaders ==> Feed(r, c, lib) == if c == CR then r.(state := SeenCR) else r
    ensures r.state == SeenCR && c == LF ==> Feed(r, c, lib) == r.(state := SeenCRLF)
  {
    hide Ok;
  }

  lemma {:induction false} Eaten(r: Request, line: seq<Byte>, lib: Library)
    requires Ok(r) && r.state == EatHeaders && CR !in line
    ensures FeedAll(r, line, lib) == r
    ensures FeedAll(r, line + [CR, LF], lib) == r.(state := SeenCRLF)
  {
    hide Ok, Feed;
    if line != [] {
      var n := |line| - 1;
      assert line == line[..n] + [line[n]];
      Eaten(r, line[..n], lib);
      ByteEaten(r, line[n], lib);
    }
    FeedMore(r, line, CR, lib);
    ByteEaten(r, CR, lib);
    FeedMore(r, line + [CR], LF, lib);
    ByteEaten(FeedAll(r, line + [CR], lib), LF, lib);
    assert line + [CR] + [LF] == line + [CR, LF];
  }

  // ---- line ends

  /** A carriage return ends a line only if a line feed follows; what follows instead begins a line of
      its own, and is not part of it. */
  lemma StrayReturn(r: Request, c: Byte, lib: Library)
    requires Ok(r) && (r.state == SeenCR || r.state == SeenCRLFCR) && c != LF
    ensures var r' := Feed(r, c, lib);
            && r'.headers == r.headers && r'.count == r.count && r'.pool == r.pool && r'.offset == r.offset
            && r'.state == (if r.count < 64 && !r.warnings.poolExhausted then HeaderName else EatHeaders)
  {
  }

  // ---- the body

  /** Bytes behind a body are lost: the first of them raises the warning, if a body was announced at
      all, and nothing else changes. */
  lemma {:induction false} BehindTheBody(r: Request, more: seq<Byte>, lib: Library)
    requires Ok(r) && r.state == Done
    ensures FeedAll(r, more, lib)
         == if more != [] && r.body.capacity > 0 then r.(warnings := r.warnings.(bodyTruncated := true)) else r
  {
    hide Ok;
    if more != [] { BehindTheBody(r, more[..|more| - 1], lib); }
  }
}
