/** The request of core/src/EmbeddableWebServer.h as the parser fills it: fixed buffers, a table of
    headers that point into one pool, and the loop that takes a fragment byte by byte. `View` is its
    value; each method does to it what HttpRequest.dfy says. */
module HttpParsers {
  import opened HttpRequests
  import opened HttpRoundTrip
  import opened UrlCodec

  class RequestParser {
    // the C library's sscanf
    const lib: Library
    const methodBuf: array<Byte>
    const pathBuf: array<Byte>
    const versionBuf: array<Byte>
    const decodedBuf: array<Byte>
    const headers: array<Header>
    const pool: array<Byte>
    var state: State
    var methodLength: nat
    var pathLength: nat
    var versionLength: nat
    var decodedLength: nat
    var headersCount: nat
    var poolOffset: nat
    var body: array?<Byte>
    var bodyLength: nat
    var bodyCapacity: nat
    var warnings: Warnings

    ghost predicate Sizes()
      reads this
    {
      && methodBuf.Length == METHOD_SIZE && pathBuf.Length == PATH_SIZE == decodedBuf.Length && versionBuf.Length == VERSION_SIZE
      && headers.Length == MAX_HEADERS && pool.Length == POOL_SIZE
      && methodLength < METHOD_SIZE && pathLength < PATH_SIZE && versionLength < VERSION_SIZE && decodedLength < PATH_SIZE
      && bodyLength <= bodyCapacity && (if body == null then bodyCapacity == 0 else 0 < bodyCapacity < body.Length)
    }

    /** No two buffers are the same. */
    ghost predicate Apart()
      reads this
    {
      && methodBuf != pathBuf && methodBuf != versionBuf && methodBuf != decodedBuf && methodBuf != pool
      && pathBuf != versionBuf && pathBuf != decodedBuf && pathBuf != pool
      && versionBuf != decodedBuf && versionBuf != pool && decodedBuf != pool
      && body != methodBuf && body != pathBuf && body != versionBuf && body != decodedBuf && body != pool
    }

    ghost function Repr(): set<object>
      reads this
    {
      {this, methodBuf, pathBuf, versionBuf, decodedBuf, headers, pool} + if body == null then {} else {body as object}
    }

    ghost function View(): Request
      reads this, Repr()
      requires Sizes()
    {
      Request(state, methodBuf[..methodLength], pathBuf[..pathLength], versionBuf[..versionLength],
              decodedBuf[..decodedLength], headers[..], headersCount, pool[..], poolOffset,
              Body(if body == null then [] else body[..bodyLength], bodyCapacity), warnings)
    }

    /** The path is terminated, as its buffer was zeroed. */
    ghost predicate Valid()
      reads this, Repr()
    {
      Sizes() && Apart() && Ok(View()) && forall k :: pathLength <= k < PATH_SIZE ==> pathBuf[k] == 0
    }

    /** A request as calloc makes it. */
    constructor (lib: Library)
      ensures Valid() && fresh(Repr()) && View() == Fresh() && this.lib == lib
    {
      this.lib := lib;
      methodBuf, pathBuf := new Byte[METHOD_SIZE](_ => 0), new Byte[PATH_SIZE](_ => 0);
      versionBuf, decodedBuf := new Byte[VERSION_SIZE](_ => 0), new Byte[PATH_SIZE](_ => 0);
      headers := new Header[MAX_HEADERS](_ => Header(Unset, Unset));
      pool := new Byte[POOL_SIZE](_ => 0);
      state, methodLength, pathLength, versionLength, decodedLength := InMethod, 0, 0, 0, 0;
      headersCount, poolOffset, body, bodyLength, bodyCapacity := 0, 0, null, 0, 0;
      warnings := Warnings(false, false, false, false, false, false);
      new;
      assert headers[..] == Fresh().headers;
      assert pool[..] == Fresh().pool;
    }

    // ---- the string pool

    method PoolStringStartNewString() returns (s: PoolString)
      requires Sizes()
      modifies this`poolOffset, this`warnings
      ensures var (t, o, exhausted) := StartString(old(poolOffset));
              s == t && poolOffset == o && warnings == old(warnings).(poolExhausted := old(warnings).poolExhausted || exhausted)
      ensures s == if old(poolOffset) >= 8190 then Unset else In(poolOffset, 0)
      ensures poolOffset == old(poolOffset) + if old(poolOffset) == 0 || s.Unset? then 0 else 1
      ensures warnings == old(warnings).(poolExhausted := old(warnings).poolExhausted || s.Unset?)
    {
      if poolOffset == 0 { return In(0, 0); }
      if poolOffset >= POOL_LIMIT {
        warnings := warnings.(poolExhausted := true);
        return Unset;
      }
      poolOffset := poolOffset + 1;
      return In(poolOffset, 0);
    }

    method PoolStringAppendChar(s: PoolString, c: Byte) returns (t: PoolString)
      requires Sizes() && poolOffset <= POOL_LIMIT && InPool(s, poolOffset) && (s.Unset? ==> poolOffset == POOL_LIMIT)
      modifies pool, this`poolOffset, this`warnings
      ensures if old(poolOffset) >= POOL_LIMIT
              then t == s && poolOffset == old(poolOffset) && pool[..] == old(pool[..]) && warnings == old(warnings).(poolExhausted := true)
              else && t == In(s.base, s.length + 1) && poolOffset == old(poolOffset) + 1 && warnings == old(warnings)
                   && pool[..] == old(pool[..])[s.base + s.length := c]
    {
      if poolOffset >= POOL_LIMIT {
        warnings := warnings.(poolExhausted := true);
        return s;
      }
      pool[s.base + s.length] := c;
      poolOffset := poolOffset + 1;
      return In(s.base, s.length + 1);
    }

    // One byte for a string of the header that is being read.
    method PoolByte(s: PoolString, c: Byte) returns (t: PoolString)
      requires Sizes() && poolOffset <= POOL_LIMIT && InPool(s, poolOffset)
      modifies pool, this`poolOffset, this`warnings
      ensures var (u, p, o, exhausted) := AddByte(s, old(pool[..]), old(poolOffset), c);
              && t == u && pool[..] == p && poolOffset == o
              && warnings == old(warnings).(poolExhausted := old(warnings).poolExhausted || exhausted)
    {
      t := s;
      if t.Unset? { t := PoolStringStartNewString(); }
      t := PoolStringAppendChar(t, c);
    }

    // ---- one byte, state by state

    method OnMethod(c: Byte)
      requires Valid() && state.InMethod?
      modifies this`state, this`methodLength, this`warnings, methodBuf
      ensures Valid() && View() == Feed(old(View()), c, lib)
    {
      ghost var r := View();
      FeedKeepsOk(r, c, lib);
      if c == SPACE {
        state := InPath;
      } else if methodLength < METHOD_SIZE - 1 {
        methodBuf[methodLength] := c;
        methodLength := methodLength + 1;
        assert methodBuf[..methodLength] == r.method_ + [c];
      } else {
        warnings := warnings.(methodTruncated := true);
      }
      assert View() == Feed(r, c, lib);
    }

    method OnPath(c: Byte)
      requires Valid() && state.InPath?
      modifies this`state, this`pathLength, this`decodedLength, this`warnings, pathBuf, decodedBuf
      ensures Valid() && View() == Feed(old(View()), c, lib)
    {
      ghost var r := View();
      FeedKeepsOk(r, c, lib);
      if c == SPACE {
        DecodePath();
        state := InVersion;
      } else if pathLength < PATH_SIZE - 1 {
        pathBuf[pathLength] := c;
        pathLength := pathLength + 1;
        assert pathBuf[..pathLength] == r.path + [c];
      } else {
        warnings := warnings.(pathTruncated := true);
      }
      assert View() == Feed(r, c, lib);
    }

    /** The decoding of the path, which cannot fail. */
    method DecodePath()
      requires Sizes() && Apart() && Ok(View()) && forall k :: pathLength <= k < PATH_SIZE ==> pathBuf[k] == 0
      modifies this`decodedLength, decodedBuf
      ensures Sizes()
              && decodedBuf[..decodedLength] == Decode(Text(View().path), Normal, [], PATH_SIZE, WholeUrl, lib.hex).0
    {
      PathAlwaysDecodes(View(), lib);
      ghost var path := View().path;
      assert pathBuf[..] == path + [0] + pathBuf[pathLength + 1..];
      TextOfCString(path, pathBuf[pathLength + 1..]);
      assert pathBuf[pathLength] in pathBuf[..];
      hide Decode, Text, Ok;
      var success;
      decodedLength, success := UrlDecode(pathBuf[..], decodedBuf, WholeUrl, lib.hex);
      assert success;
    }

    method OnVersion(c: Byte)
      requires Valid() && state.InVersion?
      modifies this`state, this`versionLength, this`warnings, versionBuf
      ensures Valid() && View() == Feed(old(View()), c, lib)
    {
      ghost var r := View();
      FeedKeepsOk(r, c, lib);
      if c == CR {
        state := SeenCR;
      } else if versionLength < VERSION_SIZE - 1 {
        versionBuf[versionLength] := c;
        versionLength := versionLength + 1;
        assert versionBuf[..versionLength] == r.version + [c];
      } else {
        warnings := warnings.(versionTruncated := true);
      }
      assert View() == Feed(r, c, lib);
    }

    method OnName(c: Byte)
      requires Valid() && state.HeaderName?
      modifies this`state, this`poolOffset, this`warnings, headers, pool
      ensures Valid() && View() == Feed(old(View()), c, lib)
    {
      ghost var r := View();
      FeedKeepsOk(r, c, lib);
      assert headersCount < MAX_HEADERS;
      if c == COLON {
        state := HeaderValue;
      } else if c == CR {
        state := SeenCR;
      } else {
        var h := headers[headersCount];
        assert h == r.headers[r.count];
        var s := PoolByte(h.name, c);
        headers[headersCount] := h.(name := s);
      }
      assert View() == Feed(r, c, lib);
    }

    method OnValue(c: Byte)
      requires Valid() && state.HeaderValue?
      modifies this`state, this`headersCount, this`poolOffset, this`warnings, headers, pool
      ensures Valid() && View() == Feed(old(View()), c, lib)
    {
      ghost var r := View();
      FeedKeepsOk(r, c, lib);
      assert headersCount < MAX_HEADERS;
      var h := headers[headersCount];
      assert h == r.headers[r.count];
      if c == SPACE && Empty(h.value) {
      } else if c == CR {
        if !Empty(h.value) && !Empty(h.name) { headersCount := headersCount + 1; }
        state := SeenCR;
      } else {
        var s := PoolByte(h.value, c);
        headers[headersCount] := h.(value := s);
      }
      assert View() == Feed(r, c, lib);
    }

    method HeaderNameIfSpaceLeft()
      requires Valid() && (state.SeenCR? || state.SeenCRLF? || state.SeenCRLFCR?)
      modifies this`state, this`warnings
      ensures Valid() && View() == SpaceLeft(old(View()))
    {
      SpaceLeftKeepsOk(View());
      if headersCount < MAX_HEADERS {
        if !warnings.poolExhausted {
          state := HeaderName;
          return;
        }
      } else {
        warnings := warnings.(tooManyHeaders := true);
      }
      state := EatHeaders;
    }

    /** headerInRequest: the first header with the name, or the number of headers for none. */
    method HeaderInRequest(name: seq<Byte>) returns (i: nat)
      requires Valid()
      ensures i == HeaderIndex(View(), name, 0)
    {
      hide Text;
      i := 0;
      while i < headersCount
        invariant i <= headersCount && HeaderIndex(View(), name, i) == HeaderIndex(View(), name, 0)
      {
        ghost var s := View().headers[i].name;
        assert headers[i] == View().headers[i] && s.In?;
        if SameIgnoringCase(Text(pool[headers[i].name.base..]), name) { return; }
        i := i + 1;
      }
    }

    method OnEndOfHeaders()
      requires Valid() && state.SeenCRLFCR?
      modifies this`state, this`body, this`bodyLength, this`bodyCapacity
      ensures Valid() && View() == EndOfHeaders(old(View()), lib) && (body == old(body) || fresh(body))
    {
      hide Text, SameIgnoringCase, HeaderIndex;
      ghost var r := View();
      EndKeepsOk(r, lib);
      var i := HeaderInRequest(CONTENT_LENGTH);
      state := Done;
      if i < headersCount {
        assert headers[i] == r.headers[i] && headers[i].value.In?;
        assert CString(r, r.headers[i].value) == Text(pool[headers[i].value.base..]);
        match lib.long(Text(pool[headers[i].value.base..])) {
          case NoNumber =>
          case Number(n) =>
            var contentLength := if n > MAX_BODY then MAX_BODY else if n < 0 then 0 else n;
            if contentLength > 0 { body := new Byte[contentLength + 1](_ => 0); }
            bodyCapacity := contentLength;
            bodyLength := 0;
            state := InBody;
        }
      }
      assert View() == EndOfHeaders(r, lib);
    }

    method OnBody(c: Byte)
      requires Valid() && state.InBody?
      modifies this`state, this`bodyLength, if body == null then {} else {body as object}
      ensures Valid() && View() == Feed(old(View()), c, lib)
    {
      ghost var r := View();
      FeedKeepsOk(r, c, lib);
      if bodyLength < bodyCapacity {
        body[bodyLength] := c;
        bodyLength := bodyLength + 1;
        assert body[..bodyLength] == r.body.contents + [c];
      }
      if bodyLength == bodyCapacity { state := Done; }
      assert View() == Feed(r, c, lib);
    }

    /** One turn of the loop. `again` says that the byte must be looked at once more (`i--`). */
    method ParseByte(c: Byte) returns (again: bool)
      requires Valid()
      modifies Repr()
      ensures Valid() && (body == old(body) || fresh(body))
      ensures if again then old(state).SeenCRLF? && state.HeaderName? && Feed(View(), c, lib) == Feed(old(View()), c, lib)
              else View() == Feed(old(View()), c, lib)
    {
      hide EndOfHeaders, InName, InValue, SpaceLeft, BodyByte, Decode, Text;
      FeedKeepsOk(View(), c, lib);
      again := false;
      match state {
        case InMethod => OnMethod(c);
        case InPath => OnPath(c);
        case InVersion => OnVersion(c);
        case HeaderName => OnName(c);
        case HeaderValue => OnValue(c);
        case SeenCR =>
          if c == LF { state := SeenCRLF; } else { HeaderNameIfSpaceLeft(); }
        case SeenCRLF =>
          if c == CR {
            state := SeenCRLFCR;
          } else {
            HeaderNameIfSpaceLeft();
            again := state.HeaderName?;
          }
        case SeenCRLFCR =>
          if c == LF { OnEndOfHeaders(); } else { HeaderNameIfSpaceLeft(); }
        case EatHeaders =>
          if c == CR { state := SeenCR; }
        case InBody => OnBody(c);
        case Done =>
          if body != null { warnings := warnings.(bodyTruncated := true); }
      }
    }

    /** requestParse: a fragment, byte by byte. */
    method RequestParse(fragment: seq<Byte>)
      requires Valid()
      modifies Repr()
      ensures Valid() && (body == old(body) || fresh(body))
      ensures View() == FeedAll(old(View()), fragment, lib)
    {
      hide Feed, FeedAll, Ok, Sizes, Apart;
      ghost var end := FeedAll(View(), fragment, lib);
      var i := 0;
      assert fragment[0..] == fragment;
      while i < |fragment|
        invariant i <= |fragment| && Valid() && (body == old(body) || fresh(body))
        invariant FeedAll(View(), fragment[i..], lib) == end
        decreases |fragment| - i, if state.SeenCRLF? then 1 else 0
      {
        assert fragment[i..] == [fragment[i]] + fragment[i + 1..];
        FeedFirst(View(), fragment[i], fragment[i + 1..], lib);
        var again := ParseByte(fragment[i]);
        if again { FeedFirst(View(), fragment[i], fragment[i + 1..], lib); }
        if !again { i := i + 1; }
      }
      assert fragment[i..] == [];
      FeedNone(View(), lib);
    }
  }

  function Joined(fragments: seq<seq<Byte>>): seq<Byte> {
    if fragments == [] then [] else fragments[0] + Joined(fragments[1..])
  }

  /** Arbitrary bytes that arrive in fragments: the request ends as if they had come in one piece. */
  method ReceiveAny(fragments: seq<seq<Byte>>, lib: Library) returns (p: RequestParser)
    ensures fresh(p) && p.Valid() && p.lib == lib && Ok(Fresh())
    ensures p.View() == FeedAll(Fresh(), Joined(fragments), lib)
  {
    hide Feed, Ok;
    p := new RequestParser(lib);
    var k := 0;
    assert fragments[0..] == fragments;
    while k < |fragments|
      invariant k <= |fragments| && fresh(p) && fresh(p.Repr()) && p.Valid() && p.lib == lib && Ok(Fresh())
      invariant FeedAll(p.View(), Joined(fragments[k..]), lib) == FeedAll(Fresh(), Joined(fragments), lib)
    {
      FragmentsDoNotMatter(p.View(), fragments[k], Joined(fragments[k + 1..]), lib);
      p.RequestParse(fragments[k]);
      k := k + 1;
    }
  }

  /** A printed message that arrives in fragments, however it is cut: done with the last one (unless
      a body is announced as empty), with everything recovered. */
  method Receive(m: Message, fragments: seq<seq<Byte>>, lib: Library) returns (p: RequestParser)
    requires HttpRoundTrip.Good(m, lib) && Joined(fragments) == Print(m)
    ensures fresh(p) && p.Valid() && |Packed(m.fields)| <= POOL_SIZE && p.View() == Parsed(m, lib)
    ensures p.state.Done? <==> Announced(m.fields, lib) != Size(0)
  {
    hide Feed, Ok, HttpRoundTrip.Good, Print, Parsed, Packed;
    ParseInvertsPrint(m, lib);
    p := ReceiveAny(fragments, lib);
    ParsedState(m, lib);
  }

  lemma ParsedState(m: Message, lib: Library)
    requires |Packed(m.fields)| <= POOL_SIZE
    ensures Parsed(m, lib).state.Done? <==> Announced(m.fields, lib) != Size(0)
  {
  }
}
