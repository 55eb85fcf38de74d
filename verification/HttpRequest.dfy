/** The incremental HTTP request parser of core/src/EmbeddableWebServer.h as a value: what one byte
    does to a request (sections 3, 5 and 6.2 of RFC 9112 name the parts of the message). Header
    names and values lie in one pool of fixed size, one after the other with a NUL between. */
module HttpRequests {
  import opened UrlCodec

  const CR: Byte := 13
  const LF: Byte := 10
  const COLON: Byte := 58

  const MAX_HEADERS: nat := 64
  const POOL_SIZE: nat := 8 * 1024
  // one character and the last NUL must still fit
  const POOL_LIMIT: nat := POOL_SIZE - 2
  const METHOD_SIZE: nat := 64
  const PATH_SIZE: nat := 1024
  const VERSION_SIZE: nat := 16
  const MAX_BODY: nat := 128 * 1024 * 1024

  datatype State =
    | InMethod | InPath | InVersion | HeaderName | HeaderValue
    | SeenCR | SeenCRLF | SeenCRLFCR | EatHeaders | InBody | Done

  /** A string in the pool: a null pointer, or where it starts and how long it is. */
  datatype PoolString = Unset | In(base: nat, length: nat)

  predicate Empty(s: PoolString) { s.Unset? || s.length == 0 }

  datatype Header = Header(name: PoolString, value: PoolString)

  /** The bytes received of the body, and the capacity that Content-Length has asked for. */
  datatype Body = Body(contents: seq<Byte>, capacity: nat)

  datatype Warnings = Warnings(
    poolExhausted: bool, tooManyHeaders: bool,
    methodTruncated: bool, versionTruncated: bool, pathTruncated: bool, bodyTruncated: bool)

  datatype Request = Request(
    state: State,
    method_: seq<Byte>, path: seq<Byte>, version: seq<Byte>, pathDecoded: seq<Byte>,
    headers: seq<Header>, count: nat, pool: seq<Byte>, offset: nat,
    body: Body, warnings: Warnings)

  /** What sscanf makes of two characters (%02x) and of a C string (%ld). */
  datatype Library = Library(hex: Scan, long: seq<Byte> -> Number)
  datatype Number = NoNumber | Number(n: int)

  /** The request when everything has been set to 0. */
  function Fresh(): Request {
    Request(InMethod, [], [], [], [], seq(MAX_HEADERS, _ => Header(Unset, Unset)), 0, seq(POOL_SIZE, _ => 0), 0,
            Body([], 0), Warnings(false, false, false, false, false, false))
  }

  // ---- what every reachable request satisfies

  predicate InPool(s: PoolString, offset: nat) { s.In? ==> s.base + s.length <= offset }

  /** Every buffer holds what was written to it with its terminator; every pool string lies before
      the offset; there is room for a header while one is being read; there is no body before the headers end. */
  ghost predicate Ok(r: Request) {
    && |r.method_| < METHOD_SIZE && |r.path| < PATH_SIZE && |r.version| < VERSION_SIZE && |r.pathDecoded| < PATH_SIZE
    && |r.headers| == MAX_HEADERS && |r.pool| == POOL_SIZE && r.offset <= POOL_LIMIT
    && r.count <= MAX_HEADERS && (r.state.HeaderName? || r.state.HeaderValue? ==> r.count < MAX_HEADERS)
    && (forall i :: 0 <= i < MAX_HEADERS ==> InPool(r.headers[i].name, r.offset) && InPool(r.headers[i].value, r.offset))
    && (forall i :: 0 <= i < r.count ==> r.headers[i].name.In? && r.headers[i].value.In?)
    && |r.body.contents| <= r.body.capacity <= MAX_BODY && (r.state.InBody? || r.state.Done? || r.body == Body([], 0))
  }

  // ---- the pool

  /** poolStringStartNewString: the string's place and the pool's offset, or a warning. */
  function StartString(offset: nat): (PoolString, nat, bool) {
    if offset == 0 then (In(0, 0), 0, false)
    else if offset >= POOL_LIMIT then (Unset, offset, true)
    else (In(offset + 1, 0), offset + 1, false)
  }

  /** One byte for a string, which is started if its pointer is null: the string, the pool, its
      offset and whether the pool was exhausted. */
  function AddByte(s: PoolString, pool: seq<Byte>, offset: nat, c: Byte): (PoolString, seq<Byte>, nat, bool)
    requires |pool| == POOL_SIZE && InPool(s, offset) && offset <= POOL_LIMIT
  {
    var (t, o, exhausted) := if s.Unset? then StartString(offset) else (s, offset, false);
    if o >= POOL_LIMIT then (t, pool, o, true)
    else (In(t.base, t.length + 1), pool[t.base + t.length := c], o + 1, exhausted)
  }

  function NameByte(r: Request, c: Byte): Request
    requires Ok(r) && r.count < MAX_HEADERS
  {
    var h := r.headers[r.count];
    var (s, pool, offset, exhausted) := AddByte(h.name, r.pool, r.offset, c);
    r.(headers := r.headers[r.count := h.(name := s)], pool := pool, offset := offset,
       warnings := r.warnings.(poolExhausted := r.warnings.poolExhausted || exhausted))
  }

  function ValueByte(r: Request, c: Byte): Request
    requires Ok(r) && r.count < MAX_HEADERS
  {
    var h := r.headers[r.count];
    var (s, pool, offset, exhausted) := AddByte(h.value, r.pool, r.offset, c);
    r.(headers := r.headers[r.count := h.(value := s)], pool := pool, offset := offset,
       warnings := r.warnings.(poolExhausted := r.warnings.poolExhausted || exhausted))
  }

  // ---- the end of the headers

  function Lower(c: Byte): Byte { if 65 <= c <= 90 then c + 32 else c }

  // strcasecmp of two texts is 0
  predicate SameIgnoringCase(a: seq<Byte>, b: seq<Byte>) {
    |a| == |b| && forall i :: 0 <= i < |a| ==> Lower(a[i]) == Lower(b[i])
  }

  /** Two texts of the same length whose bytes differ at most between a capital and its small letter. */
  lemma SameIgnoringCaseExactly(a: seq<Byte>, b: seq<Byte>)
    ensures SameIgnoringCase(a, b) <==>
            && |a| == |b|
            && forall i :: 0 <= i < |a| ==>
                 || a[i] == b[i]
                 || (65 <= a[i] <= 90 && b[i] == a[i] + 32)
                 || (65 <= b[i] <= 90 && a[i] == b[i] + 32)
  {
  }

  // "Content-Length"
  const CONTENT_LENGTH: seq<Byte> := [67, 111, 110, 116, 101, 110, 116, 45, 76, 101, 110, 103, 116, 104]

  /** The C string that a pool string points at. */
  function CString(r: Request, s: PoolString): seq<Byte>
    requires s.In? && s.base <= |r.pool|
  {
    Text(r.pool[s.base..])
  }

  /** headerInRequest from the i-th header on: the index of the header with that name, whatever
      the case of its letters, or the number of headers. */
  function HeaderIndex(r: Request, name: seq<Byte>, i: nat): nat
    requires Ok(r) && i <= r.count
    decreases r.count - i
  {
    if i == r.count then i
    else if SameIgnoringCase(CString(r, r.headers[i].name), name) then i
    else HeaderIndex(r, name, i + 1)
  }

  // The capacity of the body that a number asks for.
  function Capacity(n: int): nat { if n > MAX_BODY then MAX_BODY else if n < 0 then 0 else n }

  function EndOfHeaders(r: Request, lib: Library): Request
    requires Ok(r)
  {
    var i := HeaderIndex(r, CONTENT_LENGTH, 0);
    if i >= r.count then r.(state := Done)
    else
      match lib.long(CString(r, r.headers[i].value))
      case NoNumber => r.(state := Done)
      case Number(n) => r.(state := InBody, body := Body([], Capacity(n)))
  }

  // ---- one byte

  // stateHeaderNameIfSpaceLeft
  function SpaceLeft(r: Request): Request {
    if r.count < MAX_HEADERS then r.(state := if r.warnings.poolExhausted then EatHeaders else HeaderName)
    else r.(state := EatHeaders, warnings := r.warnings.(tooManyHeaders := true))
  }

  function InName(r: Request, c: Byte): Request
    requires Ok(r) && r.count < MAX_HEADERS
  {
    if c == COLON then r.(state := HeaderValue)
    else if c == CR then r.(state := SeenCR)
    else NameByte(r, c)
  }

  function InValue(r: Request, c: Byte): Request
    requires Ok(r) && r.count < MAX_HEADERS
  {
    var h := r.headers[r.count];
    if c == SPACE && Empty(h.value) then r
    else if c == CR then
      r.(state := SeenCR, count := if !Empty(h.value) && !Empty(h.name) then r.count + 1 else r.count)
    else ValueByte(r, c)
  }

  function BodyByte(r: Request, c: Byte): Request {
    var b := if |r.body.contents| < r.body.capacity then r.body.(contents := r.body.contents + [c]) else r.body;
    r.(body := b, state := if |b.contents| == b.capacity then Done else InBody)
  }

  /** One byte. The first byte of a header line is looked at twice: once to leave the line end, and
      once more as part of the name. */
  function Feed(r: Request, c: Byte, lib: Library): Request
    requires Ok(r)
  {
    match r.state
    case InMethod =>
      if c == SPACE then r.(state := InPath)
      else if |r.method_| < METHOD_SIZE - 1 then r.(method_ := r.method_ + [c])
      else r.(warnings := r.warnings.(methodTruncated := true))
    case InPath =>
      if c == SPACE then
        r.(state := InVersion, pathDecoded := Decode(Text(r.path), Normal, [], PATH_SIZE, WholeUrl, lib.hex).0)
      else if |r.path| < PATH_SIZE - 1 then r.(path := r.path + [c])
      else r.(warnings := r.warnings.(pathTruncated := true))
    case InVersion =>
      if c == CR then r.(state := SeenCR)
      else if |r.version| < VERSION_SIZE - 1 then r.(version := r.version + [c])
      else r.(warnings := r.warnings.(versionTruncated := true))
    case HeaderName => InName(r, c)
    case HeaderValue => InValue(r, c)
    case SeenCR => if c == LF then r.(state := SeenCRLF) else SpaceLeft(r)
    case SeenCRLF =>
      if c == CR then r.(state := SeenCRLFCR)
      else
        var next := SpaceLeft(r);
        if next.state.HeaderName? then InName(next, c) else next
    case SeenCRLFCR => if c == LF then EndOfHeaders(r, lib) else SpaceLeft(r)
    case EatHeaders => if c == CR then r.(state := SeenCR) else r
    case InBody => BodyByte(r, c)
    case Done => if r.body.capacity > 0 then r.(warnings := r.warnings.(bodyTruncated := true)) else r
  }

  lemma AddByteKeepsPool(s: PoolString, pool: seq<Byte>, offset: nat, c: Byte)
    requires |pool| == POOL_SIZE && InPool(s, offset) && offset <= POOL_LIMIT
    ensures var (t, p, o, _) := AddByte(s, pool, offset, c);
            |p| == POOL_SIZE && InPool(t, o) && offset <= o <= POOL_LIMIT && (s.In? ==> t.In?)
  {
  }

  lemma TextIsNoLonger(s: seq<Byte>)
    ensures |Text(s)| <= |s|
  {
  }

  // A byte of a header keeps the pool strings, also the other ones, before the offset.
  lemma HeaderKeepsOk(r: Request, c: Byte)
    requires Ok(r) && r.count < MAX_HEADERS && r.body == Body([], 0)
    ensures Ok(InName(r, c)) && Ok(InValue(r, c))
  {
    AddByteKeepsPool(r.headers[r.count].name, r.pool, r.offset, c);
    AddByteKeepsPool(r.headers[r.count].value, r.pool, r.offset, c);
    hide AddByte;
  }

  lemma SpaceLeftKeepsOk(r: Request)
    requires Ok(r) && r.body == Body([], 0)
    ensures Ok(SpaceLeft(r)) && SpaceLeft(r).body == r.body && (SpaceLeft(r).state.HeaderName? ==> SpaceLeft(r).count < MAX_HEADERS)
  {
  }

  lemma EndKeepsOk(r: Request, lib: Library)
    requires Ok(r)
    ensures Ok(EndOfHeaders(r, lib))
  {
    hide HeaderIndex, CString, Text;
  }

  lemma LineKeepsOk(r: Request, c: Byte, lib: Library)
    requires Ok(r) && (r.state.InMethod? || r.state.InPath? || r.state.InVersion? || r.state.InBody? || r.state.Done?)
    ensures Ok(Feed(r, c, lib))
  {
    hide Decode, Text;
    DecodedIsNoLonger(Text(r.path), Normal, [], PATH_SIZE, WholeUrl, lib.hex);
  }

  /** Every byte leaves every buffer and pool string within its bounds, whatever it is. */
  lemma FeedKeepsOk(r: Request, c: Byte, lib: Library)
    requires Ok(r)
    ensures Ok(Feed(r, c, lib))
  {
    hide EndOfHeaders, InName, InValue, SpaceLeft, BodyByte, Decode, Text;
    EndKeepsOk(r, lib);
    if r.state.InMethod? || r.state.InPath? || r.state.InVersion? || r.state.InBody? || r.state.Done? {
      LineKeepsOk(r, c, lib);
    } else {
      if r.count < MAX_HEADERS { HeaderKeepsOk(r, c); }
      SpaceLeftKeepsOk(r);
      if SpaceLeft(r).state.HeaderName? { HeaderKeepsOk(SpaceLeft(r), c); }
    }
  }

  /** The decoding of the path, which the code asserts to succeed, always does. */
  lemma PathAlwaysDecodes(r: Request, lib: Library)
    requires Ok(r)
    ensures Decode(Text(r.path), Normal, [], PATH_SIZE, WholeUrl, lib.hex).1
  {
    TextIsNoLonger(r.path);
    DecodedIsNoLonger(Text(r.path), Normal, [], PATH_SIZE, WholeUrl, lib.hex);
  }

  // ---- any number of bytes

  function FeedAll(r: Request, bytes: seq<Byte>, lib: Library): (r': Request)
    requires Ok(r)
    ensures Ok(r')
  {
    if bytes == [] then r
    else
      FeedKeepsOk(FeedAll(r, bytes[..|bytes| - 1], lib), bytes[|bytes| - 1], lib);
      Feed(FeedAll(r, bytes[..|bytes| - 1], lib), bytes[|bytes| - 1], lib)
  }

  /** However a message is cut into fragments, the request ends in the same state. */
  lemma {:induction false} FragmentsDoNotMatter(r: Request, a: seq<Byte>, b: seq<Byte>, lib: Library)
    requires Ok(r)
    ensures FeedAll(r, a + b, lib) == FeedAll(FeedAll(r, a, lib), b, lib)
  {
    hide Ok, Feed;
    if b == [] {
      assert a + b == a;
    } else {
      var n := |b| - 1;
      assert (a + b)[..|a| + n] == a + b[..n];
      FragmentsDoNotMatter(r, a, b[..n], lib);
    }
  }

  lemma FeedNone(r: Request, lib: Library)
    requires Ok(r)
    ensures FeedAll(r, [], lib) == r
  {
    hide Feed, Ok;
  }

  lemma FeedOne(r: Request, c: Byte, lib: Library)
    requires Ok(r)
    ensures FeedAll(r, [c], lib) == Feed(r, c, lib)
  {
    hide Feed, Ok;
    assert [c][..0] == [];
  }

  lemma FeedMore(r: Request, bytes: seq<Byte>, c: Byte, lib: Library)
    requires Ok(r)
    ensures FeedAll(r, bytes + [c], lib) == Feed(FeedAll(r, bytes, lib), c, lib)
  {
    hide Feed, Ok;
    assert (bytes + [c])[..|bytes|] == bytes;
  }

  lemma FeedFirst(r: Request, c: Byte, rest: seq<Byte>, lib: Library)
    requires Ok(r)
    ensures Ok(Feed(r, c, lib)) && FeedAll(r, [c] + rest, lib) == FeedAll(Feed(r, c, lib), rest, lib)
  {
    hide Feed, Ok;
    FeedOne(r, c, lib);
    FeedKeepsOk(r, c, lib);
    FragmentsDoNotMatter(r, [c], rest, lib);
  }
}
