/** The object key of a stock's summary, internal/summarystore/store.go:

      [prefix/]EXCHANGE/SYMBOL/summary.md

    The Unicode upper-case mapping is a parameter. */
module ObjectKey {
  import opened Results
  import opened Text
  import opened Prefix

  const LEAF := "summary.md"

  /** A character mapping that never makes or loses a delimiter, as Unicode's
      simple upper-case mapping does not. */
  type CaseMap = f: char -> char | KeepsDelimiters(f) witness c => c

  ghost predicate KeepsDelimiters(f: char -> char) {
    forall c: char :: (f(c) == '/' <==> c == '/') && (f(c) == '.' <==> c == '.')
  }

  function Upper(up: CaseMap, s: string): (t: string)
    ensures |t| == |s|
  {
    if s == "" then "" else [up(s[0])] + Upper(up, s[1..])
  }

  /** t is s, upper-cased character by character. */
  predicate Uppered(up: CaseMap, s: string, t: string) {
    |t| == |s| && forall i :: 0 <= i < |s| ==> t[i] == up(s[i])
  }

  lemma {:induction false} UpperIsUppered(up: CaseMap, s: string)
    ensures Uppered(up, s, Upper(up, s))
  {
    if s != "" {
      UpperIsUppered(up, s[1..]);
    }
  }

  predicate DotsAt(s: string, i: int) {
    0 <= i < |s| - 1 && s[i] == '.' && s[i + 1] == '.'
  }

  /** The string contains "..". */
  predicate HasDots(s: string) {
    exists i :: 0 <= i < |s| && DotsAt(s, i)
  }

  datatype KeyError =
    | EmptyExchange
    | EmptySymbol
    | SlashInExchange
    | DotsInExchange
    | SlashInSymbol
    | DotsInSymbol
    | DotsInPrefix

  function BuildKey(up: CaseMap, prefix: string, exchange: string, symbol: string): Result<string, KeyError> {
    var p := TrimSpace(prefix);
    var e := TrimSpace(exchange);
    var s := TrimSpace(symbol);
    if e == "" then Err(EmptyExchange)
    else if s == "" then Err(EmptySymbol)
    else if SLASH in e then Err(SlashInExchange)
    else if HasDots(e) then Err(DotsInExchange)
    else if SLASH in s then Err(SlashInSymbol)
    else if HasDots(s) then Err(DotsInSymbol)
    else if HasDots(p) then Err(DotsInPrefix)
    else
      var key := Upper(up, e) + [SLASH] + Upper(up, s) + [SLASH] + LEAF;
      var q := StorePrefix(p);
      Ok(if q != "" then q + [SLASH] + key else key)
  }

  datatype Identity = Identity(prefix: string, exchange: string, symbol: string)

  /** Reads a key back: the last three pieces are exchange, symbol and the leaf. */
  function DecodeKey(key: string): Option<Identity> {
    var parts := Split(key, SLASH);
    var n := |parts| - 3;
    if n < 0 || parts[n + 2] != LEAF then None
    else Some(Identity(Join(parts[..n], SLASH), parts[n], parts[n + 1]))
  }

  /** The identity a key stands for. */
  function Normalised(up: CaseMap, prefix: string, exchange: string, symbol: string): Identity {
    Identity(StorePrefix(prefix), Upper(up, TrimSpace(exchange)), Upper(up, TrimSpace(symbol)))
  }

  // ---------------------------------------------------------------- properties

  lemma {:induction false} UpperKeepsDelimiters(up: CaseMap, s: string)
    ensures SLASH in Upper(up, s) <==> SLASH in s
    ensures forall i :: 0 <= i < |s| ==> (Upper(up, s)[i] == '.' <==> s[i] == '.')
  {
    if s != "" {
      UpperKeepsDelimiters(up, s[1..]);
      assert s == [s[0]] + s[1..];
      assert forall i :: 1 <= i < |s| ==> Upper(up, s)[i] == Upper(up, s[1..])[i - 1];
    }
  }

  lemma UpperKeepsDots(up: CaseMap, s: string)
    ensures HasDots(Upper(up, s)) <==> HasDots(s)
  {
    UpperKeepsDelimiters(up, s);
    if i :| 0 <= i < |s| && DotsAt(s, i) {
      assert DotsAt(Upper(up, s), i);
    }
    if i :| 0 <= i < |s| && DotsAt(Upper(up, s), i) {
      assert DotsAt(s, i);
    }
  }

  lemma JoinDots(a: string, b: string)
    ensures HasDots(a + [SLASH] + b) <==> HasDots(a) || HasDots(b)
  {
    var whole := a + [SLASH] + b;
    if i :| 0 <= i < |a| && DotsAt(a, i) {
      assert DotsAt(whole, i);
    }
    if i :| 0 <= i < |b| && DotsAt(b, i) {
      assert DotsAt(whole, |a| + 1 + i);
    }
    if i :| 0 <= i < |whole| && DotsAt(whole, i) {
      if i < |a| {
        assert DotsAt(a, i);
      } else {
        assert DotsAt(b, i - |a| - 1);
      }
    }
  }

  ghost predicate AnyDots(parts: seq<string>) {
    exists i :: 0 <= i < |parts| && HasDots(parts[i])
  }

  lemma {:induction false} DotsOfJoin(parts: seq<string>)
    ensures HasDots(Join(parts, SLASH)) <==> AnyDots(parts)
  {
    if |parts| == 0 {
    } else if |parts| == 1 {
      if HasDots(parts[0]) {
        assert AnyDots(parts);
      }
    } else {
      DotsOfJoin(parts[1..]);
      JoinDots(parts[0], Join(parts[1..], SLASH));
      AnyDotsCons(parts);
    }
  }

  lemma AnyDotsCons(parts: seq<string>)
    requires |parts| >= 1
    ensures AnyDots(parts) <==> HasDots(parts[0]) || AnyDots(parts[1..])
  {
  }

  lemma {:induction false} DotsOfKept(parts: seq<string>)
    ensures AnyDots(Kept(parts)) <==> AnyDots(parts)
  {
    if |parts| > 0 {
      DotsOfKept(parts[1..]);
      AnyDotsCons(parts);
      if parts[0] != "" {
        assert Kept(parts)[1..] == Kept(parts[1..]);
        AnyDotsCons(Kept(parts));
      } else {
        assert Kept(parts) == Kept(parts[1..]);
        assert !HasDots(parts[0]);
      }
    }
  }

  lemma DotsOfFirstDropped(s: string)
    requires s != "" && s[0] != '.'
    ensures HasDots(s[1..]) <==> HasDots(s)
  {
    if i :| 0 <= i < |s| && DotsAt(s, i) {
      assert DotsAt(s[1..], i - 1);
    }
    if i :| 0 <= i < |s[1..]| && DotsAt(s[1..], i) {
      assert DotsAt(s, i + 1);
    }
  }

  lemma DotsOfLastDropped(s: string)
    requires s != "" && s[|s| - 1] != '.'
    ensures HasDots(s[..|s| - 1]) <==> HasDots(s)
  {
    var t := s[..|s| - 1];
    if i :| 0 <= i < |s| && DotsAt(s, i) {
      assert DotsAt(t, i);
    }
    if i :| 0 <= i < |t| && DotsAt(t, i) {
      assert DotsAt(s, i);
    }
  }

  lemma {:induction false} DotsOfTrimLeft(s: string)
    ensures HasDots(TrimLeft(s)) <==> HasDots(s)
  {
    if s != "" && IsSpace(s[0]) {
      DotsOfTrimLeft(s[1..]);
      DotsOfFirstDropped(s);
    }
  }

  lemma {:induction false} DotsOfTrimRight(s: string)
    ensures HasDots(TrimRight(s)) <==> HasDots(s)
    decreases |s|
  {
    if s != "" && IsSpace(s[|s| - 1]) {
      DotsOfTrimRight(s[..|s| - 1]);
      DotsOfLastDropped(s);
    }
  }

  lemma DotsOfTrim(s: string)
    ensures HasDots(TrimSpace(s)) <==> HasDots(s)
  {
    DotsOfTrimLeft(s);
    DotsOfTrimRight(TrimLeft(s));
  }

  lemma {:induction false} DotsOfTrimEach(parts: seq<string>)
    ensures AnyDots(TrimEach(parts)) <==> AnyDots(parts)
  {
    if |parts| > 0 {
      DotsOfTrimEach(parts[1..]);
      DotsOfTrim(parts[0]);
      AnyDotsCons(parts);
      assert TrimEach(parts)[1..] == TrimEach(parts[1..]);
      AnyDotsCons(TrimEach(parts));
    }
  }

  /** Neither normaliser can make or hide a "..". */
  lemma NormalisersKeepDots(p: string)
    ensures HasDots(StorePrefix(p)) <==> HasDots(p)
    ensures HasDots(ConfigPrefix(p)) <==> HasDots(p)
  {
    var parts := Split(p, SLASH);
    JoinOfSplit(p, SLASH);
    DotsOfJoin(parts);
    DotsOfTrimEach(parts);
    DotsOfKept(TrimEach(parts));
    DotsOfJoin(StoreSegments(p));
    var trimmed := Split(TrimSpace(p), SLASH);
    DotsOfTrim(p);
    JoinOfSplit(TrimSpace(p), SLASH);
    DotsOfJoin(trimmed);
    DotsOfKept(trimmed);
    DotsOfJoin(ConfigSegments(p));
  }

  function KeyParts(up: CaseMap, prefix: string, exchange: string, symbol: string): seq<string> {
    var id := Normalised(up, prefix, exchange, symbol);
    StoreSegments(prefix) + [id.exchange, id.symbol, LEAF]
  }

  lemma IdentityParts(up: CaseMap, s: string)
    requires TrimSpace(s) != "" && SLASH !in TrimSpace(s) && !HasDots(TrimSpace(s))
    ensures var t := Upper(up, TrimSpace(s)); t != "" && SLASH !in t && !HasDots(t)
  {
    UpperKeepsDelimiters(up, TrimSpace(s));
    UpperKeepsDots(up, TrimSpace(s));
  }

  lemma KeyPartsAreClean(up: CaseMap, prefix: string, exchange: string, symbol: string)
    requires BuildKey(up, prefix, exchange, symbol).Ok?
    ensures var parts := KeyParts(up, prefix, exchange, symbol);
            Full(parts) && Free(parts, SLASH) && !AnyDots(parts)
  {
    IdentityParts(up, exchange);
    IdentityParts(up, symbol);
    var id := Normalised(up, prefix, exchange, symbol);
    TailIsClean(id.exchange, id.symbol);
    PrefixPartsAreClean(prefix);
    CleanConcat(StoreSegments(prefix), [id.exchange, id.symbol, LEAF]);
  }

  lemma TailIsClean(exchange: string, symbol: string)
    requires exchange != "" && SLASH !in exchange && !HasDots(exchange)
    requires symbol != "" && SLASH !in symbol && !HasDots(symbol)
    ensures var tail := [exchange, symbol, LEAF];
            Full(tail) && Free(tail, SLASH) && !AnyDots(tail)
  {
  }

  lemma PrefixPartsAreClean(prefix: string)
    requires !HasDots(TrimSpace(prefix))
    ensures var segments := StoreSegments(prefix);
            Full(segments) && Free(segments, SLASH) && !AnyDots(segments)
  {
    StoreSegmentsSplit(prefix);
    NormalisersKeepDots(prefix);
    DotsOfTrim(prefix);
    DotsOfJoin(StoreSegments(prefix));
  }

  lemma CleanConcat(a: seq<string>, b: seq<string>)
    requires Full(a) && Free(a, SLASH) && !AnyDots(a)
    requires Full(b) && Free(b, SLASH) && !AnyDots(b)
    ensures Full(a + b) && Free(a + b, SLASH) && !AnyDots(a + b)
  {
  }

  lemma KeyIsJoin(up: CaseMap, prefix: string, exchange: string, symbol: string)
    requires BuildKey(up, prefix, exchange, symbol).Ok?
    ensures BuildKey(up, prefix, exchange, symbol).value == Join(KeyParts(up, prefix, exchange, symbol), SLASH)
  {
    var id := Normalised(up, prefix, exchange, symbol);
    var segments := StoreSegments(prefix);
    var tail := [id.exchange, id.symbol, LEAF];
    SegmentsOfTrim(prefix);
    TailJoin(id.exchange, id.symbol);
    if segments == [] {
      assert segments + tail == tail;
    } else {
      StoreSegmentsSplit(prefix);
      JoinConcat(segments, tail, SLASH);
      NonEmptyJoin(segments);
    }
  }

  /** The pieces of every key that is built. */
  lemma KeySegments(up: CaseMap, prefix: string, exchange: string, symbol: string)
    requires BuildKey(up, prefix, exchange, symbol).Ok?
    ensures var parts := KeyParts(up, prefix, exchange, symbol);
            && Full(parts) && !AnyDots(parts)
            && BuildKey(up, prefix, exchange, symbol).value == Join(parts, SLASH)
            && Split(BuildKey(up, prefix, exchange, symbol).value, SLASH) == parts
  {
    KeyPartsAreClean(up, prefix, exchange, symbol);
    KeyIsJoin(up, prefix, exchange, symbol);
    SplitOfJoin(KeyParts(up, prefix, exchange, symbol), SLASH);
  }

  lemma TailJoin(exchange: string, symbol: string)
    ensures Join([exchange, symbol, LEAF], SLASH) == exchange + [SLASH] + symbol + [SLASH] + LEAF
  {
    assert [exchange, symbol, LEAF][1..] == [symbol, LEAF];
    assert [symbol, LEAF][1..] == [LEAF];
    assert Join([LEAF], SLASH) == LEAF;
    assert Join([symbol, LEAF], SLASH) == symbol + [SLASH] + LEAF;
  }

  lemma NonEmptyJoin(parts: seq<string>)
    requires |parts| >= 1 && Full(parts)
    ensures Join(parts, SLASH) != ""
  {
  }

  /** Decoding recovers the identity from every key: the normalised prefix, and exchange and
      symbol trimmed and upper-cased character by character. */
  lemma KeyRoundTrip(up: CaseMap, prefix: string, exchange: string, symbol: string)
    requires BuildKey(up, prefix, exchange, symbol).Ok?
    ensures DecodeKey(BuildKey(up, prefix, exchange, symbol).value)
         == Some(Normalised(up, prefix, exchange, symbol))
    ensures var id := DecodeKey(BuildKey(up, prefix, exchange, symbol).value).value;
            && id.prefix == StorePrefix(prefix)
            && Uppered(up, TrimSpace(exchange), id.exchange)
            && Uppered(up, TrimSpace(symbol), id.symbol)
  {
    KeySegments(up, prefix, exchange, symbol);
    var id := Normalised(up, prefix, exchange, symbol);
    var segments := StoreSegments(prefix);
    assert (segments + [id.exchange, id.symbol, LEAF])[..|segments|] == segments;
    UpperIsUppered(up, TrimSpace(exchange));
    UpperIsUppered(up, TrimSpace(symbol));
  }

  /** Every key, spelled out. */
  lemma KeySpelled(up: CaseMap, prefix: string, exchange: string, symbol: string) returns (e: string, s: string)
    requires BuildKey(up, prefix, exchange, symbol).Ok?
    ensures Uppered(up, TrimSpace(exchange), e) && Uppered(up, TrimSpace(symbol), s)
    ensures BuildKey(up, prefix, exchange, symbol).value
         == (if StorePrefix(prefix) == "" then "" else StorePrefix(prefix) + "/") + e + "/" + s + "/summary.md"
  {
    e, s := Upper(up, TrimSpace(exchange)), Upper(up, TrimSpace(symbol));
    UpperIsUppered(up, TrimSpace(exchange));
    UpperIsUppered(up, TrimSpace(symbol));
    SegmentsOfTrim(prefix);
    Spelled(StorePrefix(prefix), e, s);
  }

  lemma Spelled(q: string, e: string, s: string)
    ensures (if q != "" then q + [SLASH] + (e + [SLASH] + s + [SLASH] + LEAF) else e + [SLASH] + s + [SLASH] + LEAF)
         == (if q == "" then "" else q + "/") + e + "/" + s + "/summary.md"
  {
    assert [SLASH] + LEAF == "/summary.md" && [SLASH] == "/";
    assert e + [SLASH] + s + [SLASH] + LEAF == e + "/" + s + "/summary.md";
    if q != "" {
      assert q + [SLASH] + (e + "/" + s + "/summary.md") == q + "/" + e + "/" + s + "/summary.md";
    } else {
      assert "" + e == e;
    }
  }

  /** Which refusal it is: the first of the checks, in their order, that fails. */
  lemma RefusalIsFirstFailure(up: CaseMap, prefix: string, exchange: string, symbol: string)
    requires BuildKey(up, prefix, exchange, symbol).Err?
    ensures match BuildKey(up, prefix, exchange, symbol).error
            case EmptyExchange => Blank(exchange)
            case EmptySymbol => Blank(symbol) && !Blank(exchange)
            case SlashInExchange => SLASH in exchange && !Blank(symbol)
            case DotsInExchange => HasDots(exchange) && SLASH !in exchange && !Blank(symbol)
            case SlashInSymbol => SLASH in symbol && SLASH !in exchange && !HasDots(exchange)
            case DotsInSymbol => HasDots(symbol) && SLASH !in symbol && SLASH !in exchange && !HasDots(exchange)
            case DotsInPrefix =>
              && HasDots(prefix) && SLASH !in exchange && SLASH !in symbol
              && !HasDots(exchange) && !HasDots(symbol) && !Blank(exchange) && !Blank(symbol)
  {
    TrimBlank(exchange);
    TrimBlank(symbol);
    SlashOfTrim(exchange);
    SlashOfTrim(symbol);
    DotsOfTrim(prefix);
    DotsOfTrim(exchange);
    DotsOfTrim(symbol);
  }

  /** Two identities share a key exactly when they normalise to the same identity. */
  lemma KeyInjective(up: CaseMap, p1: string, e1: string, s1: string, p2: string, e2: string, s2: string)
    requires BuildKey(up, p1, e1, s1).Ok? && BuildKey(up, p2, e2, s2).Ok?
    ensures BuildKey(up, p1, e1, s1) == BuildKey(up, p2, e2, s2)
       <==> Normalised(up, p1, e1, s1) == Normalised(up, p2, e2, s2)
  {
    KeyRoundTrip(up, p1, e1, s1);
    KeyRoundTrip(up, p2, e2, s2);
    SegmentsOfTrim(p1);
    SegmentsOfTrim(p2);
  }

  lemma FirstPiece(s: string)
    requires s != "" && Split(s, SLASH)[0] != ""
    ensures s[0] != SLASH
  {
  }

  /** Every key stays inside the bucket: no leading slash, no empty piece, no "..". */
  lemma KeyIsSafe(up: CaseMap, prefix: string, exchange: string, symbol: string)
    requires BuildKey(up, prefix, exchange, symbol).Ok?
    ensures var key := BuildKey(up, prefix, exchange, symbol).value;
            key != "" && key[0] != SLASH && Full(Split(key, SLASH)) && !HasDots(key)
  {
    KeySegments(up, prefix, exchange, symbol);
    var parts := KeyParts(up, prefix, exchange, symbol);
    DotsOfJoin(parts);
    var key := Join(parts, SLASH);
    NonEmptyJoin(parts);
    FirstPiece(key);
  }

  /** A key is refused exactly for an empty identity part, a slash in one, or a ".."
      anywhere in the three inputs; white space at the ends never matters. */
  lemma KeyRefusedExactlyWhen(up: CaseMap, prefix: string, exchange: string, symbol: string)
    ensures BuildKey(up, prefix, exchange, symbol).Err?
       <==> || Blank(exchange) || Blank(symbol) || SLASH in exchange || SLASH in symbol
            || HasDots(prefix) || HasDots(exchange) || HasDots(symbol)
  {
    TrimBlank(exchange);
    TrimBlank(symbol);
    SlashOfTrim(exchange);
    SlashOfTrim(symbol);
    DotsOfTrim(prefix);
    DotsOfTrim(exchange);
    DotsOfTrim(symbol);
  }

  lemma SlashOfTrim(s: string)
    ensures SLASH in TrimSpace(s) <==> SLASH in s
  {
    SlashOfTrimLeft(s);
    SlashOfTrimRight(TrimLeft(s));
  }

  lemma {:induction false} SlashOfTrimLeft(s: string)
    ensures SLASH in TrimLeft(s) <==> SLASH in s
  {
    if s != "" && IsSpace(s[0]) {
      SlashOfTrimLeft(s[1..]);
      assert s == [s[0]] + s[1..];
    }
  }

  lemma {:induction false} SlashOfTrimRight(s: string)
    ensures SLASH in TrimRight(s) <==> SLASH in s
    decreases |s|
  {
    if s != "" && IsSpace(s[|s| - 1]) {
      SlashOfTrimRight(s[..|s| - 1]);
      assert s == s[..|s| - 1] + [s[|s| - 1]];
    }
  }

  /** The configured prefix passes through config and the client before it reaches
      BuildKey; the key, or the refusal, is the one the raw value would give. */
  lemma PrefixPipeline(up: CaseMap, raw: string, exchange: string, symbol: string)
    ensures BuildKey(up, StorePrefix(ConfigPrefix(raw)), exchange, symbol) == BuildKey(up, raw, exchange, symbol)
  {
    OneNormalisation(raw);
    SegmentsOfTrim(raw);
    NormalisersKeepDots(raw);
    NormalisersKeepDots(ConfigPrefix(raw));
    DotsOfTrim(raw);
    DotsOfTrim(StorePrefix(ConfigPrefix(raw)));
  }

  // -------------------------------------------------------------- the S3 client

  datatype GetResult = Body(bytes: string) | NoSuchKey | Failed(cancelled: bool)

  datatype ReadError = BadKey(why: KeyError) | NotFound | Storage(cancelled: bool)

  /** summarystore.Client: the prefix is normalised once, at construction. The
      requests that reach the object store are recorded in order. */
  class Client {
    const up: CaseMap
    const prefix: string
    var requests: seq<string>

    constructor (up: CaseMap, pathPrefix: string)
      ensures this.up == up && prefix == StorePrefix(pathPrefix) && requests == []
    {
      var normalized := NormalizeStorePrefix(pathPrefix);
      this.up := up;
      prefix := normalized;
      requests := [];
    }

    /** One request to the store; any answer may come back. */
    method GetObject(key: string) returns (r: GetResult)
      modifies this`requests
      ensures requests == old(requests) + [key]
    {
      requests := requests + [key];
      r := *;
    }

    /** A refused identity never reaches the store; any other costs one request, whose answer
        decides: only a definite miss is reported as not found. */
    method ReadSummary(exchange: string, symbol: string)
        returns (r: Result<string, ReadError>, ghost answer: Option<GetResult>)
      modifies this`requests
      ensures match BuildKey(up, prefix, exchange, symbol)
              case Err(why) => r == Err(BadKey(why)) && requests == old(requests) && answer == None
              case Ok(key) => requests == old(requests) + [key] && answer.Some?
      ensures match answer
              case None => true
              case Some(Body(bytes)) => r == Ok(bytes)
              case Some(NoSuchKey) => r == Err(NotFound)
              case Some(Failed(cancelled)) => r == Err(Storage(cancelled))
    {
      answer := None;
      var key := BuildKey(up, prefix, exchange, symbol);
      if key.Err? {
        return Err(BadKey(key.error)), answer;
      }
      var got := GetObject(key.value);
      answer := Some(got);
      match got
      case Body(bytes) => r := Ok(bytes);
      case NoSuchKey => r := Err(NotFound);
      case Failed(cancelled) => r := Err(Storage(cancelled));
    }
  }

  // ------------------------------------------------------------ stock identities

  datatype Stock = Stock(symbol: string, exchange: string)

  datatype DecodeError = Unreadable | MissingSymbol | MissingExchange

  /** decodeStock, after the protobuf library has read the body or failed to. */
  function DecodeStock(message: Option<Stock>): Result<Stock, DecodeError> {
    match message
    case None => Err(Unreadable)
    case Some(stock) =>
      var symbol, exchange := TrimSpace(stock.symbol), TrimSpace(stock.exchange);
      if symbol == "" then Err(MissingSymbol)
      else if exchange == "" then Err(MissingExchange)
      else Ok(Stock(symbol, exchange))
  }

  /** A body is usable exactly if it can be read and both fields hold more than white space;
      the fields are handed on trimmed. */
  lemma DecodedExactlyWhen(message: Option<Stock>)
    ensures DecodeStock(message).Ok?
       <==> message.Some? && !Blank(message.value.symbol) && !Blank(message.value.exchange)
    ensures match DecodeStock(message)
            case Ok(id) =>
              id.symbol == TrimSpace(message.value.symbol) && id.exchange == TrimSpace(message.value.exchange)
            case Err(Unreadable) => message == None
            case Err(MissingSymbol) => message.Some? && Blank(message.value.symbol)
            case Err(MissingExchange) =>
              message.Some? && Blank(message.value.exchange) && !Blank(message.value.symbol)
  {
    if message.Some? {
      TrimBlank(message.value.symbol);
      TrimBlank(message.value.exchange);
    }
  }

  /** A decoded identity builds the key of the untrimmed stock, and the store can then
      refuse it only for a slash or a "..". */
  lemma DecodedStockKey(up: CaseMap, prefix: string, stock: Stock)
    requires DecodeStock(Some(stock)).Ok?
    ensures var id := DecodeStock(Some(stock)).value;
            var key := BuildKey(up, prefix, id.exchange, id.symbol);
            && key == BuildKey(up, prefix, stock.exchange, stock.symbol)
            && (key.Err? <==> SLASH in stock.exchange || SLASH in stock.symbol
                              || HasDots(prefix) || HasDots(stock.exchange) || HasDots(stock.symbol))
  {
    TrimFixes(stock.symbol);
    TrimFixes(stock.exchange);
    TrimBlank(stock.symbol);
    TrimBlank(stock.exchange);
    KeyRefusedExactlyWhen(up, prefix, stock.exchange, stock.symbol);
  }
}
