/** The two prefix normalisers, internal/config/config.go and
    internal/summarystore/store.go: config trims the whole value and drops empty
    segments, the store trims every segment before dropping the empty ones. */
module Prefix {
  import opened Text

  const SLASH: char := '/'

  function Kept(parts: seq<string>): seq<string> {
    if |parts| == 0 then []
    else (if parts[0] != "" then [parts[0]] else []) + Kept(parts[1..])
  }

  function TrimEach(parts: seq<string>): seq<string> {
    if |parts| == 0 then [] else [TrimSpace(parts[0])] + TrimEach(parts[1..])
  }

  predicate Full(parts: seq<string>) {
    forall i :: 0 <= i < |parts| ==> parts[i] != ""
  }

  predicate AllTrimmed(parts: seq<string>) {
    forall i :: 0 <= i < |parts| ==> Trimmed(parts[i])
  }

  function ConfigSegments(raw: string): seq<string> {
    Kept(Split(TrimSpace(raw), SLASH))
  }

  function ConfigPrefix(raw: string): string {
    Join(ConfigSegments(raw), SLASH)
  }

  function StoreSegments(prefix: string): seq<string> {
    Kept(TrimEach(Split(prefix, SLASH)))
  }

  function StorePrefix(prefix: string): string {
    Join(StoreSegments(prefix), SLASH)
  }

  lemma {:induction false} KeptConcat(a: seq<string>, b: seq<string>)
    ensures Kept(a + b) == Kept(a) + Kept(b)
  {
    if |a| == 0 {
      assert a + b == b;
    } else {
      assert (a + b)[1..] == a[1..] + b;
      KeptConcat(a[1..], b);
      var head := if a[0] != "" then [a[0]] else [];
      assert head + (Kept(a[1..]) + Kept(b)) == (head + Kept(a[1..])) + Kept(b);
    }
  }

  lemma {:induction false} TrimEachConcat(a: seq<string>, b: seq<string>)
    ensures TrimEach(a + b) == TrimEach(a) + TrimEach(b)
  {
    if |a| == 0 {
      assert a + b == b;
    } else {
      assert (a + b)[1..] == a[1..] + b;
      TrimEachConcat(a[1..], b);
      var head := [TrimSpace(a[0])];
      assert head + (TrimEach(a[1..]) + TrimEach(b)) == (head + TrimEach(a[1..])) + TrimEach(b);
    }
  }

  /** config.normalizePrefix. */
  method NormalizeConfigPrefix(raw: string) returns (prefix: string)
    ensures prefix == ConfigPrefix(raw)
  {
    var parts := Split(TrimSpace(raw), SLASH);
    var kept: seq<string> := [];
    for i := 0 to |parts|
      invariant kept == Kept(parts[..i])
    {
      KeptConcat(parts[..i], [parts[i]]);
      assert parts[..i + 1] == parts[..i] + [parts[i]];
      if parts[i] != "" {
        kept := kept + [parts[i]];
      }
    }
    assert parts[..|parts|] == parts;
    prefix := Join(kept, SLASH);
  }

  /** summarystore.normalizePrefix. */
  method NormalizeStorePrefix(prefix: string) returns (normalized: string)
    ensures normalized == StorePrefix(prefix)
  {
    var parts := Split(prefix, SLASH);
    var segments: seq<string> := [];
    for i := 0 to |parts|
      invariant segments == Kept(TrimEach(parts[..i]))
    {
      KeptConcat(TrimEach(parts[..i]), TrimEach([parts[i]]));
      TrimEachConcat(parts[..i], [parts[i]]);
      assert parts[..i + 1] == parts[..i] + [parts[i]];
      var part := TrimSpace(parts[i]);
      if part != "" {
        segments := segments + [part];
      }
    }
    assert parts[..|parts|] == parts;
    normalized := Join(segments, SLASH);
  }

  // ------------------------------------------------------- the store normaliser

  lemma {:induction false} KeptIsFull(parts: seq<string>)
    ensures Full(Kept(parts))
    ensures Free(parts, SLASH) ==> Free(Kept(parts), SLASH)
    ensures AllTrimmed(parts) ==> AllTrimmed(Kept(parts))
  {
    if |parts| > 0 {
      KeptIsFull(parts[1..]);
      assert Free(parts, SLASH) ==> Free(parts[1..], SLASH);
      assert AllTrimmed(parts) ==> AllTrimmed(parts[1..]);
    }
  }

  lemma {:induction false} TrimEachIsTrimmed(parts: seq<string>)
    ensures AllTrimmed(TrimEach(parts)) && |TrimEach(parts)| == |parts|
  {
    if |parts| > 0 {
      TrimEachIsTrimmed(parts[1..]);
      var _, _ := TrimIsSlice(parts[0]);
    }
  }

  lemma {:induction false} TrimEachIsFree(parts: seq<string>)
    requires Free(parts, SLASH)
    ensures Free(TrimEach(parts), SLASH)
  {
    if |parts| > 0 {
      TrimEachIsFree(parts[1..]);
      var _, _ := TrimIsSlice(parts[0]);
    }
  }

  lemma {:induction false} TrimEachOfTrimmed(parts: seq<string>)
    requires AllTrimmed(parts)
    ensures TrimEach(parts) == parts
  {
    if |parts| > 0 {
      TrimFixes(parts[0]);
      TrimEachOfTrimmed(parts[1..]);
    }
  }

  lemma {:induction false} KeptOfFull(parts: seq<string>)
    requires Full(parts)
    ensures Kept(parts) == parts
  {
    if |parts| > 0 {
      KeptOfFull(parts[1..]);
    }
  }

  lemma KeptCons(first: string, rest: seq<string>)
    ensures Kept([first] + rest) == (if first != "" then [first] else []) + Kept(rest)
  {
    assert ([first] + rest)[1..] == rest;
  }

  lemma TrimEachCons(first: string, rest: seq<string>)
    ensures TrimEach([first] + rest) == [TrimSpace(first)] + TrimEach(rest)
  {
    assert ([first] + rest)[1..] == rest;
  }

  /** Dropping empty segments before trimming changes nothing afterwards. */
  lemma {:induction false} TrimAfterKept(parts: seq<string>)
    ensures Kept(TrimEach(Kept(parts))) == Kept(TrimEach(parts))
  {
    if |parts| > 0 {
      var first, rest := parts[0], parts[1..];
      TrimAfterKept(rest);
      assert parts == [first] + rest;
      KeptCons(first, rest);
      TrimEachCons(first, rest);
      KeptCons(TrimSpace(first), TrimEach(rest));
      if first == "" {
        assert [] + Kept(rest) == Kept(rest);
      } else {
        TrimEachCons(first, Kept(rest));
        KeptCons(TrimSpace(first), TrimEach(Kept(rest)));
      }
    }
  }

  /** A list of positions, each after the one before. */
  predicate Ascending(at: seq<nat>) {
    forall a, b :: 0 <= a < b < |at| ==> at[a] < at[b]
  }

  /** kept are the elements of parts at these positions, none of them empty. */
  predicate Picks(parts: seq<string>, kept: seq<string>, at: seq<nat>) {
    && |at| == |kept|
    && forall j :: 0 <= j < |at| ==> at[j] < |parts| && kept[j] == parts[at[j]] && kept[j] != ""
  }

  /** Every element that is not empty is at one of these positions. */
  predicate Covers(parts: seq<string>, at: seq<nat>) {
    forall i: nat :: i < |parts| && parts[i] != "" ==> i in at
  }

  predicate Selects(parts: seq<string>, kept: seq<string>, at: seq<nat>) {
    Ascending(at) && Picks(parts, kept, at) && Covers(parts, at)
  }

  function Shifted(at: seq<nat>): seq<nat> {
    seq(|at|, j requires 0 <= j < |at| => at[j] + 1)
  }

  lemma ShiftedAt(at: seq<nat>, i: nat)
    requires i in at
    ensures i + 1 in Shifted(at)
  {
    var j :| 0 <= j < |at| && at[j] == i;
    assert Shifted(at)[j] == i + 1;
  }

  lemma PicksLater(parts: seq<string>, kept: seq<string>, at: seq<nat>)
    requires parts != [] && Picks(parts[1..], kept, at)
    ensures Picks(parts, kept, Shifted(at))
    ensures parts[0] != "" ==> Picks(parts, [parts[0]] + kept, [0] + Shifted(at))
  {
    assert forall j :: 0 <= j < |at| ==> parts[1..][at[j]] == parts[at[j] + 1];
  }

  lemma CoversLater(parts: seq<string>, at: seq<nat>)
    requires parts != [] && Covers(parts[1..], at)
    ensures parts[0] == "" ==> Covers(parts, Shifted(at))
    ensures Covers(parts, [0] + Shifted(at))
  {
    forall i: nat | 1 <= i < |parts| && parts[i] != ""
      ensures i in Shifted(at)
    {
      assert parts[1..][i - 1] == parts[i];
      ShiftedAt(at, i - 1);
    }
    assert ([0] + Shifted(at))[0] == 0;
  }

  lemma AscendingLater(at: seq<nat>)
    requires Ascending(at)
    ensures Ascending(Shifted(at)) && Ascending([0] + Shifted(at))
  {
  }

  /** Keeping drops the empty elements and no other, and keeps the order. */
  lemma {:induction false} KeptSelects(parts: seq<string>) returns (at: seq<nat>)
    ensures Selects(parts, Kept(parts), at)
  {
    at := [];
    if |parts| > 0 {
      var rest := KeptSelects(parts[1..]);
      PicksLater(parts, Kept(parts[1..]), rest);
      CoversLater(parts, rest);
      AscendingLater(rest);
      at := if parts[0] == "" then Shifted(rest) else [0] + Shifted(rest);
    }
  }

  lemma {:induction false} TrimEachAt(parts: seq<string>, i: nat)
    requires i < |parts|
    ensures |TrimEach(parts)| == |parts| && TrimEach(parts)[i] == TrimSpace(parts[i])
  {
    TrimEachIsTrimmed(parts);
    if i > 0 {
      TrimEachAt(parts[1..], i - 1);
    }
  }

  /** What the store makes of a prefix: it is cut at its slashes, each piece is trimmed, the
      pieces with anything left are kept in order and joined with single slashes. */
  lemma StorePrefixMeans(prefix: string) returns (pieces: seq<string>, trimmed: seq<string>, at: seq<nat>)
    ensures Free(pieces, SLASH) && pieces != [] && Join(pieces, SLASH) == prefix
    ensures |trimmed| == |pieces| && forall i :: 0 <= i < |pieces| ==> trimmed[i] == TrimSpace(pieces[i])
    ensures Selects(trimmed, StoreSegments(prefix), at) && StorePrefix(prefix) == Join(StoreSegments(prefix), SLASH)
  {
    pieces := Split(prefix, SLASH);
    trimmed := TrimEach(pieces);
    SplitIsFree(prefix, SLASH);
    JoinOfSplit(prefix, SLASH);
    TrimEachIsTrimmed(pieces);
    forall i: nat | i < |pieces|
      ensures trimmed[i] == TrimSpace(pieces[i])
    {
      TrimEachAt(pieces, i);
    }
    at := KeptSelects(trimmed);
  }

  /** What config makes of a raw prefix: it is trimmed, cut at its slashes, and its non-empty
      pieces, untouched, are kept in order and joined with single slashes. */
  lemma ConfigPrefixMeans(raw: string) returns (pieces: seq<string>, at: seq<nat>)
    ensures Free(pieces, SLASH) && pieces != [] && Join(pieces, SLASH) == TrimSpace(raw)
    ensures Selects(pieces, ConfigSegments(raw), at) && ConfigPrefix(raw) == Join(ConfigSegments(raw), SLASH)
  {
    pieces := Split(TrimSpace(raw), SLASH);
    SplitIsFree(TrimSpace(raw), SLASH);
    JoinOfSplit(TrimSpace(raw), SLASH);
    at := KeptSelects(pieces);
  }

  /** The normalised prefix splits back into its segments, each trimmed and non-empty. */
  lemma StoreSegmentsSplit(prefix: string)
    ensures var segments := StoreSegments(prefix);
            && Full(segments) && Free(segments, SLASH) && AllTrimmed(segments)
            && (segments != [] ==> Split(StorePrefix(prefix), SLASH) == segments)
  {
    var parts := Split(prefix, SLASH);
    SplitIsFree(prefix, SLASH);
    TrimEachIsTrimmed(parts);
    TrimEachIsFree(parts);
    KeptIsFull(TrimEach(parts));
    if StoreSegments(prefix) != [] {
      SplitOfJoin(StoreSegments(prefix), SLASH);
    }
  }

  lemma SegmentsIgnoreLeadingSpace(c: char, s: string)
    requires IsSpace(c)
    ensures StoreSegments([c] + s) == StoreSegments(s)
  {
  }

  lemma SegmentsIgnoreTrailingSpace(s: string, c: char)
    requires IsSpace(c)
    ensures StoreSegments(s + [c]) == StoreSegments(s)
  {
    var parts := Split(s, SLASH);
    var n := |parts| - 1;
    SplitAppend(s, c, SLASH);
    TrimDropsTrailingSpace(parts[n], c);
    TrimEachConcat(parts[..n], [parts[n] + [c]]);
    TrimEachConcat(parts[..n], [parts[n]]);
    assert parts == parts[..n] + [parts[n]];
    assert TrimEach([parts[n] + [c]]) == TrimEach([parts[n]]);
  }

  lemma {:induction false} SegmentsOfTrimLeft(s: string)
    ensures StoreSegments(TrimLeft(s)) == StoreSegments(s)
  {
    if s != "" && IsSpace(s[0]) {
      SegmentsOfTrimLeft(s[1..]);
      SegmentsIgnoreLeadingSpace(s[0], s[1..]);
      assert s == [s[0]] + s[1..];
    }
  }

  lemma {:induction false} SegmentsOfTrimRight(s: string)
    ensures StoreSegments(TrimRight(s)) == StoreSegments(s)
    decreases |s|
  {
    if s != "" && IsSpace(s[|s| - 1]) {
      var n := |s| - 1;
      SegmentsOfTrimRight(s[..n]);
      SegmentsIgnoreTrailingSpace(s[..n], s[n]);
      assert s == s[..n] + [s[n]];
    }
  }

  lemma SegmentsOfTrim(s: string)
    ensures StoreSegments(TrimSpace(s)) == StoreSegments(s)
  {
    SegmentsOfTrimLeft(s);
    SegmentsOfTrimRight(TrimLeft(s));
  }

  lemma SegmentsOfJoin(parts: seq<string>)
    requires Free(parts, SLASH)
    ensures StoreSegments(Join(Kept(parts), SLASH)) == Kept(TrimEach(parts))
  {
    TrimAfterKept(parts);
    KeptIsFull(parts);
    if Kept(parts) != [] {
      SplitOfJoin(Kept(parts), SLASH);
    } else {
      assert Split("", SLASH) == [""];
      assert TrimSpace("") == "";
      assert Kept(TrimEach([""])) == [];
    }
  }

  /** Normalising at config load makes no difference to the store's prefix. */
  lemma ConfigThenStore(raw: string)
    ensures StorePrefix(ConfigPrefix(raw)) == StorePrefix(raw)
  {
    SplitIsFree(TrimSpace(raw), SLASH);
    SegmentsOfJoin(Split(TrimSpace(raw), SLASH));
    SegmentsOfTrim(raw);
  }

  lemma StoreIdempotent(prefix: string)
    ensures StoreSegments(StorePrefix(prefix)) == StoreSegments(prefix)
    ensures StorePrefix(StorePrefix(prefix)) == StorePrefix(prefix)
  {
    var segments := StoreSegments(prefix);
    StoreSegmentsSplit(prefix);
    KeptOfFull(segments);
    TrimEachOfTrimmed(segments);
    SegmentsOfJoin(segments);
  }

  /** Config load, client construction and key building together normalise once. */
  lemma OneNormalisation(raw: string)
    ensures StorePrefix(TrimSpace(StorePrefix(ConfigPrefix(raw)))) == StorePrefix(raw)
  {
    ConfigThenStore(raw);
    SegmentsOfTrim(StorePrefix(ConfigPrefix(raw)));
    StoreIdempotent(raw);
  }

  // ------------------------------------------------------ the config normaliser

  function DropSlashes(s: string): (t: string)
    ensures t != "" ==> t[0] != SLASH
    ensures |t| <= |s|
  {
    if s != "" && s[0] == SLASH then DropSlashes(s[1..]) else s
  }

  function DropTrailingSlashes(s: string): (t: string)
    ensures |t| <= |s| && t == s[..|t|]
    ensures t != "" ==> t[|t| - 1] != SLASH
  {
    if s != "" && s[|s| - 1] == SLASH then DropTrailingSlashes(s[..|s| - 1]) else s
  }

  /** What is left of the raw value once white space, then slashes, are stripped from its ends. */
  function Core(raw: string): string {
    DropTrailingSlashes(DropSlashes(TrimSpace(raw)))
  }

  lemma {:induction false} KeptOfDropSlashes(s: string)
    ensures Kept(Split(DropSlashes(s), SLASH)) == Kept(Split(s, SLASH))
  {
    if s != "" && s[0] == SLASH {
      KeptOfDropSlashes(s[1..]);
    }
  }

  lemma SplitTrailingSlash(s: string)
    ensures Split(s + [SLASH], SLASH) == Split(s, SLASH) + [""]
  {
    var parts := Split(s, SLASH);
    JoinOfSplit(s, SLASH);
    SplitIsFree(s, SLASH);
    JoinConcat(parts, [""], SLASH);
    SplitOfJoin(parts + [""], SLASH);
    assert Join([""], SLASH) == "";
    assert s + [SLASH] + "" == s + [SLASH];
  }

  lemma {:induction false} KeptOfDropTrailing(s: string)
    ensures Kept(Split(DropTrailingSlashes(s), SLASH)) == Kept(Split(s, SLASH))
    decreases |s|
  {
    if s != "" && s[|s| - 1] == SLASH {
      var n := |s| - 1;
      KeptOfDropTrailing(s[..n]);
      SplitTrailingSlash(s[..n]);
      assert s == s[..n] + [SLASH];
      KeptConcat(Split(s[..n], SLASH), [""]);
      assert Kept([""]) == [];
    }
  }

  /** A piece at an end of the string that is not a slash keeps the string's end. */
  lemma {:induction false} SplitEnds(s: string)
    requires s != ""
    ensures var parts := Split(s, SLASH);
            && (s[0] != SLASH ==> parts[0] != "" && parts[0][0] == s[0])
            && (s[|s| - 1] != SLASH ==> var last := parts[|parts| - 1];
                  last != "" && last[|last| - 1] == s[|s| - 1])
  {
    if |s| > 1 {
      SplitEnds(s[1..]);
    } else {
      assert s[1..] == "";
    }
  }

  lemma {:induction false} JoinEnds(parts: seq<string>)
    requires |parts| >= 1 && parts[0] != "" && parts[|parts| - 1] != ""
    ensures var joined := Join(parts, SLASH);
            var last := parts[|parts| - 1];
            joined != "" && joined[0] == parts[0][0] && joined[|joined| - 1] == last[|last| - 1]
  {
    if |parts| > 1 {
      if |parts| == 2 {
        assert Join(parts[1..], SLASH) == parts[1];
      } else {
        JoinTailEnd(parts[1..]);
      }
    }
  }

  lemma {:induction false} JoinTailEnd(parts: seq<string>)
    requires |parts| >= 1 && parts[|parts| - 1] != ""
    ensures var joined := Join(parts, SLASH);
            var last := parts[|parts| - 1];
            joined != "" && joined[|joined| - 1] == last[|last| - 1]
  {
    if |parts| > 1 {
      JoinTailEnd(parts[1..]);
    }
  }

  lemma {:induction false} KeptEnds(parts: seq<string>)
    requires |parts| >= 1 && parts[0] != "" && parts[|parts| - 1] != ""
    ensures var kept := Kept(parts);
            |kept| >= 1 && kept[0] == parts[0] && kept[|kept| - 1] == parts[|parts| - 1]
  {
    var n := |parts| - 1;
    KeptConcat(parts[..n], [parts[n]]);
    assert parts == parts[..n] + [parts[n]];
    assert Kept([parts[n]]) == [parts[n]];
  }

  lemma ConfigSegmentsOfCore(raw: string)
    ensures ConfigSegments(raw) == Kept(Split(Core(raw), SLASH))
  {
    KeptOfDropSlashes(TrimSpace(raw));
    KeptOfDropTrailing(DropSlashes(TrimSpace(raw)));
  }

  /** A string without slashes at its ends keeps those ends when normalised. */
  lemma NormalisedEnds(core: string)
    requires core != "" && core[0] != SLASH && core[|core| - 1] != SLASH
    ensures var prefix := Join(Kept(Split(core, SLASH)), SLASH);
            prefix != "" && prefix[0] == core[0] && prefix[|prefix| - 1] == core[|core| - 1]
  {
    SplitEnds(core);
    KeptEnds(Split(core, SLASH));
    JoinEnds(Kept(Split(core, SLASH)));
  }

  lemma ConfigPrefixEnds(raw: string)
    ensures Trimmed(ConfigPrefix(raw)) <==> Trimmed(Core(raw))
  {
    var core := Core(raw);
    ConfigSegmentsOfCore(raw);
    if core == "" {
      assert Split("", SLASH) == [""];
      assert Kept([""]) == [];
    } else {
      NormalisedEnds(core);
    }
  }

  lemma {:induction false} KeptJoinShorter(parts: seq<string>)
    requires |parts| >= 1
    ensures |Join(Kept(parts), SLASH)| <= |Join(parts, SLASH)|
  {
    if |parts| > 1 {
      KeptJoinShorter(parts[1..]);
      var kept := Kept(parts[1..]);
      if parts[0] != "" && kept != [] {
        assert ([parts[0]] + kept)[1..] == kept;
      } else if parts[0] == "" {
        assert Kept(parts) == kept;
      }
    } else if parts[0] != "" {
      assert Kept(parts) == [parts[0]];
    } else {
      assert Kept(parts) == [];
    }
  }

  lemma ConfigPrefixShorter(raw: string)
    ensures |ConfigPrefix(raw)| <= |TrimSpace(raw)|
  {
    JoinOfSplit(TrimSpace(raw), SLASH);
    KeptJoinShorter(Split(TrimSpace(raw), SLASH));
  }

  /** A second config pass changes nothing exactly when stripping the slashes from the
      ends of the trimmed value exposes no further white space. */
  lemma ConfigIdempotentExactlyWhen(raw: string)
    ensures ConfigPrefix(ConfigPrefix(raw)) == ConfigPrefix(raw) <==> Trimmed(Core(raw))
  {
    var prefix := ConfigPrefix(raw);
    var segments := ConfigSegments(raw);
    ConfigPrefixEnds(raw);
    TrimFixes(prefix);
    if Trimmed(prefix) {
      if segments != [] {
        SplitIsFree(TrimSpace(raw), SLASH);
        KeptIsFull(Split(TrimSpace(raw), SLASH));
        SplitOfJoin(segments, SLASH);
        KeptOfFull(segments);
      } else {
        assert Split("", SLASH) == [""];
        assert Kept([""]) == [];
      }
    } else {
      ConfigPrefixShorter(prefix);
      TrimShrinks(prefix);
    }
  }

  lemma TrimShrinks(s: string)
    requires !Trimmed(s)
    ensures |TrimSpace(s)| < |s|
  {
    var i, j := TrimIsSlice(s);
    assert s[0..|s|] == s;
  }

  /** The second pass does change "/ a": the slash hides a blank from the first trim. */
  lemma ConfigNotIdempotent()
    ensures ConfigPrefix("/ a") == " a"
    ensures ConfigPrefix(ConfigPrefix("/ a")) == "a"
  {
    assert TrimSpace("/ a") == "/ a" by { TrimFixes("/ a"); }
    SplitFirst("", " a", SLASH);
    assert "/ a" == "" + [SLASH] + " a";
    SplitFirst(" a", "", SLASH);
    assert Kept([""] + [" a"]) == [" a"] by { KeptConcat([""], [" a"]); }
    TrimDropsLeadingSpace(' ', "a");
    assert " a" == [' '] + "a";
    TrimFixes("a");
    SplitFirst("a", "", SLASH);
    assert Kept(["a"]) == ["a"];
  }
}
