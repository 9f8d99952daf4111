/** The string operations the program takes from Go's standard library: trimming
    Unicode white space, splitting and joining on one separator character. A
    string is a sequence of Unicode scalar values. */
module Text {

  /** The characters Go counts as white space. */
  predicate IsSpace(c: char) {
    || '\t' <= c <= '\r'
    || c == ' '
    || c == '\U{85}'
    || c == '\U{A0}'
    || c == '\U{1680}'
    || '\U{2000}' <= c <= '\U{200A}'
    || c == '\U{2028}' || c == '\U{2029}' || c == '\U{202F}' || c == '\U{205F}' || c == '\U{3000}'
  }

  /** The twenty-five code points with Unicode's White_Space property. */
  const SPACES: set<int> := {0x9, 0xA, 0xB, 0xC, 0xD, 0x20, 0x85, 0xA0, 0x1680, 0x2000, 0x2001, 0x2002, 0x2003, 0x2004,
                             0x2005, 0x2006, 0x2007, 0x2008, 0x2009, 0x200A, 0x2028, 0x2029, 0x202F, 0x205F, 0x3000}

  lemma SpaceTable(c: char)
    ensures IsSpace(c) <==> c as int in SPACES
  {
  }

  function TrimLeft(s: string): string {
    if s != "" && IsSpace(s[0]) then TrimLeft(s[1..]) else s
  }

  function TrimRight(s: string): string {
    if s != "" && IsSpace(s[|s| - 1]) then TrimRight(s[..|s| - 1]) else s
  }

  /** White space removed from both ends. */
  function TrimSpace(s: string): string {
    TrimRight(TrimLeft(s))
  }

  /** Neither end is white space. */
  predicate Trimmed(s: string) {
    s == "" || (!IsSpace(s[0]) && !IsSpace(s[|s| - 1]))
  }

  predicate Blank(s: string) {
    forall i :: 0 <= i < |s| ==> IsSpace(s[i])
  }

  lemma {:induction false} TrimLeftIsSuffix(s: string)
    ensures var t := TrimLeft(s); |t| <= |s| && t == s[|s| - |t|..] && (t != "" ==> !IsSpace(t[0]))
  {
    if s != "" && IsSpace(s[0]) {
      TrimLeftIsSuffix(s[1..]);
    }
  }

  lemma {:induction false} TrimRightIsPrefix(s: string)
    ensures var t := TrimRight(s); |t| <= |s| && t == s[..|t|] && (t != "" ==> !IsSpace(t[|t| - 1]))
  {
    if s != "" && IsSpace(s[|s| - 1]) {
      TrimRightIsPrefix(s[..|s| - 1]);
    }
  }

  lemma BlankCons(s: string, n: nat)
    requires n < |s| && IsSpace(s[0]) && Blank(s[1..][..n])
    ensures Blank(s[..n + 1])
  {
    assert s[..n + 1] == [s[0]] + s[1..][..n];
  }

  lemma {:induction false} TrimLeftCuts(s: string)
    ensures |TrimLeft(s)| <= |s| && Blank(s[..|s| - |TrimLeft(s)|])
  {
    if s != "" && IsSpace(s[0]) {
      var rest := s[1..];
      TrimLeftCuts(rest);
      BlankCons(s, |rest| - |TrimLeft(rest)|);
    }
  }

  lemma {:induction false} TrimRightCuts(s: string)
    ensures |TrimRight(s)| <= |s| && Blank(s[|TrimRight(s)|..])
    decreases |s|
  {
    TrimRightIsPrefix(s);
    if s != "" && IsSpace(s[|s| - 1]) {
      var t := s[..|s| - 1];
      TrimRightCuts(t);
      TrimRightIsPrefix(t);
      var n := |TrimRight(t)|;
      assert s[n..] == t[n..] + [s[|s| - 1]];
    }
  }

  /** Trimming takes one contiguous, trimmed piece out of the string; the rest is white space. */
  lemma TrimIsSlice(s: string) returns (from: nat, to: nat)
    ensures from <= to <= |s| && TrimSpace(s) == s[from..to]
    ensures Trimmed(TrimSpace(s)) && Blank(s[..from]) && Blank(s[to..])
  {
    TrimLeftIsSuffix(s);
    var left := TrimLeft(s);
    TrimRightIsPrefix(left);
    TrimLeftCuts(s);
    TrimRightCuts(left);
    from := |s| - |left|;
    to := from + |TrimSpace(s)|;
    assert s[to..] == left[|TrimSpace(s)|..];
  }

  /** Trimming leaves exactly the strings whose ends are not white space alone. */
  lemma TrimFixes(s: string)
    ensures TrimSpace(s) == s <==> Trimmed(s)
    ensures TrimSpace(TrimSpace(s)) == TrimSpace(s)
  {
    var _, _ := TrimIsSlice(s);
  }

  lemma {:induction false} TrimLeftBlank(s: string)
    ensures TrimLeft(s) == "" <==> Blank(s)
  {
    if s != "" && IsSpace(s[0]) {
      TrimLeftBlank(s[1..]);
      assert forall i :: 1 <= i < |s| ==> s[i] == s[1..][i - 1];
    }
  }

  lemma {:induction false} TrimRightKeeps(s: string)
    requires s != "" && !IsSpace(s[0])
    ensures TrimRight(s) != ""
  {
    if IsSpace(s[|s| - 1]) {
      TrimRightKeeps(s[..|s| - 1]);
    }
  }

  /** Only white space trims to nothing. */
  lemma TrimBlank(s: string)
    ensures TrimSpace(s) == "" <==> Blank(s)
  {
    TrimLeftBlank(s);
    TrimLeftIsSuffix(s);
    if TrimLeft(s) != "" {
      TrimRightKeeps(TrimLeft(s));
    }
  }

  lemma TrimDropsLeadingSpace(c: char, s: string)
    requires IsSpace(c)
    ensures TrimSpace([c] + s) == TrimSpace(s)
  {
  }

  lemma {:induction false} TrimLeftAppend(s: string, c: char)
    requires IsSpace(c)
    ensures TrimLeft(s + [c]) == if Blank(s) then "" else TrimLeft(s) + [c]
  {
    if s == "" {
      assert ("" + [c])[1..] == "";
    } else if IsSpace(s[0]) {
      TrimLeftAppend(s[1..], c);
      assert (s + [c])[1..] == s[1..] + [c];
      assert forall i :: 1 <= i < |s| ==> s[i] == s[1..][i - 1];
    } else {
      assert TrimLeft(s) == s;
      assert !Blank(s);
    }
  }

  lemma TrimDropsTrailingSpace(s: string, c: char)
    requires IsSpace(c)
    ensures TrimSpace(s + [c]) == TrimSpace(s)
  {
    TrimLeftAppend(s, c);
    TrimLeftBlank(s);
    if !Blank(s) {
      var left := TrimLeft(s);
      assert (left + [c])[..|left|] == left;
    }
  }

  // ---------------------------------------------------------------- splitting

  /** The pieces of s between occurrences of sep; one more than there are occurrences. */
  function Split(s: string, sep: char): (parts: seq<string>)
    ensures |parts| >= 1
  {
    if s == "" then [""]
    else
      var rest := Split(s[1..], sep);
      if s[0] == sep then [""] + rest else [[s[0]] + rest[0]] + rest[1..]
  }

  predicate Free(parts: seq<string>, sep: char) {
    forall i :: 0 <= i < |parts| ==> sep !in parts[i]
  }

  lemma {:induction false} SplitIsFree(s: string, sep: char)
    ensures Free(Split(s, sep), sep)
  {
    if s != "" {
      SplitIsFree(s[1..], sep);
    }
  }

  function Join(parts: seq<string>, sep: char): string {
    if |parts| == 0 then ""
    else if |parts| == 1 then parts[0]
    else parts[0] + [sep] + Join(parts[1..], sep)
  }

  lemma {:induction false} JoinOfSplit(s: string, sep: char)
    ensures Join(Split(s, sep), sep) == s
  {
    if s != "" {
      JoinOfSplit(s[1..], sep);
      var rest := Split(s[1..], sep);
      assert s == [s[0]] + s[1..];
      if s[0] == sep {
        assert ([""] + rest)[1..] == rest;
      } else {
        var parts := [[s[0]] + rest[0]] + rest[1..];
        assert parts[1..] == rest[1..];
      }
    }
  }

  lemma {:induction false} SplitFirst(p: string, rest: string, sep: char)
    requires sep !in p
    ensures Split(p, sep) == [p]
    ensures Split(p + [sep] + rest, sep) == [p] + Split(rest, sep)
  {
    var whole := p + [sep] + rest;
    if p == "" {
      assert whole[1..] == rest;
    } else {
      SplitFirst(p[1..], rest, sep);
      assert whole[1..] == p[1..] + [sep] + rest;
      assert p == [p[0]] + p[1..];
    }
  }

  /** Splitting undoes joining when no piece holds the separator. */
  lemma {:induction false} SplitOfJoin(parts: seq<string>, sep: char)
    requires |parts| >= 1
    requires Free(parts, sep)
    ensures Split(Join(parts, sep), sep) == parts
  {
    if |parts| == 1 {
      SplitFirst(parts[0], "", sep);
      assert parts == [parts[0]];
    } else {
      SplitOfJoin(parts[1..], sep);
      SplitFirst(parts[0], Join(parts[1..], sep), sep);
      assert parts == [parts[0]] + parts[1..];
    }
  }

  /** The pieces with one more character at the end of the last. */
  function Extended(parts: seq<string>, c: char): seq<string>
    requires |parts| >= 1
  {
    parts[..|parts| - 1] + [parts[|parts| - 1] + [c]]
  }

  lemma {:induction false} SplitAppend(s: string, c: char, sep: char)
    requires c != sep
    ensures Split(s + [c], sep) == Extended(Split(s, sep), c)
  {
    if s == "" {
      SplitFirst([c], "", sep);
      assert "" + [c] == [c];
    } else {
      SplitAppend(s[1..], c, sep);
      assert (s + [c])[1..] == s[1..] + [c];
      var rest := Split(s[1..], sep);
      if s[0] == sep {
        ExtendedCons("", rest, c);
      } else {
        ExtendedHead(s[0], rest, c);
      }
    }
  }

  lemma ExtendedCons(first: string, rest: seq<string>, c: char)
    requires |rest| >= 1
    ensures Extended([first] + rest, c) == [first] + Extended(rest, c)
  {
  }

  lemma ExtendedHead(first: char, rest: seq<string>, c: char)
    requires |rest| >= 1
    ensures Extended([[first] + rest[0]] + rest[1..], c)
         == [[first] + Extended(rest, c)[0]] + Extended(rest, c)[1..]
  {
    if |rest| == 1 {
      assert [first] + (rest[0] + [c]) == [first] + rest[0] + [c];
    } else {
      ExtendedCons([first] + rest[0], rest[1..], c);
      ExtendedCons(rest[0], rest[1..], c);
      assert rest == [rest[0]] + rest[1..];
    }
  }

  /** Joining is associative over concatenation of non-empty lists. */
  lemma {:induction false} JoinConcat(a: seq<string>, b: seq<string>, sep: char)
    requires |a| >= 1 && |b| >= 1
    ensures Join(a + b, sep) == Join(a, sep) + [sep] + Join(b, sep)
  {
    if |a| == 1 {
      assert (a + b)[1..] == b;
    } else {
      JoinConcat(a[1..], b, sep);
      assert (a + b)[1..] == a[1..] + b;
    }
  }
}
