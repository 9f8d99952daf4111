/** Two hand-written string parsers of internal/config/config.go: the authority of a
    broker URL, and the fediverse handle of a direct-message recipient. */
module ConfigStrings {
  import opened Results
  import opened Text

  // ------------------------------------------------------------------ amqpAuthority

  const MARK := "://"
  const AT: char := '@'

  /** The characters that end an authority (RFC 3986, section 3.2). */
  predicate EndsAuthority(c: char) {
    c == '/' || c == '?' || c == '#'
  }

  /** What follows the first mark. */
  function AfterMark(s: string): Option<string> {
    if MARK <= s then Some(s[|MARK|..])
    else if s == "" then None
    else AfterMark(s[1..])
  }

  /** What precedes the first character that ends an authority. */
  function UpToEnd(s: string): string {
    if s == "" || EndsAuthority(s[0]) then "" else [s[0]] + UpToEnd(s[1..])
  }

  /** What follows the last "@", or everything. */
  function AfterLastAt(s: string): string {
    if AT in s then AfterLastAt(s[1..]) else s
  }

  function AmqpAuthority(raw: string): Option<string> {
    match AfterMark(raw)
    case None => None
    case Some(rest) => Some(AfterLastAt(UpToEnd(rest)))
  }

  /** The parts of a URL-shaped value; the tail is path, query and fragment together. */
  datatype Url = Url(scheme: string, userinfo: Option<string>, hostport: string, tail: string)

  function Print(u: Url): string {
    u.scheme + MARK + PrintUser(u.userinfo) + u.hostport + u.tail
  }

  function PrintUser(userinfo: Option<string>): string {
    match userinfo
    case None => ""
    case Some(user) => user + [AT]
  }

  predicate NoEnd(s: string) {
    forall i :: 0 <= i < |s| ==> !EndsAuthority(s[i])
  }

  predicate MarkAt(s: string, i: int) {
    0 <= i <= |s| && MARK <= s[i..]
  }

  /** The mark occurs somewhere in the string. */
  predicate Marked(s: string) {
    exists i :: 0 <= i <= |s| && MarkAt(s, i)
  }

  /** The same, read from the left. */
  predicate HasMark(s: string) {
    MARK <= s || (s != "" && HasMark(s[1..]))
  }

  lemma {:induction false} HasMarkMeans(s: string)
    ensures HasMark(s) <==> Marked(s)
  {
    if MARK <= s {
      assert MarkAt(s, 0);
    } else if s != "" {
      HasMarkMeans(s[1..]);
      if i :| 0 <= i <= |s[1..]| && MarkAt(s[1..], i) {
        assert s[1..][i..] == s[i + 1..];
        assert MarkAt(s, i + 1);
      }
      if i :| 0 <= i <= |s| && MarkAt(s, i) {
        assert s[0..] == s;
        assert s[i..] == s[1..][i - 1..];
        assert MarkAt(s[1..], i - 1);
      }
    }
  }

  /** User info may itself hold an "@"; the scheme may hold anything but the mark. */
  predicate WellFormed(u: Url) {
    && !Marked(u.scheme)
    && (u.userinfo.Some? ==> NoEnd(u.userinfo.value))
    && NoEnd(u.hostport) && AT !in u.hostport
    && (u.tail == "" || EndsAuthority(u.tail[0]))
  }

  lemma {:induction false} AfterMarkOfPrint(scheme: string, rest: string)
    requires !HasMark(scheme)
    ensures AfterMark(scheme + MARK + rest) == Some(rest)
  {
    var s := scheme + MARK + rest;
    if scheme == "" {
      assert s == MARK + rest;
    } else {
      AfterMarkOfPrint(scheme[1..], rest);
      assert s[1..] == scheme[1..] + MARK + rest;
      NoEarlyMark(scheme, rest);
    }
  }

  /** The mark has no prefix that is also a suffix, so it cannot straddle the scheme's end. */
  lemma NoEarlyMark(scheme: string, rest: string)
    requires scheme != "" && !HasMark(scheme)
    ensures !(MARK <= scheme + MARK + rest)
  {
    var s := scheme + MARK + rest;
    assert MARK == [':', '/', '/'];
    assert |scheme| == 1 ==> s[1] == ':';
    assert |scheme| == 2 ==> s[2] == ':';
    assert |scheme| >= 3 ==> s[..3] == scheme[..3];
  }

  lemma {:induction false} UpToEndOfPrint(authority: string, tail: string)
    requires NoEnd(authority) && (tail == "" || EndsAuthority(tail[0]))
    ensures UpToEnd(authority + tail) == authority
  {
    if authority == "" {
      assert authority + tail == tail;
    } else {
      assert (authority + tail)[1..] == authority[1..] + tail;
      UpToEndOfPrint(authority[1..], tail);
    }
  }

  lemma {:induction false} AfterLastAtOfPrint(user: string, hostport: string)
    requires AT !in hostport
    ensures AfterLastAt(user + [AT] + hostport) == hostport
  {
    var s := user + [AT] + hostport;
    assert s[|user|] == AT;
    if user == "" {
      assert s[1..] == hostport;
    } else {
      assert s[1..] == user[1..] + [AT] + hostport;
      AfterLastAtOfPrint(user[1..], hostport);
    }
  }

  /** amqpAuthority inverts the printer. */
  lemma AuthorityOfPrinted(u: Url)
    requires WellFormed(u)
    ensures AmqpAuthority(Print(u)) == Some(u.hostport)
  {
    var authority := PrintUser(u.userinfo) + u.hostport;
    PrintParts(u, authority + u.tail);
    HasMarkMeans(u.scheme);
    AfterMarkOfPrint(u.scheme, authority + u.tail);
    assert NoEnd(authority);
    UpToEndOfPrint(authority, u.tail);
    match u.userinfo {
      case Some(user) => AfterLastAtOfPrint(user, u.hostport);
      case None => assert authority == u.hostport;
    }
  }

  lemma {:induction false} MarkSplits(s: string) returns (scheme: string)
    requires AfterMark(s).Some?
    ensures !HasMark(scheme) && s == scheme + MARK + AfterMark(s).value
  {
    if MARK <= s {
      scheme := "";
    } else {
      var shorter := MarkSplits(s[1..]);
      scheme := [s[0]] + shorter;
      assert s == [s[0]] + s[1..] && scheme[1..] == shorter;
      assert scheme <= s;
    }
  }

  lemma {:induction false} MarkMissing(s: string)
    ensures AfterMark(s).None? <==> !HasMark(s)
  {
    if s != "" {
      MarkMissing(s[1..]);
    }
  }

  lemma {:induction false} EndSplits(s: string) returns (tail: string)
    ensures s == UpToEnd(s) + tail && NoEnd(UpToEnd(s)) && (tail == "" || EndsAuthority(tail[0]))
  {
    if s == "" || EndsAuthority(s[0]) {
      tail := s;
    } else {
      tail := EndSplits(s[1..]);
      assert s == [s[0]] + s[1..];
    }
  }

  lemma {:induction false} LastAtSplits(s: string) returns (userinfo: Option<string>)
    ensures s == PrintUser(userinfo) + AfterLastAt(s) && AT !in AfterLastAt(s)
  {
    if AT in s {
      var shorter := LastAtSplits(s[1..]);
      assert s == [s[0]] + s[1..];
      userinfo := match shorter
                  case None => Some("")
                  case Some(user) => Some([s[0]] + user);
      if shorter.None? {
        assert AfterLastAt(s) == s[1..];
        assert s[0] == AT;
      } else {
        assert PrintUser(userinfo) == [s[0]] + PrintUser(shorter);
      }
    } else {
      userinfo := None;
    }
  }

  lemma Reading(raw: string, rest: string) returns (u: Url)
    requires AfterMark(raw) == Some(rest)
    ensures WellFormed(u) && Print(u) == raw && u.hostport == AfterLastAt(UpToEnd(rest))
  {
    var scheme := MarkSplits(raw);
    HasMarkMeans(scheme);
    var tail := EndSplits(rest);
    var userinfo := LastAtSplits(UpToEnd(rest));
    var hostport := AfterLastAt(UpToEnd(rest));
    AuthorityParts(UpToEnd(rest), userinfo, hostport);
    u := Url(scheme, userinfo, hostport, tail);
    PrintParts(u, rest);
  }

  lemma PrintParts(u: Url, rest: string)
    requires rest == PrintUser(u.userinfo) + u.hostport + u.tail
    ensures Print(u) == u.scheme + MARK + rest
  {
  }

  /** And the printer inverts amqpAuthority: whatever it returns is the host of a
      well-formed reading of the value. It finds nothing exactly when there is no mark. */
  lemma AuthorityIsHost(raw: string) returns (u: Url)
    ensures AmqpAuthority(raw).None? <==> !Marked(raw)
    ensures AmqpAuthority(raw).Some? ==>
              WellFormed(u) && Print(u) == raw && u.hostport == AmqpAuthority(raw).value
    ensures var user := if u.userinfo.Some? then u.userinfo.value + "@" else "";
            AmqpAuthority(raw).Some? ==> raw == u.scheme + "://" + user + u.hostport + u.tail
    ensures AmqpAuthority(raw).Some? ==>
              && '/' !in u.hostport && '?' !in u.hostport && '#' !in u.hostport && '@' !in u.hostport
              && (u.userinfo.Some? ==> '/' !in u.userinfo.value && '?' !in u.userinfo.value && '#' !in u.userinfo.value)
              && (u.tail == "" || u.tail[0] == '/' || u.tail[0] == '?' || u.tail[0] == '#')
  {
    MarkMissing(raw);
    HasMarkMeans(raw);
    u := Url("", None, "", "");
    if AfterMark(raw).Some? {
      u := Reading(raw, AfterMark(raw).value);
    }
  }

  lemma AuthorityParts(authority: string, userinfo: Option<string>, hostport: string)
    requires NoEnd(authority) && authority == PrintUser(userinfo) + hostport
    ensures NoEnd(hostport) && (userinfo.Some? ==> NoEnd(userinfo.value))
  {
    var k := |PrintUser(userinfo)|;
    assert forall i :: 0 <= i < |hostport| ==> hostport[i] == authority[k + i];
    if userinfo.Some? {
      assert forall i :: 0 <= i < |userinfo.value| ==> userinfo.value[i] == authority[i];
    }
  }

  // -------------------------------------------------------------- normalizeRecipient

  datatype RecipientError = Required | NotAHandle

  function Ats(s: string): nat {
    multiset(s)[AT]
  }

  /** What precedes the first "@"; the whole string if there is none. */
  function BeforeAt(s: string): string {
    if s == "" || s[0] == AT then "" else [s[0]] + BeforeAt(s[1..])
  }

  /** What follows the first "@"; nothing if there is none. */
  function AfterAt(s: string): string {
    if s == "" then "" else if s[0] == AT then s[1..] else AfterAt(s[1..])
  }

  /** The trimmed value without its one optional leading "@". */
  function Stripped(raw: string): string {
    var trimmed := TrimSpace(raw);
    if trimmed != "" && trimmed[0] == AT then trimmed[1..] else trimmed
  }

  /** host is the hostname of the configured instance, empty if it has none. */
  function NormalizeRecipient(raw: string, host: string): Result<string, RecipientError> {
    if TrimSpace(raw) == "" then Err(Required)
    else
      var handle := Stripped(raw);
      if handle == "" || Ats(handle) > 1 then Err(NotAHandle)
      else if AT in handle then
        if BeforeAt(handle) == "" || AfterAt(handle) == "" then Err(NotAHandle) else Ok(handle)
      else if host == "" then Err(NotAHandle)
      else Ok(handle + [AT] + host)
  }

  /** user@domain, each non-empty and free of "@". */
  predicate IsAddress(s: string, local: string, domain: string) {
    local != "" && domain != "" && AT !in local && AT !in domain && s == local + [AT] + domain
  }

  lemma AtsOfParts(a: string, b: string)
    ensures Ats(a + [AT] + b) == Ats(a) + 1 + Ats(b)
  {
  }

  lemma {:induction false} BeforeAtSplits(s: string)
    requires AT in s
    ensures AT !in BeforeAt(s) && s == BeforeAt(s) + [AT] + AfterAt(s)
  {
    assert s == [s[0]] + s[1..];
    if s[0] != AT {
      BeforeAtSplits(s[1..]);
    }
  }

  lemma {:induction false} BeforeAtOfParts(local: string, domain: string)
    requires AT !in local
    ensures BeforeAt(local + [AT] + domain) == local
    ensures AfterAt(local + [AT] + domain) == domain
  {
    var s := local + [AT] + domain;
    if local == "" {
      assert s[1..] == domain;
    } else {
      assert s[1..] == local[1..] + [AT] + domain;
      BeforeAtOfParts(local[1..], domain);
    }
  }

  /** The two sides of a value with a single "@". */
  lemma OneAt(s: string) returns (local: string, domain: string)
    requires Ats(s) == 1
    ensures local == BeforeAt(s) && s == local + [AT] + domain && AT !in local && AT !in domain
    ensures domain == AfterAt(s)
  {
    BeforeAtSplits(s);
    local := BeforeAt(s);
    domain := AfterAt(s);
    AtsOfParts(local, domain);
  }

  /** Every accepted recipient is user@domain, given a hostname without "@". */
  lemma RecipientShape(raw: string, host: string) returns (local: string, domain: string)
    requires AT !in host && NormalizeRecipient(raw, host).Ok?
    ensures IsAddress(NormalizeRecipient(raw, host).value, local, domain)
    ensures Ats(NormalizeRecipient(raw, host).value) == 1
    ensures NormalizeRecipient(raw, host).value
         == if '@' in Stripped(raw) then Stripped(raw) else Stripped(raw) + "@" + host
    ensures TrimSpace(raw) == if '@' == TrimSpace(raw)[0] then "@" + Stripped(raw) else Stripped(raw)
  {
    var handle := Stripped(raw);
    if AT in handle {
      local, domain := OneAt(handle);
    } else {
      local, domain := handle, host;
      AtsOfParts(handle, host);
    }
  }

  /** A value is accepted exactly when, trimmed and freed of one leading "@", it is a
      user@domain, or a bare user for which the instance can lend its hostname. */
  lemma RecipientAcceptedExactlyWhen(raw: string, host: string)
    ensures NormalizeRecipient(raw, host).Ok?
       <==> var handle := Stripped(raw);
            || (exists local, domain :: IsAddress(handle, local, domain))
            || (handle != "" && AT !in handle && host != "")
  {
    var handle := Stripped(raw);
    if NormalizeRecipient(raw, host).Ok? && AT in handle {
      var local, domain := OneAt(handle);
      assert IsAddress(handle, local, domain);
    }
    if local, domain :| IsAddress(handle, local, domain) {
      AtsOfParts(local, domain);
      BeforeAtOfParts(local, domain);
    }
  }

  /** The last character of a non-empty handle is the trimmed value's. */
  lemma HandleEnd(raw: string)
    requires Stripped(raw) != ""
    ensures !IsSpace(Stripped(raw)[|Stripped(raw)| - 1])
  {
    var _, _ := TrimIsSlice(raw);
  }

  lemma TrimmedExactlyWhen(raw: string, host: string)
    requires NormalizeRecipient(raw, host).Ok?
    ensures var handle := Stripped(raw);
            && handle != "" && (AT in handle || host != "")
            && (Trimmed(NormalizeRecipient(raw, host).value)
                <==> !IsSpace(handle[0]) && (AT in handle || !IsSpace(host[|host| - 1])))
  {
    HandleEnd(raw);
  }

  lemma SecondPass(raw: string, host: string)
    requires AT !in host && NormalizeRecipient(raw, host).Ok?
    ensures var r := NormalizeRecipient(raw, host).value;
            NormalizeRecipient(r, host) == Ok(r) <==> Trimmed(r)
  {
    var r := NormalizeRecipient(raw, host).value;
    var local, domain := RecipientShape(raw, host);
    TrimFixes(r);
    BeforeAtOfParts(local, domain);
    if Trimmed(r) {
      assert Stripped(r) == r;
    } else {
      UntrimmedChanges(r, host, local, domain);
    }
  }

  /** A value of white space only is missing; any other refusal is for its form. */
  lemma RecipientMissingExactlyWhen(raw: string, host: string)
    ensures NormalizeRecipient(raw, host) == Err(Required) <==> Blank(raw)
  {
    TrimBlank(raw);
  }

  /** Normalising an accepted recipient again changes nothing exactly when no white space
      followed the stripped "@" and the hostname, if it had to be borrowed, does not end in
      any: trimming happens before the "@" is stripped and the hostname added, never after. */
  lemma RecipientIdempotentExactlyWhen(raw: string, host: string)
    requires AT !in host && NormalizeRecipient(raw, host).Ok?
    ensures var handle := Stripped(raw);
            handle != "" && (AT in handle || host != "")
    ensures var r := NormalizeRecipient(raw, host).value;
            var handle := Stripped(raw);
            NormalizeRecipient(r, host) == Ok(r)
            <==> !IsSpace(handle[0]) && (AT in handle || !IsSpace(host[|host| - 1]))
  {
    SecondPass(raw, host);
    TrimmedExactlyWhen(raw, host);
  }

  /** Trimming cannot drop an "@". */
  lemma TrimKeepsAt(s: string, at: nat) returns (from: nat, to: nat)
    requires at < |s| && s[at] == AT
    ensures from <= at < to <= |s| && TrimSpace(s) == s[from..to]
    ensures Trimmed(TrimSpace(s)) && Blank(s[..from])
  {
    from, to := TrimIsSlice(s);
    assert forall i :: 0 <= i < from ==> s[i] == s[..from][i];
    assert forall i :: to <= i < |s| ==> s[i] == s[to..][i - to];
  }

  lemma DifferentParts(a: string, b: string, local: string, domain: string)
    requires AT !in a && AT !in local && a != local
    ensures a + [AT] + b != local + [AT] + domain
  {
    BeforeAtOfParts(a, b);
    BeforeAtOfParts(local, domain);
  }

  lemma UntrimmedChanges(r: string, host: string, local: string, domain: string)
    requires AT !in host && IsAddress(r, local, domain) && !Trimmed(r)
    ensures NormalizeRecipient(r, host) != Ok(r)
  {
    TrimFixes(r);
    var at := |local|;
    var from, to := TrimKeepsAt(r, at);
    var handle := Stripped(r);
    assert TrimSpace(r)[at - from] == AT;
    assert |handle| <= |TrimSpace(r)| < |r|;
    if from == at {
      StrippedTail(r, local, domain, to);
      assert r[..from] == local;
      if handle != "" {
        assert handle[|handle| - 1] == TrimSpace(r)[|TrimSpace(r)| - 1];
        DifferentParts(handle, host, local, domain);
      }
    }
  }

  /** A blank local part is trimmed away, and the "@" stripped. */
  lemma StrippedTail(r: string, local: string, domain: string, to: nat)
    requires IsAddress(r, local, domain) && |local| < to <= |r| && TrimSpace(r) == r[|local|..to]
    ensures Stripped(r) == r[|local| + 1..to] && AT !in Stripped(r)
  {
  }

  /** So a second pass can change an accepted value: a space after the "@" survives only one. */
  lemma RecipientNotIdempotent()
    ensures NormalizeRecipient("@ a", "h") == Ok(" a@h")
    ensures NormalizeRecipient(" a@h", "h") != Ok(" a@h")
  {
    TrimFixes("@ a");
    var handle := Stripped("@ a");
    assert handle == [' ', 'a'];
    assert Ats(handle) == 0 && AT !in handle;
    assert handle + [AT] + "h" == " a@h";
    RecipientIdempotentExactlyWhen("@ a", "h");
  }
}
