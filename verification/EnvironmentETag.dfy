/** The strong entity tag (section 8.8.3 of RFC 9110) that names one version of the global
    environment-variable scope or of one machine's scope. Text is a sequence of bytes. */
module EnvironmentETag {
  import opened Common

  const MAX_INT64: int := 0x7FFF_FFFF_FFFF_FFFF
  const MAX_LENGTH := 256

  // ---------------------------------------------------------------- decimal text

  predicate IsDigit(c: char) {
    '0' <= c <= '9'
  }

  predicate AllDigits(s: string) {
    forall i :: 0 <= i < |s| ==> IsDigit(s[i])
  }

  function Decimal(n: nat): (s: string)
    ensures s != [] && AllDigits(s)
  {
    if n < 10 then ['0' + n as char] else Decimal(n / 10) + ['0' + (n % 10) as char]
  }

  function DigitsValue(s: string): nat
    requires AllDigits(s)
  {
    if s == [] then 0 else 10 * DigitsValue(s[..|s| - 1]) + (s[|s| - 1] - '0') as nat
  }

  lemma {:induction false} DecimalValue(n: nat)
    ensures DigitsValue(Decimal(n)) == n
  {
    if n >= 10 {
      DecimalValue(n / 10);
      assert Decimal(n)[..|Decimal(n)| - 1] == Decimal(n / 10);
    } else {
      assert DigitsValue(Decimal(n)[..0]) == 0;
    }
  }

  /** strconv.FormatInt in base 10. */
  function FormatInt(v: int): string {
    if v < 0 then "-" + Decimal(-v) else Decimal(v)
  }

  /** strconv.ParseInt in base 10 and 64 bits: an optional sign, then digits, in range. */
  function ParseInt(s: string): Option<int> {
    var negative := s != [] && s[0] == '-';
    var digits := if s != [] && (s[0] == '-' || s[0] == '+') then s[1..] else s;
    if digits == [] || !AllDigits(digits) then None
    else
      var n: int := DigitsValue(digits);
      var v := if negative then -n else n;
      if -MAX_INT64 - 1 <= v <= MAX_INT64 then Some(v) else None
  }

  lemma ParseFormat(v: nat)
    requires v <= MAX_INT64
    ensures ParseInt(FormatInt(v)) == Some(v)
  {
    var s := Decimal(v);
    DecimalValue(v);
    assert IsDigit(s[0]);
  }

  // ---------------------------------------------------------------- print and parse

  const GLOBAL := "environment-global"
  const MACHINE := "environment-machine-"

  function ScopeName(machineID: string): string {
    if machineID == "" then GLOBAL else MACHINE + machineID
  }

  function ScopePrefix(machineID: string): string {
    ScopeName(machineID) + "-"
  }

  function Quoted(body: string): string {
    "\"" + body + "\""
  }

  function ETag(machineID: string, version: int): string {
    Quoted(ScopePrefix(machineID) + FormatInt(version))
  }

  predicate OneLine(s: string) {
    '\r' !in s && '\n' !in s
  }

  predicate HasPrefix(s: string, p: string) {
    p <= s
  }

  predicate HasSuffix(s: string, p: string) {
    |p| <= |s| && s[|s| - |p|..] == p
  }

  function TrimPrefix(s: string, p: string): string {
    if HasPrefix(s, p) then s[|p|..] else s
  }

  function TrimSuffix(s: string, p: string): string {
    if HasSuffix(s, p) then s[..|s| - |p|] else s
  }

  function ParseETag(etag: string, machineID: string): (r: Option<int>) {
    if etag == "" || |etag| > MAX_LENGTH || !OneLine(etag) then None
    else if !HasPrefix(etag, "\"") || !HasSuffix(etag, "\"") then None
    else
      var body := TrimSuffix(TrimPrefix(etag, "\""), "\"");
      var prefix := ScopePrefix(machineID);
      if !HasPrefix(body, prefix) then None
      else
        var text := TrimPrefix(body, prefix);
        var version := ParseInt(text);
        if version == None || version.value < 0 || FormatInt(version.value) != text then None
        else version
  }

  predicate ValidETagForVersion(etag: string, machineID: string, version: int) {
    version >= 0 && ParseETag(etag, machineID) != None && etag == ETag(machineID, version)
  }

  lemma QuotedShape(etag: string)
    ensures HasPrefix(etag, "\"") && HasSuffix(etag, "\"") && |etag| > 1
            ==> etag == Quoted(TrimSuffix(TrimPrefix(etag, "\""), "\""))
  {
  }

  lemma QuotedTrims(body: string)
    ensures var etag := Quoted(body);
            && HasPrefix(etag, "\"") && HasSuffix(etag, "\"")
            && TrimSuffix(TrimPrefix(etag, "\""), "\"") == body
  {
    var etag := Quoted(body);
    assert TrimPrefix(etag, "\"") == body + "\"";
    assert (body + "\"")[|body|..] == "\"" && etag[|etag| - 1..] == "\"";
  }

  lemma PrefixTrims(prefix: string, text: string, body: string)
    ensures HasPrefix(body, prefix) && TrimPrefix(body, prefix) == text <==> body == prefix + text
  {
    if body == prefix + text { assert body[..|prefix|] == prefix && body[|prefix|..] == text; }
    if HasPrefix(body, prefix) { assert body == prefix + body[|prefix|..]; }
  }

  lemma OneLineJoin(s: string, t: string)
    ensures OneLine(s + t) <==> OneLine(s) && OneLine(t)
  {
    forall c: char ensures c in s + t <==> c in s || c in t { }
  }

  lemma TagLines(machineID: string, version: nat)
    ensures OneLine(ETag(machineID, version)) <==> OneLine(machineID)
  {
    var text := FormatInt(version);
    assert OneLine(text) by { assert AllDigits(text); }
    OneLineJoin(MACHINE, machineID);
    OneLineJoin(ScopeName(machineID), "-");
    OneLineJoin(ScopePrefix(machineID), text);
    OneLineJoin("\"", ScopePrefix(machineID) + text);
    OneLineJoin("\"" + (ScopePrefix(machineID) + text), "\"");
  }

  /** Parsing inverts printing, and accepts the canonical text and nothing else: one equation
      that says both, with the length, line and 64-bit limits of the parser. */
  lemma ParseIsInverse(etag: string, machineID: string, version: int)
    ensures ParseETag(etag, machineID) == Some(version) <==>
            (etag == ETag(machineID, version) && 0 <= version <= MAX_INT64
             && |etag| <= MAX_LENGTH && OneLine(machineID))
  {
    if ParseETag(etag, machineID) == Some(version) {
      ParsedIsPrinted(etag, machineID, version);
    }
    if etag == ETag(machineID, version) && 0 <= version <= MAX_INT64 && |etag| <= MAX_LENGTH && OneLine(machineID) {
      PrintedParses(machineID, version);
    }
  }

  lemma ParsedIsPrinted(etag: string, machineID: string, version: int)
    requires ParseETag(etag, machineID) == Some(version)
    ensures etag == ETag(machineID, version) && 0 <= version <= MAX_INT64 && |etag| <= MAX_LENGTH && OneLine(machineID)
  {
    var body := TrimSuffix(TrimPrefix(etag, "\""), "\"");
    var prefix := ScopePrefix(machineID);
    QuotedShape(etag);
    PrefixTrims(prefix, FormatInt(version), body);
    TagLines(machineID, version);
  }

  lemma PrintedParses(machineID: string, version: nat)
    requires version <= MAX_INT64 && |ETag(machineID, version)| <= MAX_LENGTH && OneLine(machineID)
    ensures ParseETag(ETag(machineID, version), machineID) == Some(version)
  {
    var prefix, text := ScopePrefix(machineID), FormatInt(version);
    TagLines(machineID, version);
    QuotedTrims(prefix + text);
    PrefixTrims(prefix, text, prefix + text);
    ParseFormat(version);
  }

  /** A tag is valid for a version exactly when it is that version's canonical text. */
  lemma ValidExactlyCanonical(etag: string, machineID: string, version: int)
    requires version <= MAX_INT64
    ensures ValidETagForVersion(etag, machineID, version) <==>
            (version >= 0 && etag == ETag(machineID, version) && |etag| <= MAX_LENGTH && OneLine(machineID))
  {
    ParseIsInverse(etag, machineID, version);
    if ParseETag(etag, machineID) != None {
      ParsedIsPrinted(etag, machineID, ParseETag(etag, machineID).value);
    }
  }

  // ---------------------------------------------------------------- a tag names one scope

  lemma DashInDigits(x: string, d: string, y: string, e: string)
    requires AllDigits(e) && |d| < |e| && |x| + |d| == |y| + |e|
    ensures x + "-" + d != y + "-" + e
  {
    var k := |x| - |y| - 1;
    assert (x + "-" + d)[|x|] == '-';
    assert (y + "-" + e)[|x|] == e[k] && IsDigit(e[k]);
  }

  /** The text before the last dash and the digits after it are determined. */
  lemma SplitAtLastDash(x: string, d: string, y: string, e: string)
    requires AllDigits(d) && AllDigits(e) && x + "-" + d == y + "-" + e
    ensures x == y && d == e
  {
    var s := x + "-" + d;
    assert |s| == |x| + 1 + |d| == |y| + 1 + |e|;
    if |d| < |e| {
      DashInDigits(x, d, y, e);
    } else if |e| < |d| {
      DashInDigits(y, e, x, d);
    } else {
      assert x == s[..|x|] && y == s[..|y|] && d == s[|x| + 1..] && e == s[|y| + 1..];
    }
  }

  function Abs(v: int): nat { if v < 0 then -v else v }

  /** The text before the dash that precedes the digits: the minus sign counts as text. */
  function BeforeDigits(m: string, v: int): string {
    if v < 0 then ScopeName(m) + "-" else ScopeName(m)
  }

  lemma TagBody(m: string, v: int)
    ensures ETag(m, v) == Quoted(BeforeDigits(m, v) + "-" + Decimal(Abs(v)))
  {
    var n, d := ScopeName(m), Decimal(Abs(v));
    assert v < 0 ==> n + "-" + ("-" + d) == n + "-" + "-" + d;
  }

  /** Two different (machine, version) pairs share a tag only across a sign: the minus of a
      negative version can be read as a trailing dash of a longer machine name. */
  predicate SignClash(m: string, v: int, m': string, v': int) {
    m != "" && v < 0 && v' == -v && m' == m + "-"
  }

  lemma SameBefore(m: string, v: int, m': string, v': int)
    requires Abs(v) == Abs(v')
    ensures BeforeDigits(m, v) == BeforeDigits(m', v') <==>
            ((m == m' && v == v') || SignClash(m, v, m', v') || SignClash(m', v', m, v))
  {
    var x, x' := BeforeDigits(m, v), BeforeDigits(m', v');
    if m != "" && m' != "" {
      var y, y' := (if v < 0 then m + "-" else m), (if v' < 0 then m' + "-" else m');
      assert x == MACHINE + y && x' == MACHINE + y';
      assert x[|MACHINE|..] == y && x'[|MACHINE|..] == y';
      if v < 0 && v' < 0 && y == y' { assert m == y[..|m|] && m' == y'[..|m'|]; }
    } else if m != "" || m' != "" {
      assert x[12] != x'[12];
    }
  }

  /** Across all machine names, including ones with dashes, and all versions, a printed tag
      determines its scope and version up to that one clash. */
  lemma TagDeterminesScope(m: string, v: int, m': string, v': int)
    ensures ETag(m, v) == ETag(m', v') <==>
            ((m == m' && v == v') || SignClash(m, v, m', v') || SignClash(m', v', m, v))
  {
    TagBody(m, v);
    TagBody(m', v');
    var x, x', d, d' := BeforeDigits(m, v), BeforeDigits(m', v'), Decimal(Abs(v)), Decimal(Abs(v'));
    if ETag(m, v) == ETag(m', v') {
      QuotedTrims(x + "-" + d);
      QuotedTrims(x' + "-" + d');
      SplitAtLastDash(x, d, x', d');
      DecimalValue(Abs(v));
      DecimalValue(Abs(v'));
    }
    if Abs(v) == Abs(v') { SameBefore(m, v, m', v'); }
  }

  /** On the versions the parser accepts, a tag determines its scope and version. */
  lemma AcceptedTagsUnique(etag: string, m: string, m': string)
    requires ParseETag(etag, m).Some? && ParseETag(etag, m').Some?
    ensures m == m' && ParseETag(etag, m) == ParseETag(etag, m')
  {
    ParsedIsPrinted(etag, m, ParseETag(etag, m).value);
    ParsedIsPrinted(etag, m', ParseETag(etag, m').value);
    TagDeterminesScope(m, ParseETag(etag, m).value, m', ParseETag(etag, m').value);
  }
}
