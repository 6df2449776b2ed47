/** Strings as the service treats them: trimming by Unicode White_Space, decimal numbers, tag names. */
module Text {
  import opened Wrappers

  const MAX_I32: nat := 0x7fff_ffff

  // ---- trimming -------------------------------------------------------------------------------

  /** Unicode White_Space, which is what `str::trim` removes. */
  predicate IsSpace(c: char) {
    || '\t' <= c <= '\r'
    || c == ' '
    || c == '\U{0085}'
    || c == '\U{00A0}'
    || c == '\U{1680}'
    || '\U{2000}' <= c <= '\U{200A}'
    || c == '\U{2028}'
    || c == '\U{2029}'
    || c == '\U{202F}'
    || c == '\U{205F}'
    || c == '\U{3000}'
  }

  function TrimStart(s: string): (r: string)
    ensures |r| <= |s|
    ensures r == "" || !IsSpace(r[0])
  {
    if s == "" || !IsSpace(s[0]) then s else TrimStart(s[1..])
  }

  function TrimEnd(s: string): (r: string)
    ensures |r| <= |s| && r == s[..|r|]
    ensures r == "" || !IsSpace(r[|r| - 1])
  {
    if s == "" || !IsSpace(s[|s| - 1]) then s else TrimEnd(s[..|s| - 1])
  }

  function Trim(s: string): (r: string)
    ensures |r| <= |s|
  {
    TrimEnd(TrimStart(s))
  }

  /** `s.trim().is_empty()`. */
  predicate Blank(s: string) {
    Trim(s) == ""
  }

  predicate Trimmed(s: string) {
    Trim(s) == s
  }

  lemma TrimKeepsEnds(s: string)
    ensures Trim(s) == "" || (!IsSpace(Trim(s)[0]) && !IsSpace(Trim(s)[|Trim(s)| - 1]))
  {
  }

  /** Trimming cuts white space at the two ends and nothing else. */
  lemma {:induction false} TrimCuts(s: string) returns (a: nat, b: nat)
    ensures a <= b <= |s| && Trim(s) == s[a..b]
    ensures forall i :: 0 <= i < a || b <= i < |s| ==> IsSpace(s[i])
  {
    if s != "" && IsSpace(s[0]) {
      a, b := TrimCuts(s[1..]);
      assert s[1..][a..b] == s[a + 1..b + 1];
      assert forall i :: 1 <= i < |s| ==> s[i] == s[1..][i - 1];
      a, b := a + 1, b + 1;
    } else {
      a := 0;
      b := TrimEndCuts(s);
    }
  }

  lemma {:induction false} TrimEndCuts(s: string) returns (b: nat)
    ensures b <= |s| && TrimEnd(s) == s[..b] && forall i :: b <= i < |s| ==> IsSpace(s[i])
  {
    b := |s|;
    if s != "" && IsSpace(s[b - 1]) {
      b := TrimEndCuts(s[..b - 1]);
    }
  }

  /** Trimming twice is trimming once. */
  lemma TrimIdempotent(s: string)
    ensures Trimmed(Trim(s))
  {
    TrimKeepsEnds(s);
  }

  /** A text is blank exactly when every character of it is white space. */
  lemma {:induction false} BlankIsAllSpace(s: string)
    ensures Blank(s) <==> forall i :: 0 <= i < |s| ==> IsSpace(s[i])
  {
    if s != "" && IsSpace(s[0]) {
      BlankIsAllSpace(s[1..]);
      assert forall i :: 1 <= i < |s| ==> s[i] == s[1..][i - 1];
    } else if s != "" {
      TrimEndKeepsFirst(s);
    }
  }

  lemma {:induction false} TrimEndKeepsFirst(s: string)
    requires s != "" && !IsSpace(s[0])
    ensures TrimEnd(s) != ""
  {
    if |s| > 1 && IsSpace(s[|s| - 1]) {
      TrimEndKeepsFirst(s[..|s| - 1]);
    }
  }

  // ---- paths ----------------------------------------------------------------------------------

  /** The last component of a path. */
  function BaseName(path: string): (r: string)
    ensures '/' !in r
  {
    if path == "" then ""
    else if '/' in path[1..] then BaseName(path[1..])
    else if path[0] == '/' then path[1..]
    else path
  }

  // ---- decimal numbers ------------------------------------------------------------------------

  predicate IsDigit(c: char) {
    '0' <= c <= '9'
  }

  predicate AllDigits(s: string) {
    forall i :: 0 <= i < |s| ==> IsDigit(s[i])
  }

  function DigitOf(d: nat): (c: char)
    requires d < 10
    ensures IsDigit(c) && c as int - '0' as int == d
  {
    ('0' as int + d) as char
  }

  /** Decimal notation without leading zeros. */
  function Dec(n: nat): (s: string)
    ensures s != "" && AllDigits(s)
  {
    if n < 10 then [DigitOf(n)] else Dec(n / 10) + [DigitOf(n % 10)]
  }

  /** The number a run of digits denotes; leading zeros are accepted. */
  function ParseDec(s: string): nat
    requires AllDigits(s)
  {
    if s == "" then 0
    else ParseDec(s[..|s| - 1]) * 10 + (s[|s| - 1] as int - '0' as int)
  }

  lemma {:induction false} ParseDecOfDec(n: nat)
    ensures ParseDec(Dec(n)) == n
  {
    if n >= 10 {
      ParseDecOfDec(n / 10);
      assert Dec(n)[..|Dec(n)| - 1] == Dec(n / 10);
    } else {
      assert Dec(n)[..0] == "";
    }
  }

  // ---- version tags ---------------------------------------------------------------------------

  /** The name the service gives the tag of version `n`. */
  function TagName(n: nat): string {
    "v" + Dec(n)
  }

  /** A single `v`, then decimal digits only, then a value that fits an `i32`. */
  function VersionOfTag(name: string): (r: Option<nat>)
    ensures r.Some? ==> r.value <= MAX_I32
  {
    if |name| < 2 || name[0] != 'v' || !AllDigits(name[1..]) then None
    else if ParseDec(name[1..]) > MAX_I32 then None
    else Some(ParseDec(name[1..]))
  }

  /** The parser reads back every name the service writes. */
  lemma TagNameParses(n: nat)
    requires n <= MAX_I32
    ensures VersionOfTag(TagName(n)) == Some(n)
  {
    ParseDecOfDec(n);
    assert TagName(n)[1..] == Dec(n);
  }

  lemma TagNameInjective(a: nat, b: nat)
    requires TagName(a) == TagName(b)
    ensures a == b
  {
    assert TagName(a)[1..] == Dec(a) && TagName(b)[1..] == Dec(b);
    ParseDecOfDec(a);
    ParseDecOfDec(b);
  }

  /** The parser also accepts names the service never writes: `v02` is read as version 2. */
  lemma LeadingZeroIsRead()
    ensures VersionOfTag("v02") == Some(2) && TagName(2) == "v2" != "v02"
  {
    assert "v02"[1..] == "02";
    assert "02"[..1] == "0" && "0"[..0] == "";
    assert Dec(2) == "2";
  }
}
