/** Option values and the few .NET string operations the application relies on:
    char.IsWhiteSpace, string.Trim, string.IsNullOrWhiteSpace, ordinal
    case-insensitive comparison, and decimal formatting of integers. */
module Text {

  datatype Option<+T> = None | Some(value: T) {
    function GetOr(default: T): T {
      match this
      case Some(v) => v
      case None => default
    }
  }

  /** char.IsWhiteSpace: the Unicode space separators, line and paragraph
      separators, and the control characters U+0009..U+000D, U+0085. */
  predicate IsWhiteSpace(c: char)
    ensures c < '\U{80}' ==> (IsWhiteSpace(c) <==> c == ' ' || '\t' <= c <= '\r')
    ensures IsWhiteSpace(c) ==> !('0' <= c <= '9') && !('a' <= c <= 'z') && !('A' <= c <= 'Z')
  {
    c == ' ' || ('\t' <= c <= '\r') || c == '\U{85}' || c == '\U{A0}' ||
    c == '\U{1680}' || ('\U{2000}' <= c <= '\U{200A}') || c == '\U{2028}' ||
    c == '\U{2029}' || c == '\U{202F}' || c == '\U{205F}' || c == '\U{3000}'
  }

  /** string.IsNullOrWhiteSpace on a non-null string. */
  predicate IsBlank(s: string)
    ensures IsBlank(s) <==> LeadingEnd(s, 0) == |s|
  {
    forall i :: 0 <= i < |s| ==> IsWhiteSpace(s[i])
  }

  /** The number of white-space characters that String.TrimStart() drops
      from `s[from..]`. */
  function LeadingEnd(s: string, from: nat): (k: nat)
    requires from <= |s|
    ensures from <= k <= |s|
    ensures forall i :: from <= i < k ==> IsWhiteSpace(s[i])
    ensures k == |s| || !IsWhiteSpace(s[k])
    decreases |s| - from
  {
    if from < |s| && IsWhiteSpace(s[from]) then LeadingEnd(s, from + 1) else from
  }

  /** Where the trailing white space that String.TrimEnd() drops from
      `s[lo..hi]` begins. */
  function TrailingStart(s: string, lo: nat, hi: nat): (e: nat)
    requires lo <= hi <= |s|
    ensures lo <= e <= hi
    ensures forall i :: e <= i < hi ==> IsWhiteSpace(s[i])
    ensures e == lo || !IsWhiteSpace(s[e - 1])
    decreases hi - lo
  {
    if lo < hi && IsWhiteSpace(s[hi - 1]) then TrailingStart(s, lo, hi - 1) else hi
  }

  /** String.Trim(): the longest infix of `s` that neither starts nor ends
      with white space, everything around it being white space; it is empty
      exactly when `s` is blank. */
  function Trim(s: string): (r: string)
    ensures r == [] || (!IsWhiteSpace(r[0]) && !IsWhiteSpace(r[|r| - 1]))
    ensures var k := LeadingEnd(s, 0); var e := TrailingStart(s, k, |s|);
      && r == s[k..e]
      && (forall i :: 0 <= i < k ==> IsWhiteSpace(s[i]))
      && (forall i :: e <= i < |s| ==> IsWhiteSpace(s[i]))
    ensures r == [] <==> IsBlank(s)
  {
    var k := LeadingEnd(s, 0);
    var e := TrailingStart(s, k, |s|);
    assert k < e ==> s[k..e][0] == s[k] && s[k..e][e - k - 1] == s[e - 1];
    s[k..e]
  }

  /** `s?.Trim()`: null stays null. */
  function TrimOrNull(s: Option<string>): (r: Option<string>)
    ensures r == None <==> s == None
    ensures s != None ==> r.value == Trim(s.value)
  {
    match s
    case None => None
    case Some(v) => Some(Trim(v))
  }

  /** Trimming twice is trimming once. */
  lemma TrimIdempotent(s: string)
    ensures Trim(Trim(s)) == Trim(s)
  {
    var r := Trim(s);
    if r != [] {
      assert LeadingEnd(r, 0) == 0;
      assert TrailingStart(r, 0, |r|) == |r|;
      assert r[0..|r|] == r;
    }
  }

  /** The upper-case mapping used by StringComparison.OrdinalIgnoreCase,
      restricted to the ASCII letters. */
  function FoldChar(c: char): (u: char)
    ensures 'a' <= c <= 'z' ==> u as int == c as int - 32
    ensures !('a' <= c <= 'z') ==> u == c
    ensures !('a' <= u <= 'z')
  {
    if 'a' <= c <= 'z' then (c as int - 32) as char else c
  }

  function Fold(s: string): (r: string)
    ensures |r| == |s| && forall i :: 0 <= i < |s| ==> r[i] == FoldChar(s[i])
  {
    seq(|s|, i requires 0 <= i < |s| => FoldChar(s[i]))
  }

  /** string.Equals(a, b, StringComparison.OrdinalIgnoreCase). */
  predicate EqualsIgnoreCase(a: string, b: string)
    ensures EqualsIgnoreCase(a, b) ==> |a| == |b|
    ensures a == b ==> EqualsIgnoreCase(a, b)
  {
    |a| == |b| && forall i :: 0 <= i < |a| ==> FoldChar(a[i]) == FoldChar(b[i])
  }

  /** Case-insensitive equality is the equality of the case-folded strings,
      so it is an equivalence relation. */
  lemma EqualsIgnoreCaseIsFoldEquality(a: string, b: string)
    ensures EqualsIgnoreCase(a, b) <==> Fold(a) == Fold(b)
  {
    if Fold(a) == Fold(b) {
      assert forall i :: 0 <= i < |a| ==> Fold(a)[i] == Fold(b)[i];
    }
  }

  /** Decimal digits of a natural number, without leading zeros. */
  function Digits(n: nat): (s: string)
    ensures |s| >= 1
    ensures forall i :: 0 <= i < |s| ==> '0' <= s[i] <= '9'
    ensures n >= 10 ==> s[0] != '0'
    ensures |s| == 1 <==> n < 10
    ensures n < 100 ==> |s| <= 2
    decreases n
  {
    var d := ['0' + (n % 10) as char];
    if n < 10 then d else Digits(n / 10) + d
  }

  /** The value of a string of decimal digits. */
  function ParseDigits(s: string): nat
    requires forall i :: 0 <= i < |s| ==> '0' <= s[i] <= '9'
  {
    if s == [] then 0
    else ParseDigits(s[..|s| - 1]) * 10 + (s[|s| - 1] - '0') as nat
  }

  lemma {:induction false} ParseDigitsOfDigits(n: nat)
    ensures ParseDigits(Digits(n)) == n
    decreases n
  {
    var s := Digits(n);
    if n >= 10 {
      ParseDigitsOfDigits(n / 10);
      assert s[..|s| - 1] == Digits(n / 10);
    }
  }

  /** The "D2" format of a non-negative integer: at least two digits. */
  function Pad2(n: nat): (s: string)
    ensures |s| >= 2
    ensures n < 100 ==> |s| == 2
    ensures forall i :: 0 <= i < |s| ==> '0' <= s[i] <= '9'
    ensures ParseDigits(s) == n
  {
    ParseDigitsOfDigits(n);
    if n < 10 then
      var s := "0" + Digits(n);
      assert s[..|s| - 1] == "0";
      s
    else Digits(n)
  }

  /** Int32.ToString(): an optional minus sign, then the digits. */
  function IntToString(n: int): (s: string)
    ensures n >= 0 ==> (forall i :: 0 <= i < |s| ==> '0' <= s[i] <= '9') && ParseDigits(s) == n
    ensures n < 0 ==> |s| >= 2 && s[0] == '-' && IsDigitsFrom(s, 1) && ParseDigits(s[1..]) == -n
  {
    if n >= 0 then
      ParseDigitsOfDigits(n);
      Digits(n)
    else
      ParseDigitsOfDigits(-n);
      var s := "-" + Digits(-n);
      assert s[1..] == Digits(-n);
      s
  }

  /** The "D2" format of an integer: the sign, then at least two digits. */
  function FormatD2(n: int): (s: string)
    ensures n >= 0 ==> |s| >= 2 && (forall i :: 0 <= i < |s| ==> '0' <= s[i] <= '9') && ParseDigits(s) == n
    ensures n < 0 ==> |s| >= 3 && s[0] == '-' && IsDigitsFrom(s, 1) && ParseDigits(s[1..]) == -n
  {
    if n >= 0 then Pad2(n)
    else
      var s := "-" + Pad2(-n);
      assert s[1..] == Pad2(-n);
      s
  }

  /** Every character of `s` from index `k` on is a decimal digit. */
  predicate IsDigitsFrom(s: string, k: nat)
    requires k <= |s|
  {
    forall i :: 0 <= i < |s| - k ==> '0' <= s[k..][i] <= '9'
  }
}
