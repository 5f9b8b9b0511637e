// The string helpers of the JDK and of commons-lang that the modelled code
// relies on, written out: StringUtils.isBlank/isEmpty/split/join,
// String.trim/toLowerCase/startsWith/hashCode and Integer.toString/parseInt.

module JavaStrings {
  import opened Wrappers

  /** Character.isWhitespace, restricted to the ASCII range. */
  const Whitespace: set<char> :=
    {' ', '\t', '\n', '\r', '\U{0B}', '\U{0C}', '\U{1C}', '\U{1D}', '\U{1E}', '\U{1F}'}

  /** StringUtils.isBlank for a non-null string: empty or whitespace only. */
  predicate IsBlank(s: string)
  {
    forall i :: 0 <= i < |s| ==> s[i] in Whitespace
  }

  /** StringUtils.isBlank, where None stands for null. */
  predicate IsBlankOrNull(s: Option<string>)
  {
    s.None? || IsBlank(s.value)
  }

  /** StringUtils.isEmpty, where None stands for null: whitespace is not empty. */
  predicate IsEmptyOrNull(s: Option<string>)
  {
    s.None? || s.value == ""
  }

  predicate StartsWith(s: string, prefix: string)
  {
    prefix <= s
  }

  // ---------------------------------------------------------------------------
  // String.trim: removes every leading and trailing character <= U+0020.

  predicate Trimmable(c: char) { c <= ' ' }

  /** The first index at or after i holding a character that is not trimmed. */
  function TrimFrom(s: string, i: nat): (n: nat)
    requires i <= |s|
    ensures i <= n <= |s|
    ensures forall k :: i <= k < n ==> Trimmable(s[k])
    ensures n == |s| || !Trimmable(s[n])
    decreases |s| - i
  {
    if i == |s| || !Trimmable(s[i]) then i else TrimFrom(s, i + 1)
  }

  /** The end of s[lo..j] once its trailing trimmable characters are cut. */
  function TrimTo(s: string, lo: nat, j: nat): (n: nat)
    requires lo <= j <= |s|
    ensures lo <= n <= j
    ensures forall k :: n <= k < j ==> Trimmable(s[k])
    ensures n == lo || !Trimmable(s[n - 1])
    decreases j
  {
    if j == lo || !Trimmable(s[j - 1]) then j else TrimTo(s, lo, j - 1)
  }

  function Trim(s: string): (r: string)
  {
    var i := TrimFrom(s, 0);
    s[i..TrimTo(s, i, |s|)]
  }

  /** The trimmed string neither starts nor ends with a trimmable character,
      and everything cut away from either end is trimmable. */
  lemma TrimBounds(s: string) returns (i: nat, j: nat)
    ensures i <= j <= |s| && Trim(s) == s[i..j]
    ensures forall k :: 0 <= k < i ==> Trimmable(s[k])
    ensures forall k :: j <= k < |s| ==> Trimmable(s[k])
    ensures i < j ==> !Trimmable(s[i]) && !Trimmable(s[j - 1])
  {
    i := TrimFrom(s, 0);
    j := TrimTo(s, i, |s|);
  }

  /** Trimming twice is trimming once. */
  lemma TrimIdempotent(s: string)
    ensures Trim(Trim(s)) == Trim(s)
  {
    var i, j := TrimBounds(s);
    var t := s[i..j];
    assert TrimFrom(t, 0) == 0;
    assert TrimTo(t, 0, |t|) == |t|;
  }

  /** Two strings with trimmable characters in the same places trim at the
      same positions. */
  lemma {:induction false} TrimFromAgrees(s: string, t: string, i: nat)
    requires |s| == |t| && i <= |s|
    requires forall k :: 0 <= k < |s| ==> (Trimmable(s[k]) <==> Trimmable(t[k]))
    ensures TrimFrom(s, i) == TrimFrom(t, i)
    decreases |s| - i
  {
    if i < |s| && Trimmable(s[i]) {
      TrimFromAgrees(s, t, i + 1);
    }
  }

  lemma {:induction false} TrimToAgrees(s: string, t: string, lo: nat, j: nat)
    requires |s| == |t| && lo <= j <= |s|
    requires forall k :: 0 <= k < |s| ==> (Trimmable(s[k]) <==> Trimmable(t[k]))
    ensures TrimTo(s, lo, j) == TrimTo(t, lo, j)
    decreases j
  {
    if j > lo && Trimmable(s[j - 1]) {
      TrimToAgrees(s, t, lo, j - 1);
    }
  }

  // ---------------------------------------------------------------------------
  // String.toLowerCase, restricted to ASCII letters.

  function LowerChar(c: char): (r: char)
    ensures Trimmable(r) <==> Trimmable(c)
  {
    if 'A' <= c <= 'Z' then (c as int + 32) as char else c
  }

  function ToLower(s: string): (r: string)
    ensures |r| == |s|
    ensures forall i :: 0 <= i < |s| ==> r[i] == LowerChar(s[i])
  {
    seq(|s|, i requires 0 <= i < |s| => LowerChar(s[i]))
  }

  /** Lower-casing touches only letters, so it commutes with trimming. */
  lemma LowerKeepsTrim(s: string)
    ensures Trim(ToLower(s)) == ToLower(Trim(s))
  {
    var l := ToLower(s);
    TrimFromAgrees(s, l, 0);
    var i := TrimFrom(s, 0);
    TrimToAgrees(s, l, i, |s|);
    var j := TrimTo(s, i, |s|);
    assert l[i..j] == ToLower(s[i..j]);
  }

  /** Lower-casing twice is lower-casing once. */
  lemma LowerIdempotent(s: string)
    ensures ToLower(ToLower(s)) == ToLower(s)
  {
  }

  // ---------------------------------------------------------------------------
  // StringUtils.split(str, separatorChars): the maximal runs of characters
  // outside the separator set, in order; empty tokens never appear.

  function RunLength(s: string, seps: set<char>): (n: nat)
    ensures n <= |s|
    ensures forall i :: 0 <= i < n ==> s[i] !in seps
    ensures n == |s| || s[n] in seps
  {
    if s == [] || s[0] in seps then 0 else 1 + RunLength(s[1..], seps)
  }

  function Tokens(s: string, seps: set<char>): (r: seq<string>)
    ensures forall t :: t in r ==> |t| > 0 && forall i :: 0 <= i < |t| ==> t[i] !in seps
    decreases |s|
  {
    if s == [] then []
    else if s[0] in seps then Tokens(s[1..], seps)
    else
      var n := RunLength(s, seps);
      [s[..n]] + Tokens(s[n..], seps)
  }

  /** StringUtils.split(str): tokens separated by whitespace. */
  function Words(s: string): (r: seq<string>)
  {
    Tokens(s, Whitespace)
  }

  /** A non-empty string without separators is a single token. */
  lemma SingleToken(s: string, seps: set<char>)
    requires |s| > 0 && forall i :: 0 <= i < |s| ==> s[i] !in seps
    ensures Tokens(s, seps) == [s]
  {
    assert RunLength(s, seps) == |s|;
    assert s[..|s|] == s && s[|s|..] == [];
  }

  /** Tokens of "a" + sep + "b" for separator-free non-empty a and b. */
  lemma TwoTokens(a: string, c: char, b: string, seps: set<char>)
    requires |a| > 0 && forall i :: 0 <= i < |a| ==> a[i] !in seps
    requires |b| > 0 && forall i :: 0 <= i < |b| ==> b[i] !in seps
    requires c in seps
    ensures Tokens(a + [c] + b, seps) == [a, b]
  {
    var s := a + [c] + b;
    RunLengthPrefix(s, a, seps);
    assert s[..|a|] == a;
    assert s[|a|..] == [c] + b;
    assert ([c] + b)[1..] == b;
    SingleToken(b, seps);
  }

  lemma {:induction false} RunLengthPrefix(s: string, a: string, seps: set<char>)
    requires a <= s && (|a| == |s| || s[|a|] in seps)
    requires forall i :: 0 <= i < |a| ==> a[i] !in seps
    ensures RunLength(s, seps) == |a|
    decreases |a|
  {
    if |a| > 0 {
      RunLengthPrefix(s[1..], a[1..], seps);
    }
  }

  /** StringUtils.join(parts, separator). */
  function Join(parts: seq<string>, sep: string): (r: string)
    ensures parts == [] ==> r == ""
    ensures |parts| == 1 ==> r == parts[0]
  {
    if parts == [] then ""
    else if |parts| == 1 then parts[0]
    else parts[0] + sep + Join(parts[1..], sep)
  }

  // ---------------------------------------------------------------------------
  // Decimal numerals: Integer.toString and Integer.parseInt.

  predicate IsDigit(c: char) { '0' <= c <= '9' }

  function DigitChar(d: nat): char
    requires d < 10
  {
    ('0' as int + d) as char
  }

  function DigitValue(c: char): nat
    requires IsDigit(c)
  {
    c as int - '0' as int
  }

  /** The decimal digits of n, without leading zeros. */
  function Digits(n: nat): (r: string)
    ensures |r| > 0 && forall i :: 0 <= i < |r| ==> IsDigit(r[i])
  {
    if n < 10 then [DigitChar(n)] else Digits(n / 10) + [DigitChar(n % 10)]
  }

  /** The value of a string of decimal digits. */
  function DigitsValue(s: string): nat
    requires forall i :: 0 <= i < |s| ==> IsDigit(s[i])
  {
    if s == [] then 0 else 10 * DigitsValue(s[..|s| - 1]) + DigitValue(s[|s| - 1])
  }

  lemma {:induction false} DigitsRoundTrip(n: nat)
    ensures DigitsValue(Digits(n)) == n
  {
    if n >= 10 {
      DigitsRoundTrip(n / 10);
      var d := Digits(n);
      assert d[..|d| - 1] == Digits(n / 10);
    }
  }

  /** Integer.toString. */
  function IntToString(n: int): (r: string)
  {
    if n < 0 then "-" + Digits(-n) else Digits(n)
  }

  const MinInt32: int := -0x8000_0000
  const MaxInt32: int := 0x7FFF_FFFF

  /** Integer.parseInt / Integer.valueOf on a non-null string: an optional sign,
      then at least one ASCII digit, and a value that fits in 32 bits;
      anything else is a NumberFormatException. */
  function ParseInt(s: string): (r: Result<int>)
    ensures r.Success? ==> MinInt32 <= r.value <= MaxInt32
  {
    var negative := |s| > 0 && s[0] == '-';
    var body := if |s| > 0 && (s[0] == '-' || s[0] == '+') then s[1..] else s;
    if body == [] || exists i :: 0 <= i < |body| && !IsDigit(body[i]) then Failure(NumberFormat)
    else
      var d: int := DigitsValue(body);
      var v := if negative then -d else d;
      if MinInt32 <= v <= MaxInt32 then Success(v) else Failure(NumberFormat)
  }

  /** Integer.parseInt reads back what Integer.toString printed. */
  lemma IntRoundTrip(n: int)
    requires MinInt32 <= n <= MaxInt32
    ensures ParseInt(IntToString(n)) == Success(n)
  {
    var a := if n < 0 then -n else n;
    DigitsRoundTrip(a);
    var s := IntToString(n);
    if n < 0 {
      assert s[1..] == Digits(a);
    }
  }

  lemma SignDistinguishes(m: int, n: int)
    requires m < 0 <= n
    ensures IntToString(m) != IntToString(n)
  {
    assert IntToString(m)[0] == '-';
    assert IsDigit(IntToString(n)[0]);
  }

  /** Integer.toString is injective. */
  lemma IntToStringInjective(m: int, n: int)
    requires IntToString(m) == IntToString(n)
    ensures m == n
  {
    var a := if m < 0 then -m else m;
    var b := if n < 0 then -n else n;
    DigitsRoundTrip(a);
    DigitsRoundTrip(b);
    var s := IntToString(m);
    if m < 0 && n < 0 {
      assert s[1..] == Digits(a);
      assert IntToString(n)[1..] == Digits(b);
    } else if m < 0 {
      SignDistinguishes(m, n);
    } else if n < 0 {
      SignDistinguishes(n, m);
    } else {
      assert Digits(a) == Digits(b);
    }
  }

  // ---------------------------------------------------------------------------
  // String.hashCode and Objects.hashCode with 32-bit wrap-around.

  /** Reduce an integer to the signed 32-bit value Java arithmetic keeps. */
  function Wrap32(x: int): (r: int)
    ensures MinInt32 <= r <= MaxInt32
    ensures (r - x) % 0x1_0000_0000 == 0
  {
    var m := x % 0x1_0000_0000;
    if m > MaxInt32 then m - 0x1_0000_0000 else m
  }

  /** String.hashCode: h = 31 * h + c over the characters, in int arithmetic. */
  function StringHash(s: string): (r: int)
    ensures MinInt32 <= r <= MaxInt32
  {
    if s == [] then 0 else Wrap32(31 * StringHash(s[..|s| - 1]) + s[|s| - 1] as int)
  }
}
