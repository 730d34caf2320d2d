/** The few Python string operations the firewall code relies on:
    slicing `s[:n]`, `str.startswith`, `str.upper`, `str.split('.', 1)`
    and `str(port)` for a non-negative port number. */
module Text {

  /** `s.startswith(prefix)` */
  predicate StartsWith(s: string, prefix: string) {
    |prefix| <= |s| && s[..|prefix|] == prefix
  }

  /** `suffix` is the tail of `s`: a sequence helper for stating that a chain keeps its old rules. */
  predicate EndsWith<T(==)>(s: seq<T>, suffix: seq<T>) {
    |suffix| <= |s| && s[|s| - |suffix|..] == suffix
  }

  /** `s[:n]`: Python slicing never fails, it stops at the end of the string. */
  function Take(s: string, n: nat): (r: string)
    ensures |r| == (if |s| < n then |s| else n)
    ensures r <= s
  {
    if |s| <= n then s else s[..n]
  }

  /** Upper case of one character; only ASCII letters have one in this model. */
  function UpperChar(c: char): (u: char)
    ensures !('a' <= u <= 'z')
    ensures 'a' <= c <= 'z' ==> u as int == c as int - 32
    ensures !('a' <= c <= 'z') ==> u == c
  {
    if 'a' <= c <= 'z' then (c as int - 32) as char else c
  }

  /** `s.upper()` on ASCII text. */
  function Upper(s: string): (r: string)
    ensures |r| == |s|
    ensures forall i :: 0 <= i < |r| ==> !('a' <= r[i] <= 'z')
    ensures forall i :: 0 <= i < |s| && 'a' <= s[i] <= 'z' ==> r[i] as int == s[i] as int - 32
    ensures forall i :: 0 <= i < |s| && !('a' <= s[i] <= 'z') ==> r[i] == s[i]
  {
    seq(|s|, i requires 0 <= i < |s| => UpperChar(s[i]))
  }

  /** `a` and `b` are the same ASCII letter, one lower case and the other upper case. */
  predicate CaseVariants(a: char, b: char) {
    ('a' <= a <= 'z' && b as int == a as int - 32) || ('a' <= b <= 'z' && a as int == b as int - 32)
  }

  /** The two strings differ at most in the case of their ASCII letters. */
  predicate EqualIgnoringCase(s: string, t: string) {
    |s| == |t| && forall i :: 0 <= i < |s| ==> s[i] == t[i] || CaseVariants(s[i], t[i])
  }

  /** Two strings have the same upper case exactly when they differ only in the case of their letters. */
  lemma UpperIgnoresCase(s: string, t: string)
    ensures Upper(s) == Upper(t) <==> EqualIgnoringCase(s, t)
  {
    if EqualIgnoringCase(s, t) {
      forall i | 0 <= i < |s|
        ensures Upper(s)[i] == Upper(t)[i]
      {
        if s[i] != t[i] {
          assert CaseVariants(s[i], t[i]);
        }
      }
    }
    if Upper(s) == Upper(t) {
      forall i | 0 <= i < |s|
        ensures s[i] == t[i] || CaseVariants(s[i], t[i])
      {
        assert Upper(s)[i] == Upper(t)[i];
      }
    }
  }

  /** The part before the first `sep`: `s.split(sep, 1)[0]` when `sep` occurs in `s`. */
  function BeforeFirst(s: string, sep: char): (r: string)
    requires sep in s
    ensures r <= s && |r| < |s|
    ensures s[|r|] == sep && sep !in r
  {
    if s[0] == sep then [] else [s[0]] + BeforeFirst(s[1..], sep)
  }

  predicate IsDigit(c: char) {
    '0' <= c <= '9'
  }

  predicate IsDecimal(s: string) {
    forall i :: 0 <= i < |s| ==> IsDigit(s[i])
  }

  function DigitChar(d: nat): (c: char)
    requires d < 10
    ensures IsDigit(c) && c as int - '0' as int == d
  {
    ('0' as int + d) as char
  }

  /** `str(n)` for a non-negative integer: its decimal digits, no leading zero. */
  function NatToString(n: nat): (s: string)
    ensures |s| > 0 && IsDecimal(s)
    ensures s[0] == '0' ==> n == 0
  {
    if n < 10 then [DigitChar(n)] else NatToString(n / 10) + [DigitChar(n % 10)]
  }

  /** The value a string of decimal digits denotes (the reading direction of `NatToString`). */
  function DecimalValue(s: string): nat
    requires IsDecimal(s)
  {
    if s == [] then 0
    else DecimalValue(s[..|s| - 1]) * 10 + (s[|s| - 1] as int - '0' as int)
  }

  /** Reading back `str(n)` gives `n`. */
  lemma {:induction false} DecimalRoundTrip(n: nat)
    ensures DecimalValue(NatToString(n)) == n
  {
    if n >= 10 {
      var s := NatToString(n);
      assert s[..|s| - 1] == NatToString(n / 10);
      DecimalRoundTrip(n / 10);
    }
  }

  /** Distinct ports print differently, so they give distinct match parameters. */
  lemma NatToStringInjective(m: nat, n: nat)
    ensures NatToString(m) == NatToString(n) ==> m == n
  {
    DecimalRoundTrip(m);
    DecimalRoundTrip(n);
  }
}
