/** Character and string helpers shared by the models. Characters outside
    ASCII are letters without case, and whitespace is the ASCII whitespace. */
module Text {

  datatype Option<+T> = None | Some(value: T)
  {
    function GetOr(default: T): T {
      if Some? then value else default
    }
  }

  predicate IsSpace(c: char) {
    c == ' ' || ('\t' <= c <= '\r')
  }

  predicate IsDigit(c: char) {
    '0' <= c <= '9'
  }

  predicate IsUpperLetter(c: char) {
    'A' <= c <= 'Z'
  }

  predicate IsLowerLetter(c: char) {
    'a' <= c <= 'z'
  }

  function UpperChar(c: char): (u: char)
    ensures !IsLowerLetter(u)
  {
    if IsLowerLetter(c) then (c as int - 'a' as int + 'A' as int) as char else c
  }

  function LowerChar(c: char): (u: char)
    ensures !IsUpperLetter(u)
  {
    if IsUpperLetter(c) then (c as int - 'A' as int + 'a' as int) as char else c
  }

  function Upper(s: string): (u: string)
    ensures |u| == |s|
  {
    if s == [] then [] else [UpperChar(s[0])] + Upper(s[1..])
  }

  function Lower(s: string): (u: string)
    ensures |u| == |s|
  {
    if s == [] then [] else [LowerChar(s[0])] + Lower(s[1..])
  }

  function StripLeft(s: string): (r: string)
    ensures |r| <= |s| && r == s[|s| - |r|..]
    ensures r != [] ==> !IsSpace(r[0])
  {
    if s != [] && IsSpace(s[0]) then StripLeft(s[1..]) else s
  }

  function StripRight(s: string): (r: string)
    ensures r <= s
    ensures r != [] ==> !IsSpace(r[|r| - 1])
  {
    if s != [] && IsSpace(s[|s| - 1]) then StripRight(s[..|s| - 1]) else s
  }

  function Strip(s: string): string {
    StripRight(StripLeft(s))
  }

  lemma StripKeeps(s: string)
    requires s != [] && !IsSpace(s[0]) && !IsSpace(s[|s| - 1])
    ensures Strip(s) == s
  {
  }

  lemma {:induction false} UpperKeeps(s: string)
    requires forall i :: 0 <= i < |s| ==> !IsLowerLetter(s[i])
    ensures Upper(s) == s
  {
    if s != [] {
      UpperKeeps(s[1..]);
    }
  }

  lemma {:induction false} UpperUpdate(s: string, i: nat, c: char)
    requires i < |s|
    ensures Upper(s)[i] == UpperChar(s[i])
    ensures Upper(s[i := c]) == Upper(s)[i := UpperChar(c)]
  {
    if i > 0 {
      assert s[i := c][1..] == s[1..][i - 1 := c];
      UpperUpdate(s[1..], i - 1, c);
    }
  }

  /** A word in capitals is left as it is. */
  lemma CapitalWord(s: string)
    requires s != [] && forall i :: 0 <= i < |s| ==> IsUpperLetter(s[i])
    ensures Upper(Strip(s)) == s
  {
    hide Upper, Strip;
    assert IsUpperLetter(s[0]) && IsUpperLetter(s[|s| - 1]);
    StripKeeps(s);
    UpperKeeps(s);
  }

  /** True when something is left of `s` once whitespace is stripped. */
  predicate HasText(s: string) {
    exists i | 0 <= i < |s| :: !IsSpace(s[i])
  }

  function WordEnd(s: string): (n: nat)
    ensures n <= |s| && forall i :: 0 <= i < n ==> !IsSpace(s[i])
    ensures n < |s| ==> IsSpace(s[n])
  {
    if s == [] || IsSpace(s[0]) then 0 else 1 + WordEnd(s[1..])
  }

  /** The whitespace-separated words of `s`. */
  function Words(s: string): seq<string>
    decreases |s|
  {
    if s == [] then []
    else if IsSpace(s[0]) then Words(s[1..])
    else var n := WordEnd(s); [s[..n]] + Words(s[n..])
  }

  function Join(parts: seq<string>, sep: string): string {
    if parts == [] then ""
    else if |parts| == 1 then parts[0]
    else parts[0] + sep + Join(parts[1..], sep)
  }

  /** The pieces of `s` between separators; at least one, none with a separator. */
  function Split<T(==)>(s: seq<T>, sep: T): (parts: seq<seq<T>>)
    ensures parts != []
  {
    if s == [] then [[]]
    else
      var rest := Split(s[1..], sep);
      if s[0] == sep then [[]] + rest else [[s[0]] + rest[0]] + rest[1..]
  }

  function DigitChar(d: nat): (c: char)
    requires d < 10
    ensures IsDigit(c)
  {
    ('0' as int + d) as char
  }

  /** The decimal numeral of `n`. */
  function Decimal(n: nat): (s: string)
    ensures |s| == DigitCount(n)
  {
    if n < 10 then [DigitChar(n)] else Decimal(n / 10) + [DigitChar(n % 10)]
  }

  /** How many digits the decimal numeral of `n` has. */
  function DigitCount(n: nat): (d: nat)
    ensures d >= 1
  {
    if n < 10 then 1 else 1 + DigitCount(n / 10)
  }

  lemma {:induction false} DigitCountMonotone(m: nat, n: nat)
    requires m <= n
    ensures DigitCount(m) <= DigitCount(n)
    decreases n
  {
    if n >= 10 && m >= 10 {
      DigitCountMonotone(m / 10, n / 10);
    }
  }

  /** Adding fewer than 500 lengthens a numeral by at most two digits. */
  lemma {:induction false} DigitCountGrowth(m: nat, n: nat)
    requires m <= n < m + 500
    ensures DigitCount(n) <= DigitCount(m) + 2
  {
    if m >= 500 {
      DigitCountDouble(m, n);
    } else {
      assert Pow10(3) == 1000;
      DigitCountBound(n, 3);
    }
  }

  lemma {:induction false} DigitCountDouble(m: nat, n: nat)
    requires 1 <= m <= n <= 2 * m + 1
    ensures DigitCount(n) <= DigitCount(m) + 1
    decreases n
  {
    if m >= 10 {
      DigitCountDouble(m / 10, n / 10);
    }
  }

  function Pow10(k: nat): (p: nat)
    ensures p >= 1
  {
    if k == 0 then 1 else 10 * Pow10(k - 1)
  }

  lemma {:induction false} DigitCountBound(n: nat, k: nat)
    requires k >= 1 && n < Pow10(k)
    ensures DigitCount(n) <= k
  {
    if n >= 10 {
      assert k > 1 by { assert Pow10(1) == 10; }
      DigitCountBound(n / 10, k - 1);
    }
  }
}
