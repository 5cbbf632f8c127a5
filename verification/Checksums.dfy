/** The Luhn and mod-97 checks behind the `financial` rule, and the errors they
    catch. (engine/data_protection.py, _luhn and _valid_iban) */
module Checksums {
  import opened Text
  import opened TextLaws

  // ---- Luhn (Annex B of ISO/IEC 7812-1) ----

  function DigitValue(c: char): (d: nat)
    requires IsDigit(c)
    ensures d < 10
  {
    c as int - '0' as int
  }

  predicate AllDigits(s: string) {
    forall i :: 0 <= i < |s| ==> IsDigit(s[i])
  }

  /** What a digit adds: every second digit, counted from the right, is doubled and
      the digits of the product are added up. */
  function Contribution(d: nat, fromRight: nat): (n: nat)
    requires d < 10
    ensures n < 10
  {
    if fromRight % 2 == 0 then d else 2 * d / 10 + 2 * d % 10
  }

  function LuhnSum(s: string): nat
    requires AllDigits(s)
  {
    if s == [] then 0 else Contribution(DigitValue(s[0]), |s| - 1) + LuhnSum(s[1..])
  }

  predicate LuhnAccepts(s: string)
    requires AllDigits(s)
  {
    |s| >= 13 && LuhnSum(s) % 10 == 0
  }

  method Luhn(number: string) returns (valid: bool)
    requires AllDigits(number)
    ensures valid == LuhnAccepts(number)
  {
    hide LuhnSum, Contribution, DigitValue;
    if |number| < 13 {
      return false;
    }
    var checksum := 0;
    var parity := |number| % 2;
    var index := 0;
    while index < |number|
      invariant index <= |number|
      invariant checksum + LuhnSum(number[index..]) == LuhnSum(number)
    {
      var digit := DigitValue(number[index]);
      LuhnSumStep(number, index);
      ContributionOf(digit, index, |number|);
      if index % 2 == parity {
        digit := digit * 2;
        if digit > 9 {
          digit := digit - 9;
        }
      }
      checksum := checksum + digit;
      index := index + 1;
    }
    LuhnSumEnd(number);
    valid := checksum % 10 == 0;
  }

  lemma LuhnSumStep(s: string, i: nat)
    requires AllDigits(s) && i < |s|
    ensures LuhnSum(s[i..]) == Contribution(DigitValue(s[i]), |s| - 1 - i) + LuhnSum(s[i + 1..])
  {
    hide Contribution;
    assert s[i..][0] == s[i] && s[i..][1..] == s[i + 1..];
  }

  lemma LuhnSumEnd(s: string)
    requires AllDigits(s)
    ensures LuhnSum(s[0..]) == LuhnSum(s) && LuhnSum(s[|s|..]) == 0
  {
    assert s[0..] == s && s[|s|..] == [];
  }

  /** Counting from the left with the parity of the length is counting from the right. */
  lemma ContributionOf(d: nat, index: nat, n: nat)
    requires d < 10 && index < n
    ensures Contribution(d, n - 1 - index) == if index % 2 != n % 2 then d else if 2 * d > 9 then 2 * d - 9 else 2 * d
  {
    Doubled(d);
    assert index % 2 == n % 2 <==> (n - 1 - index) % 2 == 1;
  }

  lemma Doubled(d: nat)
    requires d < 10
    ensures 2 * d / 10 + 2 * d % 10 == if d < 5 then 2 * d else 2 * d - 9
  {
    if d < 5 {
      assert 2 * d / 10 == 0 && 2 * d % 10 == 2 * d;
    } else {
      assert 2 * d / 10 == 1 && 2 * d % 10 == 2 * d - 10;
    }
  }

  lemma {:induction false} LuhnSumUpdate(s: string, i: nat, c: char)
    requires AllDigits(s) && i < |s| && IsDigit(c)
    ensures AllDigits(s[i := c])
    ensures LuhnSum(s[i := c]) + Contribution(DigitValue(s[i]), |s| - 1 - i)
            == LuhnSum(s) + Contribution(DigitValue(c), |s| - 1 - i)
  {
    hide Contribution;
    if i == 0 {
      assert s[0 := c][1..] == s[1..];
    } else {
      assert s[i := c][1..] == s[1..][i - 1 := c];
      LuhnSumUpdate(s[1..], i - 1, c);
    }
  }

  lemma ContributionInjective(d: nat, e: nat, fromRight: nat)
    requires d < 10 && e < 10 && d != e
    ensures Contribution(d, fromRight) != Contribution(e, fromRight)
  {
    Doubled(d);
    Doubled(e);
  }

  /** One wrong digit is always caught. */
  lemma LuhnCatchesOneDigit(s: string, i: nat, c: char)
    requires AllDigits(s) && LuhnAccepts(s) && i < |s| && IsDigit(c) && c != s[i]
    ensures AllDigits(s[i := c]) && !LuhnAccepts(s[i := c])
  {
    hide LuhnSum, Contribution;
    LuhnSumUpdate(s, i, c);
    ContributionInjective(DigitValue(s[i]), DigitValue(c), |s| - 1 - i);
    if LuhnAccepts(s[i := c]) {
      CongruentTens(LuhnSum(s), LuhnSum(s[i := c]),
                    Contribution(DigitValue(s[i]), |s| - 1 - i), Contribution(DigitValue(c), |s| - 1 - i));
      assert false;
    }
  }

  lemma CongruentTens(m: nat, n: nat, a: nat, b: nat)
    requires n + a == m + b && a < 10 && b < 10 && m % 10 == 0 && n % 10 == 0
    ensures a == b
  {
  }

  function Swapped(s: string, i: nat): string
    requires i + 1 < |s|
  {
    s[i := s[i + 1]][i + 1 := s[i]]
  }

  /** Two different neighbours that changed places are caught, unless they are 0 and 9. */
  lemma LuhnSwapIff(s: string, i: nat)
    requires AllDigits(s) && LuhnAccepts(s) && i + 1 < |s| && s[i] != s[i + 1]
    ensures AllDigits(Swapped(s, i))
    ensures LuhnAccepts(Swapped(s, i)) <==> {s[i], s[i + 1]} == {'0', '9'}
  {
    hide LuhnSum, Contribution;
    var a, b, r := DigitValue(s[i]), DigitValue(s[i + 1]), |s| - 1 - i;
    LuhnSumUpdate(s, i, s[i + 1]);
    LuhnSumUpdate(s[i := s[i + 1]], i + 1, s[i]);
    SwapSums(a, b, r);
    var before, after := Contribution(a, r) + Contribution(b, r - 1), Contribution(b, r) + Contribution(a, r - 1);
    assert LuhnSum(Swapped(s, i)) + before == LuhnSum(s) + after;
    SumsCongruent(LuhnSum(s), LuhnSum(Swapped(s, i)), before, after);
    assert {s[i], s[i + 1]} == {'0', '9'} <==> (a == 0 && b == 9) || (a == 9 && b == 0) by {
      SetOfTwo(s[i], s[i + 1]);
    }
  }

  lemma SetOfTwo(a: char, b: char)
    ensures {a, b} == {'0', '9'} <==> (a == '0' && b == '9') || (a == '9' && b == '0')
  {
    assert a in {a, b} && b in {a, b} && '0' in {'0', '9'} && '9' in {'0', '9'};
  }

  lemma SumsCongruent(m: nat, n: nat, before: nat, after: nat)
    requires n + before == m + after && m % 10 == 0
    ensures n % 10 == 0 <==> before % 10 == after % 10
  {
  }

  lemma SwapSums(a: nat, b: nat, r: nat)
    requires a < 10 && b < 10 && a != b && r > 0
    ensures (Contribution(a, r) + Contribution(b, r - 1)) % 10 == (Contribution(b, r) + Contribution(a, r - 1)) % 10
            <==> (a == 0 && b == 9) || (a == 9 && b == 0)
  {
    var x, y := Contribution(a, r) + Contribution(b, r - 1), Contribution(b, r) + Contribution(a, r - 1);
    SwapDifference(a, b, r);
    SmallDifference(x, y);
  }

  /** Of two neighbours exactly one is doubled; doubling adds d, or takes off 9 - d. */
  lemma SwapDifference(a: nat, b: nat, r: nat)
    requires a < 10 && b < 10 && a != b && r > 0
    ensures var x, y := Contribution(a, r) + Contribution(b, r - 1), Contribution(b, r) + Contribution(a, r - 1);
            -10 < x - y < 10 && (x == y <==> (a == 0 && b == 9) || (a == 9 && b == 0))
  {
    Doubled(a);
    Doubled(b);
    assert r % 2 == 0 <==> (r - 1) % 2 != 0;
  }

  lemma SmallDifference(x: nat, y: nat)
    requires -10 < x - y < 10
    ensures x % 10 == y % 10 <==> x == y
  {
  }

  /** The digits from the right, the first, third and so on doubled when `twice`; of a
      product with two digits the sum of its digits, which is nine less. */
  function Weighted(s: string, twice: bool): nat
    requires AllDigits(s)
    decreases |s|
  {
    if s == [] then 0
    else
      var d := s[|s| - 1] as int - '0' as int;
      (if !twice then d else if d < 5 then 2 * d else 2 * d - 9) + Weighted(s[..|s| - 1], !twice)
  }

  lemma {:induction false} LuhnSumAppend(s: string, c: char)
    requires AllDigits(s) && IsDigit(c)
    ensures LuhnSum(s + [c]) == Shifted(s, 1) + DigitValue(c)
    decreases |s|
  {
    hide Contribution, DigitValue;
    if s == [] {
      assert [c][1..] == [] && s + [c] == [c];
      assert Contribution(DigitValue(c), 0) == DigitValue(c) by { Plain(DigitValue(c)); }
    } else {
      assert (s + [c])[1..] == s[1..] + [c];
      LuhnSumAppend(s[1..], c);
    }
  }

  lemma Plain(d: nat)
    requires d < 10
    ensures Contribution(d, 0) == d
  {
  }

  /** The sum with every place moved up by `n`. */
  function Shifted(s: string, n: nat): nat
    requires AllDigits(s)
  {
    if s == [] then 0 else Contribution(DigitValue(s[0]), |s| - 1 + n) + Shifted(s[1..], n)
  }

  lemma {:induction false} ShiftedAppend(s: string, c: char, n: nat)
    requires AllDigits(s) && IsDigit(c)
    ensures Shifted(s + [c], n) == Shifted(s, n + 1) + Contribution(DigitValue(c), n)
    decreases |s|
  {
    hide Contribution, DigitValue;
    if s == [] {
      assert [c][1..] == [] && s + [c] == [c];
    } else {
      assert (s + [c])[1..] == s[1..] + [c];
      ShiftedAppend(s[1..], c, n);
    }
  }

  lemma {:induction false} ShiftedIsWeighted(s: string, n: nat)
    requires AllDigits(s)
    ensures Shifted(s, n) == Weighted(s, n % 2 == 1)
    decreases |s|
  {
    hide Contribution;
    if s != [] {
      var m := |s| - 1;
      assert s == s[..m] + [s[m]];
      ShiftedAppend(s[..m], s[m], n);
      ShiftedIsWeighted(s[..m], n + 1);
      assert (n + 1) % 2 == 1 <==> n % 2 != 1;
      Doubled(DigitValue(s[m]));
      assert Contribution(DigitValue(s[m]), n) == if n % 2 == 0 then DigitValue(s[m])
             else 2 * DigitValue(s[m]) / 10 + 2 * DigitValue(s[m]) % 10 by { ContributionIs(DigitValue(s[m]), n); }
    }
  }

  lemma ContributionIs(d: nat, n: nat)
    requires d < 10
    ensures Contribution(d, n) == if n % 2 == 0 then d else 2 * d / 10 + 2 * d % 10
  {
  }

  /** Every number of twelve digits or more is accepted with exactly one check digit behind
      it, the one that fills its weighted sum up to a multiple of ten; a shorter one with
      none. */
  lemma LuhnAcceptsIff(s: string, c: char)
    requires AllDigits(s) && IsDigit(c)
    ensures AllDigits(s + [c])
    ensures LuhnAccepts(s + [c])
            <==> |s| >= 12 && c as int - '0' as int == (10 - Weighted(s, true) % 10) % 10
  {
    hide LuhnSum, Weighted, Shifted;
    LuhnSumAppend(s, c);
    ShiftedIsWeighted(s, 1);
    FillsUp(Weighted(s, true), DigitValue(c));
  }

  lemma FillsUp(w: nat, d: nat)
    requires d < 10
    ensures (w + d) % 10 == 0 <==> d == (10 - w % 10) % 10
  {
  }

  // ---- IBAN (MOD 97-10 of ISO/IEC 7064, used by ISO 13616-1) ----

  function WithoutSpaces(s: string): (r: string)
    ensures |r| <= |s|
  {
    if s == [] then [] else (if IsSpace(s[0]) then [] else [s[0]]) + WithoutSpaces(s[1..])
  }

  function Compact(value: string): string {
    Upper(WithoutSpaces(value))
  }

  predicate IsBase36(c: char) {
    IsDigit(c) || IsUpperLetter(c)
  }

  /** A digit counts as itself, a letter as 10 to 35. */
  function Base36(c: char): (v: nat)
    requires IsBase36(c)
    ensures v < 36 && (v < 10 <==> IsDigit(c))
  {
    if IsDigit(c) then c as int - '0' as int else c as int - 'A' as int + 10
  }

  /** The digits and then the letters, in order: the place of a character is its value. */
  lemma Base36Is(c: char)
    requires IsBase36(c)
    ensures "0123456789ABCDEFGHIJKLMNOPQRSTUVWXYZ"[Base36(c)] == c
  {
    var all := "0123456789ABCDEFGHIJKLMNOPQRSTUVWXYZ";
    if IsDigit(c) {
      assert all[0] == '0' && all[1] == '1' && all[2] == '2' && all[3] == '3' && all[4] == '4';
      assert all[5] == '5' && all[6] == '6' && all[7] == '7' && all[8] == '8' && all[9] == '9';
    }
  }

  predicate AllBase36(s: string) {
    forall i :: 0 <= i < |s| ==> IsBase36(s[i])
  }

  function Rearranged(compact: string): string
    requires |compact| >= 4
  {
    compact[4..] + compact[..4]
  }

  /** The decimal numerals of the characters, one after the other. */
  function Expanded(s: string): string
    requires AllBase36(s)
  {
    if s == [] then [] else Decimal(Base36(s[0])) + Expanded(s[1..])
  }

  /** The number a string of decimal digits denotes. */
  function NumberOf(s: string): nat {
    if s == [] || !IsDigit(s[|s| - 1]) then 0 else 10 * NumberOf(s[..|s| - 1]) + DigitValue(s[|s| - 1])
  }

  /** None when some character is neither a letter nor a digit: the conversion raises
      outside the guarded part. */
  function ValidIban(value: string): Option<bool> {
    var compact := Compact(value);
    if !(15 <= |compact| <= 34) then Some(false)
    else if !AllBase36(compact) then None
    else
      RearrangedBase36(compact);
      Some(NumberOf(Expanded(Rearranged(compact))) % 97 == 1)
  }

  lemma RearrangedBase36(compact: string)
    requires |compact| >= 4 && AllBase36(compact)
    ensures AllBase36(Rearranged(compact))
  {
  }

  lemma {:induction false} DecimalDigits(n: nat)
    ensures AllDigits(Decimal(n)) && NumberOf(Decimal(n)) == n
  {
    if n >= 10 {
      DecimalDigits(n / 10);
      var s := Decimal(n);
      assert s[..|s| - 1] == Decimal(n / 10);
    } else {
      assert NumberOf("") == 0 && Decimal(n)[..0] == "";
    }
  }

  lemma {:induction false} NumberAppend(a: string, b: string)
    requires AllDigits(a) && AllDigits(b)
    ensures NumberOf(a + b) == NumberOf(a) * Pow10(|b|) + NumberOf(b)
    decreases |b|
  {
    if b == [] {
      assert a + b == a;
    } else {
      var n := |b| - 1;
      NumberAppend(a, b[..n]);
      assert (a + b)[..|a + b| - 1] == a + b[..n];
      assert (a + b)[|a + b| - 1] == b[n];
      TimesTen(NumberOf(a), Pow10(n));
    }
  }

  lemma TimesTen(x: nat, p: nat)
    ensures 10 * (x * p) == x * (10 * p)
  {
  }

  lemma {:induction false} ExpandedDigits(s: string)
    requires AllBase36(s)
    ensures AllDigits(Expanded(s))
  {
    if s != [] {
      DecimalDigits(Base36(s[0]));
      ExpandedDigits(s[1..]);
    }
  }

  lemma Associates(a: string, b: string, c: string)
    ensures (a + b) + c == a + (b + c)
  {
  }

  lemma {:induction false} ExpandedAppend(a: string, b: string)
    requires AllBase36(a) && AllBase36(b)
    ensures AllBase36(a + b) && Expanded(a + b) == Expanded(a) + Expanded(b)
    decreases |a|
  {
    hide Decimal, Base36;
    if a == [] {
      assert a + b == b;
    } else {
      assert (a + b)[1..] == a[1..] + b && (a + b)[0] == a[0];
      ExpandedAppend(a[1..], b);
      assert Expanded(a + b) == Decimal(Base36(a[0])) + Expanded(a[1..] + b);
      Associates(Decimal(Base36(a[0])), Expanded(a[1..]), Expanded(b));
    }
  }

  /** Replacing one character changes the number by the difference of the two, times
      a power of ten, when both are written with as many digits. */
  lemma ExpandedReplace(a: string, c: char, c': char, b: string)
    requires AllBase36(a) && AllBase36(b) && IsBase36(c) && IsBase36(c') && IsDigit(c) == IsDigit(c')
    ensures AllBase36(a + [c] + b) && AllBase36(a + [c'] + b)
    ensures NumberOf(Expanded(a + [c'] + b)) - NumberOf(Expanded(a + [c] + b))
            == (Base36(c') - Base36(c)) * Pow10(|Expanded(b)|)
  {
    hide NumberOf, Pow10;
    var p, w := Pow10(|Expanded(b)|), |Decimal(Base36(c))|;
    SameWidth(c, c');
    ExpandedSplit(a, c, b);
    ExpandedSplit(a, c', b);
    ReplaceArithmetic(NumberOf(Expanded(a)) * Pow10(w), Base36(c), Base36(c'), p, NumberOf(Expanded(b)));
  }

  lemma SameWidth(c: char, c': char)
    requires IsBase36(c) && IsBase36(c') && IsDigit(c) == IsDigit(c')
    ensures |Decimal(Base36(c))| == |Decimal(Base36(c'))|
  {
  }

  lemma ReplaceArithmetic(x: nat, v: nat, v': nat, p: nat, rest: nat)
    ensures ((x + v') * p + rest) - ((x + v) * p + rest) == (v' - v) * p
  {
  }

  lemma ExpandedSplit(a: string, c: char, b: string)
    requires AllBase36(a) && AllBase36(b) && IsBase36(c)
    ensures AllBase36(a + [c] + b)
    ensures NumberOf(Expanded(a + [c] + b))
            == (NumberOf(Expanded(a)) * Pow10(|Decimal(Base36(c))|) + Base36(c)) * Pow10(|Expanded(b)|)
               + NumberOf(Expanded(b))
  {
    hide NumberOf, Pow10, Expanded, Decimal;
    ExpandedAppend(a, [c]);
    ExpandedAppend(a + [c], b);
    ExpandedOne(c);
    ExpandedDigits(a);
    ExpandedDigits(b);
    ExpandedDigits(a + [c]);
    DecimalDigits(Base36(c));
    NumberAppend(Expanded(a), Decimal(Base36(c)));
    NumberAppend(Expanded(a + [c]), Expanded(b));
  }

  lemma ExpandedOne(c: char)
    requires IsBase36(c)
    ensures Expanded([c]) == Decimal(Base36(c))
  {
    assert [c][1..] == [];
    assert Expanded([]) == [];
  }

  /** 10 is invertible modulo 97: 68 * 10 == 7 * 97 + 1. */
  lemma TenInvertible(x: int, q: int)
    requires 10 * x == 97 * q
    ensures x == 97 * (68 * q - 7 * x)
  {
  }

  lemma {:induction false} PowerCoprime(m: int, k: nat, q: int)
    requires m * Pow10(k) == 97 * q
    ensures m % 97 == 0
    decreases k
  {
    if k > 0 {
      var x := m * Pow10(k - 1);
      assert m * Pow10(k) == 10 * x by {
        assert Pow10(k) == 10 * Pow10(k - 1);
        TimesTenInt(m, Pow10(k - 1));
      }
      TenInvertible(x, q);
      PowerCoprime(m, k - 1, 68 * q - 7 * x);
    } else {
      assert m == 97 * q;
    }
  }

  lemma TimesTenInt(m: int, p: int)
    ensures m * (10 * p) == 10 * (m * p)
  {
  }

  /** Two numbers with the same remainder differ by a multiple. */
  lemma SameRemainder(x: nat, y: nat)
    requires x % 97 == 1 && y % 97 == 1
    ensures y as int - x as int == 97 * (y / 97 as int - x / 97 as int)
  {
  }

  /** Where the character at `i` of a rearranged IBAN comes to stand. */
  lemma RearrangedUpdate(s: string, i: nat, c: char) returns (a: string, b: string)
    requires |s| >= 4 && i < |s|
    ensures Rearranged(s) == a + [s[i]] + b && Rearranged(s[i := c]) == a + [c] + b
  {
    if i < 4 {
      a, b := s[4..] + s[..i], s[i + 1..4];
      assert s[i := c][4..] == s[4..];
      assert s[..4] == s[..i] + [s[i]] + s[i + 1..4];
      assert s[i := c][..4] == s[..i] + [c] + s[i + 1..4];
    } else {
      a, b := s[4..i], s[i + 1..] + s[..4];
      assert s[4..] == s[4..i] + [s[i]] + s[i + 1..];
      assert s[i := c][4..] == s[4..i] + [c] + s[i + 1..];
      assert s[i := c][..4] == s[..4];
    }
  }

  predicate SameKind(c: char, d: char) {
    (IsDigit(c) && IsDigit(d)) || (IsUpperLetter(c) && IsUpperLetter(d))
  }

  lemma CompactOneWrong(s: string, i: nat, c: char)
    requires |s| >= 4 && AllBase36(s) && i < |s| && SameKind(s[i], c) && c != s[i]
    requires AllBase36(Rearranged(s)) && NumberOf(Expanded(Rearranged(s))) % 97 == 1
    ensures AllBase36(s[i := c]) && AllBase36(Rearranged(s[i := c]))
    ensures NumberOf(Expanded(Rearranged(s[i := c]))) % 97 != 1
  {
    hide NumberOf, Expanded, Pow10;
    var a, b := RearrangedUpdate(s, i, c);
    RearrangedBase36(s[i := c]);
    assert AllBase36(a) && AllBase36(b) by { PartsBase36(a, s[i], b); }
    ExpandedReplace(a, s[i], c, b);
    NotCongruent(NumberOf(Expanded(Rearranged(s))), NumberOf(Expanded(Rearranged(s[i := c]))),
                 Base36(c) - Base36(s[i]), |Expanded(b)|);
  }

  lemma NotCongruent(x: nat, y: nat, m: int, k: nat)
    requires x % 97 == 1 && -97 < m < 97 && m != 0 && y - x == m * Pow10(k)
    ensures y % 97 != 1
  {
    hide Pow10;
    if y % 97 == 1 {
      var q: int := y / 97 as int - x / 97 as int;
      SameRemainder(x, y);
      PowerCoprime(m, k, q);
      assert false;
    }
  }

  lemma PartsBase36(a: string, c: char, b: string)
    requires AllBase36(a + [c] + b)
    ensures AllBase36(a) && AllBase36(b)
  {
    var s := a + [c] + b;
    assert forall i :: 0 <= i < |a| ==> s[i] == a[i];
    assert forall i :: 0 <= i < |b| ==> s[|a| + 1 + i] == b[i];
  }

  lemma {:induction false} WithoutSpacesUpdate(s: string, i: nat, c: char)
    requires i < |s| && !IsSpace(s[i]) && !IsSpace(c)
    ensures |WithoutSpaces(s[..i])| < |WithoutSpaces(s)|
    ensures WithoutSpaces(s)[|WithoutSpaces(s[..i])|] == s[i]
    ensures WithoutSpaces(s[i := c]) == WithoutSpaces(s)[|WithoutSpaces(s[..i])| := c]
  {
    hide IsSpace;
    if i == 0 {
      assert s[..0] == [] && s[0 := c][1..] == s[1..];
    } else {
      assert s[i := c][1..] == s[1..][i - 1 := c] && s[..i][1..] == s[1..][..i - 1];
      WithoutSpacesUpdate(s[1..], i - 1, c);
    }
  }

  /** One character of an accepted IBAN replaced by a different one of its kind, digit
      for digit or letter for letter, is always caught, wherever it stands. */
  lemma IbanCatchesOneCharacter(value: string, i: nat, c: char)
    requires ValidIban(value) == Some(true) && i < |value|
    requires SameKind(UpperChar(value[i]), UpperChar(c)) && UpperChar(value[i]) != UpperChar(c)
    ensures ValidIban(value[i := c]) == Some(false)
  {
    hide NumberOf, Expanded, WithoutSpaces, Upper;
    var s, j := Compact(value), |WithoutSpaces(value[..i])|;
    WithoutSpacesUpdate(value, i, c);
    UpperUpdate(WithoutSpaces(value), j, c);
    assert s[j] == UpperChar(value[i]);
    assert Compact(value[i := c]) == s[j := UpperChar(c)];
    CompactOneWrong(s, j, UpperChar(c));
  }

  /** The check digits of a country code and an account: 98 less the remainder with
      the digits 00. */
  function CheckDigits(country: string, account: string): (d: nat)
    requires AllBase36(country) && AllBase36(account)
    ensures 2 <= d <= 98
  {
    ExpandedAppend(account, country);
    98 - NumberOf(Expanded(account + country)) * 100 % 97
  }

  function TwoDigits(d: nat): string
    requires d < 100
  {
    [DigitChar(d / 10), DigitChar(d % 10)]
  }

  /** Every account has check digits in the standard's range, and only one pair. */
  lemma IbanAcceptsIff(country: string, account: string, d: nat)
    requires |country| == 2 && 11 <= |account| <= 30 && AllBase36(country) && AllBase36(account) && 2 <= d <= 98
    ensures ValidIban(country + TwoDigits(d) + account) == Some(d == CheckDigits(country, account))
  {
    hide NumberOf, Expanded, Pow10;
    var check := TwoDigits(d);
    var s := country + check + account;
    assert AllBase36(s);
    CompactKeeps(s);
    assert Rearranged(s) == account + country + check by {
      assert s[4..] == account && s[..4] == country + check;
    }
    RearrangedBase36(s);
    ExpandedAppend(account, country);
    ExpandedAppend(account + country, check);
    ExpandedDigits(account + country);
    ExpandedTwo(d);
    NumberAppend(Expanded(account + country), Expanded(check));
    PowTwo();
    var x := NumberOf(Expanded(account + country));
    CheckArithmetic(x, d);
  }

  lemma PowTwo()
    ensures Pow10(2) == 100
  {
    assert Pow10(2) == 10 * Pow10(1) && Pow10(1) == 10 * Pow10(0);
  }

  lemma CheckArithmetic(x: nat, d: nat)
    requires 2 <= d <= 98
    ensures (x * 100 + d) % 97 == 1 <==> d == 98 - x * 100 % 97
  {
    var q, r := x * 100 / 97, x * 100 % 97;
    assert x * 100 == 97 * q + r;
    if r + d == 98 {
      assert x * 100 + d == 97 * (q + 1) + 1;
    }
  }

  lemma ExpandedTwo(d: nat)
    requires d < 100
    ensures AllBase36(TwoDigits(d)) && AllDigits(Expanded(TwoDigits(d)))
    ensures |Expanded(TwoDigits(d))| == 2 && NumberOf(Expanded(TwoDigits(d))) == d
  {
    var s := TwoDigits(d);
    assert s[1..] == [s[1]];
    ExpandedOne(s[1]);
    assert Decimal(Base36(s[0])) == [s[0]] && Decimal(Base36(s[1])) == [s[1]];
    assert Expanded(s) == s;
    assert s[..1] == [s[0]] && [s[0]][..0] == [] && NumberOf([]) == 0;
    assert NumberOf([s[0]]) == d / 10;
  }

  lemma CompactKeeps(s: string)
    requires AllBase36(s)
    ensures Compact(s) == s
  {
    hide Upper, WithoutSpaces;
    NoSpaces(s);
    UpperKeeps(s);
  }

  lemma {:induction false} NoSpaces(s: string)
    requires forall i :: 0 <= i < |s| ==> !IsSpace(s[i])
    ensures WithoutSpaces(s) == s
  {
    if s != [] {
      NoSpaces(s[1..]);
    }
  }

  // ---- What an IBAN may look like ----

  lemma {:induction false} SpaceVanishes(a: string, c: char, b: string)
    requires IsSpace(c)
    ensures WithoutSpaces(a + [c] + b) == WithoutSpaces(a + b)
    decreases |a|
  {
    hide IsSpace;
    if a == "" {
      assert (a + [c] + b)[1..] == b && a + b == b;
    } else {
      assert (a + [c] + b)[1..] == a[1..] + [c] + b && (a + b)[1..] == a[1..] + b;
      SpaceVanishes(a[1..], c, b);
    }
  }

  lemma {:induction false} SameWithoutSpaces(a: string, b: string)
    requires SameWord(a, b)
    ensures SameWord(WithoutSpaces(a), WithoutSpaces(b))
    decreases |a|
  {
    hide IsSpace, SameLetter;
    if a != "" {
      assert SameLetter(a[0], b[0]);
      SameLetterSpace(a[0], b[0]);
      SameWithoutSpaces(a[1..], b[1..]);
    }
  }

  lemma SameUpper(a: string, b: string)
    requires SameWord(a, b)
    ensures Upper(a) == Upper(b)
  {
    hide Upper;
    forall i | 0 <= i < |a| ensures Upper(a)[i] == Upper(b)[i] {
      UpperAt(a, i);
      UpperAt(b, i);
      assert SameLetter(a[i], b[i]);
    }
  }

  /** Whitespace anywhere and the case of letters make no difference. */
  lemma IbanIgnores(a: string, c: char, b: string, other: string)
    requires IsSpace(c) && SameWord(a + b, other)
    ensures ValidIban(a + [c] + b) == ValidIban(a + b) == ValidIban(other)
  {
    hide IsSpace, SameWord, WithoutSpaces, Upper, NumberOf, Expanded, AllBase36;
    SpaceVanishes(a, c, b);
    SameWithoutSpaces(a + b, other);
    SameUpper(WithoutSpaces(a + b), WithoutSpaces(other));
  }

  /** Without whitespace and in capitals: fewer than 15 or more than 34 characters are
      rejected, and otherwise any that is no digit or letter makes the check raise. */
  lemma IbanShapes(s: string)
    requires forall i :: 0 <= i < |s| ==> !IsSpace(s[i]) && !IsLowerLetter(s[i])
    ensures |s| < 15 || |s| > 34 ==> ValidIban(s) == Some(false)
    ensures 15 <= |s| <= 34 ==>
              (ValidIban(s) == None <==> exists i :: 0 <= i < |s| && !IsDigit(s[i]) && !IsUpperLetter(s[i]))
  {
    hide WithoutSpaces, Upper, NumberOf, Expanded, IsSpace, IsLowerLetter, IsDigit, IsUpperLetter;
    NoSpaces(s);
    UpperKeeps(s);
  }
}
