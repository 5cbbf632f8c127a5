/** What the verdict of a capped run says of each criterion, which sandbox writes grade
    which criterion, and in which order their costs are reported.
    (engine/evaluator.py) */
module VerdictMeaning {
  import opened Text
  import opened TextLaws
  import opened CapVerdict
  import opened CriterionSpans
  import opened EvalCaps
  import Gate

  // ---- The items of a cap verdict ----

  /** What the evidence under a key makes of a criterion. */
  function Graded(sandbox: Sandbox, key: string): string {
    if key !in sandbox then "UNVERIFIED"
    else if |sandbox[key]| >= 4 && sandbox[key][..4] == "PASS" then "PASS"
    else "FAIL"
  }

  lemma GradedIs(sandbox: Sandbox, key: string)
    ensures StatusOf(Lookup(sandbox, key)) == Graded(sandbox, key)
  {
    if key in sandbox {
      assert "PASS" <= sandbox[key] <==> |sandbox[key]| >= 4 && sandbox[key][..4] == "PASS";
    }
  }

  /** How many of the first `k` derived slots are recorded. */
  function RecordedBelow(sandbox: Sandbox, k: nat): (n: nat)
    ensures n <= k
  {
    if k == 0 then 0 else RecordedBelow(sandbox, k - 1) + (if HasSlot(sandbox, k - 1) then 1 else 0)
  }

  predicate HasSlot(sandbox: Sandbox, k: nat) {
    "derived_" + Decimal(k) in sandbox || "verified_derived_" + Decimal(k) in sandbox
  }

  /** The text of a derived criterion; one without a text is named by its number. */
  function SlotText(sandbox: Sandbox, k: nat): string {
    var key := "derived_" + Decimal(k);
    Strip(if key in sandbox && sandbox[key] != "" then sandbox[key] else "derived criterion " + Decimal(k))
  }

  lemma {:induction false} RowsAre(sandbox: Sandbox, n: nat)
    ensures |DerivedRows(sandbox, n)| == RecordedBelow(sandbox, n)
    ensures forall k: nat :: k < n && HasSlot(sandbox, k) ==>
              && RecordedBelow(sandbox, k) < |DerivedRows(sandbox, n)|
              && RowItem(DerivedRows(sandbox, n)[RecordedBelow(sandbox, k)])
                 == Gate.Item(SlotText(sandbox, k), Graded(sandbox, "verified_derived_" + Decimal(k)))
  {
    hide StatusOf, Strip, Decimal, Graded;
    if n > 0 {
      RowsAre(sandbox, n - 1);
      GradedIs(sandbox, "verified_derived_" + Decimal(n - 1));
    }
  }

  /** One item for each criterion given, in order, and one for each derived criterion that
      was recorded, in order; each with its text and what its evidence makes of it. */
  lemma CapVerdictSays(sandbox: Sandbox, criteria: seq<string>)
    ensures var items := CapVerdictOf(sandbox, criteria).items;
            && |items| == |criteria| + RecordedBelow(sandbox, 5)
            && (forall i: nat :: i < |criteria| ==>
                  items[i] == Gate.Item(criteria[i], Graded(sandbox, "verified_" + Decimal(i))))
            && (forall k: nat :: k < 5 && HasSlot(sandbox, k) ==>
                  && |criteria| + RecordedBelow(sandbox, k) < |items|
                  && items[|criteria| + RecordedBelow(sandbox, k)]
                     == Gate.Item(SlotText(sandbox, k), Graded(sandbox, "verified_derived_" + Decimal(k))))
  {
    hide StatusOf, Strip, Decimal, Graded, HasSlot, RecordedBelow, DerivedRows;
    RowsAre(sandbox, 5);
    forall i: nat | i < |criteria|
      ensures GivenItem(sandbox, criteria, i) == Gate.Item(criteria[i], Graded(sandbox, "verified_" + Decimal(i)))
    {
      GradedIs(sandbox, "verified_" + Decimal(i));
    }
  }

  // ---- Which writes grade which criterion ----

  lemma DigitsAfter(prefix: string, n: nat)
    ensures (prefix + Decimal(n))[|prefix|..] == Decimal(n)
  {
  }

  lemma {:induction false} NumeralReads(n: nat)
    ensures AllDigits(Decimal(n)) && ParseNat(Decimal(n)) == n
  {
    if n >= 10 {
      NumeralReads(n / 10);
      var s := Decimal(n);
      assert s[..|s| - 1] == Decimal(n / 10);
    }
  }

  /** Evidence for a given criterion is marked under its number, evidence for a derived one
      ten thousand higher, and nothing else is. */
  lemma KeysMark(n: nat)
    ensures MarkIndex("verified_" + Decimal(n)) == Some(n)
    ensures MarkIndex("verified_derived_" + Decimal(n)) == Some(10000 + n)
  {
    hide Decimal, ParseNat, AllDigits;
    NumeralReads(n);
    DigitsAfter("verified_", n);
    DigitsAfter("derived_", n);
    var key := "verified_derived_" + Decimal(n);
    assert key == "verified_" + ("derived_" + Decimal(n));
    assert key[|"verified_"|..] == "derived_" + Decimal(n);
    assert ("derived_" + Decimal(n))[0] == 'd';
    NoNumeral("derived_" + Decimal(n));
  }

  lemma NoNumeral(s: string)
    requires s != "" && s[0] == 'd'
    ensures !AllDigits(s)
  {
  }

  lemma OtherKeysDoNotMark(key: string)
    requires MarkIndex(key).Some?
    ensures exists digits: string :: AllNumeral(digits)
                                     && (key == "verified_" + digits || key == "verified_derived_" + digits)
  {
    hide ParseNat, IsDigit;
    var suffix := key[|"verified_"|..];
    assert key == "verified_" + suffix;
    if AllDigits(suffix) {
      assert AllNumeral(suffix);
    } else {
      var digits := suffix[|"derived_"|..];
      assert suffix == "derived_" + digits;
      assert key == "verified_derived_" + digits by { Together(digits); }
      assert AllNumeral(digits);
    }
  }

  lemma Together(digits: string)
    ensures "verified_" + ("derived_" + digits) == "verified_derived_" + digits
  {
  }

  /** One digit or more and nothing else. */
  predicate AllNumeral(s: string) {
    |s| > 0 && forall i :: 0 <= i < |s| ==> IsDigit(s[i])
  }

  // ---- The order of the report ----

  lemma OrderedFirst(marks: Marks)
    requires marks != map[]
    ensures Ordered(marks) != [] && IsFirst(marks, Ordered(marks)[0])
    ensures Ordered(marks)[1..] == Ordered(marks - {Ordered(marks)[0]})
    ensures |marks - {Ordered(marks)[0]}| < |marks|
  {
    var first := Ordered(marks)[0];
    assert |marks - {first}| < |marks| by { assert marks.Keys == (marks - {first}).Keys + {first}; }
  }

  /** Costs are reported by when the criteria were marked, those marked together by number. */
  lemma {:induction false} OrderedByMark(marks: Marks, a: nat, b: nat)
    requires a < b < |Ordered(marks)|
    ensures var i, j := Ordered(marks)[a], Ordered(marks)[b];
            && i in marks && j in marks
            && (marks[i].order < marks[j].order || (marks[i].order == marks[j].order && i < j))
    decreases |marks|
  {
    hide Ordered;
    assert marks != map[] by { OrderedNone(marks); }
    OrderedListsKeys(marks);
    OrderedFirst(marks);
    if a > 0 {
      OrderedByMark(marks - {Ordered(marks)[0]}, a - 1, b - 1);
    } else {
      assert Before(marks, Ordered(marks)[0], Ordered(marks)[b]);
    }
  }

  lemma OrderedNone(marks: Marks)
    ensures marks == map[] ==> Ordered(marks) == []
  {
  }

  // ---- The loop's limit ----

  /** The largest whole number that is not above the cap; without a cap ten thousand. */
  lemma LoopLimit(caps: Caps)
    ensures caps.maxIterations <= 0.0 ==> MaxIterationsInt(caps) == 10000
    ensures caps.maxIterations > 0.0 ==>
              MaxIterationsInt(caps) as real <= caps.maxIterations < MaxIterationsInt(caps) as real + 1.0
  {
  }

  /** A call is charged one iteration, all it was given as input, cached or not, and all it
      produced. */
  lemma CallCharges(m: Meter, u: Usage)
    ensures Charged(m, u).credit == m.credit + 1.0 && Charged(m, u).startTime == m.startTime
    ensures Charged(m, u).inputTokens == m.inputTokens + u.prompt + u.cacheRead + u.cacheWrite
    ensures Charged(m, u).outputTokens == m.outputTokens + u.completion
    ensures Charged(m, u).cacheRead == m.cacheRead + u.cacheRead && Charged(m, u).cacheWrite == m.cacheWrite + u.cacheWrite
  {
  }

  /** The fraction is dropped, towards zero. */
  lemma TruncateIs(x: real)
    ensures x >= 0.0 ==> Truncate(x) as real <= x < Truncate(x) as real + 1.0
    ensures x <= 0.0 ==> Truncate(x) as real - 1.0 < x <= Truncate(x) as real
  {
  }
}
