/** The verdict a run returns when its budget ends it: one item per given
    criterion and one per recorded derived criterion, read from the sandbox.
    (engine/evaluator.py) */
module CapVerdict {
  import opened Text
  import Gate

  type Sandbox = map<string, string>

  const MAX_DERIVED_CRITERIA := 5

  function GivenKey(i: nat): string { "verified_" + Decimal(i) }
  function DerivedKey(k: nat): string { "derived_" + Decimal(k) }
  function DerivedEvidenceKey(k: nat): string { "verified_derived_" + Decimal(k) }

  function Lookup(sandbox: Sandbox, key: string): Option<string> {
    if key in sandbox then Some(sandbox[key]) else None
  }

  predicate StartsWithPass(evidence: string) {
    "PASS" <= evidence
  }

  /** Unexamined is not failed: a criterion without evidence is UNVERIFIED. */
  function StatusOf(evidence: Option<string>): string {
    match evidence
    case None => "UNVERIFIED"
    case Some(e) => if StartsWithPass(e) then "PASS" else "FAIL"
  }

  function GivenItem(sandbox: Sandbox, criteria: seq<string>, i: nat): Gate.Item
    requires i < |criteria|
  {
    Gate.Item(criteria[i], StatusOf(Lookup(sandbox, GivenKey(i))))
  }

  function GivenItems(sandbox: Sandbox, criteria: seq<string>): (items: seq<Gate.Item>)
    ensures |items| == |criteria|
  {
    seq(|criteria|, i requires 0 <= i < |criteria| => GivenItem(sandbox, criteria, i))
  }

  datatype DerivedRow = DerivedRow(k: nat, text: string, evidence: Option<string>)

  /** A derived criterion is recorded by its text, by its evidence or by both. */
  predicate Recorded(sandbox: Sandbox, k: nat) {
    DerivedKey(k) in sandbox || DerivedEvidenceKey(k) in sandbox
  }

  function RowFor(sandbox: Sandbox, k: nat): DerivedRow {
    var text := match Lookup(sandbox, DerivedKey(k))
      case Some(t) => if t != "" then t else "derived criterion " + Decimal(k)
      case None => "derived criterion " + Decimal(k);
    DerivedRow(k, Strip(text), Lookup(sandbox, DerivedEvidenceKey(k)))
  }

  /** The recorded rows among the first `n` slots. */
  function DerivedRows(sandbox: Sandbox, n: nat): seq<DerivedRow> {
    if n == 0 then []
    else if Recorded(sandbox, n - 1) then DerivedRows(sandbox, n - 1) + [RowFor(sandbox, n - 1)]
    else DerivedRows(sandbox, n - 1)
  }

  function RowItem(row: DerivedRow): Gate.Item {
    Gate.Item(row.text, StatusOf(row.evidence))
  }

  function RowItems(rows: seq<DerivedRow>): (items: seq<Gate.Item>)
    ensures |items| == |rows|
  {
    seq(|rows|, i requires 0 <= i < |rows| => RowItem(rows[i]))
  }

  function PartialItems(sandbox: Sandbox, criteria: seq<string>): seq<Gate.Item> {
    GivenItems(sandbox, criteria) + RowItems(DerivedRows(sandbox, MAX_DERIVED_CRITERIA))
  }

  predicate AllPass(items: seq<Gate.Item>) {
    forall i :: 0 <= i < |items| ==> items[i].status == "PASS"
  }

  /** A partial verdict is COMPLETE only when every item is PASS. */
  function CapVerdictOf(sandbox: Sandbox, criteria: seq<string>): Gate.Verdict {
    var items := PartialItems(sandbox, criteria);
    Gate.Verdict(if items != [] && AllPass(items) then "COMPLETE" else "INCOMPLETE", items)
  }

  /** The evidence for `key` is there and starts with PASS. */
  predicate PassEvidence(sandbox: Sandbox, key: string) {
    key in sandbox && StartsWithPass(sandbox[key])
  }

  // ---- Which capped runs pass the gate ----

  lemma StatusIsPass(evidence: Option<string>)
    ensures StatusOf(evidence) == "PASS" <==> evidence.Some? && StartsWithPass(evidence.value)
  {
    assert "FAIL"[0] == 'F' && "UNVERIFIED"[0] == 'U' && "PASS"[0] == 'P';
  }

  lemma {:induction false} DerivedAllPass(sandbox: Sandbox, n: nat)
    ensures AllPass(RowItems(DerivedRows(sandbox, n))) <==>
              forall k :: 0 <= k < n && Recorded(sandbox, k) ==> PassEvidence(sandbox, DerivedEvidenceKey(k))
  {
    hide StatusOf, Strip;
    if n > 0 {
      DerivedAllPass(sandbox, n - 1);
      if Recorded(sandbox, n - 1) {
        var rows, last := DerivedRows(sandbox, n - 1), RowFor(sandbox, n - 1);
        assert RowItems(rows + [last]) == RowItems(rows) + [RowItem(last)];
        AllPassAppend(RowItems(rows), [RowItem(last)]);
        StatusIsPass(last.evidence);
        assert [RowItem(last)][0].status == StatusOf(last.evidence);
      }
    }
  }

  lemma AllPassAppend(a: seq<Gate.Item>, b: seq<Gate.Item>)
    ensures AllPass(a + b) <==> AllPass(a) && AllPass(b)
  {
    if AllPass(a + b) {
      forall i | 0 <= i < |a| ensures a[i].status == "PASS" { assert (a + b)[i] == a[i]; }
      forall i | 0 <= i < |b| ensures b[i].status == "PASS" { assert (a + b)[|a| + i] == b[i]; }
    }
  }

  lemma GivenAllPass(sandbox: Sandbox, criteria: seq<string>)
    ensures AllPass(GivenItems(sandbox, criteria)) <==>
              forall i :: 0 <= i < |criteria| ==> PassEvidence(sandbox, GivenKey(i))
  {
    var items := GivenItems(sandbox, criteria);
    forall i | 0 <= i < |criteria|
      ensures items[i].status == "PASS" <==> PassEvidence(sandbox, GivenKey(i))
    {
      assert items[i] == GivenItem(sandbox, criteria, i);
      StatusIsPass(Lookup(sandbox, GivenKey(i)));
    }
  }

  /** The non-blank criteria are a sub-multiset of the criteria. */
  lemma {:induction false} WantedTexts(criteria: seq<string>)
    ensures multiset(Gate.Norms(Gate.Wanted(criteria))) <= multiset(Gate.Norms(criteria))
  {
    hide Gate.Norm;
    if criteria != [] {
      var c, rest := criteria[0], criteria[1..];
      WantedTexts(rest);
      assert Gate.Norms(criteria) == [Gate.Norm(c)] + Gate.Norms(rest);
      assert multiset(Gate.Norms(criteria)) == multiset{Gate.Norm(c)} + multiset(Gate.Norms(rest));
      if HasText(c) {
        var wanted := Gate.Wanted(rest);
        assert Gate.Norms([c] + wanted) == [Gate.Norm(c)] + Gate.Norms(wanted);
      }
    }
  }

  /** The given items name the criteria word for word. */
  lemma WantedAreNamed(sandbox: Sandbox, criteria: seq<string>)
    ensures multiset(Gate.Norms(Gate.Wanted(criteria))) <= multiset(Gate.Texts(PartialItems(sandbox, criteria)))
  {
    hide Gate.Norm, DerivedRows, Lookup, StatusOf;
    var given := GivenItems(sandbox, criteria);
    var derived := RowItems(DerivedRows(sandbox, MAX_DERIVED_CRITERIA));
    WantedTexts(criteria);
    assert Gate.Texts(given) == Gate.Norms(criteria);
    assert Gate.Texts(given + derived) == Gate.Texts(given) + Gate.Texts(derived);
  }

  /** No failing criterion when every item passes. */
  lemma {:induction false} NothingFails(wanted: seq<string>, s: Gate.State)
    requires s.failing == [] && forall item <- s.pool :: item.Passes()
    ensures Gate.Rounds(wanted, s).failing == []
    decreases wanted
  {
    hide Gate.Norm, Gate.Pick, Upper, Strip;
    if wanted != [] {
      NothingFails(wanted[1..], Gate.Round(s, wanted[0]));
    }
  }

  lemma AllPassing(items: seq<Gate.Item>)
    requires AllPass(items)
    ensures forall item <- items :: item.Passes()
  {
    forall item | item in items ensures item.Passes() {
      var i :| 0 <= i < |items| && items[i] == item;
      CapitalWord(item.status);
    }
  }

  lemma CompleteVerdictPasses(sandbox: Sandbox, criteria: seq<string>)
    requires AllPass(PartialItems(sandbox, criteria)) && Gate.Wanted(criteria) != []
    ensures PartialItems(sandbox, criteria) != []
    ensures Gate.CoverageFor(PartialItems(sandbox, criteria), criteria).Complete()
  {
    hide Gate.Norm, Upper, Strip, Gate.Rounds;
    var items, wanted := PartialItems(sandbox, criteria), Gate.Wanted(criteria);
    AllPassing(items);
    WantedAreNamed(sandbox, criteria);
    Gate.ExactRounds(wanted, Gate.Start(items));
    NothingFails(wanted, Gate.Start(items));
  }

  /** Some criterion is not blank, and every given and every recorded derived
      criterion has PASS evidence in the sandbox. */
  ghost predicate FullyEvidenced(sandbox: Sandbox, criteria: seq<string>) {
    && (exists c <- criteria :: HasText(c))
    && (forall i :: 0 <= i < |criteria| ==> PassEvidence(sandbox, GivenKey(i)))
    && (forall k :: 0 <= k < MAX_DERIVED_CRITERIA && Recorded(sandbox, k) ==>
          PassEvidence(sandbox, DerivedEvidenceKey(k)))
  }

  /** A capped run passes the gate exactly when it is fully evidenced. */
  lemma CapVerdictPassesIff(sandbox: Sandbox, criteria: seq<string>)
    ensures Gate.VerdictIsPassing(CapVerdictOf(sandbox, criteria), criteria) <==> FullyEvidenced(sandbox, criteria)
  {
    hide Upper, Strip, Gate.VerdictIsPassing, CapVerdictOf;
    CapVerdictPasses(sandbox, criteria);
    GivenAllPass(sandbox, criteria);
    DerivedAllPass(sandbox, MAX_DERIVED_CRITERIA);
    AllPassAppend(GivenItems(sandbox, criteria), RowItems(DerivedRows(sandbox, MAX_DERIVED_CRITERIA)));
  }

  lemma CapVerdictPasses(sandbox: Sandbox, criteria: seq<string>)
    ensures Gate.VerdictIsPassing(CapVerdictOf(sandbox, criteria), criteria) <==>
              AllPass(PartialItems(sandbox, criteria)) && Gate.Wanted(criteria) != []
  {
    hide Upper, Strip, PartialItems, Gate.Rounds, Gate.Wanted;
    CapitalWord(CapVerdictOf(sandbox, criteria).outcome);
    assert |"INCOMPLETE"| != |"COMPLETE"|;
    if AllPass(PartialItems(sandbox, criteria)) && Gate.Wanted(criteria) != [] {
      CompleteVerdictPasses(sandbox, criteria);
    }
  }
}
