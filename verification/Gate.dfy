/** The verdict gate: does a stored verdict grade and pass every criterion?
    (engine/gate.py) */
module Gate {
  import opened Text
  import opened TextLaws

  const PREFIX_MIN_CHARS := 10

  datatype Item = Item(criterion: string, status: string) {
    predicate Passes() {
      Upper(Strip(status)) == "PASS"
    }
  }

  datatype Verdict = Verdict(outcome: string, items: seq<Item>)

  datatype Coverage = Coverage(criteria: seq<string>, graded: seq<string>,
                               ungraded: seq<string>, failing: seq<string>) {
    /** Every criterion graded and passing; an empty criteria list is not complete. */
    predicate Complete() {
      criteria != [] && ungraded == [] && failing == []
    }
  }

  /** Criteria and item texts are compared word by word, case folded. */
  function Norm(text: string): string {
    Lower(Join(Words(text), " "))
  }

  predicate Matches(wanted: string, graded: string) {
    || wanted == graded
    || (&& |graded| >= PREFIX_MIN_CHARS && |wanted| >= PREFIX_MIN_CHARS
        && (wanted <= graded || graded <= wanted))
  }

  // ---- Specification: grading against the pool of items not yet used ----

  function FirstFit<T>(accepts: T -> bool, pool: seq<T>): (r: Option<nat>)
    ensures r.Some? ==> r.value < |pool| && accepts(pool[r.value])
  {
    if pool == [] then None
    else if accepts(pool[0]) then Some(0)
    else match FirstFit(accepts, pool[1..])
      case None => None
      case Some(i) => Some(i + 1)
  }

  /** `FirstFit` finds the least accepted position, and finds one if there is any. */
  lemma {:induction false} FirstFitIsLeast<T>(accepts: T -> bool, pool: seq<T>, k: nat)
    requires k < |pool|
    ensures var r := FirstFit(accepts, pool);
            && (accepts(pool[k]) ==> r.Some? && r.value <= k)
            && (r == Some(k) ==> forall j :: 0 <= j < k ==> !accepts(pool[j]))
  {
    if k > 0 {
      FirstFitIsLeast(accepts, pool[1..], k - 1);
    }
  }

  /** One search pass looks for the exact text, the other for any match. */
  function ExactText(needle: string): Item -> bool {
    (item: Item) => Norm(item.criterion) == needle
  }

  function CloseText(needle: string): Item -> bool {
    (item: Item) => Matches(needle, Norm(item.criterion))
  }

  /** The item that grades a criterion: the first exact text, else the first
      long-enough prefix in either direction. */
  function Pick(needle: string, pool: seq<Item>): (r: Option<nat>)
    ensures r.Some? ==> r.value < |pool| && CloseText(needle)(pool[r.value])
  {
    var exact := FirstFit(ExactText(needle), pool);
    if exact.Some? then exact else FirstFit(CloseText(needle), pool)
  }

  function Remove<T>(s: seq<T>, i: nat): (r: seq<T>)
    requires i < |s|
    ensures |r| == |s| - 1
  {
    s[..i] + s[i + 1..]
  }

  function Insert<T>(s: seq<T>, i: nat, x: T): (r: seq<T>)
    requires i <= |s|
    ensures |r| == |s| + 1
  {
    s[..i] + [x] + s[i..]
  }

  /** The items left, the items used so far in the order of the criteria they
      grade, and the three lists of criteria built so far. */
  datatype State = State(pool: seq<Item>, picks: seq<Item>, graded: seq<string>,
                         ungraded: seq<string>, failing: seq<string>)

  function Round(s: State, criterion: string): State {
    Settle(s, criterion, Pick(Norm(criterion), s.pool))
  }

  function Settle(s: State, criterion: string, pick: Option<nat>): State
    requires pick.Some? ==> pick.value < |s.pool|
  {
    match pick
    case None => s.(ungraded := s.ungraded + [criterion])
    case Some(i) =>
      var item := s.pool[i];
      State(Remove(s.pool, i), s.picks + [item], s.graded + [criterion], s.ungraded,
            if item.Passes() then s.failing else s.failing + [criterion])
  }

  function Rounds(wanted: seq<string>, s: State): State {
    if wanted == [] then s else Rounds(wanted[1..], Round(s, wanted[0]))
  }

  function Wanted(criteria: seq<string>): (w: seq<string>)
    ensures w == [] <==> forall c <- criteria :: !HasText(c)
  {
    if criteria == [] then []
    else if HasText(criteria[0]) then [criteria[0]] + Wanted(criteria[1..])
    else Wanted(criteria[1..])
  }

  function Start(items: seq<Item>): State {
    State(items, [], [], [], [])
  }

  function CoverageFor(items: seq<Item>, criteria: seq<string>): Coverage {
    var end := Rounds(Wanted(criteria), Start(items));
    Coverage(Wanted(criteria), end.graded, end.ungraded, end.failing)
  }

  /** The only passing test a gate may use. */
  predicate VerdictIsPassing(verdict: Verdict, criteria: seq<string>) {
    && Upper(Strip(verdict.outcome)) == "COMPLETE"
    && verdict.items != []
    && CoverageFor(verdict.items, criteria).Complete()
  }

  // ---- Grading is a one-to-one assignment ----

  lemma RemoveMultiset<T>(s: seq<T>, i: nat)
    requires i < |s|
    ensures multiset(s) == multiset(Remove(s, i)) + multiset{s[i]}
  {
    assert s == s[..i] + [s[i]] + s[i + 1..];
  }

  /** Each item is either still in the pool or was picked once. */
  ghost predicate ItemsKept(items: multiset<Item>, s: State) {
    multiset(s.picks) + multiset(s.pool) == items
  }

  lemma {:induction false} RoundsKeepItems(items: multiset<Item>, wanted: seq<string>, s: State)
    requires ItemsKept(items, s)
    ensures ItemsKept(items, Rounds(wanted, s))
    decreases wanted
  {
    hide Norm;
    if wanted != [] {
      var pick := Pick(Norm(wanted[0]), s.pool);
      if pick.Some? {
        RemoveMultiset(s.pool, pick.value);
      }
      RoundsKeepItems(items, wanted[1..], Round(s, wanted[0]));
    }
  }

  /** Each criterion dealt with so far is either graded or ungraded. */
  ghost predicate CriteriaKept(done: multiset<string>, s: State) {
    multiset(s.graded) + multiset(s.ungraded) == done
  }

  lemma {:induction false} RoundsKeepCriteria(done: multiset<string>, wanted: seq<string>, s: State)
    requires CriteriaKept(done, s)
    ensures CriteriaKept(done + multiset(wanted), Rounds(wanted, s))
    ensures done == multiset{} ==> CriteriaKept(multiset(wanted), Rounds(wanted, s))
    decreases wanted
  {
    hide Norm;
    if wanted != [] {
      assert wanted == [wanted[0]] + wanted[1..];
      RoundsKeepCriteria(done + multiset{wanted[0]}, wanted[1..], Round(s, wanted[0]));
      assert done + multiset(wanted) == done + multiset{wanted[0]} + multiset(wanted[1..]);
    }
  }

  /** The k-th graded criterion was graded by the k-th picked item, whose text
      matches, and unless something is failing that item passes. */
  ghost predicate Paired(s: State) {
    && |s.picks| == |s.graded|
    && forall k :: 0 <= k < |s.picks| ==>
         && CloseText(Norm(s.graded[k]))(s.picks[k])
         && (s.failing == [] ==> s.picks[k].Passes())
  }

  lemma SettlePairs(s: State, c: string, pick: Option<nat>)
    requires pick.Some? ==> pick.value < |s.pool| && CloseText(Norm(c))(s.pool[pick.value])
    requires Paired(s)
    ensures Paired(Settle(s, c, pick))
  {
    hide Norm, CloseText, Upper, Strip;
  }

  lemma {:induction false} RoundsPair(wanted: seq<string>, s: State)
    requires Paired(s)
    ensures Paired(Rounds(wanted, s))
    decreases wanted
  {
    hide Norm;
    if wanted != [] {
      SettlePairs(s, wanted[0], Pick(Norm(wanted[0]), s.pool));
      RoundsPair(wanted[1..], Round(s, wanted[0]));
    }
  }

  /** What a complete coverage means: the non-blank criteria can be listed
      against distinct items of the verdict that match them and PASS. */
  lemma CompleteIsAnAssignment(items: seq<Item>, criteria: seq<string>) returns (order: seq<string>, picks: seq<Item>)
    requires CoverageFor(items, criteria).Complete()
    ensures multiset(order) == multiset(Wanted(criteria)) && |picks| == |order|
    ensures multiset(picks) <= multiset(items)
    ensures forall k :: 0 <= k < |order| ==>
              picks[k].Passes() && CloseText(Norm(order[k]))(picks[k])
  {
    hide Norm;
    var wanted, start := Wanted(criteria), Start(items);
    RoundsKeepItems(multiset(items), wanted, start);
    RoundsKeepCriteria(multiset{}, wanted, start);
    RoundsPair(wanted, start);
    var end := Rounds(wanted, start);
    order, picks := end.graded, end.picks;
    MultisetSum(multiset(end.graded), multiset(end.ungraded), multiset(wanted));
    MultisetSum(multiset(end.picks), multiset(end.pool), multiset(items));
  }

  lemma MultisetSum<T>(a: multiset<T>, b: multiset<T>, c: multiset<T>)
    requires a + b == c
    ensures a <= c && (b == multiset{} ==> a == c)
  {
  }

  // ---- Inserting an item: the two runs' pools differ by at most one item ----

  function Shift(i: nat, p: nat): nat {
    if i < p then i else i + 1
  }

  function FitAfterInsert(i: Option<nat>, p: nat, accepted: bool): Option<nat> {
    if accepted && (i.None? || i.value >= p) then Some(p)
    else if i.None? then None
    else Some(Shift(i.value, p))
  }

  lemma InsertTail<T>(s: seq<T>, p: nat, x: T)
    requires p <= |s|
    ensures var more := Insert(s, p, x);
            if p == 0 then more[0] == x && more[1..] == s
            else more[0] == s[0] && more[1..] == Insert(s[1..], p - 1, x)
  {
  }

  lemma {:induction false} FirstFitInsert<T>(accepts: T -> bool, pool: seq<T>, p: nat, x: T)
    requires p <= |pool|
    ensures FirstFit(accepts, Insert(pool, p, x)) == FitAfterInsert(FirstFit(accepts, pool), p, accepts(x))
  {
    hide Insert;
    InsertTail(pool, p, x);
    if p > 0 {
      FirstFitInsert(accepts, pool[1..], p - 1, x);
    }
  }

  /** An extra item is either picked itself or leaves the choice as it was. */
  lemma PickInsert(needle: string, pool: seq<Item>, p: nat, x: Item)
    requires p <= |pool|
    ensures var i := Pick(needle, pool);
            var j := Pick(needle, Insert(pool, p, x));
            j == Some(p) || j == (if i.None? then None else Some(Shift(i.value, p)))
  {
    hide Norm;
    FirstFitInsert(ExactText(needle), pool, p, x);
    FirstFitInsert(CloseText(needle), pool, p, x);
  }

  lemma RemoveInserted<T>(s: seq<T>, p: nat, x: T)
    requires p <= |s|
    ensures Remove(Insert(s, p, x), p) == s
  {
  }

  lemma InsertRemoved<T>(s: seq<T>, i: nat)
    requires i < |s|
    ensures Insert(Remove(s, i), i, s[i]) == s
  {
  }

  lemma RemoveBesideInserted<T>(s: seq<T>, p: nat, x: T, i: nat)
    requires p <= |s| && i < |s|
    ensures Insert(s, p, x)[Shift(i, p)] == s[i]
    ensures Remove(Insert(s, p, x), Shift(i, p)) == Insert(Remove(s, i), if i < p then p - 1 else p, x)
  {
    var more := Insert(s, p, x);
    if i < p {
      assert more[..i] == s[..i];
      assert more[i + 1..] == s[i + 1..p] + [x] + s[p..];
      assert Remove(s, i)[..p - 1] == s[..i] + s[i + 1..p];
      assert Remove(s, i)[p - 1..] == s[p..];
    } else {
      assert more[..i + 1] == s[..p] + [x] + s[p..i];
      assert more[i + 2..] == s[i + 1..];
      assert Remove(s, i)[..p] == s[..p];
      assert Remove(s, i)[p..] == s[p..i] + s[i + 1..];
    }
  }

  /** `t` runs with one more item than `s` in its pool, at place `p`. */
  predicate OneMore(s: State, t: State, p: nat) {
    p < |t.pool| && s.pool == Remove(t.pool, p)
  }

  /** After a round, `t` either still has one more item or has one fewer
      ungraded criterion. */
  lemma RoundWithOneMore(s: State, t: State, p: nat, c: string) returns (q: nat)
    requires OneMore(s, t, p)
    ensures var s', t' := Round(s, c), Round(t, c);
            || (&& OneMore(s', t', q) && |t'.ungraded| - |t.ungraded| == |s'.ungraded| - |s.ungraded|)
            || (&& s'.pool == t'.pool
                && |s'.ungraded| == |s.ungraded| + 1 && |t'.ungraded| == |t.ungraded|)
  {
    hide Norm;
    var x := t.pool[p];
    var i, j := Pick(Norm(c), s.pool), Pick(Norm(c), t.pool);
    InsertRemoved(t.pool, p);
    PickInsert(Norm(c), s.pool, p, x);
    q := p;
    if i.Some? {
      if j == Some(p) {
        q := i.value;
      } else {
        q := if i.value < p then p - 1 else p;
        RemoveBesideInserted(s.pool, p, x, i.value);
        RemoveInserted(Remove(s.pool, i.value), q, x);
      }
    }
  }

  lemma {:induction false} RoundsSamePool(wanted: seq<string>, s: State, t: State)
    requires s.pool == t.pool
    ensures |Rounds(wanted, t).ungraded| - |t.ungraded| == |Rounds(wanted, s).ungraded| - |s.ungraded|
  {
    hide Norm;
    if wanted != [] {
      RoundsSamePool(wanted[1..], Round(s, wanted[0]), Round(t, wanted[0]));
    }
  }

  lemma {:induction false} RoundsWithOneMore(wanted: seq<string>, s: State, t: State, p: nat)
    requires OneMore(s, t, p) && |s.ungraded| == |t.ungraded|
    ensures |Rounds(wanted, t).ungraded| <= |Rounds(wanted, s).ungraded| <= |Rounds(wanted, t).ungraded| + 1
    decreases wanted
  {
    hide Norm;
    if wanted != [] {
      var s', t' := Round(s, wanted[0]), Round(t, wanted[0]);
      var q := RoundWithOneMore(s, t, p, wanted[0]);
      if s'.pool == t'.pool {
        RoundsSamePool(wanted[1..], s', t');
      } else {
        RoundsWithOneMore(wanted[1..], s', t', q);
      }
    }
  }

  predicate Clean(s: State) {
    s.ungraded == [] && s.failing == []
  }

  lemma {:induction false} RoundsStayDirty(wanted: seq<string>, s: State)
    ensures Clean(Rounds(wanted, s)) ==> Clean(s)
  {
    hide Norm;
    if wanted != [] {
      RoundsStayDirty(wanted[1..], Round(s, wanted[0]));
    }
  }

  /** When `s` picks a passing item, an extra passing item keeps the round clean. */
  lemma CleanRoundWithOneMore(s: State, t: State, p: nat, c: string) returns (q: nat)
    requires OneMore(s, t, p) && t.pool[p].Passes()
    requires Clean(Round(s, c)) && Clean(t)
    ensures OneMore(Round(s, c), Round(t, c), q) && Round(t, c).pool[q].Passes()
    ensures Clean(Round(t, c))
  {
    hide Norm;
    var x := t.pool[p];
    var i, j := Pick(Norm(c), s.pool), Pick(Norm(c), t.pool);
    InsertRemoved(t.pool, p);
    PickInsert(Norm(c), s.pool, p, x);
    if j == Some(p) {
      q := i.value;
    } else {
      q := if i.value < p then p - 1 else p;
      RemoveBesideInserted(s.pool, p, x, i.value);
      RemoveInserted(Remove(s.pool, i.value), q, x);
    }
  }

  lemma {:induction false} RoundsCleanWithOneMore(wanted: seq<string>, s: State, t: State, p: nat)
    requires OneMore(s, t, p) && t.pool[p].Passes()
    requires Clean(Rounds(wanted, s)) && Clean(t)
    ensures Clean(Rounds(wanted, t))
    decreases wanted
  {
    hide Norm;
    if wanted != [] {
      RoundsStayDirty(wanted[1..], Round(s, wanted[0]));
      var q := CleanRoundWithOneMore(s, t, p, wanted[0]);
      RoundsCleanWithOneMore(wanted[1..], Round(s, wanted[0]), Round(t, wanted[0]), q);
    }
  }

  /** Inserting an item anywhere never leaves more criteria ungraded, and at
      most one fewer; inserting a PASS item keeps a complete coverage complete. */
  lemma CoverageIsMonotone(items: seq<Item>, p: nat, x: Item, criteria: seq<string>)
    requires p <= |items|
    ensures var before := CoverageFor(items, criteria);
            var after := CoverageFor(Insert(items, p, x), criteria);
            && |after.ungraded| <= |before.ungraded| <= |after.ungraded| + 1
            && (x.Passes() && before.Complete() ==> after.Complete())
  {
    hide Norm;
    var wanted := Wanted(criteria);
    var s, t := Start(items), Start(Insert(items, p, x));
    RemoveInserted(items, p, x);
    RoundsWithOneMore(wanted, s, t, p);
    if x.Passes() && Clean(Rounds(wanted, s)) {
      RoundsCleanWithOneMore(wanted, s, t, p);
    }
  }

  /** A passing verdict still passes when a PASS item is inserted anywhere. */
  lemma PassingIsMonotone(verdict: Verdict, p: nat, x: Item, criteria: seq<string>)
    requires p <= |verdict.items| && x.Passes()
    requires VerdictIsPassing(verdict, criteria)
    ensures VerdictIsPassing(verdict.(items := Insert(verdict.items, p, x)), criteria)
  {
    hide Norm;
    CoverageIsMonotone(verdict.items, p, x, criteria);
  }

  // ---- Criteria that are all named exactly are all graded exactly ----

  function Norms(texts: seq<string>): (r: seq<string>)
    ensures |r| == |texts|
  {
    seq(|texts|, i requires 0 <= i < |texts| => Norm(texts[i]))
  }

  function Texts(items: seq<Item>): (r: seq<string>)
    ensures |r| == |items|
  {
    seq(|items|, i requires 0 <= i < |items| => Norm(items[i].criterion))
  }

  lemma TextsRemove(pool: seq<Item>, i: nat)
    requires i < |pool|
    ensures Texts(Remove(pool, i)) == Remove(Texts(pool), i)
  {
    hide Norm;
  }

  lemma PickExact(needle: string, pool: seq<Item>)
    requires needle in multiset(Texts(pool))
    ensures Pick(needle, pool).Some?
    ensures Texts(pool)[Pick(needle, pool).value] == needle
  {
    var k :| 0 <= k < |pool| && Texts(pool)[k] == needle;
    FirstFitIsLeast(ExactText(needle), pool, k);
    var i := FirstFit(ExactText(needle), pool).value;
    assert ExactText(needle)(pool[i]);
    assert Norm(pool[i].criterion) == needle;
  }

  lemma MultisetCancel<T>(a: multiset<T>, b: multiset<T>, c: multiset<T>)
    requires a + b <= c + a
    ensures b <= c
  {
    forall x ensures b[x] <= c[x] {
      assert (a + b)[x] <= (c + a)[x];
    }
  }

  lemma SubmultisetStep(needle: string, rest: seq<string>, texts: seq<string>, i: nat)
    requires i < |texts| && texts[i] == needle
    requires multiset([needle] + rest) <= multiset(texts)
    ensures multiset(rest) <= multiset(Remove(texts, i))
  {
    RemoveMultiset(texts, i);
    MultisetCancel(multiset{needle}, multiset(rest), multiset(Remove(texts, i)));
  }

  /** Every graded criterion so far was graded by an item with its exact text. */
  ghost predicate ExactPicks(s: State) {
    && |s.picks| == |s.graded|
    && forall k :: 0 <= k < |s.picks| ==> Norm(s.picks[k].criterion) == Norm(s.graded[k])
  }

  lemma ExactSettle(c: string, s: State, i: nat)
    requires i < |s.pool| && Norm(s.pool[i].criterion) == Norm(c) && ExactPicks(s)
    ensures var next := Settle(s, c, Some(i));
            ExactPicks(next) && next.ungraded == s.ungraded && next.graded == s.graded + [c]
  {
    hide Norm, Upper, Strip, Remove;
  }

  lemma ExactRound(c: string, s: State)
    requires Norm(c) in multiset(Texts(s.pool)) && ExactPicks(s)
    ensures ExactPicks(Round(s, c)) && Round(s, c).ungraded == s.ungraded
    ensures Round(s, c).graded == s.graded + [c]
  {
    hide Norm, Settle, FirstFit, ExactPicks;
    PickExact(Norm(c), s.pool);
    ExactSettle(c, s, Pick(Norm(c), s.pool).value);
  }

  /** When the criteria are a sub-multiset of the item texts, the greedy search
      grades every one of them, by exact text. */
  lemma {:induction false} ExactRounds(wanted: seq<string>, s: State)
    requires multiset(Norms(wanted)) <= multiset(Texts(s.pool)) && ExactPicks(s)
    ensures var end := Rounds(wanted, s);
            ExactPicks(end) && end.ungraded == s.ungraded && end.graded == s.graded + wanted
    decreases wanted
  {
    hide Norm;
    if wanted != [] {
      ExactHead(wanted, s);
      ExactRound(wanted[0], s);
      ExactRounds(wanted[1..], Round(s, wanted[0]));
      AppendHead(s.graded, wanted);
    }
  }

  lemma AppendHead<T>(s: seq<T>, t: seq<T>)
    requires t != []
    ensures (s + [t[0]]) + t[1..] == s + t
  {
  }

  lemma ExactHead(wanted: seq<string>, s: State)
    requires wanted != [] && multiset(Norms(wanted)) <= multiset(Texts(s.pool))
    ensures Norm(wanted[0]) in multiset(Texts(s.pool))
    ensures multiset(Norms(wanted[1..])) <= multiset(Texts(Round(s, wanted[0]).pool))
  {
    hide Norm;
    var needle, rest := Norm(wanted[0]), wanted[1..];
    assert Norms(wanted) == [needle] + Norms(rest);
    assert needle in multiset([needle] + Norms(rest));
    PickExact(needle, s.pool);
    var i := Pick(needle, s.pool).value;
    SubmultisetStep(needle, Norms(rest), Texts(s.pool), i);
    TextsRemove(s.pool, i);
  }

  // ---- Position by position ----

  function OneOn(at: seq<nat>): (r: seq<nat>)
    ensures |r| == |at|
  {
    seq(|at|, k requires 0 <= k < |at| => at[k] + 1)
  }

  /** `at` lists, in order, exactly the positions of `criteria` that hold text. */
  predicate Positions(at: seq<nat>, criteria: seq<string>) {
    && (forall k :: 0 <= k < |at| ==> at[k] < |criteria| && Strip(criteria[at[k]]) != "")
    && (forall k, l :: 0 <= k < l < |at| ==> at[k] < at[l])
    && (forall i: nat :: i < |criteria| && Strip(criteria[i]) != "" ==> i in at)
  }

  /** `at` picks `part` out of `whole`. */
  predicate PicksOut(at: seq<nat>, part: seq<string>, whole: seq<string>) {
    |at| == |part| && forall k :: 0 <= k < |at| ==> at[k] < |whole| && part[k] == whole[at[k]]
  }

  lemma PicksOutCons(at: seq<nat>, part: seq<string>, whole: seq<string>, first: bool)
    requires whole != [] && PicksOut(at, part, whole[1..])
    ensures PicksOut((if first then [0] else []) + OneOn(at), (if first then [whole[0]] else []) + part, whole)
  {
  }

  lemma {:induction false} WantedPositions(criteria: seq<string>) returns (at: seq<nat>)
    ensures Positions(at, criteria) && PicksOut(at, Wanted(criteria), criteria)
    decreases |criteria|
  {
    hide HasText, Strip, Positions, PicksOut, OneOn;
    if criteria == [] {
      at := [];
      NoPositions(criteria);
    } else {
      var rest := WantedPositions(criteria[1..]);
      HasTextIff(criteria[0]);
      at := (if HasText(criteria[0]) then [0] else []) + OneOn(rest);
      PositionsCons(criteria, rest, at);
      PicksOutCons(rest, Wanted(criteria[1..]), criteria, HasText(criteria[0]));
      assert [] + Wanted(criteria[1..]) == Wanted(criteria[1..]);
    }
  }

  lemma NoPositions(criteria: seq<string>)
    requires criteria == []
    ensures Positions([], criteria) && PicksOut([], [], criteria)
  {
  }

  lemma PositionsCons(criteria: seq<string>, rest: seq<nat>, at: seq<nat>)
    requires criteria != [] && Positions(rest, criteria[1..])
    requires at == (if Strip(criteria[0]) != "" then [0] else []) + OneOn(rest)
    ensures Positions(at, criteria)
  {
    hide Strip, OneOn, Positions, LaterPositions;
    OneOnPositions(criteria, rest);
    if Strip(criteria[0]) != "" {
      FirstPosition(criteria, OneOn(rest));
    } else {
      BlankFirst(criteria, OneOn(rest));
      assert [] + OneOn(rest) == OneOn(rest);
    }
  }

  /** The same positions, but of the first. */
  predicate LaterPositions(at: seq<nat>, criteria: seq<string>) {
    && (forall k :: 0 <= k < |at| ==> 0 < at[k] < |criteria| && Strip(criteria[at[k]]) != "")
    && (forall k, l :: 0 <= k < l < |at| ==> at[k] < at[l])
    && (forall i: nat :: 0 < i < |criteria| && Strip(criteria[i]) != "" ==> i in at)
  }

  lemma OneOnPositions(criteria: seq<string>, rest: seq<nat>)
    requires criteria != [] && Positions(rest, criteria[1..])
    ensures LaterPositions(OneOn(rest), criteria)
  {
    hide Strip;
    forall i: nat | 0 < i < |criteria| && Strip(criteria[i]) != "" ensures i in OneOn(rest) {
      assert criteria[1..][i - 1] == criteria[i];
      var k :| 0 <= k < |rest| && rest[k] == i - 1;
      assert OneOn(rest)[k] == i;
    }
  }

  lemma FirstPosition(criteria: seq<string>, later: seq<nat>)
    requires criteria != [] && Strip(criteria[0]) != "" && LaterPositions(later, criteria)
    ensures Positions([0] + later, criteria)
  {
    hide Strip;
    forall i: nat | i < |criteria| && Strip(criteria[i]) != "" ensures i in [0] + later {
    }
  }

  lemma BlankFirst(criteria: seq<string>, later: seq<nat>)
    requires criteria != [] && Strip(criteria[0]) == "" && LaterPositions(later, criteria)
    ensures Positions(later, criteria)
  {
    hide Strip;
  }

  /** How often `x` is among the criteria that hold text. */
  function CountWithText(criteria: seq<string>, x: string): nat {
    if Strip(x) != "" then multiset(criteria)[x] else 0
  }

  /** How often `x` is graded or ungraded. */
  function CountOf(c: Coverage, x: string): nat {
    multiset(c.graded)[x] + multiset(c.ungraded)[x]
  }

  /** The criteria of a coverage are those with text, in the order given; each of them
      is graded or ungraded as often as it was given, and nothing else is. */
  lemma CoverageKeepsCriteria(items: seq<Item>, criteria: seq<string>) returns (at: seq<nat>)
    ensures var c := CoverageFor(items, criteria);
            Positions(at, criteria) && PicksOut(at, c.criteria, criteria)
    ensures forall x: string :: CountOf(CoverageFor(items, criteria), x) == CountWithText(criteria, x)
  {
    hide Norm, Strip, Positions, Rounds;
    at := WantedPositions(criteria);
    var wanted := Wanted(criteria);
    RoundsKeepCriteria(multiset{}, wanted, Start(items));
    forall x: string ensures multiset(wanted)[x] == CountWithText(criteria, x) {
      WantedCounts(criteria, x);
    }
  }

  lemma {:induction false} WantedCounts(criteria: seq<string>, x: string)
    ensures multiset(Wanted(criteria))[x] == CountWithText(criteria, x)
    decreases |criteria|
  {
    hide HasText, Strip;
    if criteria != [] {
      WantedCounts(criteria[1..], x);
      HasTextIff(criteria[0]);
      assert criteria == [criteria[0]] + criteria[1..];
    }
  }

  /** While nothing is left ungraded, the criteria are graded in order. */
  lemma {:induction false} GradedInOrder(wanted: seq<string>, s: State)
    requires Rounds(wanted, s).ungraded == []
    ensures s.ungraded == [] && Rounds(wanted, s).graded == s.graded + wanted
    decreases wanted
  {
    hide Norm;
    if wanted != [] {
      GradedInOrder(wanted[1..], Round(s, wanted[0]));
      assert [wanted[0]] + wanted[1..] == wanted;
    }
  }

  /** `at` are distinct positions of `s` that hold `part`. */
  predicate Holds<T(==)>(at: seq<nat>, part: seq<T>, s: seq<T>) {
    && |at| == |part|
    && (forall k :: 0 <= k < |at| ==> at[k] < |s| && s[at[k]] == part[k])
    && forall k, l :: 0 <= k < l < |at| ==> at[k] != at[l]
  }

  lemma HoldsCons<T>(t: T, rest: seq<T>, s: seq<T>, i: nat, at: seq<nat>) returns (all: seq<nat>)
    requires i < |s| && s[i] == t && Holds(at, rest, Remove(s, i))
    ensures Holds(all, [t] + rest, s)
  {
    all := [i] + seq(|at|, k requires 0 <= k < |at| => Shift(at[k], i));
  }

  lemma TakeOne<T>(t: T, rest: seq<T>, s: seq<T>) returns (i: nat)
    requires multiset([t] + rest) <= multiset(s)
    ensures i < |s| && s[i] == t && multiset(rest) <= multiset(Remove(s, i))
  {
    assert multiset([t] + rest) == multiset{t} + multiset(rest);
    assert multiset(s)[t] > 0 by { assert multiset([t] + rest)[t] > 0; }
    assert t in s;
    i :| 0 <= i < |s| && s[i] == t;
    RemoveMultiset(s, i);
    Cancel(t, multiset(rest), multiset(Remove(s, i)));
  }

  lemma Cancel<T>(t: T, a: multiset<T>, b: multiset<T>)
    requires multiset{t} + a <= b + multiset{t}
    ensures a <= b
  {
    forall x ensures a[x] <= b[x] {
      assert (multiset{t} + a)[x] <= (b + multiset{t})[x];
    }
  }

  /** A part of a list, taken as a multiset, stands at distinct positions of it. */
  lemma {:induction false} DistinctPlaces<T>(part: seq<T>, s: seq<T>) returns (places: seq<nat>)
    requires multiset(part) <= multiset(s)
    ensures Holds(places, part, s)
    decreases |part|
  {
    hide Holds, Remove;
    if part == [] {
      places := [];
      assert Holds(places, part, s) by { NoneHeld(part, s); }
    } else {
      assert part == [part[0]] + part[1..];
      var i := TakeOne(part[0], part[1..], s);
      var rest := DistinctPlaces(part[1..], Remove(s, i));
      places := HoldsCons(part[0], part[1..], s, i, rest);
    }
  }

  lemma NoneHeld<T>(part: seq<T>, s: seq<T>)
    requires part == []
    ensures Holds([], part, s)
  {
  }

  /** The texts have the same words up to case, or one, so folded, begins with the other
      and neither is short. */
  predicate TextsMatch(a: string, b: string) {
    || SameWords(Words(a), Words(b))
    || (&& |Norm(a)| >= 10 && |Norm(b)| >= 10
        && (Norm(b)[..Least(|Norm(a)|, |Norm(b)|)] == Norm(a)[..Least(|Norm(a)|, |Norm(b)|)]))
  }

  function Least(m: nat, n: nat): (r: nat)
    ensures r <= m && r <= n
  {
    if m < n then m else n
  }

  /** PASS, up to case and surrounding whitespace. */
  predicate SaysPass(status: string) {
    SameWord(Strip(status), "PASS")
  }

  lemma PassesIff(item: Item)
    ensures item.Passes() <==> SaysPass(item.status)
  {
    hide Upper, Strip, SameWord;
    UpperIsWordIff(Strip(item.status), "PASS");
  }

  lemma NormIff(a: string, b: string)
    ensures Norm(a) == Norm(b) <==> SameWords(Words(a), Words(b))
  {
    FoldedIff(a, b);
  }

  lemma MatchesIff(a: string, b: string)
    ensures Matches(Norm(a), Norm(b)) <==> TextsMatch(a, b)
  {
    hide Norm, Words, SameWords;
    NormIff(a, b);
    var n, m := Norm(a), Norm(b);
    assert n <= m <==> |n| <= |m| && m[..|n|] == n;
    assert n[..|n|] == n && m[..|m|] == m;
  }

  /** What a passing verdict shows: it says COMPLETE, some criterion holds text, and for
      every position of the criteria that does there is an item of its own that says PASS
      and whose text matches. */
  lemma PassingGradesEvery(verdict: Verdict, criteria: seq<string>)
    returns (at: seq<nat>, wanted: seq<string>, places: seq<nat>, picks: seq<Item>)
    requires VerdictIsPassing(verdict, criteria)
    ensures SameWord(Strip(verdict.outcome), "COMPLETE")
    ensures Positions(at, criteria) && PicksOut(at, wanted, criteria)
    ensures Holds(places, picks, verdict.items) && |picks| == |wanted| > 0
    ensures forall k :: 0 <= k < |picks| ==> SaysPass(picks[k].status) && TextsMatch(wanted[k], picks[k].criterion)
  {
    hide Norm, Upper, Strip, SameWord, TextsMatch, Matches, Positions, PicksOut, Holds, Rounds;
    UpperIsWordIff(Strip(verdict.outcome), "COMPLETE");
    at := WantedPositions(criteria);
    wanted := Wanted(criteria);
    var start := Start(verdict.items);
    GradedInOrder(wanted, start);
    RoundsKeepItems(multiset(verdict.items), wanted, start);
    RoundsPair(wanted, start);
    var end := Rounds(wanted, start);
    picks := end.picks;
    MultisetSum(multiset(picks), multiset(end.pool), multiset(verdict.items));
    places := DistinctPlaces(picks, verdict.items);
    forall k | 0 <= k < |picks| ensures SaysPass(picks[k].status) && TextsMatch(wanted[k], picks[k].criterion) {
      PassesIff(picks[k]);
      MatchesIff(wanted[k], picks[k].criterion);
    }
  }

  /** With one criterion and one item the gate is decided by their four texts. */
  lemma OneItemPassesIff(outcome: string, item: Item, criterion: string)
    ensures VerdictIsPassing(Verdict(outcome, [item]), [criterion])
            <==> && SameWord(Strip(outcome), "COMPLETE") && Strip(criterion) != ""
                 && SaysPass(item.status) && TextsMatch(criterion, item.criterion)
  {
    hide Norm, Upper, Strip, SameWord, TextsMatch, Matches;
    UpperIsWordIff(Strip(outcome), "COMPLETE");
    HasTextIff(criterion);
    PassesIff(item);
    MatchesIff(criterion, item.criterion);
    OnePool(criterion, item);
    assert [criterion][1..] == [] && Wanted([]) == [];
    if HasText(criterion) {
      assert Wanted([criterion]) == [criterion];
      var start := Start([item]);
      assert Rounds([criterion], start) == Rounds([], Round(start, criterion)) == Round(start, criterion);
    } else {
      assert Wanted([criterion]) == [];
    }
  }

  lemma OnePool(criterion: string, item: Item)
    ensures Pick(Norm(criterion), [item])
            == if Matches(Norm(criterion), Norm(item.criterion)) then Some(0) else None
  {
    hide Norm;
    assert [item][1..] == [];
  }

  // ---- Only the texts of the items decide what is graded ----

  predicate SameTexts(items: seq<Item>, others: seq<Item>) {
    |items| == |others| && forall i :: 0 <= i < |items| ==> items[i].criterion == others[i].criterion
  }

  lemma {:induction false} FirstFitSameTexts(accepts: Item -> bool, pool: seq<Item>, other: seq<Item>)
    requires |pool| == |other| && forall i :: 0 <= i < |pool| ==> accepts(pool[i]) == accepts(other[i])
    ensures FirstFit(accepts, pool) == FirstFit(accepts, other)
    decreases |pool|
  {
    if pool != [] {
      FirstFitSameTexts(accepts, pool[1..], other[1..]);
    }
  }

  lemma {:induction false} RoundsSameTexts(wanted: seq<string>, s: State, t: State)
    requires SameTexts(s.pool, t.pool) && s.ungraded == t.ungraded
    ensures Rounds(wanted, s).ungraded == Rounds(wanted, t).ungraded
    decreases wanted
  {
    hide Norm, Matches, FirstFit, Upper, Strip;
    if wanted != [] {
      var needle := Norm(wanted[0]);
      FirstFitSameTexts(ExactText(needle), s.pool, t.pool);
      FirstFitSameTexts(CloseText(needle), s.pool, t.pool);
      RoundsSameTexts(wanted[1..], Round(s, wanted[0]), Round(t, wanted[0]));
    }
  }

  /** Without items nothing is graded. */
  lemma NoItemsNoGrades(criteria: seq<string>)
    requires Wanted(criteria) != []
    ensures CoverageFor([], criteria).ungraded != []
  {
    hide Norm, Rounds, Wanted;
    var wanted, start := Wanted(criteria), Start([]);
    RoundsKeepItems(multiset{}, wanted, start);
    RoundsPair(wanted, start);
    var end := Rounds(wanted, start);
    MultisetSum(multiset(end.picks), multiset(end.pool), multiset{});
    assert multiset(end.picks) == multiset{} && |end.picks| == |multiset(end.picks)|;
    if Rounds(wanted, start).ungraded == [] {
      GradedInOrder(wanted, start);
    }
  }

  // ---- The loop over criteria and item indices ----

  /** The items whose index is not in `used`, in order. */
  function Unused<T>(items: seq<T>, used: set<nat>): (pool: seq<T>)
    decreases |items|
  {
    if items == [] then []
    else
      var last := |items| - 1;
      if last in used then Unused(items[..last], used)
      else Unused(items[..last], used) + [items[last]]
  }

  /** Using up item `m` removes exactly that item from the pool, at the place
      where the items before it leave off. */
  lemma {:induction false} UnusedStep<T>(items: seq<T>, used: set<nat>, m: nat)
    requires m < |items| && m !in used
    ensures var pool, before := Unused(items, used), Unused(items[..m], used);
            && before + [items[m]] <= pool
            && Unused(items, used + {m}) == Remove(pool, |before|)
  {
    var last := |items| - 1;
    if m == last {
      UnusedFrame(items[..last], used, m);
    } else {
      UnusedStep(items[..last], used, m);
      assert items[..last][..m] == items[..m];
    }
  }

  lemma {:induction false} UnusedFrame<T>(items: seq<T>, used: set<nat>, m: nat)
    requires |items| <= m
    ensures Unused(items, used + {m}) == Unused(items, used)
  {
    if items != [] {
      UnusedFrame(items[..|items| - 1], used, m);
    }
  }

  lemma {:induction false} UnusedAll<T>(items: seq<T>)
    ensures Unused(items, {}) == items
  {
    if items != [] {
      UnusedAll(items[..|items| - 1]);
    }
  }

  lemma {:induction false} FirstFitPrefix<T>(accepts: T -> bool, before: seq<T>, pool: seq<T>)
    requires before <= pool && FirstFit(accepts, before) == None
    ensures |before| < |pool| && accepts(pool[|before|]) ==> FirstFit(accepts, pool) == Some(|before|)
  {
    if before != [] {
      FirstFitPrefix(accepts, before[1..], pool[1..]);
    }
  }

  lemma {:induction false} FirstFitAppend<T>(accepts: T -> bool, pool: seq<T>, x: T)
    requires FirstFit(accepts, pool) == None && !accepts(x)
    ensures FirstFit(accepts, pool + [x]) == None
  {
    if pool != [] {
      assert (pool + [x])[1..] == pool[1..] + [x];
      FirstFitAppend(accepts, pool[1..], x);
    }
  }

  /** The inner search: the first unused index that the pass accepts. */
  method FindUnused<T>(accepts: T -> bool, items: seq<T>, used: set<nat>) returns (found: Option<nat>)
    ensures found.Some? ==> found.value < |items| && found.value !in used
    ensures FirstFit(accepts, Unused(items, used)) == PlaceOf(items, used, found)
  {
    for index := 0 to |items|
      invariant FirstFit(accepts, Unused(items[..index], used)) == None
    {
      assert items[..index + 1][..index] == items[..index];
      if index !in used {
        if accepts(items[index]) {
          UnusedStep(items, used, index);
          FirstFitPrefix(accepts, Unused(items[..index], used), Unused(items, used));
          return Some(index);
        }
        FirstFitAppend(accepts, Unused(items[..index], used), items[index]);
      }
    }
    assert items[..|items|] == items;
    return None;
  }

  /** Where the item at an index stands in the pool. */
  function PlaceOf<T>(items: seq<T>, used: set<nat>, found: Option<nat>): Option<nat>
    requires found.Some? ==> found.value < |items|
  {
    match found
    case None => None
    case Some(m) => Some(|Unused(items[..m], used)|)
  }

  /** The exact search first, then the prefix search. */
  method FindMatch(needle: string, items: seq<Item>, used: set<nat>) returns (found: Option<nat>)
    ensures found.Some? ==> found.value < |items| && found.value !in used
    ensures Pick(needle, Unused(items, used)) == PlaceOf(items, used, found)
  {
    hide ExactText, CloseText, Unused, FirstFit;
    found := FindUnused(ExactText(needle), items, used);
    if found.None? {
      found := FindUnused(CloseText(needle), items, used);
    }
  }

  /** What a round does, in terms of the index found. */
  lemma RoundFound(s: State, criterion: string, items: seq<Item>, used: set<nat>, m: nat)
    requires m < |items| && m !in used && s.pool == Unused(items, used)
    requires Pick(Norm(criterion), s.pool) == PlaceOf(items, used, Some(m))
    ensures Round(s, criterion)
            == State(Unused(items, used + {m}), s.picks + [items[m]], s.graded + [criterion], s.ungraded,
                     if items[m].Passes() then s.failing else s.failing + [criterion])
  {
    hide Norm, Pick, Unused, Upper, Strip;
    UnusedStep(items, used, m);
    var before := Unused(items[..m], used);
    assert (before + [items[m]])[|before|] == items[m];
  }

  /** Match the criteria against the verdict's items, one item per criterion. */
  method CheckCoverage(items: seq<Item>, criteria: seq<string>) returns (c: Coverage)
    ensures c == CoverageFor(items, criteria)
  {
    hide Norm, Wanted, Pick, Unused, Upper, Strip;
    var wanted := Wanted(criteria);
    var used: set<nat> := {};
    var graded: seq<string>, ungraded: seq<string>, failing: seq<string> := [], [], [];
    ghost var picks: seq<Item> := [];
    UnusedAll(items);
    for k := 0 to |wanted|
      invariant Rounds(wanted[k..], State(Unused(items, used), picks, graded, ungraded, failing))
             == Rounds(wanted, Start(items))
    {
      var criterion := wanted[k];
      ghost var s := State(Unused(items, used), picks, graded, ungraded, failing);
      var found := FindMatch(Norm(criterion), items, used);
      assert wanted[k..][1..] == wanted[k + 1..];
      if found.None? {
        ungraded := ungraded + [criterion];
        continue;
      }
      RoundFound(s, criterion, items, used, found.value);
      used := used + {found.value};
      picks := picks + [items[found.value]];
      graded := graded + [criterion];
      if !items[found.value].Passes() {
        failing := failing + [criterion];
      }
    }
    c := Coverage(wanted, graded, ungraded, failing);
  }
}
