/** How far a counter climbs, read in the order of time or in another order. */
module Climbing {

  function Minus(a: nat, b: nat): nat { if a >= b then a - b else 0 }

  function LastOf(v: seq<nat>): nat { if v == [] then 0 else v[|v| - 1] }

  /** The rises from each value to the next, starting from zero. */
  function Climb(v: seq<nat>): nat
    decreases |v|
  {
    if v == [] then 0
    else var n := |v| - 1; Climb(v[..n]) + Minus(v[n], LastOf(v[..n]))
  }

  /** The values of `c` at the times `t`. */
  function Pick(c: seq<nat>, t: seq<nat>): (v: seq<nat>)
    requires Within(t, |c|)
    ensures |v| == |t|
  {
    seq(|t|, k requires 0 <= k < |t| => c[t[k]])
  }

  predicate Within(t: seq<nat>, n: nat) {
    forall k :: 0 <= k < |t| ==> t[k] < n
  }

  predicate Distinct(t: seq<nat>) {
    forall i, j :: 0 <= i < j < |t| ==> t[i] != t[j]
  }

  predicate Ascending(t: seq<nat>) {
    forall k :: 1 <= k < |t| ==> t[k - 1] < t[k]
  }

  predicate Descending(t: seq<nat>) {
    forall k :: 1 <= k < |t| ==> t[k] < t[k - 1]
  }

  predicate Valley(t: seq<nat>, i: nat, j: nat, k: nat) {
    i < j < k < |t| && t[j] < t[i] && t[j] < t[k]
  }

  predicate Peak(t: seq<nat>, i: nat, j: nat, k: nat) {
    i < j < k < |t| && t[i] < t[j] && t[k] < t[j]
  }

  /** Once it has gone down it never goes up again. */
  ghost predicate NoValley(t: seq<nat>) {
    forall i, j, k :: !Valley(t, i, j, k)
  }

  // ---- Prefixes ----

  lemma ClimbAppend(v: seq<nat>, b: nat)
    ensures Climb(v + [b]) == Climb(v) + Minus(b, LastOf(v))
  {
    assert (v + [b])[..|v|] == v;
  }

  /** From one place to a later one a counter climbs at least by what it has gained. */
  lemma {:induction false} ClimbSegment(c: seq<nat>, a: nat, b: nat)
    requires a <= b <= |c|
    ensures Climb(c[..b]) >= Climb(c[..a]) + Minus(LastOf(c[..b]), LastOf(c[..a]))
    decreases b
  {
    if a < b {
      ClimbSegment(c, a, b - 1);
      assert c[..b] == c[..b - 1] + [c[b - 1]];
      ClimbAppend(c[..b - 1], c[b - 1]);
    }
  }

  lemma ClimbWhole(c: seq<nat>, a: nat)
    requires a <= |c|
    ensures Climb(c) >= Climb(c[..a])
  {
    ClimbSegment(c, a, |c|);
    assert c[..|c|] == c;
  }

  /** A rise to the value at `i` and a later rise from `j` to `k` both count. */
  lemma ClimbTwice(v: seq<nat>, i: nat, j: nat, k: nat)
    requires i < j < k < |v|
    ensures Climb(v) >= v[i] + Minus(v[k], v[j])
  {
    hide Climb;
    ClimbSegment(v, 0, i + 1);
    ClimbSegment(v, i + 1, j + 1);
    ClimbSegment(v, j + 1, k + 1);
    ClimbWhole(v, k + 1);
  }

  // ---- Orders in which the climb is never more ----

  lemma PickAppend(c: seq<nat>, t: seq<nat>, m: nat)
    requires Within(t, |c|) && m < |c|
    ensures Within(t + [m], |c|) && Pick(c, t + [m]) == Pick(c, t) + [c[m]]
  {
  }

  /** Where the last of the times stands, the moment itself included. */
  function Through(t: seq<nat>): nat {
    if t == [] then 0 else t[|t| - 1] + 1
  }

  lemma ThroughLast(c: seq<nat>, t: seq<nat>)
    requires Within(t, |c|)
    ensures Through(t) <= |c| && LastOf(c[..Through(t)]) == LastOf(Pick(c, t))
  {
  }

  lemma ThroughAppend(t: seq<nat>, m: nat)
    requires Ascending(t + [m])
    ensures Ascending(t) && Through(t) <= m
  {
    assert forall k :: 0 <= k < |t| ==> (t + [m])[k] == t[k];
    assert t != [] ==> (t + [m])[|t| - 1] < (t + [m])[|t|];
  }

  /** Values picked in the order of time climb no more than the counter. */
  lemma {:induction false} ClimbInOrder(c: seq<nat>, t: seq<nat>)
    requires Within(t, |c|) && Ascending(t)
    ensures Through(t) <= |c| && Climb(Pick(c, t)) <= Climb(c[..Through(t)])
    decreases |t|
  {
    hide Climb, Pick, Ascending;
    ThroughLast(c, t);
    if t == [] {
      NothingPicked(c);
    } else {
      var n := |t| - 1;
      var before, last := t[..n], t[n];
      assert before + [last] == t;
      ThroughAppend(before, last);
      ClimbInOrder(c, before);
      ThroughLast(c, before);
      PickAppend(c, before, last);
      ClimbAppend(Pick(c, before), c[last]);
      ClimbSegment(c, Through(before), last + 1);
    }
  }

  lemma NothingPicked(c: seq<nat>)
    ensures Climb(Pick(c, [])) == 0
  {
    assert Pick(c, []) == [];
  }

  lemma AscendingClimbs(c: seq<nat>, t: seq<nat>)
    requires Within(t, |c|) && Ascending(t)
    ensures Climb(Pick(c, t)) <= Climb(c)
  {
    hide Climb, Pick, Ascending;
    ClimbInOrder(c, t);
    ClimbWhole(c, Through(t));
  }

  function Reversed(v: seq<nat>): (r: seq<nat>)
    ensures |r| == |v| && forall k :: 0 <= k < |v| ==> r[k] == v[|v| - 1 - k]
  {
    if v == [] then [] else [v[|v| - 1]] + Reversed(v[..|v| - 1])
  }

  lemma {:induction false} ClimbPrepend(a: nat, v: seq<nat>)
    requires v != []
    ensures Climb([a] + v) == Climb(v) + Minus(a, v[0])
    decreases |v|
  {
    var n := |v| - 1;
    assert [a] + v == ([a] + v[..n]) + [v[n]];
    ClimbAppend([a] + v[..n], v[n]);
    assert v == v[..n] + [v[n]];
    ClimbAppend(v[..n], v[n]);
    if n == 0 {
      assert [a] + v[..n] == [] + [a] && v[..n] == [];
      ClimbAppend([], a);
    } else {
      ClimbPrepend(a, v[..n]);
    }
  }

  /** Read backwards, a counter climbs as far. */
  lemma {:induction false} ClimbReversed(v: seq<nat>)
    ensures Climb(Reversed(v)) == Climb(v)
    decreases |v|
  {
    if |v| > 1 {
      var n := |v| - 1;
      ClimbReversed(v[..n]);
      ClimbPrepend(v[n], Reversed(v[..n]));
    } else {
      assert Reversed(v) == v;
    }
  }

  lemma DescendingClimbs(c: seq<nat>, t: seq<nat>)
    requires Within(t, |c|) && Descending(t)
    ensures Climb(Pick(c, t)) <= Climb(c)
  {
    hide Climb;
    var r := Reversed(t);
    assert Ascending(r);
    AscendingClimbs(c, r);
    assert Pick(c, t) == Reversed(Pick(c, r));
    ClimbReversed(Pick(c, r));
  }

  /** Values without a valley climb no further than their highest. */
  lemma {:induction false} ClimbWithoutValley(v: seq<nat>, top: nat)
    requires NoValley(v) && forall k :: 0 <= k < |v| ==> v[k] <= top
    ensures Climb(v) <= top
    decreases |v|
  {
    if |v| > 1 {
      var n := |v| - 1;
      var before := v[..n];
      assert NoValley(before) by {
        forall i: nat, j: nat, k: nat ensures !Valley(before, i, j, k) {
          assert !Valley(v, i, j, k);
        }
      }
      if v[n] > v[n - 1] {
        forall k | 0 <= k < n ensures before[k] <= v[n - 1] {
          assert !Valley(v, k, n - 1, n);
        }
        ClimbWithoutValley(before, v[n - 1]);
      } else {
        ClimbWithoutValley(before, top);
      }
    } else if |v| == 1 {
      assert v[..0] == [] && Climb([]) == 0;
    }
  }

  predicate NeverFalls(c: seq<nat>) {
    forall i, j :: 0 <= i <= j < |c| ==> c[i] <= c[j]
  }

  lemma {:induction false} ClimbNeverFalls(c: seq<nat>)
    requires NeverFalls(c)
    ensures Climb(c) == LastOf(c)
    decreases |c|
  {
    if c != [] {
      ClimbNeverFalls(c[..|c| - 1]);
    }
  }

  lemma PickedValley(c: seq<nat>, t: seq<nat>, i: nat, j: nat, k: nat)
    requires Within(t, |c|) && NeverFalls(c)
    ensures Valley(Pick(c, t), i, j, k) ==> Valley(t, i, j, k)
  {
  }

  /** A counter that never falls climbs no further when picked without a valley. */
  lemma RisingClimbs(c: seq<nat>, t: seq<nat>)
    requires Within(t, |c|) && NoValley(t) && NeverFalls(c)
    ensures Climb(Pick(c, t)) <= Climb(c)
  {
    hide Climb;
    var v := Pick(c, t);
    forall i: nat, j: nat, k: nat ensures !Valley(v, i, j, k) {
      PickedValley(c, t, i, j, k);
    }
    ClimbNeverFalls(c);
    ClimbWithoutValley(v, LastOf(c));
  }

  /** Distinct times that neither ascend nor descend turn somewhere. */
  lemma {:induction false} TurnsSomewhere(t: seq<nat>) returns (i: nat, j: nat, k: nat)
    requires Distinct(t) && !Ascending(t) && !Descending(t)
    ensures Peak(t, i, j, k) || Valley(t, i, j, k)
    decreases |t|
  {
    var n := |t| - 1;
    var before := t[..n];
    if !Ascending(before) && !Descending(before) {
      i, j, k := TurnsSomewhere(before);
    } else {
      i, j, k := n - 2, n - 1, n;
      assert t[n - 2] != t[n - 1] && t[n - 1] != t[n];
      if Ascending(before) {
        assert before[n - 2] < before[n - 1];
      } else {
        assert before[n - 1] < before[n - 2];
      }
    }
  }
}
