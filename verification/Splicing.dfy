/** Replacing spans of a text from the right, with the offsets of the original
    text. (engine/data_protection.py, _apply_redactions) */
module Splicing {
  import opened Text

  /** Put `text` where the original text has [start, end). */
  datatype Patch = Patch(start: nat, end: nat, text: string)

  function Take(s: string, n: nat): string { if n < |s| then s[..n] else s }

  function Drop(s: string, n: nat): string { if n < |s| then s[n..] else "" }

  /** A stable descending sort: `p` goes behind every patch starting no earlier. */
  function Insert(p: Patch, ps: seq<Patch>): (r: seq<Patch>)
    ensures |r| == |ps| + 1
    decreases |ps|
  {
    if ps == [] then [p]
    else if p.start > ps[0].start then [p] + ps
    else [ps[0]] + Insert(p, ps[1..])
  }

  function LatestFirst(ps: seq<Patch>): (r: seq<Patch>)
    ensures |r| == |ps|
    decreases |ps|
  {
    if ps == [] then [] else Insert(ps[|ps| - 1], LatestFirst(ps[..|ps| - 1]))
  }

  /** Apply the patches one after the other, each to the output so far. */
  function Splice(output: string, ps: seq<Patch>): string
    decreases |ps|
  {
    if ps == [] then output
    else Splice(Take(output, ps[0].start) + ps[0].text + Drop(output, ps[0].end), ps[1..])
  }

  /** One pass over the original text: the gaps as they are, the spans replaced.
      `ps` is latest first; the pass ends at `limit`. */
  function Weave(text: string, ps: seq<Patch>, limit: nat): string
    requires limit <= |text| && Below(ps, limit)
    decreases |ps|
  {
    if ps == [] then text[..limit]
    else Weave(text, ps[1..], ps[0].start) + ps[0].text + text[ps[0].end..limit]
  }

  /** Latest first and disjoint, all before `limit`. */
  predicate Below(ps: seq<Patch>, limit: nat)
    decreases |ps|
  {
    ps == [] || (ps[0].start < ps[0].end <= limit && Below(ps[1..], ps[0].start))
  }

  predicate Apart(p: Patch, q: Patch) {
    p.end <= q.start || q.end <= p.start
  }

  /** Non-empty spans of a text of length `n`, no two of which overlap. */
  predicate Disjoint(ps: seq<Patch>, n: nat) {
    && (forall i :: 0 <= i < |ps| ==> ps[i].start < ps[i].end <= n)
    && (forall i, j :: 0 <= i < j < |ps| ==> Apart(ps[i], ps[j]))
  }

  predicate Inside(ps: seq<Patch>, p: nat) {
    exists i :: 0 <= i < |ps| && ps[i].start <= p < ps[i].end
  }

  /** How far the patches that end by `p` move what follows them. */
  function Shift(ps: seq<Patch>, p: nat): int
    decreases |ps|
  {
    if ps == [] then 0 else Moves(ps[0], p) + Shift(ps[1..], p)
  }

  function Moves(q: Patch, p: nat): int {
    if q.end <= p then |q.text| - (q.end - q.start) else 0
  }

  // ---- The sort ----

  lemma {:induction false} InsertElements(p: Patch, ps: seq<Patch>)
    ensures multiset(Insert(p, ps)) == multiset(ps) + multiset{p}
    decreases |ps|
  {
    if ps != [] {
      assert ps == [ps[0]] + ps[1..];
      if p.start <= ps[0].start {
        InsertElements(p, ps[1..]);
      }
    }
  }

  lemma {:induction false} LatestFirstElements(ps: seq<Patch>)
    ensures multiset(LatestFirst(ps)) == multiset(ps)
    decreases |ps|
  {
    if ps != [] {
      var n := |ps| - 1;
      assert ps == ps[..n] + [ps[n]];
      LatestFirstElements(ps[..n]);
      InsertElements(ps[n], LatestFirst(ps[..n]));
    }
  }

  lemma {:induction false} InsertKeepsBelow(p: Patch, ps: seq<Patch>, limit: nat)
    requires Below(ps, limit) && p.start < p.end <= limit
    requires forall q :: q in ps ==> Apart(p, q)
    ensures Below(Insert(p, ps), limit)
    decreases |ps|
  {
    if ps != [] {
      assert ps[0] in ps && Apart(p, ps[0]);
      if p.start > ps[0].start {
        assert ([p] + ps)[1..] == ps;
      } else {
        forall q | q in ps[1..] ensures Apart(p, q) { assert q in ps; }
        InsertKeepsBelow(p, ps[1..], ps[0].start);
        assert ([ps[0]] + Insert(p, ps[1..]))[1..] == Insert(p, ps[1..]);
      }
    }
  }

  /** Disjoint spans, sorted, lie one below the other. */
  lemma {:induction false} SortedBelow(ps: seq<Patch>, limit: nat)
    requires Disjoint(ps, limit)
    ensures Below(LatestFirst(ps), limit)
    decreases |ps|
  {
    if ps != [] {
      var n := |ps| - 1;
      SortedBelow(ps[..n], limit);
      var rest := LatestFirst(ps[..n]);
      forall q | q in rest ensures Apart(ps[n], q) {
        LatestFirstElements(ps[..n]);
        assert q in multiset(rest);
        assert q in ps[..n];
      }
      InsertKeepsBelow(ps[n], rest, limit);
    }
  }

  lemma {:induction false} InsertShift(p: Patch, ps: seq<Patch>, at: nat)
    ensures Shift(Insert(p, ps), at) == Moves(p, at) + Shift(ps, at)
    decreases |ps|
  {
    hide Moves;
    if ps == [] || p.start > ps[0].start {
      assert ([p] + ps)[1..] == ps;
    } else {
      InsertShift(p, ps[1..], at);
      assert ([ps[0]] + Insert(p, ps[1..]))[1..] == Insert(p, ps[1..]);
    }
  }

  lemma {:induction false} ShiftAppend(ps: seq<Patch>, p: Patch, at: nat)
    ensures Shift(ps + [p], at) == Shift(ps, at) + Moves(p, at)
    decreases |ps|
  {
    hide Moves;
    if ps == [] {
      assert Shift([p], at) == Moves(p, at) + Shift([], at);
    } else {
      assert (ps + [p])[1..] == ps[1..] + [p];
      ShiftAppend(ps[1..], p, at);
    }
  }

  lemma {:induction false} SortedShift(ps: seq<Patch>, at: nat)
    ensures Shift(LatestFirst(ps), at) == Shift(ps, at)
    decreases |ps|
  {
    if ps != [] {
      var n := |ps| - 1;
      SortedShift(ps[..n], at);
      InsertShift(ps[n], LatestFirst(ps[..n]), at);
      ShiftAppend(ps[..n], ps[n], at);
      assert ps[..n] + [ps[n]] == ps;
    }
  }

  // ---- Splicing from the right is one pass ----

  lemma SpliceStep(text: string, tail: string, p: Patch, limit: nat)
    requires p.start < p.end <= limit <= |text|
    ensures Take(text[..limit] + tail, p.start) + p.text + Drop(text[..limit] + tail, p.end)
            == text[..p.start] + (p.text + text[p.end..limit] + tail)
  {
    var out := text[..limit] + tail;
    assert Take(out, p.start) == text[..p.start];
    assert Drop(out, p.end) == text[p.end..limit] + tail;
  }

  lemma {:induction false} SpliceIsWeaveFrom(text: string, tail: string, ps: seq<Patch>, limit: nat)
    requires limit <= |text| && Below(ps, limit)
    ensures Splice(text[..limit] + tail, ps) == Weave(text, ps, limit) + tail
    decreases |ps|
  {
    if ps != [] {
      var p := ps[0];
      SpliceStep(text, tail, p, limit);
      SpliceIsWeaveFrom(text, p.text + text[p.end..limit] + tail, ps[1..], p.start);
    }
  }

  /** Splicing from the right with the original offsets is one left-to-right pass. */
  lemma SpliceIsWeave(text: string, ps: seq<Patch>)
    requires Disjoint(ps, |text|)
    ensures Below(LatestFirst(ps), |text|)
    ensures Splice(text, LatestFirst(ps)) == Weave(text, LatestFirst(ps), |text|)
  {
    SortedBelow(ps, |text|);
    assert text[..|text|] + "" == text;
    SpliceIsWeaveFrom(text, "", LatestFirst(ps), |text|);
  }

  // ---- Where everything goes ----

  lemma {:induction false} BelowEnds(ps: seq<Patch>, limit: nat, q: Patch)
    requires Below(ps, limit) && q in ps
    ensures q.start < q.end <= limit
    decreases |ps|
  {
    if q != ps[0] {
      BelowEnds(ps[1..], ps[0].start, q);
    }
  }

  /** Everything of the original text before `limit` is either kept or replaced. */
  lemma {:induction false} WeaveLength(text: string, ps: seq<Patch>, limit: nat, at: nat)
    requires limit <= |text| && Below(ps, limit) && limit <= at
    ensures |Weave(text, ps, limit)| == limit + Shift(ps, at)
    decreases |ps|
  {
    if ps != [] {
      WeaveLength(text, ps[1..], ps[0].start, at);
    }
  }

  /** A character outside the spans is kept, moved by the spans before it. */
  lemma {:induction false} WeaveKeeps(text: string, ps: seq<Patch>, limit: nat, p: nat)
    requires limit <= |text| && Below(ps, limit) && p < limit && !Inside(ps, p)
    ensures 0 <= p + Shift(ps, p) < |Weave(text, ps, limit)|
    ensures Weave(text, ps, limit)[p + Shift(ps, p)] == text[p]
    decreases |ps|
  {
    if ps != [] {
      assert !(ps[0].start <= p < ps[0].end);
      forall i | 0 <= i < |ps[1..]| ensures !(ps[1..][i].start <= p < ps[1..][i].end) {
        assert ps[1..][i] == ps[i + 1];
      }
      if p < ps[0].start {
        WeaveKeeps(text, ps[1..], ps[0].start, p);
      } else {
        WeaveLength(text, ps[1..], ps[0].start, p);
      }
    }
  }

  /** A span's replacement stands where the spans before it moved it. */
  lemma {:induction false} WeavePlaces(text: string, ps: seq<Patch>, limit: nat, q: Patch)
    requires limit <= |text| && Below(ps, limit) && q in ps
    ensures 0 <= q.start + Shift(ps, q.start)
    ensures q.start + Shift(ps, q.start) + |q.text| <= |Weave(text, ps, limit)|
    ensures Weave(text, ps, limit)[q.start + Shift(ps, q.start)..][..|q.text|] == q.text
    decreases |ps|
  {
    var rest := Weave(text, ps[1..], ps[0].start);
    if q == ps[0] {
      WeaveLength(text, ps[1..], ps[0].start, q.start);
      assert Weave(text, ps, limit) == rest + q.text + text[q.end..limit];
    } else {
      BelowEnds(ps[1..], ps[0].start, q);
      WeavePlaces(text, ps[1..], ps[0].start, q);
      var from := q.start + Shift(ps[1..], q.start);
      assert (rest + ps[0].text + text[ps[0].end..limit])[from..][..|q.text|] == rest[from..][..|q.text|];
    }
  }

  lemma InsideSame(ps: seq<Patch>, qs: seq<Patch>, p: nat)
    requires multiset(ps) == multiset(qs)
    ensures Inside(ps, p) ==> Inside(qs, p)
  {
    if i :| 0 <= i < |ps| && ps[i].start <= p < ps[i].end {
      assert ps[i] in multiset(ps);
      assert ps[i] in multiset(qs);
      var j :| 0 <= j < |qs| && qs[j] == ps[i];
    }
  }

  lemma InsideSorted(ps: seq<Patch>, p: nat)
    ensures Inside(LatestFirst(ps), p) <==> Inside(ps, p)
  {
    LatestFirstElements(ps);
    InsideSame(ps, LatestFirst(ps), p);
    InsideSame(LatestFirst(ps), ps, p);
  }

  /** The character at `o` of the result is a kept character. */
  ghost predicate FromGap(ps: seq<Patch>, limit: nat, o: nat) {
    exists p: nat :: p < limit && !Inside(ps, p) && o == p + Shift(ps, p)
  }

  /** The character at `o` of the result belongs to a replacement. */
  ghost predicate FromPatch(ps: seq<Patch>, o: nat) {
    exists q :: q in ps && Stands(ps, q, o)
  }

  predicate Stands(ps: seq<Patch>, q: Patch, o: nat) {
    q.start + Shift(ps, q.start) <= o < q.start + Shift(ps, q.start) + |q.text|
  }

  lemma {:induction false} InsideEnds(ps: seq<Patch>, limit: nat, p: nat)
    requires Below(ps, limit) && p >= limit
    ensures !Inside(ps, p)
  {
    forall i | 0 <= i < |ps| ensures p >= ps[i].end {
      BelowEnds(ps, limit, ps[i]);
    }
  }

  lemma InsideCons(ps: seq<Patch>, p: nat)
    requires ps != []
    ensures Inside(ps, p) <==> ps[0].start <= p < ps[0].end || Inside(ps[1..], p)
  {
    assert forall i :: 0 <= i < |ps[1..]| ==> ps[1..][i] == ps[i + 1];
    assert forall i :: 0 < i < |ps| ==> ps[i] == ps[1..][i - 1];
  }

  /** Nothing of a span survives: each character of the pass is a kept one or
      belongs to a replacement. */
  lemma {:induction false} WeaveCovers(text: string, ps: seq<Patch>, limit: nat, o: nat)
    requires limit <= |text| && Below(ps, limit) && o < |Weave(text, ps, limit)|
    ensures FromGap(ps, limit, o) || FromPatch(ps, o)
    decreases |ps|
  {
    hide Inside;
    if ps == [] {
      assert !Inside(ps, o) by { InsideEnds(ps, 0, o); }
      assert o == o + Shift(ps, o);
    } else {
      var f, rest := ps[0], Weave(text, ps[1..], ps[0].start);
      if o < |rest| {
        WeaveCovers(text, ps[1..], f.start, o);
        CoversCons(ps, limit, o);
      } else if o < |rest| + |f.text| {
        WeaveLength(text, ps[1..], f.start, f.start);
        assert Stands(ps, f, o);
      } else {
        var p: nat := f.end + (o - |rest| - |f.text|);
        WeaveLength(text, ps[1..], f.start, p);
        InsideCons(ps, p);
        InsideEnds(ps[1..], f.start, p);
        assert o == p + Shift(ps, p);
      }
    }
  }

  lemma CoversCons(ps: seq<Patch>, limit: nat, o: nat)
    requires ps != [] && Below(ps, limit)
    requires FromGap(ps[1..], ps[0].start, o) || FromPatch(ps[1..], o)
    ensures FromGap(ps, limit, o) || FromPatch(ps, o)
  {
    hide Inside;
    if p: nat :| p < ps[0].start && !Inside(ps[1..], p) && o == p + Shift(ps[1..], p) {
      InsideCons(ps, p);
      assert o == p + Shift(ps, p);
    } else {
      var q :| q in ps[1..] && Stands(ps[1..], q, o);
      BelowEnds(ps[1..], ps[0].start, q);
      assert q in ps && Stands(ps, q, o);
    }
  }

  lemma CoversSorted(ps: seq<Patch>, limit: nat, o: nat)
    requires FromGap(LatestFirst(ps), limit, o) || FromPatch(LatestFirst(ps), o)
    ensures FromGap(ps, limit, o) || FromPatch(ps, o)
  {
    hide Inside, Shift;
    var sorted := LatestFirst(ps);
    if p: nat :| p < limit && !Inside(sorted, p) && o == p + Shift(sorted, p) {
      InsideSorted(ps, p);
      SortedShift(ps, p);
    } else {
      var q :| q in sorted && Stands(sorted, q, o);
      SortedShift(ps, q.start);
      LatestFirstElements(ps);
      assert q in multiset(sorted);
      assert q in multiset(ps);
      assert q in ps && Stands(ps, q, o);
    }
  }

  /** The whole layout of the result, whatever the order the patches came in: its
      length is conserved, every character outside the spans survives in place, every
      span has become exactly its replacement, and there is nothing else. */
  lemma SpliceLayout(text: string, ps: seq<Patch>)
    requires Disjoint(ps, |text|)
    ensures var out := Splice(text, LatestFirst(ps));
            && |out| == |text| + Shift(ps, |text|)
            && (forall p: nat :: p < |text| && !Inside(ps, p) ==> KeptAt(out, text, ps, p))
            && (forall q :: q in ps ==> PlacedAt(out, ps, q))
            && (forall o: nat :: o < |out| ==> FromGap(ps, |text|, o) || FromPatch(ps, o))
  {
    hide Inside, Shift, Disjoint, Weave, Splice, LatestFirst, Below, FromGap, FromPatch;
    var sorted := LatestFirst(ps);
    SpliceIsWeave(text, ps);
    WeaveLength(text, sorted, |text|, |text|);
    SortedShift(ps, |text|);
    var out := Splice(text, sorted);
    forall p: nat | p < |text| && !Inside(ps, p) ensures KeptAt(out, text, ps, p) {
      InsideSorted(ps, p);
      WeaveKeeps(text, sorted, |text|, p);
      SortedShift(ps, p);
    }
    forall q | q in ps ensures PlacedAt(out, ps, q) {
      LatestFirstElements(ps);
      assert q in multiset(ps);
      assert q in multiset(sorted);
      WeavePlaces(text, sorted, |text|, q);
      SortedShift(ps, q.start);
    }
    forall o: nat | o < |out| ensures FromGap(ps, |text|, o) || FromPatch(ps, o) {
      WeaveCovers(text, sorted, |text|, o);
      CoversSorted(ps, |text|, o);
    }
  }

  predicate KeptAt(out: string, text: string, ps: seq<Patch>, p: nat)
    requires p < |text|
  {
    0 <= p + Shift(ps, p) < |out| && out[p + Shift(ps, p)] == text[p]
  }

  predicate PlacedAt(out: string, ps: seq<Patch>, q: Patch) {
    var at := q.start + Shift(ps, q.start);
    0 <= at && at + |q.text| <= |out| && out[at..][..|q.text|] == q.text
  }

  // ---- Nested spans ----

  /** What one span around another should leave. */
  function OuterOnly(text: string, outer: Patch): string
    requires outer.start <= outer.end <= |text|
  {
    text[..outer.start] + outer.text + text[outer.end..]
  }

  /** Findings are reported by start, then by end. */
  function AsReported(outer: Patch, inner: Patch): seq<Patch> {
    if outer.start < inner.start then [outer, inner] else [inner, outer]
  }

  /** A span nested in another disturbs it, because the inner replacement moves the
      outer end: only a replacement of the inner span's own length is harmless, or a
      shorter one when nothing follows. */
  lemma NestedIsHarmlessIff(text: string, outer: Patch, inner: Patch)
    requires outer.start <= inner.start < inner.end <= outer.end <= |text|
    ensures Splice(text, LatestFirst(AsReported(outer, inner))) == OuterOnly(text, outer)
            <==> var gap := inner.end - inner.start;
                 |inner.text| == gap || (|inner.text| < gap && outer.end == |text|)
  {
    hide Splice, LatestFirst, AsReported;
    NestedOrder(outer, inner);
    var once := text[..inner.start] + inner.text + text[inner.end..];
    NestedSplice(text, outer, inner);
    assert Take(once, outer.start) == text[..outer.start];
    var want, got := text[outer.end..], Drop(once, outer.end);
    var gap := inner.end - inner.start;
    assert |once| == |text| + |inner.text| - gap;
    if |inner.text| == gap {
      assert got == want;
    }
    SamePrefix(text[..outer.start] + outer.text, got, want);
  }

  lemma SamePrefix(a: string, x: string, y: string)
    ensures a + x == a + y <==> x == y
  {
    assert (a + x)[|a|..] == x && (a + y)[|a|..] == y;
  }

  lemma NestedOrder(outer: Patch, inner: Patch)
    requires outer.start <= inner.start
    ensures LatestFirst(AsReported(outer, inner)) == [inner, outer]
  {
    var ps := AsReported(outer, inner);
    assert ps[..1] == [ps[0]] && [ps[0]][..0] == [] && LatestFirst([]) == [];
    assert LatestFirst([ps[0]]) == [ps[0]];
    assert LatestFirst(ps) == Insert(ps[1], [ps[0]]);
    assert [inner][1..] == [];
    assert Insert(outer, []) == [outer];
  }

  lemma NestedSplice(text: string, outer: Patch, inner: Patch)
    requires outer.start <= inner.start < inner.end <= |text|
    ensures var once := text[..inner.start] + inner.text + text[inner.end..];
            Splice(text, [inner, outer]) == Take(once, outer.start) + outer.text + Drop(once, outer.end)
  {
    var once := text[..inner.start] + inner.text + text[inner.end..];
    assert Take(text, inner.start) + inner.text + Drop(text, inner.end) == once;
    assert [inner, outer][1..] == [outer];
    var twice := Take(once, outer.start) + outer.text + Drop(once, outer.end);
    assert [outer][1..] == [];
    assert Splice(once, [outer]) == Splice(twice, []);
  }

  // ---- Which characters the result still shows ----

  /** Another character at `p` gives another result. */
  predicate Changes(text: string, ps: seq<Patch>, p: nat, c: char)
    requires p < |text|
  {
    Splice(text[p := c], LatestFirst(ps)) != Splice(text, LatestFirst(ps))
  }

  /** The result depends on the character at `p`. */
  ghost predicate Reveals(text: string, ps: seq<Patch>, p: nat)
    requires p < |text|
  {
    exists c: char :: Changes(text, ps, p, c)
  }

  function Another(c: char): (d: char)
    ensures d != c
  {
    if c == 'a' then 'b' else 'a'
  }

  /** Rewriting a character in a span, or past the limit, changes nothing in the pass. */
  lemma {:induction false} WeaveIgnores(text: string, ps: seq<Patch>, limit: nat, p: nat, c: char)
    requires limit <= |text| && Below(ps, limit) && p < |text| && (Inside(ps, p) || p >= limit)
    ensures Weave(text[p := c], ps, limit) == Weave(text, ps, limit)
    decreases |ps|
  {
    hide Inside;
    if ps != [] {
      InsideCons(ps, p);
      if p >= ps[0].end {
        InsideEnds(ps[1..], ps[0].start, p);
      }
      WeaveIgnores(text, ps[1..], ps[0].start, p, c);
      assert text[p := c][ps[0].end..limit] == text[ps[0].end..limit];
    } else {
      assert !Inside(ps, p) by { InsideEnds(ps, 0, p); }
      assert text[p := c][..limit] == text[..limit];
    }
  }

  /** For separate spans the result shows exactly the characters outside them: nothing of
      a replaced value survives. */
  lemma SeparateRevealsIff(text: string, ps: seq<Patch>, p: nat)
    requires Disjoint(ps, |text|) && p < |text|
    ensures Reveals(text, ps, p) <==> !Inside(ps, p)
  {
    hide Inside, Weave, Splice, LatestFirst, Shift, Below;
    var sorted := LatestFirst(ps);
    InsideSorted(ps, p);
    SpliceIsWeave(text, ps);
    if Inside(ps, p) {
      forall c: char ensures !Changes(text, ps, p, c) {
        SpliceIsWeave(text[p := c], ps);
        WeaveIgnores(text, sorted, |text|, p, c);
      }
    } else {
      var c := Another(text[p]);
      SpliceIsWeave(text[p := c], ps);
      WeaveKeeps(text, sorted, |text|, p);
      WeaveKeeps(text[p := c], sorted, |text|, p);
      assert Changes(text, ps, p, c);
    }
  }

  // ---- Any number of spans, however they overlap ----

  predicate Spans(ps: seq<Patch>) {
    forall q :: q in ps ==> q.start <= q.end
  }

  /** Where replacing `q` leaves the character at `at`, if it leaves it at all. */
  function Follow(q: Patch, at: nat): Option<nat>
    requires q.start <= q.end
  {
    if at < q.start then Some(at)
    else if at < q.end then None
    else Some(at - q.end + q.start + |q.text|)
  }

  /** Where the character at `at` is left once all of `ps` are replaced, one after the
      other. Only the spans and the lengths of the replacements matter. */
  function Track(ps: seq<Patch>, at: nat): Option<nat>
    requires Spans(ps)
    decreases |ps|
  {
    if ps == [] then Some(at)
    else
      assert ps[0] in ps;
      assert Spans(ps[1..]) by { SpansRest(ps); }
      match Follow(ps[0], at)
      case None => None
      case Some(next) => Track(ps[1..], next)
  }

  lemma SpansRest(ps: seq<Patch>)
    requires Spans(ps) && ps != []
    ensures ps[0].start <= ps[0].end && Spans(ps[1..])
  {
    assert ps[0] in ps;
    assert forall q :: q in ps[1..] ==> q in ps;
  }

  lemma FollowShows(s: string, q: Patch, at: nat, c: char)
    requires q.start <= q.end && at < |s|
    ensures var out := Take(s, q.start) + q.text + Drop(s, q.end);
            var out' := Take(s[at := c], q.start) + q.text + Drop(s[at := c], q.end);
            match Follow(q, at)
            case None => out' == out
            case Some(next) => next < |out| && out[next] == s[at] && out' == out[next := c]
  {
    var out := Take(s, q.start) + q.text + Drop(s, q.end);
    var out' := Take(s[at := c], q.start) + q.text + Drop(s[at := c], q.end);
    assert Take(s[at := c], q.start) == if at < q.start then Take(s, q.start)[at := c] else Take(s, q.start);
    assert Drop(s[at := c], q.end) == if at < q.end then Drop(s, q.end) else Drop(s, q.end)[at - q.end := c];
    if at >= q.end {
      var front := Take(s, q.start) + q.text;
      assert |front| == q.start + |q.text|;
      assert out' == out[|front| + at - q.end := c];
    }
  }

  /** A character that is tracked to a place stands there, and nowhere else; one that is
      not has no part in the result. */
  lemma {:induction false} TrackShows(s: string, ps: seq<Patch>, at: nat, c: char)
    requires Spans(ps) && at < |s|
    ensures match Track(ps, at)
            case None => Splice(s[at := c], ps) == Splice(s, ps)
            case Some(o) =>
              o < |Splice(s, ps)| && Splice(s, ps)[o] == s[at] && Splice(s[at := c], ps) == Splice(s, ps)[o := c]
    decreases |ps|
  {
    hide Take, Drop, Follow, Spans;
    if ps != [] {
      SpansRest(ps);
      var q := ps[0];
      FollowShows(s, q, at, c);
      if Follow(q, at).Some? {
        TrackShows(Take(s, q.start) + q.text + Drop(s, q.end), ps[1..], Follow(q, at).value, c);
      }
    }
  }

  lemma SortedSpans(ps: seq<Patch>)
    requires Spans(ps)
    ensures Spans(LatestFirst(ps))
  {
    LatestFirstElements(ps);
    forall q | q in LatestFirst(ps) ensures q in ps {
      assert q in multiset(LatestFirst(ps));
    }
  }

  /** Where the character at `p` is left by the whole list, latest start first. */
  function Left(ps: seq<Patch>, p: nat): Option<nat>
    requires Spans(ps)
  {
    SortedSpans(ps);
    Track(LatestFirst(ps), p)
  }

  /** However the spans overlap, the result depends on exactly the characters that are
      left somewhere, and shows each of them there. */
  lemma RevealsIff(text: string, ps: seq<Patch>, p: nat)
    requires Spans(ps) && p < |text|
    ensures Reveals(text, ps, p) <==> Left(ps, p).Some?
    ensures Left(ps, p).Some? ==>
              var out := Splice(text, LatestFirst(ps));
              Left(ps, p).value < |out| && out[Left(ps, p).value] == text[p]
  {
    hide Splice, Track, LatestFirst, Spans;
    SortedSpans(ps);
    var sorted := LatestFirst(ps);
    var d := Another(text[p]);
    TrackShows(text, sorted, p, d);
    if Track(sorted, p).Some? {
      var o := Track(sorted, p).value;
      assert Splice(text, sorted)[o := d][o] == d;
      assert Changes(text, ps, p, d);
    } else {
      forall c: char ensures !Changes(text, ps, p, c) {
        TrackShows(text, sorted, p, c);
      }
    }
  }

  // ---- Replacements that are no longer than their spans hide everything ----

  /** No span starts later than one before it. */
  predicate Descending(ps: seq<Patch>) {
    forall i, j :: 0 <= i < j < |ps| ==> ps[i].start >= ps[j].start
  }

  /** What starts no earlier than anything there stays in front of an insertion too. */
  lemma InsertBounded(p: Patch, ps: seq<Patch>, start: nat)
    requires p.start <= start && forall q :: q in ps ==> q.start <= start
    ensures forall q :: q in Insert(p, ps) ==> q.start <= start
  {
    InsertElements(p, ps);
    forall q | q in Insert(p, ps) ensures q.start <= start {
      assert q in multiset(Insert(p, ps));
    }
  }

  lemma {:induction false} InsertDescending(p: Patch, ps: seq<Patch>)
    requires Descending(ps)
    ensures Descending(Insert(p, ps))
    decreases |ps|
  {
    if ps != [] && p.start <= ps[0].start {
      InsertDescending(p, ps[1..]);
      InsertBounded(p, ps[1..], ps[0].start);
    }
  }

  lemma {:induction false} SortedDescending(ps: seq<Patch>)
    ensures Descending(LatestFirst(ps))
    decreases |ps|
  {
    if ps != [] {
      SortedDescending(ps[..|ps| - 1]);
      InsertDescending(ps[|ps| - 1], LatestFirst(ps[..|ps| - 1]));
    }
  }

  /** No replacement is longer than what it replaces. */
  predicate NoneLonger(ps: seq<Patch>) {
    forall q :: q in ps ==> |q.text| <= q.end - q.start
  }

  /** A character moves only towards the front, never past the start of the span that
      moves it, so it is still within `q` when its turn comes. */
  lemma {:induction false} NotPast(ps: seq<Patch>, q: Patch, at: nat)
    requires Spans(ps) && Descending(ps) && NoneLonger(ps) && q in ps && q.start <= at < q.end
    ensures Track(ps, at).None?
    decreases |ps|
  {
    SpansRest(ps);
    if at >= ps[0].start && at < ps[0].end {
    } else {
      var next := Follow(ps[0], at).value;
      assert q != ps[0] && q in ps[1..];
      assert ps[0].start >= q.start;
      assert ps[0] in ps && q.start <= next <= at;
      assert Descending(ps[1..]) && NoneLonger(ps[1..]);
      NotPast(ps[1..], q, next);
    }
  }

  /** When no replacement is longer than its span, nothing of any span survives, whatever
      overlaps. */
  lemma ShortReplacementsHide(text: string, ps: seq<Patch>, p: nat)
    requires Spans(ps) && NoneLonger(ps) && Inside(ps, p) && p < |text|
    ensures !Reveals(text, ps, p)
  {
    hide Reveals, Track, LatestFirst, Descending, Spans;
    var sorted := LatestFirst(ps);
    LatestFirstElements(ps);
    SortedSpans(ps);
    SortedDescending(ps);
    forall q ensures q in sorted <==> q in ps {
      assert q in multiset(sorted) <==> q in multiset(ps);
    }
    var i :| 0 <= i < |ps| && ps[i].start <= p < ps[i].end;
    NotPast(sorted, ps[i], p);
    RevealsIff(text, ps, p);
  }

  // ---- Two findings ----

  /** The order in which two overlapping spans are reported: by start, then by end. */
  predicate ReportedFirst(first: Patch, second: Patch) {
    first.start < second.start || (first.start == second.start && second.end <= first.end)
  }

  /** Where two overlapping spans leave the character at `p` in sight: behind the later
      span, and pushed by its replacement to or past the original end of the earlier. */
  predicate InSight(first: Patch, second: Patch, p: nat) {
    second.end <= p && first.end + second.end <= p + |second.text| + second.start
  }

  /** Of two spans alone that overlap, nested or not, the result shows from their start on
      exactly the characters left in sight. */
  lemma OverlapRevealsIff(text: string, first: Patch, second: Patch, p: nat)
    requires ReportedFirst(first, second) && second.start < first.end <= |text|
    requires second.start < second.end <= |text| && first.start <= p < |text|
    ensures Reveals(text, AsReported(first, second), p) <==> InSight(first, second, p)
  {
    hide Reveals, LatestFirst;
    var ps := AsReported(first, second);
    NestedOrder(first, second);
    RevealsIff(text, ps, p);
    TrackTwo(second, first, p);
  }

  lemma TrackTwo(q: Patch, r: Patch, at: nat)
    requires q.start <= q.end && r.start <= r.end
    ensures Spans([q, r])
    ensures Track([q, r], at) == match Follow(q, at) case None => None case Some(next) => Follow(r, next)
  {
    hide Follow;
    assert [q, r][1..] == [r] && [r][1..] == [];
    if Follow(q, at).Some? {
      var next := Follow(q, at).value;
      assert Track([r], next) == Follow(r, next);
    }
  }

  /** Of two nested spans alone, something of the outer survives exactly when the inner
      replacement is longer than what it replaces and does not end where the outer does.
      What survives are the characters behind the inner span, as many before the outer end
      as the replacement is longer. */
  lemma NestedSurvivesIff(text: string, outer: Patch, inner: Patch)
    requires outer.start <= inner.start < inner.end <= outer.end <= |text|
    ensures (exists p: nat :: outer.start <= p < outer.end && Reveals(text, AsReported(outer, inner), p))
            <==> |inner.text| > inner.end - inner.start && inner.end < outer.end
  {
    hide Reveals, AsReported;
    if |inner.text| > inner.end - inner.start && inner.end < outer.end {
      OverlapRevealsIff(text, outer, inner, outer.end - 1);
    } else {
      forall p: nat | outer.start <= p < outer.end ensures !Reveals(text, AsReported(outer, inner), p) {
        OverlapRevealsIff(text, outer, inner, p);
      }
    }
  }

  /** Nothing of two spans alone that overlap without one holding the other survives. */
  lemma StaggeredHides(text: string, first: Patch, second: Patch, p: nat)
    requires first.start < second.start < first.end < second.end <= |text| && first.start <= p < second.end
    ensures !Reveals(text, AsReported(first, second), p)
  {
    hide Reveals, AsReported;
    OverlapRevealsIff(text, first, second, p);
  }
}
