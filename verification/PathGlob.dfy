/** The sensitive-path patterns: gitignore-flavoured globs compiled to a search over
    the whole path. (engine/guard_manager.py) */
module PathGlob {
  import opened Text

  const SLASH: char := '/'

  /** A piece of the compiled expression: any run within a segment, one character of a
      segment, that character, or at least one character other than a newline. */
  datatype Token = Star | One | Lit(c: char) | Below

  predicate Matches(ts: seq<Token>, s: string)
    decreases |ts| + |s|
  {
    if ts == [] then s == ""
    else match ts[0]
         case Star => Matches(ts[1..], s) || (s != "" && s[0] != SLASH && Matches(ts, s[1..]))
         case One => s != "" && s[0] != SLASH && Matches(ts[1..], s[1..])
         case Lit(c) => s != "" && s[0] == c && Matches(ts[1..], s[1..])
         case Below => s != "" && s[0] != '\n' && (Matches(ts[1..], s[1..]) || Matches(ts, s[1..]))
  }

  /** The expression is found from the start of the path, or from after a slash, and
      runs to the end. */
  predicate Search(ts: seq<Token>, path: string) {
    exists i :: 0 <= i <= |path| && Begins(path, i) && Matches(ts, path[i..])
  }

  predicate Begins(path: string, i: nat)
    requires i <= |path|
  {
    i == 0 || path[i - 1] == SLASH
  }

  function TokenOf(c: char): Token {
    if c == '*' then Star else if c == '?' then One else Lit(c)
  }

  function SegmentTokens(segment: string): (ts: seq<Token>)
    ensures |ts| == |segment|
  {
    seq(|segment|, i requires 0 <= i < |segment| => TokenOf(segment[i]))
  }

  function PieceTokens(segment: string): seq<Token> {
    if segment == "**" then [Below] else SegmentTokens(segment)
  }

  function Compiled(segments: seq<string>): seq<Token>
    requires segments != []
    decreases |segments|
  {
    if |segments| == 1 then PieceTokens(segments[0])
    else PieceTokens(segments[0]) + [Lit(SLASH)] + Compiled(segments[1..])
  }

  method GlobSegment(segment: string) returns (parts: seq<Token>)
    ensures parts == SegmentTokens(segment)
  {
    parts := [];
    for i := 0 to |segment|
      invariant |parts| == i && forall k :: 0 <= k < i ==> parts[k] == TokenOf(segment[k])
    {
      if segment[i] == '*' {
        parts := parts + [Star];
      } else if segment[i] == '?' {
        parts := parts + [One];
      } else {
        parts := parts + [Lit(segment[i])];
      }
    }
  }

  method CompilePattern(pattern: string) returns (ts: seq<Token>)
    ensures ts == Compiled(Split(pattern, SLASH))
  {
    hide SegmentTokens, Split;
    var segments := Split(pattern, SLASH);
    var n := |segments|;
    var i := n;
    ts := [];
    while i > 0
      invariant 0 <= i <= n
      invariant i < n ==> ts == Compiled(segments[i..])
      invariant i == n ==> ts == []
    {
      i := i - 1;
      var piece;
      if segments[i] == "**" {
        piece := [Below];
      } else {
        piece := GlobSegment(segments[i]);
      }
      assert segments[i..][0] == segments[i] && segments[i..][1..] == segments[i + 1..];
      ts := if i == n - 1 then piece else piece + [Lit(SLASH)] + ts;
    }
    assert segments[0..] == segments;
  }

  /** Leading "./" is dropped, however often it stands there. */
  function WithoutDots(s: string): string {
    if "./" <= s then WithoutDots(s[2..]) else s
  }

  predicate SomePattern(patterns: seq<string>, normalized: string) {
    exists i :: 0 <= i < |patterns| && Search(Compiled(Split(patterns[i], SLASH)), normalized)
  }

  method IsSensitivePath(path: string, patterns: seq<string>) returns (sensitive: bool)
    ensures var normalized := WithoutDots(Strip(path));
            sensitive <==> normalized != "" && SomePattern(patterns, normalized)
  {
    hide Strip, Split, Compiled, Search;
    var normalized := Strip(path);
    while "./" <= normalized
      invariant WithoutDots(normalized) == WithoutDots(Strip(path))
      decreases |normalized|
    {
      normalized := normalized[2..];
    }
    if normalized == "" {
      return false;
    }
    var i := 0;
    while i < |patterns|
      invariant i <= |patterns|
      invariant forall k :: 0 <= k < i ==> !Search(Compiled(Split(patterns[k], SLASH)), normalized)
    {
      var ts := CompilePattern(patterns[i]);
      if Search(ts, normalized) {
        return true;
      }
      i := i + 1;
    }
    sensitive := false;
  }

  // ---- Components ----

  function FirstSlash(s: string): (n: nat)
    ensures n <= |s| && SLASH !in s[..n] && (n < |s| ==> s[n] == SLASH)
  {
    if s == "" || s[0] == SLASH then 0
    else
      assert s[..1 + FirstSlash(s[1..])] == [s[0]] + s[1..][..FirstSlash(s[1..])];
      1 + FirstSlash(s[1..])
  }

  lemma {:induction false} SplitAtSlash(s: string)
    ensures var n := FirstSlash(s);
            Split(s, SLASH) == if n < |s| then [s[..n]] + Split(s[n + 1..], SLASH) else [s]
    decreases |s|
  {
    if s != "" && s[0] != SLASH {
      hide FirstSlash;
      SplitAtSlash(s[1..]);
      FirstSlashStep(s);
      assert [s[0]] + s[1..] == s;
    } else {
      assert FirstSlash(s) == 0 && s[..0] == "";
    }
  }

  /** Segments hold no slash; neither do components. */
  predicate Slashless(ts: seq<Token>) {
    forall i :: 0 <= i < |ts| ==> !ts[i].Below? && ts[i] != Lit(SLASH)
  }

  /** Slashless tokens match only slashless text, so `*` never crosses a slash. */
  lemma {:induction false} MatchesSlashless(ts: seq<Token>, s: string)
    requires Slashless(ts) && Matches(ts, s)
    ensures SLASH !in s
    decreases |ts| + |s|
  {
    if ts != [] {
      assert forall i :: 0 <= i < |ts[1..]| ==> ts[1..][i] == ts[i + 1];
      if ts[0].Star? && Matches(ts[1..], s) {
        MatchesSlashless(ts[1..], s);
      } else {
        assert s == [s[0]] + s[1..];
        MatchesSlashless(if ts[0].Star? then ts else ts[1..], s[1..]);
      }
    }
  }

  lemma FirstSlashStep(s: string)
    requires s != "" && s[0] != SLASH
    ensures FirstSlash(s) == 1 + FirstSlash(s[1..])
    ensures s[..FirstSlash(s)] == [s[0]] + s[1..][..FirstSlash(s[1..])]
    ensures FirstSlash(s) < |s| ==> s[FirstSlash(s) + 1..] == s[1..][FirstSlash(s[1..]) + 1..]
  {
    FirstSlashIs(s);
    hide FirstSlash;
    ShiftedSlices(s, FirstSlash(s[1..]));
  }

  lemma FirstSlashIs(s: string)
    requires s != "" && s[0] != SLASH
    ensures FirstSlash(s) == 1 + FirstSlash(s[1..])
  {
  }

  lemma ShiftedSlices(s: string, n: nat)
    requires n < |s|
    ensures s[..1 + n] == [s[0]] + s[1..][..n]
    ensures 1 + n < |s| ==> s[1 + n + 1..] == s[1..][n + 1..]
  {
  }

  lemma MatchesStar(ts: seq<Token>, s: string)
    requires ts != [] && ts[0].Star?
    ensures Matches(ts, s) <==> Matches(ts[1..], s) || (s != "" && s[0] != SLASH && Matches(ts, s[1..]))
  {
  }

  lemma MatchesOther(ts: seq<Token>, s: string)
    requires ts != [] && (ts[0].One? || ts[0].Lit?)
    ensures Matches(ts, s)
            <==> s != "" && (if ts[0].One? then s[0] != SLASH else s[0] == ts[0].c) && Matches(ts[1..], s[1..])
  {
  }

  function Then(a: seq<Token>, rest: seq<Token>): seq<Token> {
    a + [Lit(SLASH)] + rest
  }

  lemma ThenTail(a: seq<Token>, rest: seq<Token>)
    requires a != []
    ensures Then(a, rest) != [] && Then(a, rest)[0] == a[0] && Then(a, rest)[1..] == Then(a[1..], rest)
  {
  }

  /** Where a segment, a slash and the rest match: at the first slash and nowhere else. */
  predicate Cut(a: seq<Token>, rest: seq<Token>, s: string) {
    var n := FirstSlash(s);
    n < |s| && Matches(a, s[..n]) && Matches(rest, s[n + 1..])
  }

  lemma CutStep(a: seq<Token>, rest: seq<Token>, s: string)
    requires a != [] && (a[0].One? || (a[0].Lit? && a[0].c != SLASH))
    ensures Cut(a, rest, s)
            <==> s != "" && (if a[0].One? then s[0] != SLASH else s[0] == a[0].c) && Cut(a[1..], rest, s[1..])
  {
    hide Matches;
    var n := FirstSlash(s);
    if s != "" && s[0] != SLASH {
      FirstSlashStep(s);
      MatchesOther(a, s[..n]);
      assert s[..n][1..] == s[1..][..n - 1];
    } else {
      MatchesOther(a, s[..n]);
    }
  }

  lemma CutStar(a: seq<Token>, rest: seq<Token>, s: string)
    requires a != [] && a[0].Star?
    ensures Cut(a, rest, s) <==> Cut(a[1..], rest, s) || (s != "" && s[0] != SLASH && Cut(a, rest, s[1..]))
  {
    hide Matches;
    var n := FirstSlash(s);
    MatchesStar(a, s[..n]);
    if s != "" && s[0] != SLASH {
      FirstSlashStep(s);
      assert s[..n][1..] == s[1..][..n - 1];
    }
  }

  lemma {:induction false} ThenIsCut(a: seq<Token>, rest: seq<Token>, s: string)
    requires Slashless(a)
    ensures Matches(Then(a, rest), s) <==> Cut(a, rest, s)
    decreases |a| + |s|
  {
    hide Matches, FirstSlash, Cut;
    if a == [] {
      EmptyThen(rest, s);
    } else {
      assert forall i :: 0 <= i < |a[1..]| ==> a[1..][i] == a[i + 1];
      ThenTail(a, rest);
      if a[0].Star? {
        MatchesStar(Then(a, rest), s);
        CutStar(a, rest, s);
        ThenIsCut(a[1..], rest, s);
        if s != "" {
          ThenIsCut(a, rest, s[1..]);
        }
      } else {
        MatchesOther(Then(a, rest), s);
        CutStep(a, rest, s);
        if s != "" {
          ThenIsCut(a[1..], rest, s[1..]);
        }
      }
    }
  }

  lemma EmptyThen(rest: seq<Token>, s: string)
    ensures Matches(Then([], rest), s) <==> Cut([], rest, s)
  {
    assert Then([], rest)[1..] == rest && Then([], rest)[0] == Lit(SLASH);
    assert Matches([], s[..FirstSlash(s)]) <==> s[..FirstSlash(s)] == "";
  }

  // ---- Patterns without `**` ----

  /** The segments match the components one by one. */
  predicate SegmentsMatch(segments: seq<string>, components: seq<string>)
    requires |segments| == |components|
  {
    forall i :: 0 <= i < |segments| ==> Matches(SegmentTokens(segments[i]), components[i])
  }

  predicate Plain(segments: seq<string>) {
    forall i :: 0 <= i < |segments| ==> segments[i] != "**" && SLASH !in segments[i]
  }

  lemma SegmentSlashless(segment: string)
    requires SLASH !in segment
    ensures Slashless(SegmentTokens(segment))
  {
  }

  lemma SegmentsMatchFirst(segments: seq<string>, components: seq<string>)
    requires |segments| == |components| && segments != []
    ensures SegmentsMatch(segments, components)
            <==> Matches(SegmentTokens(segments[0]), components[0]) && SegmentsMatch(segments[1..], components[1..])
  {
    hide Matches, SegmentTokens;
    if SegmentsMatch(segments[1..], components[1..]) {
      assert forall i :: 0 < i < |segments| ==>
        segments[i] == segments[1..][i - 1] && components[i] == components[1..][i - 1];
    }
    assert forall i :: 0 <= i < |segments| - 1 ==>
      segments[1..][i] == segments[i + 1] && components[1..][i] == components[i + 1];
  }

  /** The whole of a text matches a pattern exactly when it has as many components as
      the pattern has segments and they match one by one. */
  lemma {:induction false} CompiledMatchesIff(segments: seq<string>, s: string)
    requires segments != [] && Plain(segments)
    ensures var components := Split(s, SLASH);
            Matches(Compiled(segments), s) <==> |components| == |segments| && SegmentsMatch(segments, components)
    decreases |segments|
  {
    hide Matches, SegmentTokens, SegmentsMatch, FirstSlash, Split;
    var first := SegmentTokens(segments[0]);
    var components := Split(s, SLASH);
    SegmentSlashless(segments[0]);
    SplitAtSlash(s);
    if |components| == |segments| {
      SegmentsMatchFirst(segments, components);
    }
    if |segments| == 1 {
      if Matches(first, s) {
        MatchesSlashless(first, s);
      }
      if |components| == 1 {
        EmptyMatch(segments[1..], components[1..]);
      }
    } else {
      var rest := segments[1..];
      assert Plain(rest) by { assert forall i :: 0 <= i < |rest| ==> rest[i] == segments[i + 1]; }
      ThenIsCut(first, Compiled(rest), s);
      assert Compiled(segments) == Then(first, Compiled(rest));
      var n := FirstSlash(s);
      if n < |s| {
        CompiledMatchesIff(rest, s[n + 1..]);
        assert components[1..] == Split(s[n + 1..], SLASH) && components[0] == s[..n];
      }
    }
  }

  lemma EmptyMatch(segments: seq<string>, components: seq<string>)
    requires segments == [] && components == []
    ensures SegmentsMatch(segments, components)
  {
  }

  /** Searching from the start or behind a slash is trying every tail of components. */
  lemma SearchStep(ts: seq<Token>, s: string)
    ensures var n := FirstSlash(s);
            Search(ts, s) <==> Matches(ts, s) || (n < |s| && Search(ts, s[n + 1..]))
  {
    hide Matches, FirstSlash, Begins;
    var n := FirstSlash(s);
    if i: nat :| i <= |s| && Begins(s, i) && Matches(ts, s[i..]) {
      SearchLater(ts, s, i);
    }
    if Matches(ts, s) {
      assert s[0..] == s && Begins(s, 0) by { BeginsAt(s, 0); }
    }
    if n < |s| && Search(ts, s[n + 1..]) {
      var i: nat :| i <= |s[n + 1..]| && Begins(s[n + 1..], i) && Matches(ts, s[n + 1..][i..]);
      assert s[n + 1..][i..] == s[n + 1 + i..];
      assert Begins(s, n + 1 + i) by { BeginsBehind(s, n, i); }
    }
  }

  lemma BeginsAt(s: string, i: nat)
    requires i <= |s|
    ensures Begins(s, i) <==> i == 0 || s[i - 1] == SLASH
  {
  }

  lemma BeginsBehind(s: string, n: nat, i: nat)
    requires n < |s| && s[n] == SLASH && n + 1 + i <= |s|
    ensures Begins(s, n + 1 + i) <==> Begins(s[n + 1..], i)
  {
  }

  /** Any other place to begin lies behind the first slash. */
  lemma SearchLater(ts: seq<Token>, s: string, i: nat)
    requires i <= |s| && Begins(s, i) && Matches(ts, s[i..])
    ensures var n := FirstSlash(s); Matches(ts, s) || (n < |s| && Search(ts, s[n + 1..]))
  {
    hide Matches, FirstSlash, Begins;
    var n := FirstSlash(s);
    BeginsAt(s, i);
    if i == 0 {
      assert s[0..] == s;
    } else {
      BehindFirstSlash(s, i);
      assert s[n + 1..][i - n - 1..] == s[i..];
      BeginsBehind(s, n, i - n - 1);
    }
  }

  lemma BehindFirstSlash(s: string, i: nat)
    requires 0 < i <= |s| && s[i - 1] == SLASH
    ensures FirstSlash(s) < i
  {
    if FirstSlash(s) >= i {
      NoSlashBefore(s, FirstSlash(s), i);
      assert false;
    }
  }

  lemma NoSlashBefore(s: string, n: nat, k: nat)
    requires 0 < k <= n <= |s| && SLASH !in s[..n]
    ensures s[k - 1] != SLASH
  {
    assert s[..n][k - 1] == s[k - 1];
  }

  /** A pattern of k segments without `**` accepts exactly the paths whose last k
      components match it segment by segment. */
  lemma {:induction false} SearchMatchesTail(segments: seq<string>, path: string)
    requires segments != [] && Plain(segments)
    ensures var components := Split(path, SLASH);
            var k := |segments|;
            Search(Compiled(segments), path)
            <==> |components| >= k && SegmentsMatch(segments, components[|components| - k..])
    decreases |path|
  {
    hide Matches, SegmentTokens, SegmentsMatch, FirstSlash, Split, Search, Compiled, Plain;
    var components, n, k := Split(path, SLASH), FirstSlash(path), |segments|;
    SearchStep(Compiled(segments), path);
    CompiledMatchesIff(segments, path);
    SplitAtSlash(path);
    if n < |path| {
      var rest := Split(path[n + 1..], SLASH);
      SearchMatchesTail(segments, path[n + 1..]);
      if |rest| >= k {
        assert components[|components| - k..] == rest[|rest| - k..];
      }
    }
    if |components| == k {
      assert components[0..] == components;
    }
  }

  // ---- Patterns that end in `**` ----

  /** Something below: not empty, and no newline in it. */
  predicate SomethingBelow(s: string) {
    s != "" && '\n' !in s
  }

  lemma {:induction false} BelowMatches(s: string)
    ensures Matches([Below], s) <==> SomethingBelow(s)
    decreases |s|
  {
    assert [Below][1..] == [];
    if s != "" {
      assert s == [s[0]] + s[1..];
      assert Matches([], s[1..]) <==> s[1..] == "";
      BelowMatches(s[1..]);
    }
  }

  lemma {:induction false} JoinSplit(s: string)
    ensures Join(Split(s, SLASH), "/") == s
    decreases |s|
  {
    hide FirstSlash, Split;
    SplitAtSlash(s);
    var n := FirstSlash(s);
    if n < |s| {
      var rest := Split(s[n + 1..], SLASH);
      JoinSplit(s[n + 1..]);
      assert ([s[..n]] + rest)[1..] == rest;
      assert s[..n] + "/" + s[n + 1..] == s;
    }
  }

  /** The components match the segments and something lies below them. */
  predicate CoversBelow(segments: seq<string>, components: seq<string>) {
    && |components| > |segments|
    && SegmentsMatch(segments, components[..|segments|])
    && SomethingBelow(Join(components[|segments|..], "/"))
  }

  lemma {:induction false} BelowMatchesIff(segments: seq<string>, s: string)
    requires segments != [] && Plain(segments)
    ensures Matches(Compiled(segments + ["**"]), s) <==> CoversBelow(segments, Split(s, SLASH))
    decreases |segments|
  {
    hide Matches, SegmentTokens, SegmentsMatch, FirstSlash, Split, Join, SomethingBelow;
    var all := segments + ["**"];
    var first, components, n := SegmentTokens(segments[0]), Split(s, SLASH), FirstSlash(s);
    assert all[0] == segments[0] && all[1..] == segments[1..] + ["**"];
    SegmentSlashless(segments[0]);
    SplitAtSlash(s);
    ThenIsCut(first, Compiled(all[1..]), s);
    assert Compiled(all) == Then(first, Compiled(all[1..]));
    if n < |s| {
      var rest := Split(s[n + 1..], SLASH);
      assert components[0] == s[..n] && components[1..] == rest;
      if |components| > |segments| {
        SegmentsMatchFirst(segments, components[..|segments|]);
        assert components[..|segments|][1..] == rest[..|segments| - 1];
        assert components[|segments|..] == rest[|segments| - 1..];
      }
      if |segments| == 1 {
        JustBelow(all[1..], s[n + 1..]);
        EmptyMatch(segments[1..], rest[..0]);
        assert rest[0..] == rest;
      } else {
        assert Plain(segments[1..]) by {
          assert forall i :: 0 <= i < |segments[1..]| ==> segments[1..][i] == segments[i + 1];
        }
        BelowMatchesIff(segments[1..], s[n + 1..]);
      }
    }
  }

  lemma JustBelow(segments: seq<string>, s: string)
    requires segments == ["**"]
    ensures Matches(Compiled(segments), s) <==> SomethingBelow(Join(Split(s, SLASH), "/"))
  {
    hide Matches;
    BelowMatches(s);
    JoinSplit(s);
  }

  /** A pattern that ends in `**` accepts exactly the paths in which its earlier segments
      match consecutive components, wherever they stand, with something below. */
  lemma {:induction false} SearchCoversBelow(segments: seq<string>, path: string)
    requires segments != [] && Plain(segments)
    ensures Search(Compiled(segments + ["**"]), path)
            <==> exists j :: 0 <= j <= |Split(path, SLASH)| && CoversBelow(segments, Split(path, SLASH)[j..])
    decreases |path|
  {
    hide Matches, CoversBelow, FirstSlash, Split, Search, Compiled, Plain;
    var ts := Compiled(segments + ["**"]);
    var components, n := Split(path, SLASH), FirstSlash(path);
    SearchStep(ts, path);
    BelowMatchesIff(segments, path);
    SplitAtSlash(path);
    assert components[0..] == components;
    if n < |path| {
      var rest := Split(path[n + 1..], SLASH);
      SearchCoversBelow(segments, path[n + 1..]);
      if j :| 0 <= j <= |rest| && CoversBelow(segments, rest[j..]) {
        assert components[j + 1..] == rest[j..];
      }
      if j :| 0 <= j <= |components| && CoversBelow(segments, components[j..]) {
        assert j > 0 ==> components[j..] == rest[j - 1..];
      }
    } else {
      NothingCovered(segments, components);
    }
  }

  lemma NothingCovered(segments: seq<string>, components: seq<string>)
    requires |components| == 1
    ensures !CoversBelow(segments, components[1..])
    ensures segments != [] ==> !CoversBelow(segments, components)
  {
  }
}
