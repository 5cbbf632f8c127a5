/** What an omission marker says, line by line, and that no failing test goes unmentioned.
    (engine/evidence_bounds.py) */
module MarkerMeaning {
  import opened Text
  import opened TextLaws
  import opened EvidenceBounds

  // ---- Which lines are summary lines ----

  /** The word, a space, a name without whitespace, two colons, and anything. */
  ghost predicate Reports(word: string, line: string) {
    exists name: string, rest: string :: Word(name) && line == word + " " + name + "::" + rest
  }

  lemma NamesTestIff(word: string, line: string)
    ensures NamesTest(word + " ", line) <==> Reports(word, line)
  {
    hide IsSpace;
    var prefix := word + " ";
    if NamesTest(prefix, line) {
      var j :| |prefix| < j < |line| && ColonsAt(line, j) && NoSpace(line[|prefix|..j]);
      var name, rest := line[|prefix|..j], line[j + 2..];
      assert line == prefix + name + "::" + rest;
      assert Word(name);
      assert line == word + " " + name + "::" + rest;
    }
    if Reports(word, line) {
      var name: string, rest: string :| Word(name) && line == word + " " + name + "::" + rest;
      var j := |prefix| + |name|;
      assert line[..|prefix|] == prefix && line[|prefix|..j] == name;
      assert line[j] == ':' && line[j + 1] == ':';
      assert ColonsAt(line, j);
    }
  }

  lemma SummaryIff(line: string)
    ensures IsSummary(line) <==> Reports("FAILED", line) || Reports("ERROR", line)
  {
    hide NamesTest, Reports;
    NamesTestIff("FAILED", line);
    NamesTestIff("ERROR", line);
    assert "FAILED" + " " == "FAILED " && "ERROR" + " " == "ERROR ";
  }

  // ---- How many lines a text has ----

  /** One for each newline, and one for what follows the last. */
  lemma {:induction false} LineCountIs(s: string)
    ensures LineCount(s) == |Split(s, '\n')| - (if s == "" || s[|s| - 1] == '\n' then 1 else 0)
    decreases |s|
  {
    if s != "" {
      LineCountIs(s[1..]);
    }
  }

  // ---- The marker's lines ----

  /** The line that counts what is missing. */
  function TallyLine(omitted: string, partialLineCut: bool): string {
    "\U{2026} [" + Decimal(|omitted|) + " chars omitted \U{2014} " + Decimal(LineCount(omitted)) + " line(s)"
    + (if partialLineCut then "; one over-budget line was cut mid-line" else "") + "] \U{2026}"
  }

  function DropLine(n: nat): string {
    "\U{2026} [" + Decimal(n) + " further FAILED/ERROR line(s) not hoisted] \U{2026}"
  }

  /** A marker with the lines `named` and a count of `others`: it starts and ends on a line
      of its own. */
  function MarkerLines(omitted: string, partialLineCut: bool, named: seq<string>, others: nat): seq<string> {
    ["", TallyLine(omitted, partialLineCut)]
    + (if named != [] then named + ["\U{2026}"] else [])
    + (if others > 0 then [DropLine(others)] else [])
    + [""]
  }

  function NamedIn(omitted: string, partialLineCut: bool, budget: nat): seq<string> {
    Carried(Summaries(Split(omitted, '\n')), HoistBudget(omitted, partialLineCut, budget))
  }

  function OthersIn(omitted: string, partialLineCut: bool, budget: nat): nat {
    |Summaries(Split(omitted, '\n'))| - |NamedIn(omitted, partialLineCut, budget)|
  }

  lemma Regroup(nl: string, open: string, chars: string, middle: string, rest: string, close: string)
    ensures (nl + open) + chars + middle + (rest + (close + nl)) == nl + (open + chars + middle + rest + close) + nl
  {
  }

  lemma Opens()
    ensures MARK_OPEN == "\n" + "\U{2026} [" && MARK_CLOSE == "] \U{2026}" + "\n"
    ensures HOIST_CLOSE == "\n" + "\U{2026}" + "\n"
    ensures DROP_CLOSE == " further FAILED/ERROR line(s) not hoisted] \U{2026}" + "\n"
  {
  }

  lemma TallyIsLine(omitted: string, partialLineCut: bool)
    ensures Tally(omitted, partialLineCut) == "\n" + TallyLine(omitted, partialLineCut) + "\n"
  {
    hide Decimal, LineCount;
    Opens();
    var cut := if partialLineCut then MARK_CUT else "";
    var rest := Decimal(LineCount(omitted)) + MARK_LINES + cut;
    Regroup("\n", "\U{2026} [", Decimal(|omitted|), MARK_CHARS, rest, "] \U{2026}");
    FourParts("\U{2026} [" + Decimal(|omitted|) + MARK_CHARS, Decimal(LineCount(omitted)), MARK_LINES, cut);
  }

  lemma FourParts(a: string, b: string, c: string, d: string)
    ensures a + (b + c + d) == a + b + c + d
  {
  }

  lemma JoinOne(a: string)
    ensures Join([a], "\n") == a
  {
  }

  lemma JoinTwo(a: string, b: string)
    ensures Join([a, b], "\n") == a + "\n" + b
  {
    assert [a, b][1..] == [b];
    JoinOne(b);
  }

  lemma CloseUp(nl: string, tally: string, names: string, dots: string, last: string)
    ensures ((nl + tally) + nl + (names + nl + dots)) + nl + last == (nl + tally + nl) + names + (nl + dots + nl) + last
  {
  }

  /** The marker is its lines. */
  lemma MarkerIsLines(omitted: string, partialLineCut: bool, named: seq<string>, others: nat)
    ensures OmissionMarker(omitted, partialLineCut, named, others)
            == Join(MarkerLines(omitted, partialLineCut, named, others), "\n")
  {
    hide Tally, TallyLine, Decimal, LineCount, Join;
    TallyIsLine(omitted, partialLineCut);
    var tally := TallyLine(omitted, partialLineCut);
    var head := ["", tally];
    var last := if others > 0 then [DropLine(others), ""] else [""];
    var tail := if others > 0 then DROP_OPEN + Decimal(others) + DROP_CLOSE else "";
    LastLines(others);
    JoinTwo("", tally);
    assert "" + "\n" + tally == "\n" + tally;
    if named != [] {
      var middle := named + ["\U{2026}"];
      JoinAppend(named, ["\U{2026}"], "\n");
      JoinOne("\U{2026}");
      JoinAppend(head, middle, "\n");
      JoinAppend(head + middle, last, "\n");
      CloseUp("\n", tally, Join(named, "\n"), "\U{2026}", tail);
      Opens();
      assert MarkerLines(omitted, partialLineCut, named, others) == head + middle + last;
      NamedMarker(omitted, partialLineCut, named, others);
    } else {
      JoinAppend(head, last, "\n");
      assert MarkerLines(omitted, partialLineCut, named, others) == head + last;
      BareText(omitted, partialLineCut, others);
    }
  }

  lemma NamedMarker(omitted: string, partialLineCut: bool, named: seq<string>, others: nat)
    requires named != []
    ensures OmissionMarker(omitted, partialLineCut, named, others)
            == Tally(omitted, partialLineCut) + Join(named, "\n") + HOIST_CLOSE
               + (if others > 0 then DROP_OPEN + Decimal(others) + DROP_CLOSE else "")
  {
    hide Tally, Decimal, Join;
    FourParts(Tally(omitted, partialLineCut) + Join(named, "\n") + HOIST_CLOSE, DROP_OPEN, Decimal(others), DROP_CLOSE);
  }

  lemma BareText(omitted: string, partialLineCut: bool, others: nat)
    ensures OmissionMarker(omitted, partialLineCut, [], others)
            == Tally(omitted, partialLineCut) + (if others > 0 then DROP_OPEN + Decimal(others) + DROP_CLOSE else "")
  {
    hide Tally, Decimal, Join;
    FourParts(Tally(omitted, partialLineCut), DROP_OPEN, Decimal(others), DROP_CLOSE);
  }

  lemma LastLines(others: nat)
    ensures Join(if others > 0 then [DropLine(others), ""] else [""], "\n")
            == if others > 0 then DROP_OPEN + Decimal(others) + DROP_CLOSE else ""
  {
    hide Decimal, Join;
    Opens();
    JoinTwo(DropLine(others), "");
    JoinOne("");
    ThreeParts(DROP_OPEN, Decimal(others), " further FAILED/ERROR line(s) not hoisted] \U{2026}", "\n");
  }

  lemma ThreeParts(a: string, b: string, c: string, d: string)
    ensures (a + b + c) + d + "" == a + b + (c + d)
  {
  }

  // ---- No failing test goes unmentioned ----

  predicate OneLine(s: string) { '\n' !in s }

  lemma {:induction false} DecimalOneLine(n: nat)
    ensures OneLine(Decimal(n))
  {
    if n >= 10 {
      DecimalOneLine(n / 10);
    }
  }

  lemma TallyOneLine(omitted: string, partialLineCut: bool)
    ensures OneLine(TallyLine(omitted, partialLineCut))
  {
    hide Decimal, LineCount;
    DecimalOneLine(|omitted|);
    DecimalOneLine(LineCount(omitted));
  }

  lemma CloseOneLine()
    ensures OneLine(" further FAILED/ERROR line(s) not hoisted] \U{2026}")
  {
    var s := " further FAILED/ERROR line(s) not hoisted] \U{2026}";
    forall i | 0 <= i < |s| ensures s[i] != '\n' {
    }
  }

  lemma DropOneLine(n: nat)
    ensures OneLine(DropLine(n))
  {
    hide Decimal;
    DecimalOneLine(n);
    var open, close := "\U{2026} [", " further FAILED/ERROR line(s) not hoisted] \U{2026}";
    CloseOneLine();
    assert OneLine(open);
    assert DropLine(n) == open + Decimal(n) + close;
  }

  lemma {:induction false} SummariesOneLine(lines: seq<string>)
    requires forall k :: 0 <= k < |lines| ==> OneLine(lines[k])
    ensures forall x :: x in Summaries(lines) ==> OneLine(x)
  {
    hide Summaries, IsSummary, Strip;
    forall x | x in Summaries(lines) ensures OneLine(x) {
      SummariesAreTheSummaryLines(lines, x);
      var k :| 0 <= k < |lines| && Strip(lines[k]) == x;
      var m := StripTakes(lines[k]);
      assert x == lines[k][m..m + |x|];
    }
  }

  lemma {:induction false} CarriedIsPart(lines: seq<string>, budget: nat)
    ensures multiset(Carried(lines, budget)) <= multiset(lines)
    decreases |lines|
  {
    if lines != [] {
      var last := |lines| - 1;
      CarriedIsPart(lines[..last], budget);
      assert lines == lines[..last] + [lines[last]];
    }
  }

  /** The whole marker, with everything that its budget carries. */
  function Whole(omitted: string, partialLineCut: bool, budget: nat): seq<string> {
    MarkerLines(omitted, partialLineCut, NamedIn(omitted, partialLineCut, budget), OthersIn(omitted, partialLineCut, budget))
  }

  lemma NamedFacts(omitted: string, partialLineCut: bool, budget: nat)
    ensures var found, named := Summaries(Split(omitted, '\n')), NamedIn(omitted, partialLineCut, budget);
            && multiset(named) <= multiset(found)
            && |multiset(found) - multiset(named)| == OthersIn(omitted, partialLineCut, budget)
            && IsSubsequence(named, found) && |named| <= 20 && TotalLength(named) <= 1000
            && (forall x :: x in found <==> x in multiset(found)) && (forall x :: x in named ==> OneLine(x))
  {
    hide Summaries, Carried, HoistBudget, Split, IsSubsequence, TotalLength;
    var lines := Split(omitted, '\n');
    var found, budget' := Summaries(lines), HoistBudget(omitted, partialLineCut, budget);
    CarriedIsPart(found, budget');
    CarriedFits(found, budget');
    HoistAtMost(omitted, partialLineCut, budget);
    SplitPieces(omitted, '\n');
    SummariesOneLine(lines);
    var named := Carried(found, budget');
    forall x | x in named ensures OneLine(x) {
      assert x in multiset(named);
      assert x in multiset(found);
    }
    assert |multiset(found) - multiset(named)| == |multiset(found)| - |multiset(named)|;
  }

  lemma HoistAtMost(omitted: string, partialLineCut: bool, budget: nat)
    ensures HoistBudget(omitted, partialLineCut, budget) <= 1000
  {
    hide Tally;
  }

  /** A reader who splits the marker into lines finds the tally, then, unless the whole
      marker is over its budget, the named summary lines in order, each on its own line, and
      the number of the others when there are any. */
  lemma MarkerReads(omitted: string, partialLineCut: bool, budget: nat)
    ensures Split(Marker(omitted, partialLineCut, budget), '\n')
            == if |Join(Whole(omitted, partialLineCut, budget), "\n")| <= budget then Whole(omitted, partialLineCut, budget)
               else ["", TallyLine(omitted, partialLineCut), ""]
  {
    hide Tally, TallyLine, DropLine, Decimal, LineCount, Join, Split, Summaries, Carried, HoistBudget, OmissionMarker,
         IsSubsequence, TotalLength;
    var named, others := NamedIn(omitted, partialLineCut, budget), OthersIn(omitted, partialLineCut, budget);
    NamedFacts(omitted, partialLineCut, budget);
    MarkerIsLines(omitted, partialLineCut, named, others);
    MarkerIsLines(omitted, partialLineCut, [], 0);
    BareMarker(omitted, partialLineCut);
    TallyOneLine(omitted, partialLineCut);
    DropOneLine(others);
    DropOneLine(0);
    LinesAreLines(omitted, partialLineCut, named, others);
    LinesAreLines(omitted, partialLineCut, [], 0);
    SplitOfJoin(Whole(omitted, partialLineCut, budget));
    var bare := MarkerLines(omitted, partialLineCut, [], 0);
    assert bare == ["", TallyLine(omitted, partialLineCut), ""];
    SplitOfJoin(bare);
  }

  lemma LinesAreLines(omitted: string, partialLineCut: bool, named: seq<string>, others: nat)
    requires OneLine(TallyLine(omitted, partialLineCut)) && OneLine(DropLine(others))
    requires forall x :: x in named ==> OneLine(x)
    ensures forall k :: 0 <= k < |MarkerLines(omitted, partialLineCut, named, others)| ==>
              OneLine(MarkerLines(omitted, partialLineCut, named, others)[k])
  {
    hide TallyLine, DropLine;
    assert OneLine("") && OneLine("\U{2026}");
  }

  /** Every FAILED or ERROR line of the omitted text that names a test is a line of the
      whole marker or one of those it counts. */
  lemma NoneUnmentioned(omitted: string, partialLineCut: bool, budget: nat, line: string)
    requires line in Split(omitted, '\n') && (Reports("FAILED", Strip(line)) || Reports("ERROR", Strip(line)))
    requires |Join(Whole(omitted, partialLineCut, budget), "\n")| <= budget
    ensures || Strip(line) in Split(Marker(omitted, partialLineCut, budget), '\n')
            || exists n: nat :: n > 0 && DropLine(n) in Split(Marker(omitted, partialLineCut, budget), '\n')
                                && Counts(omitted, partialLineCut, budget, n)
  {
    hide Marker, TallyLine, DropLine, Decimal, Join, Summaries, Strip, Reports, IsSummary, Carried, HoistBudget;
    var lines, x := Split(omitted, '\n'), Strip(line);
    var k :| 0 <= k < |lines| && lines[k] == line;
    SummaryIff(x);
    SummariesAreTheSummaryLines(lines, x);
    SummariesAreDistinct(lines);
    NamedFacts(omitted, partialLineCut, budget);
    MarkerReads(omitted, partialLineCut, budget);
    var named, others := NamedIn(omitted, partialLineCut, budget), OthersIn(omitted, partialLineCut, budget);
    if x in named {
      assert x in Whole(omitted, partialLineCut, budget);
    } else {
      assert x in multiset(Summaries(lines)) && x !in multiset(named);
      assert x in multiset(Summaries(lines)) - multiset(named);
      assert others > 0;
      assert DropLine(others) in Whole(omitted, partialLineCut, budget);
      assert Counts(omitted, partialLineCut, budget, others);
    }
  }

  /** `n` distinct summary lines are not named. */
  predicate Counts(omitted: string, partialLineCut: bool, budget: nat, n: nat) {
    var found := Summaries(Split(omitted, '\n'));
    |multiset(found) - multiset(NamedIn(omitted, partialLineCut, budget))| == n
  }
}
