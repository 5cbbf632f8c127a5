/** Reading Git's NUL-delimited listings back: the staged paths and the dirty paths.
    (engine/fingerprint.py, _parse_index and _dirty_count) */
module GitListing {
  import opened Text
  import opened Fingerprint

  const NUL: byte := 0
  const TAB: byte := 9
  const SPACE: byte := 32

  predicate IsBlank(b: byte) {
    b == SPACE || TAB <= b <= 13
  }

  // ---- Records ----

  function Terminated(records: seq<Bytes>): Bytes {
    if records == [] then [] else records[0] + [NUL] + Terminated(records[1..])
  }

  predicate NoNul(records: seq<Bytes>) {
    forall i :: 0 <= i < |records| ==> NUL !in records[i]
  }

  lemma {:induction false} SplitFirst(a: Bytes, rest: Bytes)
    requires NUL !in a
    ensures Split(a + [NUL] + rest, NUL) == [a] + Split(rest, NUL)
    decreases |a|
  {
    var s := a + [NUL] + rest;
    if a == [] {
      assert s[1..] == rest;
    } else {
      assert s[1..] == a[1..] + [NUL] + rest && s[0] == a[0];
      SplitFirst(a[1..], rest);
      assert [a[0]] + a[1..] == a;
    }
  }

  /** Splitting at the terminators gives the records back, and one empty record. */
  lemma {:induction false} SplitTerminated(records: seq<Bytes>)
    requires NoNul(records)
    ensures Split(Terminated(records), NUL) == records + [[]]
    decreases |records|
  {
    if records != [] {
      SplitFirst(records[0], Terminated(records[1..]));
      SplitTerminated(records[1..]);
      assert records == [records[0]] + records[1..];
    }
  }

  // ---- The index ----

  function FieldEnd(s: Bytes): (n: nat)
    ensures n <= |s| && (forall i :: 0 <= i < n ==> !IsBlank(s[i])) && (n < |s| ==> IsBlank(s[n]))
  {
    if s == [] || IsBlank(s[0]) then 0 else 1 + FieldEnd(s[1..])
  }

  /** The blank-separated fields of `s`. */
  function Fields(s: Bytes): seq<Bytes>
    decreases |s|
  {
    if s == [] then []
    else if IsBlank(s[0]) then Fields(s[1..])
    else var n := FieldEnd(s); [s[..n]] + Fields(s[n..])
  }

  function TabAt(s: Bytes): (n: nat)
    ensures n <= |s| && TAB !in s[..n] && (n < |s| ==> s[n] == TAB)
  {
    if s == [] || s[0] == TAB then 0
    else
      assert s[..1 + TabAt(s[1..])] == [s[0]] + s[1..][..TabAt(s[1..])];
      1 + TabAt(s[1..])
  }

  predicate IsAscii(s: Bytes) {
    forall i :: 0 <= i < |s| ==> s[i] < 128
  }

  const GITLINK: Bytes := [49, 54, 48, 48, 48, 48]
  const STAGE_ZERO: Bytes := [48]

  datatype Parsed = Skip | Keep(path: Bytes, mode: Bytes) | Refuse(state: string)

  function ParseRecord(record: Bytes): Parsed {
    if record == [] then Skip
    else
      var t := TabAt(record);
      var fields := Fields(record[..t]);
      if t == |record| || |fields| != 3 || record[t + 1..] == [] then Refuse("git-error")
      else if !IsAscii(fields[0]) then Refuse("unreadable-path")
      else if fields[2] != STAGE_ZERO then Refuse("unmerged-index")
      else if fields[0] == GITLINK then Refuse("gitlink")
      else Keep(record[t + 1..], fields[0])
  }

  datatype Index = Staged(modes: map<Bytes, Bytes>) | Unusable(state: string)

  function Added(index: Index, parsed: Parsed): Index {
    if index.Unusable? then index
    else match parsed
         case Skip => index
         case Keep(path, mode) => Staged(index.modes[path := mode])
         case Refuse(state) => Unusable(state)
  }

  function IndexOf(records: seq<Bytes>): Index
    decreases |records|
  {
    if records == [] then Staged(map[])
    else Added(IndexOf(records[..|records| - 1]), ParseRecord(records[|records| - 1]))
  }

  method ParseIndex(stdout: Bytes) returns (index: Index)
    ensures index == IndexOf(Split(stdout, NUL))
  {
    hide ParseRecord;
    var records := Split(stdout, NUL);
    var entries: map<Bytes, Bytes> := map[];
    var i := 0;
    while i < |records|
      invariant i <= |records|
      invariant IndexOf(records[..i]) == Staged(entries)
    {
      assert records[..i + 1][..i] == records[..i];
      match ParseRecord(records[i]) {
        case Skip =>
        case Keep(path, mode) => entries := entries[path := mode];
        case Refuse(state) =>
          UnusableStays(records, i + 1);
          return Unusable(state);
      }
      i := i + 1;
    }
    assert records[..i] == records;
    index := Staged(entries);
  }

  /** The first refusal decides. */
  lemma {:induction false} UnusableStays(records: seq<Bytes>, i: nat)
    requires i <= |records| && IndexOf(records[..i]).Unusable?
    ensures IndexOf(records) == IndexOf(records[..i])
    decreases |records|
  {
    hide ParseRecord;
    if i == |records| {
      assert records[..i] == records;
    } else {
      var n := |records| - 1;
      assert records[..n][..i] == records[..i];
      UnusableStays(records[..n], i);
    }
  }

  /** A line of the staged listing. */
  datatype Line = Line(mode: Bytes, oid: Bytes, stage: Bytes, path: Bytes)
  {
    function Text(): Bytes {
      mode + [SPACE] + oid + [SPACE] + stage + [TAB] + path
    }

    predicate Valid() {
      && Word(mode) && Word(oid) && Word(stage) && path != [] && NUL !in path
    }

    /** The mode is text. */
    predicate Readable() {
      forall i :: 0 <= i < |mode| ==> mode[i] <= 127
    }

    predicate Accepted() {
      Readable() && stage == STAGE_ZERO && mode != GITLINK
    }
  }

  /** Neither NUL nor any of the blanks: tab, line feed, vertical tab, form feed, carriage
      return and space. */
  predicate Word(s: Bytes) {
    s != [] && forall i :: 0 <= i < |s| ==> s[i] !in {0, 9, 10, 11, 12, 13, 32}
  }

  lemma WordHasNoBlank(s: Bytes)
    requires Word(s)
    ensures NUL !in s && forall i :: 0 <= i < |s| ==> !IsBlank(s[i])
  {
  }

  lemma {:induction false} FieldEndOf(a: Bytes, rest: Bytes)
    requires forall i :: 0 <= i < |a| ==> !IsBlank(a[i])
    requires rest == [] || IsBlank(rest[0])
    ensures FieldEnd(a + rest) == |a|
    decreases |a|
  {
    if a != [] {
      assert (a + rest)[1..] == a[1..] + rest;
      FieldEndOf(a[1..], rest);
    } else {
      assert a + rest == rest;
    }
  }

  /** Any of the blanks ends a field. */
  lemma BlankEndsField(a: Bytes, b: byte, rest: Bytes)
    requires Word(a) && b in {9, 10, 11, 12, 13, 32}
    ensures Fields(a + [b] + rest) == [a] + Fields(rest)
  {
    hide FieldEnd;
    WordHasNoBlank(a);
    var s := a + ([b] + rest);
    assert a + [b] + rest == s && IsBlank(b);
    FieldEndOf(a, [b] + rest);
    assert !IsBlank(s[0]) && s[..|a|] == a && s[|a|..] == [b] + rest;
    assert ([b] + rest)[1..] == rest;
    assert Fields([b] + rest) == Fields(rest);
  }

  lemma FirstField(a: Bytes, rest: Bytes)
    requires Word(a)
    ensures Fields(a + [SPACE] + rest) == [a] + Fields(rest)
  {
    hide Fields, Word;
    BlankEndsField(a, SPACE, rest);
  }

  lemma LastField(a: Bytes)
    requires Word(a)
    ensures Fields(a) == [a]
  {
    hide FieldEnd;
    WordHasNoBlank(a);
    FieldEndOf(a, []);
    assert a + [] == a && a[..|a|] == a && a[|a|..] == [];
    assert Fields([]) == [];
  }

  lemma {:induction false} TabAtOf(a: Bytes, rest: Bytes)
    requires TAB !in a
    ensures TabAt(a + [TAB] + rest) == |a|
    decreases |a|
  {
    var s := a + [TAB] + rest;
    if a == [] {
      assert s[0] == TAB;
    } else {
      assert s[0] == a[0] && s[1..] == a[1..] + [TAB] + rest;
      TabAtOf(a[1..], rest);
    }
  }

  lemma WordHasNoTab(s: Bytes)
    requires Word(s)
    ensures TAB !in s && SPACE !in s
  {
  }

  /** A line is read back whatever its path holds: tabs, blanks and newlines included. */
  lemma LineReadsBack(l: Line)
    requires l.Valid()
    ensures ParseRecord(l.Text()) == if !l.Readable() then Refuse("unreadable-path")
                                     else if l.stage != STAGE_ZERO then Refuse("unmerged-index")
                                     else if l.mode == GITLINK then Refuse("gitlink")
                                     else Keep(l.path, l.mode)
  {
    hide Fields, TabAt, Word;
    var head := l.mode + [SPACE] + l.oid + [SPACE] + l.stage;
    var s := l.Text();
    WordHasNoTab(l.mode);
    WordHasNoTab(l.oid);
    WordHasNoTab(l.stage);
    assert s == head + [TAB] + l.path;
    TabAtOf(head, l.path);
    HeadFields(l);
    assert s[..|head|] == head && s[|head| + 1..] == l.path && s != [];
  }

  lemma HeadFields(l: Line)
    requires l.Valid()
    ensures Fields(l.mode + [SPACE] + l.oid + [SPACE] + l.stage) == [l.mode, l.oid, l.stage]
  {
    hide Fields, Word, IsAscii;
    assert l.mode + [SPACE] + l.oid + [SPACE] + l.stage == l.mode + [SPACE] + (l.oid + [SPACE] + l.stage);
    FirstField(l.mode, l.oid + [SPACE] + l.stage);
    FirstField(l.oid, l.stage);
    LastField(l.stage);
  }

  /** Words, a space between each two. */
  function Spaced(ws: seq<Bytes>): Bytes {
    if ws == [] then [] else if |ws| == 1 then ws[0] else ws[0] + [SPACE] + Spaced(ws[1..])
  }

  lemma {:induction false} FieldsOfSpaced(ws: seq<Bytes>)
    requires forall i :: 0 <= i < |ws| ==> Word(ws[i])
    ensures Fields(Spaced(ws)) == ws && TAB !in Spaced(ws)
    decreases |ws|
  {
    hide Word, Fields;
    if ws == [] {
      assert Fields([]) == [] by { NoFields(); }
    } else {
      WordHasNoTab(ws[0]);
      if |ws| == 1 {
        LastField(ws[0]);
      } else {
        FieldsOfSpaced(ws[1..]);
        FirstField(ws[0], Spaced(ws[1..]));
      }
    }
  }

  lemma NoFields()
    ensures Fields([]) == []
  {
  }

  lemma RecordAtTab(head: Bytes, path: Bytes)
    requires TAB !in head && (|Fields(head)| != 3 || path == [])
    ensures ParseRecord(head + [TAB] + path) == Refuse("git-error")
  {
    hide Fields, TabAt;
    TabAtOf(head, path);
    var record := head + [TAB] + path;
    assert record[..|head|] == head && record[|head| + 1..] == path && record != [];
  }

  lemma {:induction false} TabAtEnd(s: Bytes)
    requires TAB !in s
    ensures TabAt(s) == |s|
    decreases |s|
  {
    if s != [] {
      TabAtEnd(s[1..]);
    }
  }

  lemma NoTabAt(s: Bytes)
    requires TAB !in s && s != []
    ensures ParseRecord(s) == Refuse("git-error")
  {
    hide Fields, TabAt;
    TabAtEnd(s);
  }

  /** A record of words without a tab is refused, and so is one with anything but three
      words before its first tab, or with nothing behind it. */
  lemma MalformedIsRefused(ws: seq<Bytes>, path: Bytes)
    requires forall i :: 0 <= i < |ws| ==> Word(ws[i])
    ensures ws != [] ==> ParseRecord(Spaced(ws)) == Refuse("git-error")
    ensures |ws| != 3 || path == [] ==> ParseRecord(Spaced(ws) + [TAB] + path) == Refuse("git-error")
  {
    hide Fields, ParseRecord;
    FieldsOfSpaced(ws);
    if |ws| != 3 || path == [] {
      RecordAtTab(Spaced(ws), path);
    }
    if ws != [] {
      NoTabAt(Spaced(ws));
    }
  }

  function Texts(lines: seq<Line>): seq<Bytes> {
    seq(|lines|, i requires 0 <= i < |lines| => lines[i].Text())
  }

  /** The modes of the lines by path; a later line for a path wins. */
  function Modes(lines: seq<Line>): map<Bytes, Bytes>
    decreases |lines|
  {
    if lines == [] then map[]
    else var n := |lines| - 1; Modes(lines[..n])[lines[n].path := lines[n].mode]
  }

  lemma {:induction false} IndexOfLines(lines: seq<Line>)
    requires forall i :: 0 <= i < |lines| ==> lines[i].Valid()
    ensures (forall i :: 0 <= i < |lines| ==> lines[i].Accepted()) ==> IndexOf(Texts(lines)) == Staged(Modes(lines))
    ensures (exists i :: 0 <= i < |lines| && !lines[i].Accepted()) ==> IndexOf(Texts(lines)).Unusable?
    decreases |lines|
  {
    hide ParseRecord, Line.Valid, Line.Text;
    if lines != [] {
      var n := |lines| - 1;
      assert Texts(lines)[..n] == Texts(lines[..n]);
      IndexOfLines(lines[..n]);
      LineReadsBack(lines[n]);
    }
  }

  lemma TextHasNoNul(l: Line)
    requires l.Valid()
    ensures NUL !in l.Text()
  {
  }

  /** The staged listing is read back exactly, unless some line is unmerged or a
      gitlink, and then it is refused. */
  lemma IndexReadsBack(lines: seq<Line>)
    requires forall i :: 0 <= i < |lines| ==> lines[i].Valid()
    ensures var index := IndexOf(Split(Terminated(Texts(lines)), NUL));
            if forall i :: 0 <= i < |lines| ==> lines[i].Accepted() then index == Staged(Modes(lines))
            else index.Unusable?
  {
    hide ParseRecord, Line.Valid, Line.Text, Line.Accepted, Split;
    forall i | 0 <= i < |lines| ensures NUL !in Texts(lines)[i] {
      TextHasNoNul(lines[i]);
    }
    SplitTerminated(Texts(lines));
    var records := Texts(lines) + [[]];
    assert records[..|records| - 1] == Texts(lines);
    assert ParseRecord([]) == Skip by { EmptyRecord(); }
    IndexOfLines(lines);
  }

  lemma EmptyRecord()
    ensures ParseRecord([]) == Skip
  {
  }

  // ---- Dirty paths ----

  const LETTER_R: byte := 82
  const LETTER_C: byte := 67

  predicate Renames(code: Bytes) {
    LETTER_R in code || LETTER_C in code
  }

  /** The paths a status listing names; None when it is malformed. A rename or a copy
      takes the next record as the path it came from. */
  function DirtyPaths(records: seq<Bytes>): Option<set<Bytes>>
    decreases |records|
  {
    if records == [] then Some({})
    else if records[0] == [] then DirtyPaths(records[1..])
    else if |records[0]| < 4 || records[0][2] != SPACE then None
    else if !Renames(records[0][..2]) then With({records[0][3..]}, DirtyPaths(records[1..]))
    else if |records| < 2 || records[1] == [] then None
    else With({records[0][3..], records[1]}, DirtyPaths(records[2..]))
  }

  function With(paths: set<Bytes>, rest: Option<set<Bytes>>): Option<set<Bytes>> {
    if rest.None? then None else Some(paths + rest.value)
  }

  method DirtyCount(stdout: Bytes) returns (r: Option<nat>)
    ensures r == var paths := DirtyPaths(Split(stdout, NUL)); if paths.None? then None else Some(|paths.value|)
  {
    hide Renames, DirtyPaths, With, Split;
    var records := Split(stdout, NUL);
    var paths: set<Bytes> := {};
    var index := 0;
    assert records[0..] == records;
    WithNothing(DirtyPaths(records));
    while index < |records|
      invariant index <= |records|
      invariant DirtyPaths(records) == With(paths, DirtyPaths(records[index..]))
    {
      var record := records[index];
      NextDirty(records, index);
      index := index + 1;
      WithRefusal(paths);
      if record != [] {
        if |record| < 4 || record[2] != SPACE {
          return None;
        }
        var code := record[..2];
        if Renames(code) {
          if index >= |records| || records[index] == [] {
            return None;
          }
          WithBoth(paths, {record[3..], records[index]}, DirtyPaths(records[index + 1..]));
          assert paths + {record[3..], records[index]} == paths + {record[3..]} + {records[index]};
        } else {
          WithBoth(paths, {record[3..]}, DirtyPaths(records[index..]));
        }
        paths := paths + {record[3..]};
        if Renames(code) {
          paths := paths + {records[index]};
          index := index + 1;
        }
      }
    }
    DirtyEnd(records);
    WithEnd(paths);
    r := Some(|paths|);
  }

  lemma WithNothing(rest: Option<set<Bytes>>)
    ensures With({}, rest) == rest
  {
    if rest.Some? {
      assert {} + rest.value == rest.value;
    }
  }

  lemma WithRefusal(paths: set<Bytes>)
    ensures With(paths, None) == None
  {
  }

  lemma WithEnd(paths: set<Bytes>)
    ensures With(paths, Some({})) == Some(paths)
  {
    assert paths + {} == paths;
  }

  lemma WithBoth(a: set<Bytes>, b: set<Bytes>, rest: Option<set<Bytes>>)
    ensures With(a, With(b, rest)) == With(a + b, rest)
  {
    if rest.Some? {
      assert a + (b + rest.value) == (a + b) + rest.value;
    }
  }

  lemma DirtyEnd(records: seq<Bytes>)
    ensures DirtyPaths(records[|records|..]) == Some({})
  {
  }

  lemma NextDirty(records: seq<Bytes>, i: nat)
    requires i < |records|
    ensures DirtyPaths(records[i..])
            == if records[i] == [] then DirtyPaths(records[i + 1..])
               else if |records[i]| < 4 || records[i][2] != SPACE then None
               else if !Renames(records[i][..2]) then With({records[i][3..]}, DirtyPaths(records[i + 1..]))
               else if i + 1 == |records| || records[i + 1] == [] then None
               else With({records[i][3..], records[i + 1]}, DirtyPaths(records[i + 2..]))
  {
    hide Renames, With;
    var rest := records[i..];
    assert rest[0] == records[i] && rest[1..] == records[i + 1..];
    if |rest| >= 2 {
      assert rest[1] == records[i + 1] && rest[2..] == records[i + 2..];
    }
  }

  /** One change of a status listing. */
  datatype Change = Change(code: Bytes, path: Bytes, source: Option<Bytes>)
  {
    predicate Valid() {
      && |code| == 2 && NUL !in code && path != [] && NUL !in path
      && (source.Some? <==> 82 in code || 67 in code) && (source.Some? ==> source.value != [] && NUL !in source.value)
    }

    function Records(): seq<Bytes> {
      [code + [SPACE] + path] + (if source.Some? then [source.value] else [])
    }

    function Paths(): set<Bytes> {
      {path} + (if source.Some? then {source.value} else {})
    }
  }

  function AllRecords(changes: seq<Change>): seq<Bytes> {
    if changes == [] then [] else changes[0].Records() + AllRecords(changes[1..])
  }

  function AllPaths(changes: seq<Change>): set<Bytes> {
    if changes == [] then {} else changes[0].Paths() + AllPaths(changes[1..])
  }

  predicate AllValid(changes: seq<Change>) {
    forall i :: 0 <= i < |changes| ==> changes[i].Valid()
  }

  lemma RenamesIff(code: Bytes)
    ensures Renames(code) <==> 82 in code || 67 in code
  {
  }

  lemma DirtyFirst(c: Change, rest: seq<Bytes>)
    requires c.Valid()
    ensures DirtyPaths(c.Records() + rest) == With(c.Paths(), DirtyPaths(rest))
  {
    hide Renames, With;
    RenamesIff(c.code);
    var first := c.code + [SPACE] + c.path;
    var records := c.Records() + rest;
    assert records[0] == first && first[2] == SPACE && first[..2] == c.code && first[3..] == c.path;
    if c.source.Some? {
      assert records[1] == c.source.value && records[2..] == rest;
      assert c.Paths() == {c.path, c.source.value};
    } else {
      assert records[1..] == rest;
      assert c.Paths() == {c.path};
    }
  }

  lemma {:induction false} DirtyOfAll(changes: seq<Change>)
    requires AllValid(changes)
    ensures DirtyPaths(AllRecords(changes) + [[]]) == Some(AllPaths(changes))
    decreases |changes|
  {
    hide Change.Valid, Change.Records, Change.Paths;
    if changes == [] {
      var records: seq<Bytes> := [[]];
      assert AllRecords(changes) + [[]] == records && records[1..] == [];
      assert DirtyPaths(records) == DirtyPaths([]);
    } else {
      DirtyFirst(changes[0], AllRecords(changes[1..]) + [[]]);
      DirtyOfAll(changes[1..]);
      assert AllRecords(changes) + [[]] == changes[0].Records() + (AllRecords(changes[1..]) + [[]]);
    }
  }

  lemma {:induction false} RecordsHaveNoNul(changes: seq<Change>)
    requires AllValid(changes)
    ensures NoNul(AllRecords(changes))
    decreases |changes|
  {
    if changes != [] {
      RecordsHaveNoNul(changes[1..]);
      assert changes[0].Valid();
      forall i | 0 <= i < |changes[0].Records()| ensures NUL !in changes[0].Records()[i] {}
    }
  }

  /** The dirty paths of a status listing are every changed path and, for a rename or
      a copy, where it came from; each path counts once. */
  lemma DirtyReadsBack(changes: seq<Change>)
    requires AllValid(changes)
    ensures DirtyPaths(Split(Terminated(AllRecords(changes)), NUL)) == Some(AllPaths(changes))
  {
    hide DirtyPaths, Split, Terminated, AllPaths;
    RecordsHaveNoNul(changes);
    SplitTerminated(AllRecords(changes));
    DirtyOfAll(changes);
  }

  /** A record that is too short, or whose third byte is no space, makes the whole listing
      malformed, and so does a rename or copy that is not followed by its source. */
  lemma {:induction false} BadRecordRefused(changes: seq<Change>, bad: Bytes, rest: seq<Bytes>)
    requires AllValid(changes) && bad != []
    requires |bad| < 4 || bad[2] != SPACE || ((82 in bad[..2] || 67 in bad[..2]) && (rest == [] || rest[0] == []))
    ensures DirtyPaths(AllRecords(changes) + [bad] + rest) == None
    decreases |changes|
  {
    hide Change.Valid, Change.Records, Renames;
    if changes == [] {
      var all := [bad] + rest;
      assert AllRecords(changes) + [bad] + rest == all;
      assert all[0] == bad && all[1..] == rest;
      RenamesIff(bad[..Two(bad)]);
    } else {
      var more := AllRecords(changes[1..]) + [bad] + rest;
      BadRecordRefused(changes[1..], bad, rest);
      assert AllRecords(changes) + [bad] + rest == changes[0].Records() + more;
      DirtyFirst(changes[0], more);
    }
  }

  function Two(s: Bytes): (n: nat)
    ensures n <= |s| && (|s| >= 2 ==> n == 2)
  {
    if |s| < 2 then |s| else 2
  }
}
