/** The byte stream a workspace fingerprint hashes. The digest stands for the bytes
    fed to it. (engine/fingerprint.py, compute) */
module Fingerprint {
  import opened Text

  type byte = b: int | 0 <= b < 256
  type Bytes = seq<byte>

  // ---- Lengths: eight bytes, most significant first ----

  function Pow256(k: nat): (p: nat)
    ensures p >= 1
  {
    if k == 0 then 1 else 256 * Pow256(k - 1)
  }

  function BigEndian(n: nat, k: nat): (s: Bytes)
    ensures |s| == k
  {
    if k == 0 then [] else BigEndian(n / 256, k - 1) + [n % 256]
  }

  function FromBigEndian(s: Bytes): nat {
    if s == [] then 0 else 256 * FromBigEndian(s[..|s| - 1]) + s[|s| - 1]
  }

  lemma {:induction false} BigEndianRoundTrip(n: nat, k: nat)
    requires n < Pow256(k)
    ensures FromBigEndian(BigEndian(n, k)) == n
  {
    if k > 0 {
      BigEndianRoundTrip(n / 256, k - 1);
      var s := BigEndian(n, k);
      assert s[..|s| - 1] == BigEndian(n / 256, k - 1);
    }
  }

  /** Lengths the eight bytes can hold. */
  const LENGTH_LIMIT: nat := 0x1_0000_0000_0000_0000

  lemma LengthLimitIsPow()
    ensures Pow256(8) == LENGTH_LIMIT
  {
    assert Pow256(2) == 256 * Pow256(1) == 0x1_0000;
    assert Pow256(4) == 256 * Pow256(3) == 256 * (256 * Pow256(2)) == 0x1_0000_0000;
    assert Pow256(6) == 256 * Pow256(5) == 256 * (256 * Pow256(4)) == 0x1_0000_0000_0000;
    assert Pow256(8) == 256 * Pow256(7) == 256 * (256 * Pow256(6)) == 0x1_0000_0000_0000_0000;
  }

  function Prefixed(s: Bytes): Bytes {
    BigEndian(|s|, 8) + s
  }

  /** Cut one length-prefixed field off the front. */
  function TakeField(s: Bytes): (r: Option<(Bytes, Bytes)>)
    ensures r.Some? ==> |r.value.1| < |s|
  {
    if |s| < 8 then None
    else
      var n := FromBigEndian(s[..8]);
      if |s| < 8 + n then None else Some((s[8..8 + n], s[8 + n..]))
  }

  lemma TakeFieldOfPrefixed(s: Bytes, rest: Bytes)
    requires |s| < LENGTH_LIMIT
    ensures TakeField(Prefixed(s) + rest) == Some((s, rest))
  {
    hide FromBigEndian, BigEndian, Pow256;
    var all := Prefixed(s) + rest;
    LengthLimitIsPow();
    BigEndianRoundTrip(|s|, 8);
    assert all[..8] == BigEndian(|s|, 8);
    assert all[8..8 + |s|] == s && all[8 + |s|..] == rest;
  }

  // ---- Paths in order ----

  /** The lexicographic order of byte strings. */
  predicate Less(a: Bytes, b: Bytes) {
    b != [] && (a == [] || a[0] < b[0] || (a[0] == b[0] && Less(a[1..], b[1..])))
  }

  /** The first `i` bytes agree, and then the one ends or has the smaller byte. */
  predicate BreaksAt(a: Bytes, b: Bytes, i: nat) {
    && i < |b| && i <= |a| && a[..i] == b[..i]
    && (i == |a| || a[i] < b[i])
  }

  /** The order is the dictionary's. */
  lemma {:induction false} LessIff(a: Bytes, b: Bytes)
    ensures Less(a, b) <==> exists i: nat :: BreaksAt(a, b, i)
  {
    if a == [] || b == [] || a[0] != b[0] {
      if Less(a, b) {
        assert BreaksAt(a, b, 0);
      }
      if i: nat :| BreaksAt(a, b, i) {
        assert i > 0 ==> a[..i][0] == b[..i][0];
      }
    } else {
      LessIff(a[1..], b[1..]);
      if i: nat :| BreaksAt(a[1..], b[1..], i) {
        assert a[..i + 1] == [a[0]] + a[1..][..i] && b[..i + 1] == [b[0]] + b[1..][..i];
        assert BreaksAt(a, b, i + 1);
      }
      if i: nat :| BreaksAt(a, b, i) {
        assert i > 0;
        assert a[1..][..i - 1] == a[..i][1..] && b[1..][..i - 1] == b[..i][1..];
        assert BreaksAt(a[1..], b[1..], i - 1);
      }
    }
  }

  lemma {:induction false} LessTransitive(a: Bytes, b: Bytes, c: Bytes)
    requires Less(a, b) && Less(b, c)
    ensures Less(a, c)
  {
    if a != [] && a[0] == b[0] == c[0] {
      LessTransitive(a[1..], b[1..], c[1..]);
    }
  }

  lemma {:induction false} LessTotal(a: Bytes, b: Bytes)
    ensures Less(a, b) || a == b || Less(b, a)
    ensures !(Less(a, b) && Less(b, a)) && !Less(a, a)
  {
    if a != [] && b != [] && a[0] == b[0] {
      LessTotal(a[1..], b[1..]);
      assert a == [a[0]] + a[1..] && b == [b[0]] + b[1..];
    }
    if a != [] {
      LessTotal(a[1..], a[1..]);
    }
  }

  predicate Ascending(s: seq<Bytes>) {
    forall i, j :: 0 <= i < j < |s| ==> Less(s[i], s[j])
  }

  function InsertPath(p: Bytes, s: seq<Bytes>): seq<Bytes>
    decreases |s|
  {
    if s == [] then [p]
    else if p == s[0] then s
    else if Less(p, s[0]) then [p] + s
    else [s[0]] + InsertPath(p, s[1..])
  }

  /** Each listed path once, in order. */
  function SortedPaths(paths: seq<Bytes>): seq<Bytes>
    decreases |paths|
  {
    if paths == [] then [] else InsertPath(paths[0], SortedPaths(paths[1..]))
  }

  lemma {:induction false} InsertPathSorts(p: Bytes, s: seq<Bytes>)
    requires Ascending(s)
    ensures Ascending(InsertPath(p, s))
    ensures forall q :: q in InsertPath(p, s) <==> q == p || q in s
    decreases |s|
  {
    hide Less;
    if s != [] && p != s[0] {
      if Less(p, s[0]) {
        forall j | 0 <= j < |s| ensures Less(p, s[j]) {
          if j > 0 {
            LessTransitive(p, s[0], s[j]);
          }
        }
      } else {
        LessTotal(p, s[0]);
        InsertPathSorts(p, s[1..]);
        var rest := InsertPath(p, s[1..]);
        forall j | 0 <= j < |rest| ensures Less(s[0], rest[j]) {
          assert rest[j] in rest;
          assert rest[j] == p || rest[j] in s[1..];
        }
      }
    }
  }

  lemma {:induction false} SortedPathsSorts(paths: seq<Bytes>)
    ensures Ascending(SortedPaths(paths))
    ensures forall q :: q in SortedPaths(paths) <==> q in paths
    decreases |paths|
  {
    if paths != [] {
      SortedPathsSorts(paths[1..]);
      InsertPathSorts(paths[0], SortedPaths(paths[1..]));
    }
  }

  lemma SomeMember(s: seq<Bytes>)
    requires s != []
    ensures exists q :: q in s
  {
    assert s[0] in s;
  }

  /** A set of paths has one ascending listing. */
  lemma {:induction false} AscendingIsUnique(s: seq<Bytes>, t: seq<Bytes>)
    requires Ascending(s) && Ascending(t) && (forall q :: q in s <==> q in t)
    ensures s == t
    decreases |s|
  {
    hide Less;
    if s == [] {
      if t != [] {
        SomeMember(t);
        assert false;
      }
    } else {
      assert s[0] in t && t != [] && t[0] in s;
      SameFirst(s, t);
      forall q ensures q in s[1..] <==> q in t[1..] {
        TailMembers(s, q);
        TailMembers(t, q);
      }
      AscendingIsUnique(s[1..], t[1..]);
    }
  }

  lemma SameFirst(s: seq<Bytes>, t: seq<Bytes>)
    requires Ascending(s) && Ascending(t) && s != [] && t != [] && s[0] in t && t[0] in s
    ensures s[0] == t[0]
  {
    hide Less;
    LessTotal(s[0], t[0]);
  }

  lemma TailMembers(s: seq<Bytes>, q: Bytes)
    requires Ascending(s) && s != []
    ensures q in s[1..] <==> q in s && q != s[0]
  {
    hide Less;
    LessTotal(s[0], s[0]);
  }

  // ---- The stream ----

  /** One visible path with its bytes. */
  datatype Entry = Entry(path: Bytes, content: Bytes)

  function EncodeEntry(e: Entry): Bytes {
    Prefixed(e.path) + Prefixed(e.content)
  }

  function EncodeEntries(es: seq<Entry>): Bytes {
    if es == [] then [] else EncodeEntry(es[0]) + EncodeEntries(es[1..])
  }

  function DecodeEntries(s: Bytes): Option<seq<Entry>>
    decreases |s|
  {
    if s == [] then Some([])
    else
      var path := TakeField(s);
      if path.None? then None
      else
        var content := TakeField(path.value.1);
        if content.None? then None
        else
          var rest := DecodeEntries(content.value.1);
          if rest.None? then None else Some([Entry(path.value.0, content.value.0)] + rest.value)
  }

  predicate Encodable(es: seq<Entry>) {
    forall i :: 0 <= i < |es| ==> |es[i].path| < LENGTH_LIMIT && |es[i].content| < LENGTH_LIMIT
  }

  /** The layout can be read back. */
  lemma {:induction false} DecodeOfEncode(es: seq<Entry>)
    requires Encodable(es)
    ensures DecodeEntries(EncodeEntries(es)) == Some(es)
    decreases |es|
  {
    hide TakeField, BigEndian;
    if es != [] {
      var s, rest := EncodeEntries(es), EncodeEntries(es[1..]);
      assert s == Prefixed(es[0].path) + (Prefixed(es[0].content) + rest);
      assert s != [];
      TakeFieldOfPrefixed(es[0].path, Prefixed(es[0].content) + rest);
      TakeFieldOfPrefixed(es[0].content, rest);
      DecodeOfEncode(es[1..]);
      assert es == [Entry(es[0].path, es[0].content)] + es[1..];
    }
  }

  const DOMAIN_TEXT := "gitreins-working-tree-content-v1\0"

  function Domain(): Bytes {
    seq(|DOMAIN_TEXT|, i requires 0 <= i < |DOMAIN_TEXT| => DOMAIN_TEXT[i] as int % 256)
  }

  /** What reading a listed path yields: its bytes, nothing (a deletion or a
      directory), or a reason to refuse the whole observation. */
  datatype Reading = Visible(content: Bytes) | Gone | Refused(state: string)

  datatype Workspace = Workspace(index: seq<Bytes>, untracked: seq<Bytes>, read: Bytes -> Reading)
  {
    function Paths(): seq<Bytes> { SortedPaths(index + untracked) }
  }

  /** The visible entries among `paths`, in the order given. */
  function Entries(paths: seq<Bytes>, read: Bytes -> Reading): seq<Entry>
    decreases |paths|
  {
    if paths == [] then []
    else
      var n := |paths| - 1;
      Entries(paths[..n], read) + (if read(paths[n]).Visible? then [Entry(paths[n], read(paths[n]).content)] else [])
  }

  /** The first refusal met, in order. */
  function FirstRefusal(paths: seq<Bytes>, read: Bytes -> Reading): Option<string>
    decreases |paths|
  {
    if paths == [] then None
    else if read(paths[0]).Refused? then Some(read(paths[0]).state)
    else FirstRefusal(paths[1..], read)
  }

  function Stream(w: Workspace): Bytes {
    Domain() + EncodeEntries(Entries(w.Paths(), w.read))
  }

  /** What the workspace shows: path to bytes. */
  ghost function VisibleMap(w: Workspace): map<Bytes, Bytes> {
    map p | p in w.index + w.untracked && w.read(p).Visible? :: w.read(p).content
  }

  /** Read the listed paths in order, up to the first refusal. */
  method ReadAll(paths: seq<Bytes>, read: Bytes -> Reading) returns (refused: Option<string>, visible: seq<Entry>)
    ensures refused == FirstRefusal(paths, read)
    ensures refused.None? ==> visible == Entries(paths, read)
  {
    visible := [];
    var i := 0;
    while i < |paths|
      invariant i <= |paths| && visible == Entries(paths[..i], read)
      invariant FirstRefusal(paths, read) == FirstRefusal(paths[i..], read)
    {
      var reading := read(paths[i]);
      NextRefusal(paths, i, read);
      if reading.Refused? {
        return Some(reading.state), visible;
      }
      if reading.Visible? {
        visible := visible + [Entry(paths[i], reading.content)];
      }
      i := i + 1;
      assert paths[..i][..i - 1] == paths[..i - 1];
    }
    assert paths[..i] == paths && paths[i..] == [];
    refused := None;
  }

  lemma NextRefusal(paths: seq<Bytes>, i: nat, read: Bytes -> Reading)
    requires i < |paths|
    ensures FirstRefusal(paths[i..], read)
            == if read(paths[i]).Refused? then Some(read(paths[i]).state) else FirstRefusal(paths[i + 1..], read)
  {
    assert paths[i..][0] == paths[i] && paths[i..][1..] == paths[i + 1..];
  }

  /** Feed each entry in four pieces. */
  method Feed(es: seq<Entry>) returns (fed: Bytes)
    ensures fed == EncodeEntries(es)
  {
    hide BigEndian;
    fed := [];
    var i := 0;
    while i < |es|
      invariant i <= |es| && fed + EncodeEntries(es[i..]) == EncodeEntries(es)
    {
      ghost var before := fed;
      fed := fed + BigEndian(|es[i].path|, 8);
      fed := fed + es[i].path;
      fed := fed + BigEndian(|es[i].content|, 8);
      fed := fed + es[i].content;
      assert fed == before + EncodeEntry(es[i]);
      NextEntry(before, es, i);
      i := i + 1;
    }
    assert es[i..] == [] && fed + [] == fed;
  }

  lemma NextEntry(before: Bytes, es: seq<Entry>, i: nat)
    requires i < |es|
    ensures before + EncodeEntry(es[i]) + EncodeEntries(es[i + 1..]) == before + EncodeEntries(es[i..])
  {
    hide EncodeEntry;
    assert es[i..][0] == es[i] && es[i..][1..] == es[i + 1..];
  }

  // ---- Equal streams are equal workspaces ----

  /** The visible paths, in the order given. */
  function VisiblePaths(paths: seq<Bytes>, read: Bytes -> Reading): seq<Bytes>
    decreases |paths|
  {
    if paths == [] then []
    else
      var n := |paths| - 1;
      VisiblePaths(paths[..n], read) + (if read(paths[n]).Visible? then [paths[n]] else [])
  }

  lemma {:induction false} EntriesShape(paths: seq<Bytes>, read: Bytes -> Reading)
    ensures var es, ps := Entries(paths, read), VisiblePaths(paths, read);
            |es| == |ps| && forall i :: 0 <= i < |es| ==> read(ps[i]).Visible? && es[i] == Entry(ps[i], read(ps[i]).content)
    decreases |paths|
  {
    if paths != [] {
      EntriesShape(paths[..|paths| - 1], read);
    }
  }

  lemma {:induction false} VisiblePathsMembers(paths: seq<Bytes>, read: Bytes -> Reading, q: Bytes)
    ensures q in VisiblePaths(paths, read) <==> q in paths && read(q).Visible?
    decreases |paths|
  {
    if paths != [] {
      var n := |paths| - 1;
      VisiblePathsMembers(paths[..n], read, q);
      assert paths == paths[..n] + [paths[n]];
    }
  }

  /** Leaving out the paths that are not visible keeps the order. */
  lemma {:induction false} VisiblePathsAscend(paths: seq<Bytes>, read: Bytes -> Reading)
    requires Ascending(paths)
    ensures Ascending(VisiblePaths(paths, read))
    decreases |paths|
  {
    hide Less;
    if paths != [] {
      var n := |paths| - 1;
      VisiblePathsAscend(paths[..n], read);
      var before := VisiblePaths(paths[..n], read);
      forall i | 0 <= i < |before| ensures Less(before[i], paths[n]) {
        VisiblePathsMembers(paths[..n], read, before[i]);
      }
    }
  }

  /** The visible paths of a workspace are the ascending listing of its map. */
  lemma VisiblePathsOf(w: Workspace)
    ensures var ps := VisiblePaths(w.Paths(), w.read);
            Ascending(ps) && forall q :: q in ps <==> q in VisibleMap(w)
  {
    hide Less, SortedPaths, Ascending;
    SortedPathsSorts(w.index + w.untracked);
    VisiblePathsAscend(w.Paths(), w.read);
    forall q ensures q in VisiblePaths(w.Paths(), w.read) <==> q in VisibleMap(w) {
      VisiblePathsMembers(w.Paths(), w.read, q);
    }
  }

  /** The entries determine the map and the map determines the entries. */
  lemma EntriesAreTheMap(v: Workspace, w: Workspace)
    ensures Entries(v.Paths(), v.read) == Entries(w.Paths(), w.read) <==> VisibleMap(v) == VisibleMap(w)
  {
    hide Less, SortedPaths, Ascending, Entries, VisiblePaths;
    var ps, qs := VisiblePaths(v.Paths(), v.read), VisiblePaths(w.Paths(), w.read);
    VisiblePathsOf(v);
    VisiblePathsOf(w);
    EntriesShape(v.Paths(), v.read);
    EntriesShape(w.Paths(), w.read);
    if VisibleMap(v) == VisibleMap(w) {
      AscendingIsUnique(ps, qs);
      forall i | 0 <= i < |ps| ensures v.read(ps[i]).content == w.read(ps[i]).content {
        assert ps[i] in ps;
        assert VisibleMap(v)[ps[i]] == VisibleMap(w)[ps[i]];
      }
    }
    if Entries(v.Paths(), v.read) == Entries(w.Paths(), w.read) {
      assert ps == qs by {
        forall i | 0 <= i < |ps| ensures ps[i] == qs[i] {
          assert Entries(v.Paths(), v.read)[i] == Entries(w.Paths(), w.read)[i];
        }
      }
      forall p | p in VisibleMap(v) ensures VisibleMap(v)[p] == VisibleMap(w)[p] {
        var i :| 0 <= i < |ps| && ps[i] == p;
        assert Entries(v.Paths(), v.read)[i] == Entries(w.Paths(), w.read)[i];
      }
    }
  }

  predicate Bounded(w: Workspace) {
    Encodable(Entries(w.Paths(), w.read))
  }

  /** Two workspaces feed the digest the same bytes exactly when they show the same
      paths with the same bytes. */
  lemma SameStreamIff(v: Workspace, w: Workspace)
    requires Bounded(v) && Bounded(w)
    ensures Stream(v) == Stream(w) <==> VisibleMap(v) == VisibleMap(w)
  {
    hide Entries, EncodeEntries, DecodeEntries, VisibleMap, Domain;
    var es, es' := Entries(v.Paths(), v.read), Entries(w.Paths(), w.read);
    EntriesAreTheMap(v, w);
    if Stream(v) == Stream(w) {
      AfterDomain(EncodeEntries(es));
      AfterDomain(EncodeEntries(es'));
      DecodeOfEncode(es);
      DecodeOfEncode(es');
    }
  }

  lemma AfterDomain(body: Bytes)
    ensures (Domain() + body)[|Domain()|..] == body
  {
    hide Domain;
  }

  /** Staging or unstaging a path, or listing the paths in another order, changes
      nothing, not even which refusal is met first. */
  lemma StagingIsInvisible(v: Workspace, w: Workspace)
    requires v.read == w.read && forall p :: p in v.index + v.untracked <==> p in w.index + w.untracked
    ensures Stream(v) == Stream(w) && FirstRefusal(v.Paths(), v.read) == FirstRefusal(w.Paths(), w.read)
  {
    hide SortedPaths, Ascending, Less, Domain, Entries, EncodeEntries, FirstRefusal;
    SortedPathsSorts(v.index + v.untracked);
    SortedPathsSorts(w.index + w.untracked);
    AscendingIsUnique(v.Paths(), w.Paths());
  }
}
