/** A workspace's fingerprint from Git's listings: the index and the untracked paths are
    read, the visible bytes are fed to the digest, then the dirty paths are counted.
    (engine/fingerprint.py, compute) */
module WorkspaceFingerprint {
  import opened Text
  import opened Fingerprint
  import opened GitListing

  /** What Git prints: the staged lines, the untracked paths and the status. */
  datatype Listings = Listings(staged: Bytes, others: Bytes, status: Bytes)

  datatype Result = Authoritative(fed: Bytes, dirtyCount: nat) | Refusal(state: string)

  /** The records that are not empty. */
  function NonEmpty(records: seq<Bytes>): seq<Bytes>
    decreases |records|
  {
    if records == [] then []
    else
      var n := |records| - 1;
      NonEmpty(records[..n]) + (if records[n] == [] then [] else [records[n]])
  }

  /** The paths that the staged records keep. */
  function KeptPaths(records: seq<Bytes>): seq<Bytes>
    decreases |records|
  {
    if records == [] then []
    else
      var n := |records| - 1;
      KeptPaths(records[..n])
      + (match ParseRecord(records[n]) case Keep(path, _) => [path] case _ => [])
  }

  function Observed(git: Listings, read: Bytes -> Reading): Workspace {
    Workspace(KeptPaths(Split(git.staged, NUL)), NonEmpty(Split(git.others, NUL)), read)
  }

  /** The result, by the order in which things are looked at. */
  function Computed(git: Listings, read: Bytes -> Reading): Result {
    var index, w := IndexOf(Split(git.staged, NUL)), Observed(git, read);
    if index.Unusable? then Refusal(index.state)
    else
      var refused := FirstRefusal(w.Paths(), read);
      if refused.Some? then Refusal(refused.value)
      else
        var dirty := DirtyPaths(Split(git.status, NUL));
        if dirty.None? then Refusal("git-error") else Authoritative(Stream(w), |dirty.value|)
  }

  lemma {:induction false} KeptPathsAreKeys(records: seq<Bytes>)
    requires IndexOf(records).Staged?
    ensures forall q :: q in KeptPaths(records) <==> q in IndexOf(records).modes
    decreases |records|
  {
    hide ParseRecord;
    if records != [] {
      KeptPathsAreKeys(records[..|records| - 1]);
    }
  }

  /** The union of the indexed and the untracked paths, sorted. */
  method SortedUnion(keys: set<Bytes>, untracked: seq<Bytes>) returns (paths: seq<Bytes>)
    ensures Ascending(paths) && forall q :: q in paths <==> q in keys || q in untracked
  {
    hide InsertPath, SortedPaths, Less;
    SortedPathsSorts(untracked);
    paths := SortedPaths(untracked);
    var rest := keys;
    while rest != {}
      invariant rest <= keys && Ascending(paths)
      invariant forall q :: q in paths <==> q in keys - rest || q in untracked
      decreases |rest|
    {
      var p :| p in rest;
      InsertPathSorts(p, paths);
      paths := InsertPath(p, paths);
      rest := rest - {p};
    }
  }

  method Compute(git: Listings, read: Bytes -> Reading) returns (r: Result)
    ensures r == Computed(git, read)
  {
    hide SortedPaths, Less, Ascending, IndexOf, DirtyPaths, Split, KeptPaths, NonEmpty, Entries, EncodeEntries,
         FirstRefusal, Domain;
    var index := ParseIndex(git.staged);
    if index.Unusable? {
      return Refusal(index.state);
    }
    var untracked := NonEmpty(Split(git.others, NUL));
    var paths := SortedUnion(index.modes.Keys, untracked);
    ghost var w := Observed(git, read);
    KeptPathsAreKeys(Split(git.staged, NUL));
    SortedPathsSorts(w.index + w.untracked);
    AscendingIsUnique(paths, w.Paths());
    var refused, visible := ReadAll(paths, read);
    if refused.Some? {
      return Refusal(refused.value);
    }
    var body := Feed(visible);
    var dirty := DirtyCount(git.status);
    if dirty.None? {
      return Refusal("git-error");
    }
    r := Authoritative(Domain() + body, dirty.value);
  }

  /** Two authoritative results fed the digest the same bytes exactly when the
      workspaces show the same paths with the same bytes. */
  lemma SameFingerprintIff(git: Listings, read: Bytes -> Reading, git': Listings, read': Bytes -> Reading)
    requires Computed(git, read).Authoritative? && Computed(git', read').Authoritative?
    requires Bounded(Observed(git, read)) && Bounded(Observed(git', read'))
    ensures Computed(git, read).fed == Computed(git', read').fed
            <==> VisibleMap(Observed(git, read)) == VisibleMap(Observed(git', read'))
  {
    hide Stream, VisibleMap, Observed, DirtyPaths, FirstRefusal, IndexOf, Bounded;
    SameStreamIff(Observed(git, read), Observed(git', read'));
  }

  // ---- From what Git knows ----

  function PathsOf(lines: seq<Line>): (ps: seq<Bytes>)
    ensures |ps| == |lines|
  {
    seq(|lines|, i requires 0 <= i < |lines| => lines[i].path)
  }

  lemma {:induction false} KeptPathsOfLines(lines: seq<Line>)
    requires forall i :: 0 <= i < |lines| ==> lines[i].Valid() && lines[i].Accepted()
    ensures KeptPaths(Texts(lines)) == PathsOf(lines)
    decreases |lines|
  {
    hide ParseRecord, Line.Valid, Line.Text;
    if lines != [] {
      var n := |lines| - 1;
      assert Texts(lines)[..n] == Texts(lines[..n]);
      KeptPathsOfLines(lines[..n]);
      LineReadsBack(lines[n]);
    }
  }

  lemma {:induction false} NonEmptyKeeps(records: seq<Bytes>)
    requires forall i :: 0 <= i < |records| ==> records[i] != []
    ensures NonEmpty(records) == records
    decreases |records|
  {
    if records != [] {
      NonEmptyKeeps(records[..|records| - 1]);
    }
  }

  lemma LastRecordEmpty(records: seq<Bytes>)
    ensures KeptPaths(records + [[]]) == KeptPaths(records) && NonEmpty(records + [[]]) == NonEmpty(records)
  {
    hide ParseRecord;
    EmptyRecord();
    assert (records + [[]])[..|records|] == records;
  }

  /** From well-formed listings of acceptable lines, untracked paths and changes, the
      observation is exactly those paths, and the result counts exactly those changes. */
  lemma ComputedFromListings(lines: seq<Line>, untracked: seq<Bytes>, changes: seq<Change>, read: Bytes -> Reading)
    requires forall i :: 0 <= i < |lines| ==> lines[i].Valid() && lines[i].Accepted()
    requires NoNul(untracked) && forall i :: 0 <= i < |untracked| ==> untracked[i] != []
    requires AllValid(changes)
    ensures var git := Listings(Terminated(Texts(lines)), Terminated(untracked), Terminated(AllRecords(changes)));
            var w := Workspace(PathsOf(lines), untracked, read);
            && Observed(git, read) == w
            && Computed(git, read) == (var refused := FirstRefusal(w.Paths(), read);
                                       if refused.Some? then Refusal(refused.value)
                                       else Authoritative(Stream(w), |AllPaths(changes)|))
  {
    hide Split, Terminated, ParseRecord, Line.Valid, Line.Accepted, Line.Text, KeptPaths, NonEmpty, Stream,
         FirstRefusal, IndexOf, DirtyPaths, AllPaths, AllRecords;
    IndexReadsBack(lines);
    DirtyReadsBack(changes);
    forall i | 0 <= i < |lines| ensures NUL !in Texts(lines)[i] {
      TextHasNoNul(lines[i]);
    }
    SplitTerminated(Texts(lines));
    SplitTerminated(untracked);
    LastRecordEmpty(Texts(lines));
    LastRecordEmpty(untracked);
    KeptPathsOfLines(lines);
    NonEmptyKeeps(untracked);
  }
}
