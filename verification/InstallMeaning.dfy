/** What each lifecycle command leaves, file by file and entry by entry.
    (engine/install_manifest.py; the install sequence in gitreins/cli.py) */
module InstallMeaning {
  import opened Text
  import opened InstallLifecycle

  // ---- Whose hook it is ----

  lemma {:induction false} ContainsIff(s: string, part: string)
    ensures Contains(s, part) <==> exists i: nat :: StandsAt(s, part, i)
    decreases |s|
  {
    hide StandsAt;
    StandsFirst(s, part);
    if s != "" {
      ContainsIff(s[1..], part);
      if i: nat :| StandsAt(s[1..], part, i) {
        StandsLater(s, part, i);
      }
      if i: nat :| StandsAt(s, part, i) {
        if i > 0 {
          StandsLater(s, part, i - 1);
        }
      }
    } else if i: nat :| StandsAt(s, part, i) {
      StandsInside(s, part, i);
    }
  }

  lemma StandsFirst(s: string, part: string)
    ensures StandsAt(s, part, 0) <==> part <= s
  {
  }

  lemma StandsLater(s: string, part: string, i: nat)
    requires s != ""
    ensures StandsAt(s, part, i + 1) <==> StandsAt(s[1..], part, i)
  {
    if i + |part| <= |s| - 1 {
      assert s[i + 1..i + 1 + |part|] == s[1..][i..i + |part|];
    }
  }

  lemma StandsInside(s: string, part: string, i: nat)
    requires StandsAt(s, part, i)
    ensures i <= |s| && (s == "" ==> i == 0)
  {
  }

  predicate StandsAt(s: string, part: string, i: nat) {
    i + |part| <= |s| && s[i..i + |part|] == part
  }

  /** The marker stands whole in the first 4096 characters. */
  ghost predicate Marked(content: string) {
    exists i: nat :: i + 18 <= 4096 && StandsAt(content, "# gitreins-managed", i)
  }

  lemma ManagedIff(content: string)
    ensures Managed(content) <==> Marked(content)
  {
    hide Contains;
    var front := if |content| > 4096 then content[..4096] else content;
    ContainsIff(front, MANAGED_MARKER);
    assert |MANAGED_MARKER| == 18;
    forall i: nat ensures StandsAt(front, MANAGED_MARKER, i) <==> i + 18 <= 4096 && StandsAt(content, "# gitreins-managed", i) {
      if i + 18 <= |front| {
        assert front[i..i + 18] == content[i..i + 18];
      }
    }
  }

  // ---- Installing ----

  /** A hook of the user's that is about to be overwritten. */
  ghost predicate Foreign(files: Files, n: HookName) {
    Hook(n) in files && !Marked(files[Hook(n)])
  }

  /** Where an install at `now` keeps a foreign hook: at the first backup, unless there is one. */
  function KeepsAt(files: Files, n: HookName, now: nat): Path {
    if FirstBackup(n) in files then LaterBackup(n, now) else FirstBackup(n)
  }

  lemma DisplacedIff(files: Files, n: HookName, now: nat)
    ensures Displaced(files, n, now) == if Foreign(files, n) then Some(KeepsAt(files, n, now)) else None
  {
    hide Managed, Marked;
    if Hook(n) in files {
      ManagedIff(files[Hook(n)]);
    }
  }

  /** What an install leaves at every path: its own hooks, the configuration there was or
      else its own, what it displaced at its backup, and everything else as it was. */
  ghost function InstalledAt(files: Files, bodies: Bodies, config: string, now: nat, p: Path): Option<string> {
    match p
    case Hook(n) => Some(if n == PreCommit then bodies.preCommit else bodies.prePush)
    case Config => if Config in files then Some(files[Config]) else Some(config)
    case FirstBackup(n) => if Foreign(files, n) && KeepsAt(files, n, now) == p then Some(files[Hook(n)]) else At(files, p)
    case LaterBackup(n, _) => if Foreign(files, n) && KeepsAt(files, n, now) == p then Some(files[Hook(n)]) else At(files, p)
  }

  /** One hook put in place. */
  lemma WithHookLeaves(files: Files, n: HookName, body: string, now: nat, p: Path)
    ensures At(WithHook(files, n, body, now), p)
            == if p == Hook(n) then Some(body)
               else if Foreign(files, n) && p == KeepsAt(files, n, now) then Some(files[Hook(n)]) else At(files, p)
  {
    hide Displaced, Marked;
    DisplacedIff(files, n, now);
  }

  lemma TwoHooks(n: HookName)
    ensures n == PreCommit || n == PrePush
  {
  }

  lemma InstallLeaves(s: State, bodies: Bodies, config: string, now: nat, p: Path)
    ensures At(Installed(s, bodies, config, now).files, p) == InstalledAt(s.files, bodies, config, now, p)
  {
    hide Displaced, Refreshed, RecordedBackup, Marked, WithHook;
    var files0 := if Config in s.files then s.files else s.files[Config := config];
    var files1 := WithHook(files0, PreCommit, bodies.preCommit, now);
    forall q: Path
      ensures At(files1, q) == if q == Hook(PreCommit) then Some(bodies.preCommit)
                               else if Foreign(files0, PreCommit) && q == KeepsAt(files0, PreCommit, now)
                               then Some(files0[Hook(PreCommit)]) else At(files0, q)
    {
      WithHookLeaves(files0, PreCommit, bodies.preCommit, now, q);
    }
    WithHookLeaves(files1, PrePush, bodies.prePush, now, p);
    if !p.Config? {
      TwoHooks(p.name);
    }
    assert At(files1, Hook(PrePush)) == At(s.files, Hook(PrePush));
    assert At(files1, FirstBackup(PrePush)) == At(s.files, FirstBackup(PrePush));
  }

  /** The backup that the last entry for a path names, if any. */
  ghost predicate LastNamed(entries: seq<Artifact>, p: Path, backup: Option<Path>) {
    if exists i :: 0 <= i < |entries| && entries[i].path == p then
      exists i :: 0 <= i < |entries| && entries[i].path == p && entries[i].backup == backup
                  && forall j :: i < j < |entries| ==> entries[j].path != p
    else backup == None
  }

  lemma {:induction false} RecordedIsLast(entries: seq<Artifact>, p: Path)
    ensures LastNamed(entries, p, RecordedBackup(entries, p))
    decreases |entries|
  {
    if entries != [] {
      var n := |entries| - 1;
      if entries[n].path == p {
        assert LastNamed(entries, p, entries[n].backup);
      } else {
        RecordedIsLast(entries[..n], p);
        if i :| 0 <= i < |entries| && entries[i].path == p {
          assert entries[..n][i].path == p;
          var k :| 0 <= k < n && entries[..n][k].path == p && entries[..n][k].backup == RecordedBackup(entries[..n], p)
                   && forall j :: k < j < n ==> entries[..n][j].path != p;
          assert entries[k].path == p && entries[k].backup == RecordedBackup(entries, p);
          assert forall j :: k < j < |entries| ==> entries[j].path != p;
        }
      }
    }
  }

  /** An entry for a path with the content now there, and its backup: the one just made,
      or else the one recorded before. */
  ghost predicate Entry(a: Artifact, p: Path, kind: Kind, content: string, made: Option<Path>, previous: seq<Artifact>) {
    && a.path == p && a.kind == kind && a.sha == Some(content)
    && (if made.Some? then a.backup == made else LastNamed(previous, p, a.backup))
  }

  /** What an install records: both hooks and the configuration, and that it is armed. */
  lemma InstallRecords(s: State, bodies: Bodies, config: string, now: nat)
    ensures var m := Installed(s, bodies, config, now).manifest;
            var previous := if s.manifest.Some? then s.manifest.value.artifacts else [];
            && m.Some? && !m.value.disabled && |m.value.artifacts| == 3
            && Entry(m.value.artifacts[0], Hook(PreCommit), HookKind, bodies.preCommit,
                     if Foreign(s.files, PreCommit) then Some(KeepsAt(s.files, PreCommit, now)) else None, previous)
            && Entry(m.value.artifacts[1], Hook(PrePush), HookKind, bodies.prePush,
                     if Foreign(s.files, PrePush) then Some(KeepsAt(s.files, PrePush, now)) else None, previous)
            && Entry(m.value.artifacts[2], Config, ConfigKind,
                     if Config in s.files then s.files[Config] else config, None, previous)
  {
    hide Displaced, RecordedBackup, Marked, LastNamed;
    var files0 := if Config in s.files then s.files else s.files[Config := config];
    var files1 := WithHook(files0, PreCommit, bodies.preCommit, now);
    var previous := ReadManifest(s.manifest).artifacts;
    DisplacedIff(files0, PreCommit, now);
    DisplacedIff(files1, PrePush, now);
    RecordedIsLast(previous, Hook(PreCommit));
    RecordedIsLast(previous, Hook(PrePush));
    RecordedIsLast(previous, Config);
  }

  // ---- Enabling ----

  /** An enable leaves the hooks it is given at their paths and every other file alone, and
      is armed. */
  lemma EnableLeaves(s: State, hooks: map<HookName, string>, p: Path)
    ensures At(Enabled(s, hooks).files, p)
            == if p.Hook? && p.name in hooks then Some(hooks[p.name]) else At(s.files, p)
    ensures Enabled(s, hooks).manifest.Some? && !Enabled(s, hooks).manifest.value.disabled
  {
    hide Touched;
    if p.Hook? {
      TwoHooks(p.name);
    }
  }

  /** The first entry for the path says the new content and is otherwise as it was, or,
      when there was none, there is a new one at the end without a backup. */
  lemma {:induction false} TouchedIs(entries: seq<Artifact>, p: Path, sha: string)
    ensures var after := Touched(entries, p, sha);
            if exists i :: 0 <= i < |entries| && entries[i].path == p then
              exists i :: 0 <= i < |entries| && entries[i].path == p && (forall j :: 0 <= j < i ==> entries[j].path != p)
                          && after == entries[i := entries[i].(sha := Some(sha))]
            else after == entries + [Artifact(p, HookKind, Some(sha), None)]
    decreases |entries|
  {
    if entries != [] {
      if entries[0].path == p {
        assert entries[0 := entries[0].(sha := Some(sha))] == [entries[0].(sha := Some(sha))] + entries[1..];
      } else {
        TouchedIs(entries[1..], p, sha);
        if i :| 0 <= i < |entries| && entries[i].path == p {
          assert entries[1..][i - 1].path == p;
          var k :| 0 <= k < |entries[1..]| && entries[1..][k].path == p
                   && (forall j :: 0 <= j < k ==> entries[1..][j].path != p)
                   && Touched(entries[1..], p, sha) == entries[1..][k := entries[1..][k].(sha := Some(sha))];
          assert entries[k + 1].path == p && forall j :: 0 <= j < k + 1 ==> entries[j].path != p by {
            forall j | 0 <= j < k + 1 ensures entries[j].path != p {
              assert j > 0 ==> entries[j] == entries[1..][j - 1];
            }
          }
          assert entries[k + 1 := entries[k + 1].(sha := Some(sha))]
              == [entries[0]] + entries[1..][k := entries[1..][k].(sha := Some(sha))];
        } else {
          assert [entries[0]] + (entries[1..] + [Artifact(p, HookKind, Some(sha), None)])
              == entries + [Artifact(p, HookKind, Some(sha), None)];
          assert forall i :: 0 <= i < |entries[1..]| ==> entries[1..][i].path != p;
        }
      }
    }
  }

  // ---- Uninstalling ----

  /** The entries kept are those whose file is still there. */
  lemma {:induction false} RemainingAre(entries: seq<Artifact>, files: Files)
    ensures forall a :: multiset(Remaining(entries, files))[a] == if a.path in files then multiset(entries)[a] else 0
    decreases |entries|
  {
    if entries != [] {
      var n := |entries| - 1;
      RemainingAre(entries[..n], files);
      assert entries == entries[..n] + [entries[n]];
    }
  }

  // ---- Without a manifest, and dry runs ----

  /** Where nothing was recorded, a disable only says so, an enable only writes what it is
      given, and an uninstall does nothing; a dry run never does anything. */
  lemma NothingRecorded(files: Files, hooks: map<HookName, string>, s: State)
    ensures Disabled(State(files, None)) == State(files, Some(Manifest([], true)))
    ensures Uninstalled(State(files, None)) == State(files, None)
    ensures hooks == map[] ==> Enabled(State(files, None), hooks) == State(files, Some(Manifest([], false)))
    ensures Apply(s, Uninstall(false)) == s && Apply(s, Uninstall(true)) == Uninstalled(s)
  {
  }
}
