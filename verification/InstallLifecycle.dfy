/** Install, disable, enable and uninstall: which files the harness owns and how it
    hands the user's own hooks back.
    (engine/install_manifest.py; the install sequence in gitreins/cli.py) */
module InstallLifecycle {
  import opened Text

  datatype HookName = PreCommit | PrePush

  /** The files the lifecycle touches; the manifest itself is kept apart. */
  datatype Path =
    | Hook(name: HookName)
    | FirstBackup(name: HookName)
    | LaterBackup(name: HookName, at: nat)
    | Config

  type Files = map<Path, string>

  datatype Kind = HookKind | ConfigKind

  /** One file the harness owns; a recorded hash stands for the content hashed. */
  datatype Artifact = Artifact(path: Path, kind: Kind, sha: Option<string>, backup: Option<Path>)

  datatype Manifest = Manifest(artifacts: seq<Artifact>, disabled: bool)

  datatype State = State(files: Files, manifest: Option<Manifest>)

  datatype Bodies = Bodies(preCommit: string, prePush: string)

  function At(files: Files, p: Path): Option<string> {
    if p in files then Some(files[p]) else None
  }

  const MANAGED_MARKER := "# gitreins-managed"

  predicate Contains(s: string, part: string) {
    part <= s || (s != [] && Contains(s[1..], part))
  }

  /** The ownership marker stands in the first 4096 characters. */
  predicate Managed(content: string) {
    Contains(if |content| > 4096 then content[..4096] else content, MANAGED_MARKER)
  }

  function ReadManifest(m: Option<Manifest>): Manifest {
    m.GetOr(Manifest([], false))
  }

  // ---- Installing ----

  /** Where a displaced hook is copied: never over an earlier first backup. */
  function Displaced(files: Files, n: HookName, now: nat): Option<Path> {
    if Hook(n) !in files || Managed(files[Hook(n)]) then None
    else if FirstBackup(n) in files then Some(LaterBackup(n, now))
    else Some(FirstBackup(n))
  }

  function WithHook(files: Files, n: HookName, body: string, now: nat): Files {
    var backup := Displaced(files, n, now);
    (if backup.Some? then files[backup.value := files[Hook(n)]] else files)[Hook(n) := body]
  }

  /** The backup of the last entry recorded for a path. */
  function RecordedBackup(artifacts: seq<Artifact>, p: Path): Option<Path>
    decreases |artifacts|
  {
    if artifacts == [] then None
    else
      var a := artifacts[|artifacts| - 1];
      if a.path == p then a.backup else RecordedBackup(artifacts[..|artifacts| - 1], p)
  }

  /** A new entry keeps the backup already recorded when it has none of its own. */
  function Refreshed(a: Artifact, previous: seq<Artifact>): Artifact {
    if a.backup.None? then a.(backup := RecordedBackup(previous, a.path)) else a
  }

  function Installed(s: State, bodies: Bodies, config: string, now: nat): State {
    var files0 := if Config in s.files then s.files else s.files[Config := config];
    var files1 := WithHook(files0, PreCommit, bodies.preCommit, now);
    var files2 := WithHook(files1, PrePush, bodies.prePush, now);
    var previous := ReadManifest(s.manifest).artifacts;
    State(files2, Some(Manifest([
      Refreshed(Artifact(Hook(PreCommit), HookKind, Some(bodies.preCommit), Displaced(files0, PreCommit, now)), previous),
      Refreshed(Artifact(Hook(PrePush), HookKind, Some(bodies.prePush), Displaced(files1, PrePush, now)), previous),
      Refreshed(Artifact(Config, ConfigKind, Some(files0[Config]), None), previous)], false)))
  }

  // ---- Disabling ----

  /** Hand one hook back: its backup when there is one, else no hook at all. */
  function HandedBack(files: Files, a: Artifact): Files {
    if a.backup.Some? && a.backup.value in files then files[a.path := files[a.backup.value]]
    else files - {a.path}
  }

  function DisabledFiles(files: Files, artifacts: seq<Artifact>): Files
    decreases |artifacts|
  {
    if artifacts == [] then files
    else
      var a, before := artifacts[|artifacts| - 1], DisabledFiles(files, artifacts[..|artifacts| - 1]);
      if a.kind.HookKind? then HandedBack(before, a) else before
  }

  function Disabled(s: State): State {
    var m := ReadManifest(s.manifest);
    if m.disabled then s else State(DisabledFiles(s.files, m.artifacts), Some(m.(disabled := true)))
  }

  // ---- Enabling ----

  /** The hash of the first entry for a path refreshed, or a new entry. */
  function Touched(artifacts: seq<Artifact>, p: Path, sha: string): seq<Artifact> {
    if artifacts == [] then [Artifact(p, HookKind, Some(sha), None)]
    else if artifacts[0].path == p then [artifacts[0].(sha := Some(sha))] + artifacts[1..]
    else [artifacts[0]] + Touched(artifacts[1..], p, sha)
  }

  function Rearmed(s: State, n: HookName, hooks: map<HookName, string>): State {
    if n !in hooks then s
    else
      var m := ReadManifest(s.manifest);
      State(s.files[Hook(n) := hooks[n]], Some(m.(artifacts := Touched(m.artifacts, Hook(n), hooks[n]))))
  }

  function Enabled(s: State, hooks: map<HookName, string>): State {
    var s' := Rearmed(Rearmed(s, PreCommit, hooks), PrePush, hooks);
    State(s'.files, Some(ReadManifest(s'.manifest).(disabled := false)))
  }

  // ---- Uninstalling, without purging ----

  function Removed(files: Files, a: Artifact): Files {
    match a.kind
    case HookKind => HandedBack(files, a)
    case ConfigKind =>
      if a.path in files && a.sha.Some? && files[a.path] != a.sha.value then files else files - {a.path}
  }

  function UninstalledFiles(files: Files, artifacts: seq<Artifact>): Files
    decreases |artifacts|
  {
    if artifacts == [] then files
    else Removed(UninstalledFiles(files, artifacts[..|artifacts| - 1]), artifacts[|artifacts| - 1])
  }

  /** The entries whose file is still there. */
  function Remaining(artifacts: seq<Artifact>, files: Files): seq<Artifact>
    decreases |artifacts|
  {
    if artifacts == [] then []
    else
      var a := artifacts[|artifacts| - 1];
      Remaining(artifacts[..|artifacts| - 1], files) + (if a.path in files then [a] else [])
  }

  function Uninstalled(s: State): State {
    var m := ReadManifest(s.manifest);
    var files := UninstalledFiles(s.files, m.artifacts);
    State(files, if s.manifest.None? then None else Some(m.(artifacts := Remaining(m.artifacts, files))))
  }

  // ---- The commands, in place ----

  class Repo {
    var files: Files
    var manifest: Option<Manifest>

    constructor (files: Files)
      ensures this.files == files && manifest == None
    {
      this.files, manifest := files, None;
    }

    function Now(): State
      reads this
    {
      State(files, manifest)
    }

    method BackupDisplaced(n: HookName, now: nat) returns (backup: Option<Path>)
      modifies this`files
      ensures backup == Displaced(old(files), n, now)
      ensures files == if backup.Some? then old(files)[backup.value := old(files)[Hook(n)]] else old(files)
    {
      hide Managed;
      if Hook(n) !in files || Managed(files[Hook(n)]) {
        return None;
      }
      var target := FirstBackup(n);
      if target in files {
        target := LaterBackup(n, now);
      }
      files := files[target := files[Hook(n)]];
      backup := Some(target);
    }

    method RecordInstall(artifacts: seq<Artifact>)
      modifies this`manifest
      ensures manifest.Some? && !manifest.value.disabled
      ensures manifest.value.artifacts == seq(|artifacts|, i requires 0 <= i < |artifacts| =>
                Refreshed(artifacts[i], old(ReadManifest(manifest).artifacts)))
    {
      var previous := ReadManifest(manifest).artifacts;
      var entries: seq<Artifact> := [];
      var i := 0;
      while i < |artifacts|
        invariant i <= |artifacts| && |entries| == i
        invariant forall j :: 0 <= j < i ==> entries[j] == Refreshed(artifacts[j], previous)
      {
        var entry := artifacts[i];
        if entry.backup.None? {
          entry := entry.(backup := RecordedBackup(previous, entry.path));
        }
        entries := entries + [entry];
        i := i + 1;
      }
      manifest := Some(Manifest(entries, false));
    }

    method Install(bodies: Bodies, config: string, now: nat)
      modifies this
      ensures Now() == Installed(old(Now()), bodies, config, now)
    {
      hide Managed, Refreshed, ReadManifest;
      ghost var previous := ReadManifest(manifest).artifacts;
      if Config !in files {
        files := files[Config := config];
      }
      ghost var files0 := files;
      var backup := BackupDisplaced(PreCommit, now);
      files := files[Hook(PreCommit) := bodies.preCommit];
      var artifacts := [Artifact(Hook(PreCommit), HookKind, Some(bodies.preCommit), backup)];
      ghost var files1 := files;
      assert files1 == WithHook(files0, PreCommit, bodies.preCommit, now) && Config in files1;
      backup := BackupDisplaced(PrePush, now);
      files := files[Hook(PrePush) := bodies.prePush];
      artifacts := artifacts + [Artifact(Hook(PrePush), HookKind, Some(bodies.prePush), backup)];
      assert files == WithHook(files1, PrePush, bodies.prePush, now) && files[Config] == files0[Config];
      artifacts := artifacts + [Artifact(Config, ConfigKind, Some(files[Config]), None)];
      RecordInstall(artifacts);
      assert manifest.value.artifacts
          == [Refreshed(artifacts[0], previous), Refreshed(artifacts[1], previous), Refreshed(artifacts[2], previous)];
    }

    method Disable()
      modifies this
      ensures Now() == Disabled(old(Now()))
    {
      var m := ReadManifest(manifest);
      if m.disabled {
        return;
      }
      var i := 0;
      while i < |m.artifacts|
        invariant i <= |m.artifacts| && files == DisabledFiles(old(files), m.artifacts[..i])
      {
        var entry := m.artifacts[i];
        assert m.artifacts[..i + 1][..i] == m.artifacts[..i];
        if entry.kind.HookKind? {
          if entry.backup.Some? && entry.backup.value in files {
            files := files[entry.path := files[entry.backup.value]];
          } else {
            files := files - {entry.path};
          }
        }
        i := i + 1;
      }
      assert m.artifacts[..i] == m.artifacts;
      manifest := Some(m.(disabled := true));
    }

    method Rearm(n: HookName, hooks: map<HookName, string>)
      modifies this
      ensures Now() == Rearmed(old(Now()), n, hooks)
    {
      if n in hooks {
        files := files[Hook(n) := hooks[n]];
        var m := ReadManifest(manifest);
        manifest := Some(m.(artifacts := Touched(m.artifacts, Hook(n), hooks[n])));
      }
    }

    method Enable(hooks: map<HookName, string>)
      modifies this
      ensures Now() == Enabled(old(Now()), hooks)
    {
      Rearm(PreCommit, hooks);
      Rearm(PrePush, hooks);
      manifest := Some(ReadManifest(manifest).(disabled := false));
    }

    method Uninstall(apply: bool)
      modifies this
      ensures Now() == if apply then Uninstalled(old(Now())) else old(Now())
    {
      if !apply {
        return;
      }
      var m := ReadManifest(manifest);
      var i := 0;
      while i < |m.artifacts|
        invariant i <= |m.artifacts| && manifest == old(manifest)
        invariant files == UninstalledFiles(old(files), m.artifacts[..i])
      {
        var entry := m.artifacts[i];
        assert m.artifacts[..i + 1][..i] == m.artifacts[..i];
        if entry.kind.HookKind? {
          if entry.backup.Some? && entry.backup.value in files {
            files := files[entry.path := files[entry.backup.value]];
          } else {
            files := files - {entry.path};
          }
        } else if !(entry.path in files && entry.sha.Some? && files[entry.path] != entry.sha.value) {
          files := files - {entry.path};
        }
        i := i + 1;
      }
      assert m.artifacts[..i] == m.artifacts;
      if manifest.Some? {
        manifest := Some(m.(artifacts := Remaining(m.artifacts, files)));
      }
    }
  }

  // ---- What every command keeps ----

  predicate IsBackupOf(p: Path, n: HookName) {
    p == FirstBackup(n) || (p.LaterBackup? && p.name == n)
  }

  predicate HasEntry(artifacts: seq<Artifact>, p: Path) {
    exists i :: 0 <= i < |artifacts| && artifacts[i].path == p
  }

  /** A hook's entry names a backup of it exactly when there was a hook to displace. */
  predicate EntryKept(files: Files, a: Artifact, n: HookName, original: Option<string>) {
    && (a.kind.HookKind? ==> a.path.Hook?) && (a.kind.ConfigKind? ==> a.path.Config?)
    && (a.path == Hook(n) ==>
          if original.Some? then a.backup.Some? && IsBackupOf(a.backup.value, n) && a.backup.value in files
          else a.backup.None?)
  }

  predicate EntriesKept(files: Files, artifacts: seq<Artifact>, n: HookName, original: Option<string>) {
    forall i :: 0 <= i < |artifacts| ==> EntryKept(files, artifacts[i], n, original)
  }

  /** Every backup of the hook holds the original, byte for byte. */
  predicate BackupsKept(files: Files, n: HookName, original: Option<string>) {
    && (original.Some? ==> FirstBackup(n) in files)
    && forall p :: p in files && IsBackupOf(p, n) ==> original == Some(files[p])
  }

  /** The hook file is the user's original or the harness's own. */
  predicate HookFileKept(files: Files, n: HookName, original: Option<string>) {
    && (original.Some? ==> Hook(n) in files && !Managed(original.value))
    && (Hook(n) in files ==> original == Some(files[Hook(n)]) || Managed(files[Hook(n)]))
  }

  predicate Held(s: State, n: HookName, original: Option<string>) {
    && s.manifest.Some?
    && EntriesKept(s.files, s.manifest.value.artifacts, n, original)
    && BackupsKept(s.files, n, original) && HookFileKept(s.files, n, original)
    && (Hook(n) in s.files ==> HasEntry(s.manifest.value.artifacts, Hook(n)))
  }

  /** While disabled the original is in place. */
  predicate Kept(s: State, n: HookName, original: Option<string>) {
    Held(s, n, original) && (s.manifest.value.disabled ==> At(s.files, Hook(n)) == original)
  }

  datatype Op =
    | Install(bodies: Bodies, config: string, now: nat)
    | Disable
    | Enable(hooks: map<HookName, string>)
    | Uninstall(apply: bool)
    | EditConfig(content: Option<string>)

  /** The harness's own hooks carry its marker. */
  predicate Marked(op: Op) {
    match op
    case Install(bodies, _, _) => Managed(bodies.preCommit) && Managed(bodies.prePush)
    case Enable(hooks) => forall n :: n in hooks ==> Managed(hooks[n])
    case _ => true
  }

  function Apply(s: State, op: Op): State {
    match op
    case Install(bodies, config, now) => Installed(s, bodies, config, now)
    case Disable => Disabled(s)
    case Enable(hooks) => Enabled(s, hooks)
    case Uninstall(apply) => if apply then Uninstalled(s) else s
    case EditConfig(content) =>
      s.(files := if content.Some? then s.files[Config := content.value] else s.files - {Config})
  }

  // ---- Handing back ----

  /** Only hooks and the config are touched. */
  ghost predicate SameBackups(files: Files, files': Files) {
    forall p: Path :: p.FirstBackup? || p.LaterBackup? ==> At(files', p) == At(files, p)
  }

  lemma SameBackupsKeep(files: Files, files': Files, n: HookName, original: Option<string>)
    requires SameBackups(files, files') && BackupsKept(files, n, original)
    ensures BackupsKept(files', n, original)
  {
    forall p | p in files' && IsBackupOf(p, n) ensures original == Some(files'[p]) {
      assert At(files', p) == At(files, p);
    }
    assert At(files', FirstBackup(n)) == At(files, FirstBackup(n));
  }

  lemma HandBackOne(files: Files, a: Artifact, n: HookName, original: Option<string>)
    requires EntryKept(files, a, n, original) && BackupsKept(files, n, original) && a.kind.HookKind?
    ensures SameBackups(files, HandedBack(files, a))
    ensures At(HandedBack(files, a), Config) == At(files, Config)
    ensures At(HandedBack(files, a), Hook(n)) == if a.path == Hook(n) then original else At(files, Hook(n))
  {
  }

  lemma EntryKeptMoves(files: Files, files': Files, a: Artifact, n: HookName, original: Option<string>)
    requires EntryKept(files, a, n, original) && SameBackups(files, files')
    ensures EntryKept(files', a, n, original)
  {
    if a.path == Hook(n) && original.Some? {
      assert At(files', a.backup.value) == At(files, a.backup.value);
    }
  }

  lemma EntriesKeptMove(files: Files, files': Files, artifacts: seq<Artifact>, n: HookName, original: Option<string>)
    requires EntriesKept(files, artifacts, n, original) && SameBackups(files, files')
    ensures EntriesKept(files', artifacts, n, original)
  {
    forall i | 0 <= i < |artifacts| ensures EntryKept(files', artifacts[i], n, original) {
      EntryKeptMoves(files, files', artifacts[i], n, original);
    }
  }

  lemma SameBackupsCompose(f: Files, g: Files, h: Files)
    requires SameBackups(f, g) && SameBackups(g, h)
    ensures SameBackups(f, h)
  {
    forall p: Path | p.FirstBackup? || p.LaterBackup? ensures At(h, p) == At(f, p) {
      assert At(g, p) == At(f, p);
    }
  }

  lemma HasEntryLast(artifacts: seq<Artifact>, p: Path)
    requires artifacts != []
    ensures HasEntry(artifacts, p)
            <==> HasEntry(artifacts[..|artifacts| - 1], p) || artifacts[|artifacts| - 1].path == p
  {
    var n := |artifacts| - 1;
    if i :| 0 <= i < |artifacts| && artifacts[i].path == p {
      assert i < n ==> artifacts[..n][i].path == p;
    }
    if i :| 0 <= i < n && artifacts[..n][i].path == p {
      assert artifacts[i].path == p;
    }
  }

  lemma {:induction false} DisabledHandsBack(files: Files, artifacts: seq<Artifact>, n: HookName, original: Option<string>)
    requires EntriesKept(files, artifacts, n, original) && BackupsKept(files, n, original)
    ensures SameBackups(files, DisabledFiles(files, artifacts))
    ensures At(DisabledFiles(files, artifacts), Hook(n))
            == if HasEntry(artifacts, Hook(n)) then original else At(files, Hook(n))
    ensures At(DisabledFiles(files, artifacts), Config) == At(files, Config)
    decreases |artifacts|
  {
    hide BackupsKept, HasEntry, HandedBack, At, EntryKept, SameBackups;
    if artifacts == [] {
      assert !HasEntry(artifacts, Hook(n)) by { NoEntry(Hook(n)); }
      SameFiles(files);
    } else {
      var k := |artifacts| - 1;
      var a, before := artifacts[k], DisabledFiles(files, artifacts[..k]);
      DisabledHandsBack(files, artifacts[..k], n, original);
      HasEntryLast(artifacts, Hook(n));
      assert EntryKept(files, a, n, original);
      if a.kind.HookKind? {
        SameBackupsKeep(files, before, n, original);
        EntryKeptMoves(files, before, a, n, original);
        HandBackOne(before, a, n, original);
        SameBackupsCompose(files, before, HandedBack(before, a));
      } else {
        KindOfPath(files, a, n, original);
      }
    }
  }

  lemma NoEntry(p: Path)
    ensures !HasEntry([], p)
  {
  }

  lemma SameFiles(files: Files)
    ensures SameBackups(files, files)
  {
  }

  lemma KindOfPath(files: Files, a: Artifact, n: HookName, original: Option<string>)
    requires EntryKept(files, a, n, original)
    ensures a.kind.ConfigKind? ==> a.path == Config
    ensures a.kind.HookKind? ==> a.path.Hook?
  {
  }

  lemma RemoveConfigOne(files: Files, a: Artifact, n: HookName)
    requires a.kind.ConfigKind? && a.path == Config
    ensures SameBackups(files, Removed(files, a)) && At(Removed(files, a), Hook(n)) == At(files, Hook(n))
  {
  }

  lemma {:induction false} UninstalledHandsBack(files: Files, artifacts: seq<Artifact>, n: HookName, original: Option<string>)
    requires EntriesKept(files, artifacts, n, original) && BackupsKept(files, n, original)
    ensures SameBackups(files, UninstalledFiles(files, artifacts))
    ensures At(UninstalledFiles(files, artifacts), Hook(n))
            == if HasEntry(artifacts, Hook(n)) then original else At(files, Hook(n))
    decreases |artifacts|
  {
    hide BackupsKept, HasEntry, HandedBack, At, EntryKept, SameBackups;
    if artifacts == [] {
      NoEntry(Hook(n));
      SameFiles(files);
    } else {
      var k := |artifacts| - 1;
      var a, before := artifacts[k], UninstalledFiles(files, artifacts[..k]);
      UninstalledHandsBack(files, artifacts[..k], n, original);
      HasEntryLast(artifacts, Hook(n));
      assert EntryKept(files, a, n, original);
      KindOfPath(files, a, n, original);
      if a.kind.HookKind? {
        SameBackupsKeep(files, before, n, original);
        EntryKeptMoves(files, before, a, n, original);
        HandBackOne(before, a, n, original);
      } else {
        RemoveConfigOne(before, a, n);
      }
      SameBackupsCompose(files, before, Removed(before, a));
    }
  }

  /** Disabling from the enabled state leaves exactly the original at the hook path:
      the user's own hook, or no hook where there was none. */
  lemma DisableRestores(s: State, n: HookName, original: Option<string>)
    requires Kept(s, n, original)
    ensures At(Disabled(s).files, Hook(n)) == original && Kept(Disabled(s), n, original)
  {
    hide DisabledFiles, Managed, BackupsKept, EntriesKept, HasEntry;
    var m := s.manifest.value;
    if !m.disabled {
      DisabledHandsBack(s.files, m.artifacts, n, original);
      SameBackupsKeep(s.files, Disabled(s).files, n, original);
      EntriesKeptMove(s.files, Disabled(s).files, m.artifacts, n, original);
    }
  }

  lemma {:induction false} RemainingKept(files: Files, artifacts: seq<Artifact>, files': Files, n: HookName,
                                         original: Option<string>)
    requires EntriesKept(files, artifacts, n, original)
    ensures EntriesKept(files, Remaining(artifacts, files'), n, original)
    ensures HasEntry(artifacts, Hook(n)) && Hook(n) in files' ==> HasEntry(Remaining(artifacts, files'), Hook(n))
    decreases |artifacts|
  {
    hide EntryKept, HasEntry;
    if artifacts == [] {
      NoEntry(Hook(n));
    } else {
      var k := |artifacts| - 1;
      RemainingKept(files, artifacts[..k], files', n, original);
      HasEntryLast(artifacts, Hook(n));
      if artifacts[k].path in files' {
        var r := Remaining(artifacts, files');
        assert r[..|r| - 1] == Remaining(artifacts[..k], files');
        HasEntryLast(r, Hook(n));
      } else {
        assert Remaining(artifacts, files') == Remaining(artifacts[..k], files');
      }
    }
  }

  /** So does an applied uninstall, from every state. */
  lemma UninstallRestores(s: State, n: HookName, original: Option<string>)
    requires Kept(s, n, original)
    ensures At(Uninstalled(s).files, Hook(n)) == original && Kept(Uninstalled(s), n, original)
  {
    hide UninstalledFiles, Remaining, Managed, BackupsKept, EntriesKept, HasEntry;
    var m := s.manifest.value;
    var s' := Uninstalled(s);
    UninstalledHandsBack(s.files, m.artifacts, n, original);
    SameBackupsKeep(s.files, s'.files, n, original);
    EntriesKeptMove(s.files, s'.files, m.artifacts, n, original);
    RemainingKept(s'.files, m.artifacts, s'.files, n, original);
  }

  // ---- Enabling and installing keep the originals ----

  lemma {:induction false} TouchedKept(files: Files, artifacts: seq<Artifact>, m: HookName, sha: string, n: HookName,
                                       original: Option<string>)
    requires EntriesKept(files, artifacts, n, original)
    requires m == n && original.Some? ==> HasEntry(artifacts, Hook(n))
    ensures EntriesKept(files, Touched(artifacts, Hook(m), sha), n, original)
    ensures HasEntry(Touched(artifacts, Hook(m), sha), Hook(m))
    ensures HasEntry(artifacts, Hook(n)) ==> HasEntry(Touched(artifacts, Hook(m), sha), Hook(n))
    decreases |artifacts|
  {
    var t := Touched(artifacts, Hook(m), sha);
    if artifacts == [] {
      assert t[0].path == Hook(m);
    } else if artifacts[0].path == Hook(m) {
      assert EntryKept(files, artifacts[0], n, original);
      assert t[0].path == Hook(m);
      assert forall i :: 0 < i < |t| ==> t[i] == artifacts[i];
      assert forall i :: 0 <= i < |t| ==> t[i].path == artifacts[i].path;
    } else {
      HasEntryFirst(artifacts, Hook(n));
      assert forall i :: 0 <= i < |artifacts[1..]| ==> artifacts[1..][i] == artifacts[i + 1];
      TouchedKept(files, artifacts[1..], m, sha, n, original);
      assert t[1..] == Touched(artifacts[1..], Hook(m), sha);
      HasEntryFirst(t, Hook(n));
      HasEntryFirst(t, Hook(m));
      assert EntryKept(files, artifacts[0], n, original);
      assert forall i :: 0 < i < |t| ==> t[i] == t[1..][i - 1];
    }
  }

  lemma HasEntryFirst(artifacts: seq<Artifact>, p: Path)
    requires artifacts != []
    ensures HasEntry(artifacts, p) <==> artifacts[0].path == p || HasEntry(artifacts[1..], p)
  {
    if i :| 0 <= i < |artifacts| && artifacts[i].path == p {
      assert i > 0 ==> artifacts[1..][i - 1].path == p;
    }
    if i :| 0 <= i < |artifacts[1..]| && artifacts[1..][i].path == p {
      assert artifacts[i + 1].path == p;
    }
  }

  lemma RearmKeeps(s: State, m: HookName, hooks: map<HookName, string>, n: HookName, original: Option<string>)
    requires Held(s, n, original) && forall k :: k in hooks ==> Managed(hooks[k])
    ensures Held(Rearmed(s, m, hooks), n, original)
  {
    hide Touched, Managed, EntriesKept, BackupsKept, HasEntry;
    if m in hooks {
      var s' := Rearmed(s, m, hooks);
      TouchedKept(s.files, s.manifest.value.artifacts, m, hooks[m], n, original);
      SameBackupsKeep(s.files, s'.files, n, original);
      EntriesKeptMove(s.files, s'.files, s'.manifest.value.artifacts, n, original);
    }
  }

  lemma EnableKeeps(s: State, hooks: map<HookName, string>, n: HookName, original: Option<string>)
    requires Kept(s, n, original) && forall k :: k in hooks ==> Managed(hooks[k])
    ensures Kept(Enabled(s, hooks), n, original)
  {
    hide Touched, Managed, EntriesKept, BackupsKept, HasEntry, HookFileKept, Rearmed;
    RearmKeeps(s, PreCommit, hooks, n, original);
    RearmKeeps(Rearmed(s, PreCommit, hooks), PrePush, hooks, n, original);
  }

  /** The harness has no backup and no entry of the hook. */
  predicate Untaken(s: State, n: HookName) {
    && BackupsKept(s.files, n, None)
    && EntriesKept(s.files, ReadManifest(s.manifest).artifacts, n, None)
    && !HasEntry(ReadManifest(s.manifest).artifacts, Hook(n))
  }

  /** Where an install may start: a kept state, or one where the hook file is the
      original, or already carries the harness's marker and counts as none. */
  predicate Startable(s: State, n: HookName, original: Option<string>) {
    Kept(s, n, original) ||
    (&& Untaken(s, n) && HookFileKept(s.files, n, original)
     && (original.Some? ==> At(s.files, Hook(n)) == original))
  }

  /** Writing one hook keeps every backup of every hook, and adds only the original. */
  lemma WithHookKeeps(files: Files, m: HookName, body: string, now: nat, n: HookName, original: Option<string>)
    requires HookFileKept(files, n, original) && Managed(body)
    requires forall p :: p in files && IsBackupOf(p, n) ==> original == Some(files[p])
    requires m == n ==> FirstBackup(n) in files || original.None? || At(files, Hook(n)) == original
    ensures var files' := WithHook(files, m, body, now);
            && HookFileKept(files', n, original)
            && (forall p :: p in files' && IsBackupOf(p, n) ==> original == Some(files'[p]))
            && (forall p :: p in files && IsBackupOf(p, n) ==> p in files')
            && (m == n ==> Hook(n) in files' && (original.Some? ==> FirstBackup(n) in files'))
            && (m != n ==> At(files', Hook(n)) == At(files, Hook(n)))
            && At(files', Config) == At(files, Config)
  {
    hide Managed;
  }

  lemma DisplacedKept(files: Files, n: HookName, now: nat, original: Option<string>)
    requires HookFileKept(files, n, original)
    requires forall p :: p in files && IsBackupOf(p, n) ==> original == Some(files[p])
    ensures var b := Displaced(files, n, now);
            b.Some? ==> original.Some? && IsBackupOf(b.value, n) && b.value in WithHook(files, n, "", now)
  {
    hide Managed;
  }

  lemma {:induction false} RecordedKept(files: Files, artifacts: seq<Artifact>, n: HookName, original: Option<string>)
    requires EntriesKept(files, artifacts, n, original)
    ensures var b := RecordedBackup(artifacts, Hook(n));
            && (b.Some? ==> original.Some? && IsBackupOf(b.value, n) && b.value in files)
            && (original.Some? && HasEntry(artifacts, Hook(n)) ==> b.Some?)
    decreases |artifacts|
  {
    hide HasEntry, IsBackupOf;
    if artifacts == [] {
      NoEntry(Hook(n));
    } else {
      var k := |artifacts| - 1;
      assert EntryKept(files, artifacts[k], n, original);
      HasEntryLast(artifacts, Hook(n));
      RecordedKept(files, artifacts[..k], n, original);
    }
  }

  /** What is recorded for the hook, and what happens to its file, when the two hooks
      are written one after the other. */
  lemma InstallHooks(s: State, bodies: Bodies, config: string, now: nat, n: HookName, original: Option<string>)
    requires Startable(s, n, original) && Managed(bodies.preCommit) && Managed(bodies.prePush)
    ensures var s' := Installed(s, bodies, config, now);
            && HookFileKept(s'.files, n, original) && BackupsKept(s'.files, n, original) && Hook(n) in s'.files
            && (forall p :: p in s.files && IsBackupOf(p, n) ==> p in s'.files)
  {
    hide Managed, Displaced, WithHook, Refreshed, EntriesKept, HasEntry;
    var files0 := if Config in s.files then s.files else s.files[Config := config];
    StartFiles(s, config, n, original);
    var files1 := WithHook(files0, PreCommit, bodies.preCommit, now);
    WithHookKeeps(files0, PreCommit, bodies.preCommit, now, n, original);
    WithHookKeeps(files1, PrePush, bodies.prePush, now, n, original);
  }

  lemma StartFiles(s: State, config: string, n: HookName, original: Option<string>)
    requires Startable(s, n, original)
    ensures var files0 := if Config in s.files then s.files else s.files[Config := config];
            && HookFileKept(files0, n, original)
            && (forall p :: p in files0 && IsBackupOf(p, n) ==> original == Some(files0[p]))
            && (FirstBackup(n) in files0 || original.None? || At(files0, Hook(n)) == original)
            && (forall p :: p in s.files ==> p in files0 && files0[p] == s.files[p])
  {
    hide Managed, EntriesKept, HasEntry;
  }

  /** The entry an install writes for the hook names a backup of the original. */
  lemma InstallEntry(s: State, files: Files, sha: string, now: nat, files': Files, n: HookName, original: Option<string>)
    requires Startable(s, n, original) && HookFileKept(files, n, original)
    requires At(files, Hook(n)) == At(s.files, Hook(n))
    requires forall p :: p in files && IsBackupOf(p, n) ==> original == Some(files[p])
    requires forall p :: p in s.files && IsBackupOf(p, n) ==> p in files'
    requires Displaced(files, n, now).Some? ==> Displaced(files, n, now).value in files'
    ensures EntryKept(files', Refreshed(Artifact(Hook(n), HookKind, Some(sha), Displaced(files, n, now)),
                                        ReadManifest(s.manifest).artifacts), n, original)
  {
    hide Managed, IsBackupOf, HasEntry, WithHook;
    DisplacedKept(files, n, now, original);
    if Kept(s, n, original) {
      RecordedKept(s.files, s.manifest.value.artifacts, n, original);
    } else {
      RecordedKept(s.files, ReadManifest(s.manifest).artifacts, n, None);
      FreshDisplaces(s, files, n, now, original);
    }
  }

  lemma FreshDisplaces(s: State, files: Files, n: HookName, now: nat, original: Option<string>)
    requires Startable(s, n, original) && !Kept(s, n, original) && At(files, Hook(n)) == At(s.files, Hook(n))
    ensures original.Some? <==> Displaced(files, n, now).Some?
  {
    hide Kept, Managed;
  }

  lemma InstallEntries(s: State, bodies: Bodies, config: string, now: nat, n: HookName, original: Option<string>)
    requires Startable(s, n, original) && Managed(bodies.preCommit) && Managed(bodies.prePush)
    ensures var s' := Installed(s, bodies, config, now);
            && EntriesKept(s'.files, s'.manifest.value.artifacts, n, original)
            && HasEntry(s'.manifest.value.artifacts, Hook(n))
  {
    hide Managed, Startable, HookFileKept, EntryKept, IsBackupOf, Displaced, RecordedBackup, WithHook, ReadManifest;
    var s' := Installed(s, bodies, config, now);
    var files0 := if Config in s.files then s.files else s.files[Config := config];
    var files1 := WithHook(files0, PreCommit, bodies.preCommit, now);
    var artifacts := s'.manifest.value.artifacts;
    InstallHooks(s, bodies, config, now, n, original);
    StartFiles(s, config, n, original);
    WithHookKeeps(files0, PreCommit, bodies.preCommit, now, n, original);
    var k := if n.PreCommit? then 0 else 1;
    assert artifacts[k].path == Hook(n);
    BackupsPersist(files0, bodies, now);
    if n.PreCommit? {
      InstallEntry(s, files0, bodies.preCommit, now, s'.files, n, original);
    } else {
      InstallEntry(s, files1, bodies.prePush, now, s'.files, n, original);
    }
    OtherEntries(s'.files, artifacts, n, original);
  }

  lemma OtherEntries(files: Files, artifacts: seq<Artifact>, n: HookName, original: Option<string>)
    requires |artifacts| == 3 && artifacts[0].path == Hook(PreCommit) && artifacts[1].path == Hook(PrePush)
    requires artifacts[0].kind.HookKind? && artifacts[1].kind.HookKind?
    requires artifacts[2].path == Config && artifacts[2].kind.ConfigKind?
    requires EntryKept(files, artifacts[if n.PreCommit? then 0 else 1], n, original)
    ensures EntriesKept(files, artifacts, n, original)
  {
    hide IsBackupOf;
  }

  /** A displaced hook's copy is there when both hooks are written. */
  lemma BackupsPersist(files0: Files, bodies: Bodies, now: nat)
    ensures var files1 := WithHook(files0, PreCommit, bodies.preCommit, now);
            var files2 := WithHook(files1, PrePush, bodies.prePush, now);
            && (Displaced(files0, PreCommit, now).Some? ==> Displaced(files0, PreCommit, now).value in files2)
            && (Displaced(files1, PrePush, now).Some? ==> Displaced(files1, PrePush, now).value in files2)
            && At(files1, Hook(PrePush)) == At(files0, Hook(PrePush))
  {
    hide Managed;
  }

  lemma InstallKeeps(s: State, bodies: Bodies, config: string, now: nat, n: HookName, original: Option<string>)
    requires Startable(s, n, original) && Managed(bodies.preCommit) && Managed(bodies.prePush)
    ensures Kept(Installed(s, bodies, config, now), n, original)
  {
    hide Managed, Startable, HookFileKept, BackupsKept, EntriesKept, HasEntry, Displaced, WithHook, Refreshed;
    InstallHooks(s, bodies, config, now, n, original);
    InstallEntries(s, bodies, config, now, n, original);
  }

  lemma EditConfigKeeps(s: State, content: Option<string>, n: HookName, original: Option<string>)
    requires Kept(s, n, original)
    ensures Kept(Apply(s, EditConfig(content)), n, original)
  {
    hide Managed, BackupsKept, EntriesKept, HasEntry;
    var s' := Apply(s, EditConfig(content));
    SameBackupsKeep(s.files, s'.files, n, original);
    EntriesKeptMove(s.files, s'.files, s.manifest.value.artifacts, n, original);
  }

  lemma StepKeeps(s: State, op: Op, n: HookName, original: Option<string>)
    requires Kept(s, n, original) && Marked(op)
    ensures Kept(Apply(s, op), n, original)
  {
    hide Kept, Installed, Disabled, Enabled, Uninstalled, Managed;
    match op
    case Install(bodies, config, now) =>
      assert Startable(s, n, original);
      InstallKeeps(s, bodies, config, now, n, original);
    case Disable => DisableRestores(s, n, original);
    case Enable(hooks) => EnableKeeps(s, hooks, n, original);
    case Uninstall(apply) => UninstallRestores(s, n, original);
    case EditConfig(content) => EditConfigKeeps(s, content, n, original);
  }

  // ---- Whole runs ----

  function Run(s: State, ops: seq<Op>): State
    decreases |ops|
  {
    if ops == [] then s else Run(Apply(s, ops[0]), ops[1..])
  }

  predicate AllMarked(ops: seq<Op>) {
    forall i :: 0 <= i < |ops| ==> Marked(ops[i])
  }

  lemma {:induction false} RunKeeps(s: State, ops: seq<Op>, n: HookName, original: Option<string>)
    requires Kept(s, n, original) && AllMarked(ops)
    ensures Kept(Run(s, ops), n, original)
    decreases |ops|
  {
    hide Kept, Apply, Marked;
    if ops != [] {
      assert Marked(ops[0]);
      StepKeeps(s, ops[0], n, original);
      RunKeeps(Apply(s, ops[0]), ops[1..], n, original);
    }
  }

  /** A repository the harness never touched. */
  predicate Untouched(s: State) {
    s.manifest.None? && forall p :: p in s.files ==> p.Hook? || p.Config?
  }

  /** Before the harness takes the hook over: the hook file is what it was first. */
  predicate Waiting(s: State, n: HookName, first: Option<string>) {
    Untaken(s, n) && At(s.files, Hook(n)) == first
  }

  /** What the harness takes for the user's own: a hook without its marker. */
  function Taken(first: Option<string>): Option<string> {
    if first.Some? && !Managed(first.value) then first else None
  }

  predicate Takes(op: Op, n: HookName) {
    op.Install? || (op.Enable? && n in op.hooks)
  }

  /** No command takes the hook over. */
  predicate Spared(ops: seq<Op>, n: HookName) {
    forall i :: 0 <= i < |ops| ==> !Takes(ops[i], n)
  }

  /** The first command that takes the hook over, if any does, is an install. */
  predicate Orderly(ops: seq<Op>, n: HookName)
    decreases |ops|
  {
    ops == [] || ops[0].Install? || (!Takes(ops[0], n) && Orderly(ops[1..], n))
  }

  lemma {:induction false} TouchedOther(artifacts: seq<Artifact>, m: HookName, body: string, n: HookName)
    requires m != n && !HasEntry(artifacts, Hook(n))
    ensures !HasEntry(Touched(artifacts, Hook(m), body), Hook(n))
    decreases |artifacts|
  {
    hide HasEntry;
    var t := Touched(artifacts, Hook(m), body);
    HasEntryFirst(t, Hook(n));
    if artifacts == [] {
      assert t[1..] == [];
      NoEntry(Hook(n));
    } else {
      HasEntryFirst(artifacts, Hook(n));
      if artifacts[0].path == Hook(m) {
        assert t[1..] == artifacts[1..];
      } else {
        TouchedOther(artifacts[1..], m, body, n);
        assert t[1..] == Touched(artifacts[1..], Hook(m), body);
      }
    }
  }

  lemma {:induction false} RemainingNoMore(artifacts: seq<Artifact>, files: Files, p: Path)
    requires !HasEntry(artifacts, p)
    ensures !HasEntry(Remaining(artifacts, files), p)
    decreases |artifacts|
  {
    hide HasEntry;
    if artifacts != [] {
      var k := |artifacts| - 1;
      HasEntryLast(artifacts, p);
      RemainingNoMore(artifacts[..k], files, p);
      var r := Remaining(artifacts, files);
      if artifacts[k].path in files {
        assert r[..|r| - 1] == Remaining(artifacts[..k], files);
        HasEntryLast(r, p);
      } else {
        assert r == Remaining(artifacts[..k], files);
      }
    }
  }

  lemma WaitingRearm(s: State, m: HookName, hooks: map<HookName, string>, n: HookName, first: Option<string>)
    requires Waiting(s, n, first) && (m in hooks ==> m != n)
    ensures Waiting(Rearmed(s, m, hooks), n, first)
  {
    hide Touched, Managed, EntriesKept, BackupsKept, HasEntry;
    if m in hooks {
      var artifacts, s' := ReadManifest(s.manifest).artifacts, Rearmed(s, m, hooks);
      TouchedKept(s.files, artifacts, m, hooks[m], n, None);
      TouchedOther(artifacts, m, hooks[m], n);
      SameBackupsKeep(s.files, s'.files, n, None);
      EntriesKeptMove(s.files, s'.files, s'.manifest.value.artifacts, n, None);
    }
  }

  lemma WaitingDisable(s: State, n: HookName, first: Option<string>)
    requires Waiting(s, n, first)
    ensures Waiting(Disabled(s), n, first)
  {
    hide DisabledFiles, BackupsKept, EntriesKept, HasEntry;
    var m := ReadManifest(s.manifest);
    DisabledHandsBack(s.files, m.artifacts, n, None);
    SameBackupsKeep(s.files, DisabledFiles(s.files, m.artifacts), n, None);
    EntriesKeptMove(s.files, DisabledFiles(s.files, m.artifacts), m.artifacts, n, None);
  }

  lemma WaitingUninstall(s: State, n: HookName, first: Option<string>)
    requires Waiting(s, n, first)
    ensures Waiting(Uninstalled(s), n, first)
  {
    hide UninstalledFiles, Remaining, BackupsKept, EntriesKept, HasEntry;
    var m, s' := ReadManifest(s.manifest), Uninstalled(s);
    UninstalledHandsBack(s.files, m.artifacts, n, None);
    SameBackupsKeep(s.files, s'.files, n, None);
    EntriesKeptMove(s.files, s'.files, m.artifacts, n, None);
    RemainingKept(s'.files, m.artifacts, s'.files, n, None);
    RemainingNoMore(m.artifacts, s'.files, Hook(n));
  }

  lemma WaitingEdit(s: State, content: Option<string>, n: HookName, first: Option<string>)
    requires Waiting(s, n, first)
    ensures Waiting(Apply(s, EditConfig(content)), n, first)
  {
    hide BackupsKept, EntriesKept, HasEntry;
    var s' := Apply(s, EditConfig(content));
    SameBackupsKeep(s.files, s'.files, n, None);
    EntriesKeptMove(s.files, s'.files, ReadManifest(s.manifest).artifacts, n, None);
  }

  /** A command that does not take the hook over leaves it waiting. */
  lemma WaitingStep(s: State, op: Op, n: HookName, first: Option<string>)
    requires Waiting(s, n, first) && !Takes(op, n)
    ensures Waiting(Apply(s, op), n, first)
  {
    hide Waiting, Disabled, Uninstalled, Rearmed;
    match op
    case Disable => WaitingDisable(s, n, first);
    case Uninstall(apply) => WaitingUninstall(s, n, first);
    case EditConfig(content) => WaitingEdit(s, content, n, first);
    case Enable(hooks) =>
      WaitingRearm(s, PreCommit, hooks, n, first);
      WaitingRearm(Rearmed(s, PreCommit, hooks), PrePush, hooks, n, first);
      WaitingFlag(Rearmed(Rearmed(s, PreCommit, hooks), PrePush, hooks), n, first);
  }

  lemma WaitingFlag(s: State, n: HookName, first: Option<string>)
    requires Waiting(s, n, first)
    ensures Waiting(State(s.files, Some(ReadManifest(s.manifest).(disabled := false))), n, first)
  {
    hide BackupsKept, EntriesKept, HasEntry;
  }

  lemma RearmTakesOver(s: State, hooks: map<HookName, string>, n: HookName, first: Option<string>)
    requires Waiting(s, n, first) && n in hooks && Managed(hooks[n])
    ensures Held(Rearmed(s, n, hooks), n, None)
  {
    hide Touched, Managed, EntriesKept, BackupsKept, HasEntry;
    var artifacts, s' := ReadManifest(s.manifest).artifacts, Rearmed(s, n, hooks);
    TouchedKept(s.files, artifacts, n, hooks[n], n, None);
    SameBackupsKeep(s.files, s'.files, n, None);
    EntriesKeptMove(s.files, s'.files, s'.manifest.value.artifacts, n, None);
  }

  /** An enable that comes before every install overwrites the hook without a backup. */
  lemma EnableTakesOver(s: State, hooks: map<HookName, string>, n: HookName, first: Option<string>)
    requires Waiting(s, n, first) && n in hooks && forall k :: k in hooks ==> Managed(hooks[k])
    ensures Kept(Enabled(s, hooks), n, None)
  {
    hide Waiting, Held, Rearmed, Managed;
    if n.PreCommit? {
      RearmTakesOver(s, hooks, n, first);
      RearmKeeps(Rearmed(s, PreCommit, hooks), PrePush, hooks, n, None);
    } else {
      WaitingRearm(s, PreCommit, hooks, n, first);
      RearmTakesOver(Rearmed(s, PreCommit, hooks), hooks, n, first);
    }
    FlagCleared(Rearmed(Rearmed(s, PreCommit, hooks), PrePush, hooks), n, None);
  }

  lemma FlagCleared(s: State, n: HookName, original: Option<string>)
    requires Held(s, n, original)
    ensures Kept(State(s.files, Some(ReadManifest(s.manifest).(disabled := false))), n, original)
  {
    hide BackupsKept, EntriesKept, HasEntry, HookFileKept;
  }

  lemma WaitingIsStartable(s: State, n: HookName, first: Option<string>)
    requires Waiting(s, n, first)
    ensures Startable(s, n, Taken(first))
  {
    hide Managed, Kept, BackupsKept, EntriesKept, HasEntry;
  }

  /** What a run makes of a hook that was waiting. */
  lemma {:induction false} RunFrom(s: State, ops: seq<Op>, n: HookName, first: Option<string>)
    requires Waiting(s, n, first) && AllMarked(ops)
    ensures var end := Run(s, ops);
            if Spared(ops, n) then Waiting(end, n, first)
            else Kept(end, n, if Orderly(ops, n) then Taken(first) else None)
    decreases |ops|
  {
    hide Waiting, Kept, Apply, Taken, Takes, Managed;
    if ops != [] {
      var op, rest := ops[0], ops[1..];
      assert Marked(op);
      if Takes(op, n) {
        TakingStep(s, op, n, first);
        RunKeeps(Apply(s, op), rest, n, if op.Install? then Taken(first) else None);
        assert !Spared(ops, n);
        OrderlyFirst(ops, n);
      } else {
        WaitingStep(s, op, n, first);
        RunFrom(Apply(s, op), rest, n, first);
        assert Spared(ops, n) <==> Spared(rest, n) by { SparedRest(ops, n); }
        OrderlyFirst(ops, n);
      }
    }
  }

  lemma TakingStep(s: State, op: Op, n: HookName, first: Option<string>)
    requires Waiting(s, n, first) && Marked(op) && Takes(op, n)
    ensures Kept(Apply(s, op), n, if op.Install? then Taken(first) else None)
  {
    hide Waiting, Kept, Installed, Enabled, Managed, Startable;
    if op.Install? {
      WaitingIsStartable(s, n, first);
      InstallKeeps(s, op.bodies, op.config, op.now, n, Taken(first));
    } else {
      EnableTakesOver(s, op.hooks, n, first);
    }
  }

  lemma OrderlyFirst(ops: seq<Op>, n: HookName)
    requires ops != []
    ensures Takes(ops[0], n) ==> (Orderly(ops, n) <==> ops[0].Install?)
    ensures !Takes(ops[0], n) ==> (Orderly(ops, n) <==> Orderly(ops[1..], n))
  {
  }

  lemma SparedRest(ops: seq<Op>, n: HookName)
    requires ops != [] && !Takes(ops[0], n)
    ensures Spared(ops, n) <==> Spared(ops[1..], n)
  {
    hide Takes;
    assert forall i :: 0 <= i < |ops[1..]| ==> ops[1..][i] == ops[i + 1];
    assert forall i :: 0 < i < |ops| ==> ops[i] == ops[1..][i - 1];
  }

  /** What comes back at the end of a run, on a disable or an applied uninstall. */
  lemma RunHandsBack(s: State, ops: seq<Op>, n: HookName)
    requires Untouched(s) && AllMarked(ops)
    ensures var first, end := At(s.files, Hook(n)), Run(s, ops);
            var back := if Spared(ops, n) then first else if Orderly(ops, n) then Taken(first) else None;
            && At(Disabled(end).files, Hook(n)) == back && At(Uninstalled(end).files, Hook(n)) == back
            && (!Spared(ops, n) ==> At(end.files, FirstBackup(n)) == back)
  {
    hide Run, Disabled, Uninstalled, Kept, Waiting, Taken, Spared, Orderly;
    var first, end := At(s.files, Hook(n)), Run(s, ops);
    UntouchedWaits(s, n);
    RunFrom(s, ops, n, first);
    if Spared(ops, n) {
      WaitingDisable(end, n, first);
      WaitingUninstall(end, n, first);
      WaitingFile(Disabled(end), n, first);
      WaitingFile(Uninstalled(end), n, first);
    } else {
      var back := if Orderly(ops, n) then Taken(first) else None;
      DisableRestores(end, n, back);
      UninstallRestores(end, n, back);
      FirstBackupIs(end, n, back);
    }
  }

  lemma UntouchedWaits(s: State, n: HookName)
    requires Untouched(s)
    ensures Waiting(s, n, At(s.files, Hook(n)))
  {
  }

  lemma WaitingFile(s: State, n: HookName, first: Option<string>)
    requires Waiting(s, n, first)
    ensures At(s.files, Hook(n)) == first
  {
  }

  lemma FirstBackupIs(s: State, n: HookName, original: Option<string>)
    requires Kept(s, n, original)
    ensures At(s.files, FirstBackup(n)) == original
  {
    hide Managed, EntriesKept, HasEntry;
  }

  /** Over every run of commands from an untouched repository, a disable or an applied
      uninstall at its end gives the user's hook back exactly when there was none, or
      nothing took it over, or an install took it over first and it did not carry the
      harness's marker. */
  lemma OriginalSurvivesIff(s: State, ops: seq<Op>, n: HookName)
    requires Untouched(s) && AllMarked(ops)
    ensures var first, end := At(s.files, Hook(n)), Run(s, ops);
            var survives := first.None? || Spared(ops, n) || (Orderly(ops, n) && !Managed(first.value));
            && (At(Disabled(end).files, Hook(n)) == first <==> survives)
            && (At(Uninstalled(end).files, Hook(n)) == first <==> survives)
  {
    hide Run, Disabled, Uninstalled, Managed, Spared, Orderly;
    RunHandsBack(s, ops, n);
  }

  /** Once an install has displaced it, an unmarked hook stays byte for byte at its first
      backup for the rest of the run. */
  lemma OriginalSurvives(s: State, ops: seq<Op>, n: HookName)
    requires Untouched(s) && AllMarked(ops) && Orderly(ops, n) && !Spared(ops, n)
    requires At(s.files, Hook(n)).Some? ==> !Managed(s.files[Hook(n)])
    ensures At(Run(s, ops).files, FirstBackup(n)) == At(s.files, Hook(n))
  {
    hide Run, Disabled, Uninstalled, Managed, Spared, Orderly;
    RunHandsBack(s, ops, n);
  }

  /** A single install, then a disable: the marker alone decides. */
  lemma RestoredIff(s: State, bodies: Bodies, config: string, now: nat, n: HookName)
    requires Untouched(s) && Managed(bodies.preCommit) && Managed(bodies.prePush)
    ensures At(Disabled(Installed(s, bodies, config, now)).files, Hook(n)) == At(s.files, Hook(n))
            <==> (Hook(n) !in s.files || !Managed(s.files[Hook(n)]))
  {
    hide Managed, Installed, Disabled, Uninstalled;
    var ops := [Install(bodies, config, now)];
    assert ops[1..] == [] && Run(s, ops) == Installed(s, bodies, config, now) by { RunOne(s, ops); }
    assert Takes(ops[0], n);
    OriginalSurvivesIff(s, ops, n);
  }

  lemma RunOne(s: State, ops: seq<Op>)
    requires |ops| == 1
    ensures Run(s, ops) == Apply(s, ops[0])
  {
    hide Apply;
    assert ops[1..] == [];
  }

  // ---- The user's settings ----

  /** Hook entries name hooks, and every config entry records `sha`. */
  predicate ConfigShape(artifacts: seq<Artifact>, sha: string) {
    forall i :: 0 <= i < |artifacts| ==> EntryShape(artifacts[i], sha)
  }

  predicate EntryShape(a: Artifact, sha: string) {
    if a.path == Config then a.kind.ConfigKind? && a.sha == Some(sha) else a.kind.HookKind? && a.path.Hook?
  }

  lemma {:induction false} ConfigFold(files: Files, artifacts: seq<Artifact>, sha: string)
    requires ConfigShape(artifacts, sha)
    ensures At(UninstalledFiles(files, artifacts), Config)
            == if HasEntry(artifacts, Config) && At(files, Config) == Some(sha) then None else At(files, Config)
    decreases |artifacts|
  {
    hide HasEntry;
    if artifacts == [] {
      NoEntry(Config);
    } else {
      var k := |artifacts| - 1;
      assert EntryShape(artifacts[k], sha);
      ConfigFold(files, artifacts[..k], sha);
      HasEntryLast(artifacts, Config);
    }
  }

  /** An applied uninstall removes the config exactly when it is what was recorded:
      settings edited since are kept. */
  lemma UninstallConfigIff(s: State, sha: string)
    requires s.manifest.Some? && ConfigShape(s.manifest.value.artifacts, sha)
    requires HasEntry(s.manifest.value.artifacts, Config)
    ensures At(Uninstalled(s).files, Config) == if At(s.files, Config) == Some(sha) then None else At(s.files, Config)
  {
    hide UninstalledFiles, HasEntry, Remaining;
    ConfigFold(s.files, s.manifest.value.artifacts, sha);
  }

  /** The config says what the user wrote, and the manifest what was installed. */
  predicate ConfigKept(s: State, sha: string, content: string) {
    && s.manifest.Some? && ConfigShape(s.manifest.value.artifacts, sha)
    && At(s.files, Config) == Some(content) && content != sha
  }

  lemma {:induction false} DisabledConfig(files: Files, artifacts: seq<Artifact>, sha: string)
    requires ConfigShape(artifacts, sha)
    ensures At(DisabledFiles(files, artifacts), Config) == At(files, Config)
    decreases |artifacts|
  {
    if artifacts != [] {
      var k := |artifacts| - 1;
      assert EntryShape(artifacts[k], sha);
      DisabledConfig(files, artifacts[..k], sha);
    }
  }

  lemma {:induction false} TouchedShape(artifacts: seq<Artifact>, n: HookName, body: string, sha: string)
    requires ConfigShape(artifacts, sha)
    ensures ConfigShape(Touched(artifacts, Hook(n), body), sha)
    decreases |artifacts|
  {
    var t := Touched(artifacts, Hook(n), body);
    if artifacts != [] {
      assert EntryShape(artifacts[0], sha);
      forall i | 0 <= i < |artifacts[1..]| ensures EntryShape(artifacts[1..][i], sha) {
        assert EntryShape(artifacts[i + 1], sha);
      }
      TouchedShape(artifacts[1..], n, body, sha);
      forall i | 0 < i < |t| ensures EntryShape(t[i], sha) {
        assert t[i] == t[1..][i - 1];
      }
    }
  }

  lemma {:induction false} RemainingShape(artifacts: seq<Artifact>, files: Files, sha: string)
    requires ConfigShape(artifacts, sha)
    ensures ConfigShape(Remaining(artifacts, files), sha)
    decreases |artifacts|
  {
    hide EntryShape;
    if artifacts != [] {
      RemainingShape(artifacts[..|artifacts| - 1], files, sha);
    }
  }

  lemma StepKeepsConfig(s: State, op: Op, sha: string, content: string)
    requires ConfigKept(s, sha, content) && (op.Disable? || op.Enable? || op.Uninstall?)
    ensures ConfigKept(Apply(s, op), sha, content)
  {
    hide ConfigShape, UninstalledFiles, DisabledFiles, Remaining, Touched;
    var artifacts := s.manifest.value.artifacts;
    match op
    case Disable => DisabledConfig(s.files, artifacts, sha);
    case Enable(hooks) =>
      RearmKeepsConfig(s, PreCommit, hooks, sha, content);
      RearmKeepsConfig(Rearmed(s, PreCommit, hooks), PrePush, hooks, sha, content);
    case Uninstall(_) =>
      ConfigFold(s.files, artifacts, sha);
      RemainingShape(artifacts, UninstalledFiles(s.files, artifacts), sha);
  }

  lemma RearmKeepsConfig(s: State, n: HookName, hooks: map<HookName, string>, sha: string, content: string)
    requires ConfigKept(s, sha, content)
    ensures ConfigKept(Rearmed(s, n, hooks), sha, content)
  {
    hide ConfigShape, Touched;
    if n in hooks {
      TouchedShape(s.manifest.value.artifacts, n, hooks[n], sha);
    }
  }

  lemma {:induction false} RunKeepsConfig(s: State, ops: seq<Op>, sha: string, content: string)
    requires ConfigKept(s, sha, content)
    requires forall i :: 0 <= i < |ops| ==> ops[i].Disable? || ops[i].Enable? || ops[i].Uninstall?
    ensures ConfigKept(Run(s, ops), sha, content)
    decreases |ops|
  {
    hide ConfigKept, Apply;
    if ops != [] {
      StepKeepsConfig(s, ops[0], sha, content);
      RunKeepsConfig(Apply(s, ops[0]), ops[1..], sha, content);
    }
  }

  /** Settings the user changed after an install survive every run of disables, enables
      and uninstalls that follows. */
  lemma EditedConfigSurvives(s: State, bodies: Bodies, config: string, now: nat, content: string, ops: seq<Op>)
    requires forall i :: 0 <= i < |ops| ==> ops[i].Disable? || ops[i].Enable? || ops[i].Uninstall?
    requires content != At(s.files, Config).GetOr(config)
    ensures var edited := Apply(Installed(s, bodies, config, now), EditConfig(Some(content)));
            At(Run(edited, ops).files, Config) == Some(content)
  {
    hide WithHook, Run, Displaced, Refreshed;
    var s' := Installed(s, bodies, config, now);
    var sha := At(s.files, Config).GetOr(config);
    RefreshedShape(Artifact(Config, ConfigKind, Some(sha), None), ReadManifest(s.manifest).artifacts);
    forall i | 0 <= i < 3 ensures EntryShape(s'.manifest.value.artifacts[i], sha) {
      ShapeOfInstalled(s, bodies, config, now, i);
    }
    RunKeepsConfig(Apply(s', EditConfig(Some(content))), ops, sha, content);
  }

  lemma RefreshedShape(a: Artifact, previous: seq<Artifact>)
    ensures var r := Refreshed(a, previous); r.path == a.path && r.kind == a.kind && r.sha == a.sha
  {
  }

  lemma ShapeOfInstalled(s: State, bodies: Bodies, config: string, now: nat, i: nat)
    requires i < 3
    ensures EntryShape(Installed(s, bodies, config, now).manifest.value.artifacts[i], At(s.files, Config).GetOr(config))
  {
    hide WithHook, Displaced, RecordedBackup;
  }
}
