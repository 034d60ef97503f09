/**
 Updates only climb: over every run without an operator's rollback, the versions of the committed builds
 strictly increase, and the executable is never older than a committed build.
 */
module SelfUpdateProgress {
  import opened Basics
  import opened SelfUpdate
  import opened Version
  import SelfUpdateProtocol

  predicate CanonicalText(version: string) {
    ParseVersion(version).Some? && Canonical(ParseVersion(version).value)
  }

  /** Version texts that parse to canonical versions, the first above the second. */
  predicate Above(version: string, other: string) {
    && CanonicalText(version) && CanonicalText(other)
    && Compare(ParseVersion(version).value, ParseVersion(other).value) > 0
  }

  predicate NotBelow(version: string, other: string) {
    && CanonicalText(version) && CanonicalText(other)
    && Compare(ParseVersion(version).value, ParseVersion(other).value) >= 0
  }

  /** The three as a value, so that the steps of a run can be followed without their definitions. */
  datatype Order = Order(above: (string, string) -> bool, notBelow: (string, string) -> bool, canonical: string -> bool)

  function Versions(): Order {
    Order((a, b) => Above(a, b), (a, b) => NotBelow(a, b), a => CanonicalText(a))
  }

  /** What the steps of a run need to know of an order. */
  ghost predicate IsOrder(o: Order) {
    && (forall a, b :: o.above(b, a) ==> o.notBelow(b, a))
    && (forall a :: o.canonical(a) ==> o.notBelow(a, a))
  }

  lemma VersionsAreOrdered()
    ensures IsOrder(Versions())
  {
    forall a | CanonicalText(a)
      ensures NotBelow(a, a)
    {
      CompareZero(ParseVersion(a).value, ParseVersion(a).value);
    }
  }

  lemma AboveNotBelow(a: string, b: string, c: string)
    requires Above(c, b) && NotBelow(b, a)
    ensures Above(c, a)
  {
    AboveIsTransitive(ParseVersion(a).value, ParseVersion(b).value, ParseVersion(c).value);
  }

  /** This version is above, or not below, every build committed so far. */
  ghost predicate AboveAll(o: Order, k: Install, events: seq<Event>, version: string) {
    forall i :: 0 <= i < |events| && events[i].Adopted? ==> o.above(version, k.versionOf(events[i].content))
  }

  ghost predicate Rises(o: Order, k: Install, events: seq<Event>, version: string) {
    o.canonical(version) && AboveAll(o, k, events, version)
  }

  ghost predicate NotBelowAny(o: Order, k: Install, events: seq<Event>, version: string) {
    forall i :: 0 <= i < |events| && events[i].Adopted? ==> o.notBelow(version, k.versionOf(events[i].content))
  }

  /** The committed builds climb. */
  ghost predicate Climbs(o: Order, k: Install, events: seq<Event>) {
    forall i, j :: 0 <= i < j < |events| && events[i].Adopted? && events[j].Adopted? ==>
      o.above(k.versionOf(events[j].content), k.versionOf(events[i].content))
  }

  ghost predicate BuildNotBelow(o: Order, k: Install, events: seq<Event>, build: Bytes) {
    NotBelowAny(o, k, events, k.versionOf(build))
  }

  /** An installed attempt goes above every committed build, and what it would restore is not below any. */
  ghost predicate JournalClimbs(o: Order, k: Install, s: Site, j: Journal) {
    j.state.Installed? ==>
      Rises(o, k, s.events, j.toVersion) && BackupNotBelow(o, k, s, j)
  }

  ghost predicate BackupNotBelow(o: Order, k: Install, s: Site, j: Journal) {
    j.backupPath in s.backups ==> BuildNotBelow(o, k, s.events, s.backups[j.backupPath])
  }

  /** `strict` asks it of the executable too, which a cut swap may lower. */
  ghost predicate Invariant(o: Order, k: Install, s: Site, strict: bool) {
    && Climbs(o, k, s.events)
    && (strict ==> BuildNotBelow(o, k, s.events, s.exe))
    && (s.running.Some? ==> BuildNotBelow(o, k, s.events, s.running.value))
    && (s.journal.Present? ==> JournalClimbs(o, k, s, s.journal.journal))
  }

  /** The signed metadata tell the truth: a build that passes them carries the stamp they name. */
  ghost predicate HonestStamp(k: Install, p: UpdatePayload) {
    forall content :: k.digest(content) == p.sha256 && |content| == p.sizeBytes ==> k.versionOf(content) == p.version
  }

  /** No operator's rollback, and canonical target versions. */
  ghost predicate OrdinaryActivity(o: Order, a: Activity) {
    && !a.OperatorRollback?
    && (a.Update? && ValidPayload(a.payload) ==> o.canonical(a.payload.version))
  }

  ghost predicate HonestActivity(o: Order, k: Install, a: Activity) {
    OrdinaryActivity(o, a) && (a.Update? && ValidPayload(a.payload) ==> HonestStamp(k, a.payload))
  }

  // ---------------------------------------------------------------------------------------------
  // Each step keeps the climb
  // ---------------------------------------------------------------------------------------------

  lemma OtherEventsDoNotCount(o: Order, k: Install, events: seq<Event>, e: Event)
    requires !e.Adopted?
    ensures Climbs(o, k, events) ==> Climbs(o, k, events + [e])
    ensures forall v :: AboveAll(o, k, events, v) ==> AboveAll(o, k, events + [e], v)
    ensures forall v :: NotBelowAny(o, k, events, v) ==> NotBelowAny(o, k, events + [e], v)
  {
  }

  lemma EventKeeps(o: Order, k: Install, s: Site, e: Event, strict: bool)
    requires Invariant(o, k, s, strict) && !e.Adopted?
    ensures Invariant(o, k, s.(events := s.events + [e]), strict)
  {
    OtherEventsDoNotCount(o, k, s.events, e);
  }

  lemma SaveKeeps(o: Order, k: Install, s: Site, j: Journal, env: Environment, strict: bool)
    requires Invariant(o, k, s, strict) && JournalClimbs(o, k, s, j)
    ensures Invariant(o, k, SaveJournal(s, j, env).0, strict)
  {
  }

  lemma RestoreKeeps(o: Order, k: Install, s: Site, j: Journal, env: Environment, strict: bool)
    requires Invariant(o, k, s, strict) && BackupNotBelow(o, k, s, j)
    ensures var (t, _) := RestoreBackup(k, s, j.backupPath, j.backupSHA256, env);
      Invariant(o, k, t, strict) && t.events == s.events && t.backups == s.backups && t.journal == s.journal
  {
  }

  /** An update that is not refused aims above every committed build. */
  lemma TargetRises(k: Install, s: Site, p: UpdatePayload)
    requires s.running.Some? && BuildNotBelow(Versions(), k, s.events, s.running.value) && CanonicalText(p.version)
    requires var current := ParseVersion(k.versionOf(s.running.value));
      current.Some? && Compare(ParseVersion(p.version).value, current.value) > 0
    ensures Rises(Versions(), k, s.events, p.version)
  {
    var current := k.versionOf(s.running.value);
    forall i | 0 <= i < |s.events| && s.events[i].Adopted?
      ensures Versions().above(p.version, k.versionOf(s.events[i].content))
    {
      assert Versions().notBelow(current, k.versionOf(s.events[i].content));
      AboveNotBelow(k.versionOf(s.events[i].content), current, p.version);
    }
  }

  lemma AboveAllIsNotBelow(o: Order, k: Install, events: seq<Event>, version: string)
    requires IsOrder(o) && AboveAll(o, k, events, version)
    ensures NotBelowAny(o, k, events, version)
  {
  }

  /** An attempt on its way: its target is above every committed build, and what it replaces is not below any. */
  ghost predicate Rising(o: Order, k: Install, s: Site, j: Journal, content: Bytes, strict: bool) {
    && Invariant(o, k, s, strict) && !InFlight(s.journal)
    && Rises(o, k, s.events, j.toVersion) && BuildNotBelow(o, k, s.events, s.exe)
    && (strict ==> BuildNotBelow(o, k, s.events, content))
  }

  lemma StageKeeps(o: Order, k: Install, s: Site, j: Journal, content: Bytes, env: Environment, strict: bool)
    requires Rising(o, k, s, j, content, strict) && j.state.Staged?
    ensures Invariant(o, k, Stage(k, s, j, content, env).0, strict)
  {
    SaveKeeps(o, k, s, j, env, strict);
    var (saved, step) := SaveJournal(s, j, env);
    var s1 := if saved.journal == Present(j) then saved.(events := saved.events + [Began]) else saved;
    if saved.journal == Present(j) {
      EventKeeps(o, k, saved, Began, strict);
      OtherEventsDoNotCount(o, k, s.events, Began);
    }
    if step == Worked {
      BackUpKeeps(o, k, s1, j, content, env, strict);
    }
  }

  lemma BackUpKeeps(o: Order, k: Install, s: Site, j: Journal, content: Bytes, env: Environment, strict: bool)
    requires Invariant(o, k, s, strict) && s.journal == Present(j) && j.state.Staged?
    requires Rises(o, k, s.events, j.toVersion) && BuildNotBelow(o, k, s.events, s.exe)
    requires strict ==> BuildNotBelow(o, k, s.events, content)
    ensures Invariant(o, k, BackUp(k, s, j, content, env).0, strict)
  {
    var (s1, step) := BackupCurrent(s, j.backupPath, env);
    assert Invariant(o, k, s1, strict);
    match step {
      case Died =>
      case Refused => SaveKeeps(o, k, Unstage(s1), j.(state := Failed, reason := "backup_failed"), env, strict);
      case Worked =>
        var j1 := j.(backupSHA256 := k.digest(s1.exe));
        SaveKeeps(o, k, s1, j1, env, strict);
        var (s2, saved) := SaveJournal(s1, j1, env);
        if saved == Worked {
          SwapKeeps(o, k, s2, j1, content, env, strict);
        }
    }
  }

  lemma SwapKeeps(o: Order, k: Install, s: Site, j: Journal, content: Bytes, env: Environment, strict: bool)
    requires Invariant(o, k, s, strict) && s.journal == Present(j) && j.state.Staged? && BackupNotBelow(o, k, s, j)
    requires Rises(o, k, s.events, j.toVersion) && (strict ==> BuildNotBelow(o, k, s.events, content))
    ensures Invariant(o, k, Swap(k, s, j, content, env).0, strict)
  {
    var (s1, step) := Replace(s, content, env);
    assert Invariant(o, k, s1, strict);
    match step {
      case Died =>
      case Refused =>
        RestoreKeeps(o, k, s1, j, env, strict);
        var (s2, restored) := RestoreBackup(k, s1, j.backupPath, j.backupSHA256, env);
        SaveKeeps(o, k, Unstage(s2), j.(state := Failed, reason := "replace_failed"), env, strict);
      case Worked => MarkInstalledKeeps(o, k, Unstage(s1), j.(state := Installed, stagedPath := ""), env, strict);
    }
  }

  lemma MarkInstalledKeeps(o: Order, k: Install, s: Site, j: Journal, env: Environment, strict: bool)
    requires Invariant(o, k, s, strict) && JournalClimbs(o, k, s, j) && BackupNotBelow(o, k, s, j)
    ensures Invariant(o, k, MarkInstalled(k, s, j, env).0, strict)
  {
    SaveKeeps(o, k, s, j, env, strict);
    var (s1, step) := SaveJournal(s, j, env);
    match step {
      case Died =>
      case Refused => RestoreKeeps(o, k, s1, j, env, strict);
      case Worked => RestartKeeps(o, k, s1, j, env, strict);
    }
  }

  lemma RestartKeeps(o: Order, k: Install, s: Site, j: Journal, env: Environment, strict: bool)
    requires Invariant(o, k, s, strict) && BackupNotBelow(o, k, s, j)
    ensures Invariant(o, k, RequestRestart(k, s, j, env).0, strict)
  {
    var s1 := Tick(s, env(s.step));
    if !env(s.step).restartAccepted {
      RestoreKeeps(o, k, s1, j, env, strict);
      var (s2, step) := RestoreBackup(k, s1, j.backupPath, j.backupSHA256, env);
      SaveKeeps(o, k, s2, j.(state := Failed, reason := "restart_and_restore_failed"), env, strict);
      SaveKeeps(o, k, s2, j.(state := RolledBack, reason := "restart_request_failed"), env, strict);
    }
  }

  lemma VerifiedRises(o: Order, k: Install, s: Site, commandID: string, p: UpdatePayload, content: Bytes, strict: bool)
    requires IsOrder(o) && Invariant(o, k, s, strict) && s.running.Some? && !InFlight(s.journal)
    requires Rises(o, k, s.events, p.version) && BuildNotBelow(o, k, s.events, s.exe)
    requires strict ==> k.versionOf(content) == p.version
    ensures var e := Verified(p.sha256, content);
      var t := s.(staged := s.staged[STAGED_PATH := content], events := s.events + [e]);
      Rising(o, k, t, NewJournal(k, t, commandID, p), content, strict)
  {
    var e := Verified(p.sha256, content);
    EventKeeps(o, k, s, e, strict);
    OtherEventsDoNotCount(o, k, s.events, e);
    AboveAllIsNotBelow(o, k, s.events + [e], p.version);
  }

  lemma DownloadKeeps(o: Order, k: Install, s: Site, commandID: string, p: UpdatePayload, env: Environment,
        strict: bool)
    requires IsOrder(o) && Invariant(o, k, s, strict) && s.running.Some? && !InFlight(s.journal)
    requires Rises(o, k, s.events, p.version) && BuildNotBelow(o, k, s.events, s.exe)
    requires strict ==> HonestStamp(k, p)
    ensures Invariant(o, k, Download(k, s, commandID, p, env).0, strict)
  {
    var c := env(s.step);
    var s1 := Tick(s, c);
    if c.io.Works? && c.download.Some? && k.digest(c.download.value) == p.sha256 && |c.download.value| == p.sizeBytes {
      var content := c.download.value;
      VerifiedRises(o, k, s1, commandID, p, content, strict);
      var s2 := s1.(staged := s1.staged[STAGED_PATH := content], events := s1.events + [Verified(p.sha256, content)]);
      StageKeeps(o, k, s2, NewJournal(k, s2, commandID, p), content, env, strict);
    }
  }

  lemma UpdateKeeps(o: Order, k: Install, s: Site, commandID: string, p: UpdatePayload, env: Environment, strict: bool)
    requires o == Versions() && IsOrder(o) && Invariant(o, k, s, strict) && s.running.Some?
    requires BuildNotBelow(o, k, s.events, s.exe)
    requires ValidPayload(p) ==> o.canonical(p.version) && (strict ==> HonestStamp(k, p))
    ensures Invariant(o, k, ExecuteUpdate(k, s, commandID, p, env).0, strict)
  {
    var current := ParseVersion(k.versionOf(s.running.value));
    if ValidPayload(p) && current.Some? && !InFlight(s.journal) {
      var target := ParseVersion(p.version).value;
      if Compare(target, current.value) > 0 {
        TargetRises(k, s, p);
        DownloadKeeps(o, k, s, commandID, p, env, strict);
      }
    }
    SelfUpdateProtocol.UpdateIsRefusedOrDownloads(k, s, commandID, p, env);
  }

  lemma RollBackKeeps(o: Order, k: Install, s: Site, j: Journal, reason: string, env: Environment, strict: bool)
    requires Invariant(o, k, s, strict) && BackupNotBelow(o, k, s, j)
    ensures Invariant(o, k, RollBack(k, s, j, reason, env).0, strict)
  {
    RestoreKeeps(o, k, s, j, env, strict);
    var (s1, step) := RestoreBackup(k, s, j.backupPath, j.backupSHA256, env);
    SaveKeeps(o, k, s1, j.(state := Failed, reason := reason + "+restore_failed"), env, strict);
    SaveKeeps(o, k, s1, j.(state := RolledBack, reason := reason), env, strict);
  }

  lemma AdoptionClimbs(o: Order, k: Install, s: Site, content: Bytes, strict: bool)
    requires IsOrder(o) && Invariant(o, k, s, strict) && Rises(o, k, s.events, k.versionOf(content))
    ensures Climbs(o, k, s.events + [Adopted(content)])
    ensures BuildNotBelow(o, k, s.events + [Adopted(content)], content)
  {
    AboveAllIsNotBelow(o, k, s.events, k.versionOf(content));
  }

  lemma AdoptionKeeps(o: Order, k: Install, s: Site, strict: bool)
    requires IsOrder(o) && Invariant(o, k, s, strict) && s.running == Some(s.exe) && Rises(o, k, s.events, k.versionOf(s.exe))
    requires s.journal.Present? ==> !s.journal.journal.state.Installed?
    ensures Invariant(o, k, s.(events := s.events + [Adopted(s.exe)]), strict)
  {
    AdoptionClimbs(o, k, s, s.exe, strict);
  }

  lemma RetainingKeeps(o: Order, k: Install, s: Site, b: PreviousBuild, env: Environment, strict: bool)
    requires Invariant(o, k, s, strict)
    ensures var t := SavePrevious(s, b, env).0;
      Invariant(o, k, t, strict) && t.exe == s.exe && t.running == s.running && t.events == s.events
  {
  }

  lemma CommitKeeps(o: Order, k: Install, s: Site, j: Journal, env: Environment, strict: bool)
    requires IsOrder(o) && Invariant(o, k, s, strict) && s.running == Some(s.exe)
    requires Rises(o, k, s.events, j.toVersion) && k.versionOf(s.exe) == j.toVersion
    ensures Invariant(o, k, Commit(s, j, env).0, strict)
  {
    var b := PreviousBuild(j.fromVersion, j.backupPath, j.backupSHA256);
    RetainingKeeps(o, k, s, b, env, strict);
    var (s1, step) := SavePrevious(s, b, env);
    if step == Worked {
      var committed := j.(state := Committed, reason := "health_check_passed");
      SaveKeeps(o, k, s1, committed, env, strict);
      var (saved, _) := SaveJournal(s1, committed, env);
      if saved.journal == Present(committed) {
        AdoptionKeeps(o, k, saved, strict);
      }
    }
  }

  lemma CheckHealthKeeps(o: Order, k: Install, s: Site, j: Journal, env: Environment, strict: bool)
    requires IsOrder(o) && Invariant(o, k, s, strict) && s.running == Some(s.exe) && BackupNotBelow(o, k, s, j)
    requires Rises(o, k, s.events, j.toVersion) && k.versionOf(s.exe) == j.toVersion
    ensures Invariant(o, k, CheckHealth(k, s, j, env).0, strict)
  {
    var c := env(s.step);
    var s1 := Tick(s, c);
    var s2 := s1.(events := s1.events + [HealthChecked]);
    EventKeeps(o, k, s1, HealthChecked, strict);
    OtherEventsDoNotCount(o, k, s1.events, HealthChecked);
    RollBackKeeps(o, k, s1, j, "health_check_deadline_exceeded", env, strict);
    RollBackKeeps(o, k, s1, j, "health_check_unavailable", env, strict);
    RollBackKeeps(o, k, s2, j, "health_check_failed", env, strict);
    CommitKeeps(o, k, s2, j, env, strict);
  }

  /** What a start does once it has counted itself. */
  function Counted(k: Install, s: Site, j: Journal, env: Environment): (Site, Status)
    requires s.running.Some?
  {
    if j.exePath != k.exePath then RollBack(k, s, j, "installation_path_changed", env)
    else if k.versionOf(s.running.value) != j.toVersion then RollBack(k, s, j, "version_mismatch_after_restart", env)
    else if j.attempts > MAX_HEALTH_ATTEMPTS then RollBack(k, s, j, "health_check_attempts_exhausted", env)
    else CheckHealth(k, s, j, env)
  }

  lemma CountedKeeps(o: Order, k: Install, s: Site, j: Journal, env: Environment, strict: bool)
    requires IsOrder(o) && Invariant(o, k, s, strict) && s.running == Some(s.exe) && s.journal == Present(j) && j.state.Installed?
    ensures Invariant(o, k, Counted(k, s, j, env).0, strict)
  {
    if j.exePath != k.exePath {
      RollBackKeeps(o, k, s, j, "installation_path_changed", env, strict);
    } else if k.versionOf(s.exe) != j.toVersion {
      RollBackKeeps(o, k, s, j, "version_mismatch_after_restart", env, strict);
    } else if j.attempts > MAX_HEALTH_ATTEMPTS {
      RollBackKeeps(o, k, s, j, "health_check_attempts_exhausted", env, strict);
    } else {
      CheckHealthKeeps(o, k, s, j, env, strict);
    }
  }

  lemma InstalledIsCounted(k: Install, s: Site, j: Journal, env: Environment)
    requires s.running.Some?
    ensures var counted := j.(attempts := j.attempts + 1);
      var (s1, step) := SaveJournal(s, counted, env);
      ResolveInstalled(k, s, j, env).0 == if step == Worked then Counted(k, s1, counted, env).0 else s1
  {
  }

  lemma InstalledKeeps(o: Order, k: Install, s: Site, j: Journal, env: Environment, strict: bool)
    requires IsOrder(o) && Invariant(o, k, s, strict) && s.running == Some(s.exe) && s.journal == Present(j) && j.state.Installed?
    ensures Invariant(o, k, ResolveInstalled(k, s, j, env).0, strict)
  {
    var counted := j.(attempts := j.attempts + 1);
    InstalledIsCounted(k, s, j, env);
    SaveKeeps(o, k, s, counted, env, strict);
    var (s1, step) := SaveJournal(s, counted, env);
    if step == Worked {
      CountedKeeps(o, k, s1, counted, env, strict);
    }
  }

  lemma ResolveKeeps(o: Order, k: Install, s: Site, env: Environment, strict: bool)
    requires IsOrder(o) && Invariant(o, k, s, strict) && s.running == Some(s.exe)
    ensures Invariant(o, k, Resolve(k, s, env).0, strict)
  {
    if s.journal.Present? {
      var j := s.journal.journal;
      match j.state {
        case Staged => SaveKeeps(o, k, Unstage(s), j.(state := Failed, reason := "interrupted_before_install"), env, strict);
        case Installed => InstalledKeeps(o, k, s, j, env, strict);
        case Unrecognized => SaveKeeps(o, k, s, j.(state := Failed, reason := "unknown_journal_state"), env, strict);
        case _ =>
      }
    }
  }

  lemma AcknowledgeKeeps(o: Order, k: Install, s: Site, env: Environment, strict: bool)
    requires Invariant(o, k, s, strict)
    ensures Invariant(o, k, Stop(s), strict) && Invariant(o, k, Acknowledge(Tick(s, env(s.step)), env), strict)
  {
  }

  lemma StartKeeps(o: Order, k: Install, s: Site, env: Environment, strict: bool)
    requires IsOrder(o) && Invariant(o, k, s, strict) && BuildNotBelow(o, k, s.events, s.exe)
    ensures Invariant(o, k, Start(k, s, env), strict)
  {
    ResolveKeeps(o, k, s.(running := Some(s.exe)), env, strict);
    var s1 := Resolve(k, s.(running := Some(s.exe)), env).0;
    AcknowledgeKeeps(o, k, s1, env, strict);
    assert Start(k, s, env) in {s1, Stop(s1), Acknowledge(Tick(s1, env(s1.step)), env)};
  }

  lemma ActKeeps(o: Order, k: Install, s: Site, a: Activity, env: Environment, strict: bool)
    requires o == Versions() && IsOrder(o) && Invariant(o, k, s, strict) && BuildNotBelow(o, k, s.events, s.exe)
    requires if strict then HonestActivity(o, k, a) else OrdinaryActivity(o, a)
    ensures Invariant(o, k, Act(k, s, a, env), strict)
  {
    match a
    case PowerLoss =>
    case Boot =>
      if s.running.None? {
        StartKeeps(o, k, s, env, strict);
      }
    case Update(commandID, p) =>
      if s.running.Some? {
        UpdateKeeps(o, k, s, commandID, p, env, strict);
      }
  }

  ghost predicate HonestRun(k: Install, activities: seq<Activity>) {
    forall i :: 0 <= i < |activities| ==> HonestActivity(Versions(), k, activities[i])
  }

  ghost predicate OrdinaryRun(activities: seq<Activity>) {
    forall i :: 0 <= i < |activities| ==> OrdinaryActivity(Versions(), activities[i])
  }

  lemma {:induction false} HonestRunKeeps(k: Install, s: Site, activities: seq<Activity>, env: Environment)
    requires HonestRun(k, activities) && Invariant(Versions(), k, s, true)
    ensures Invariant(Versions(), k, Run(k, s, activities, env), true)
    decreases |activities|
  {
    VersionsAreOrdered();
    if activities != [] {
      var n := |activities| - 1;
      HonestRunKeeps(k, s, activities[..n], env);
      ActKeeps(Versions(), k, Run(k, s, activities[..n], env), activities[n], env, true);
    }
  }

  // ---------------------------------------------------------------------------------------------
  // The theorems
  // ---------------------------------------------------------------------------------------------

  /** A build committed at this point of the history. */
  predicate AdoptedAt(events: seq<Event>, i: int) {
    0 <= i < |events| && events[i].Adopted?
  }

  /** Each committed build has a higher version than every build committed before it, so none ever returns. */
  ghost predicate CommitsClimb(k: Install, events: seq<Event>) {
    forall i, j :: i < j && AdoptedAt(events, i) && AdoptedAt(events, j) ==>
      Above(k.versionOf(events[j].content), k.versionOf(events[i].content)) && events[j].content != events[i].content
  }

  /** The build has a version, and it is not below that of any committed build. */
  ghost predicate NotLowered(k: Install, events: seq<Event>, build: Bytes) {
    forall i :: AdoptedAt(events, i) ==> NotBelow(k.versionOf(build), k.versionOf(events[i].content))
  }

  lemma CommitsClimbExactly(k: Install, events: seq<Event>)
    ensures CommitsClimb(k, events) <==> Climbs(Versions(), k, events)
  {
    if CommitsClimb(k, events) {
      forall i, j | 0 <= i < j < |events| && events[i].Adopted? && events[j].Adopted?
        ensures Versions().above(k.versionOf(events[j].content), k.versionOf(events[i].content))
      {
        assert AdoptedAt(events, i) && AdoptedAt(events, j);
      }
    }
    if Climbs(Versions(), k, events) {
      forall i, j | i < j && AdoptedAt(events, i) && AdoptedAt(events, j)
        ensures Above(k.versionOf(events[j].content), k.versionOf(events[i].content))
        ensures events[j].content != events[i].content
      {
        var a, b := k.versionOf(events[i].content), k.versionOf(events[j].content);
        assert Versions().above(b, a);
        AboveIsDifferent(ParseVersion(a).value, ParseVersion(b).value);
      }
    }
  }

  lemma NotLoweredExactly(k: Install, events: seq<Event>, build: Bytes)
    ensures NotLowered(k, events, build) <==> BuildNotBelow(Versions(), k, events, build)
  {
    var v := k.versionOf(build);
    if NotLowered(k, events, build) {
      forall i | 0 <= i < |events| && events[i].Adopted?
        ensures Versions().notBelow(v, k.versionOf(events[i].content))
      {
        assert AdoptedAt(events, i);
      }
    }
    if BuildNotBelow(Versions(), k, events, build) {
      forall i | AdoptedAt(events, i)
        ensures NotBelow(v, k.versionOf(events[i].content))
      {
        assert Versions().notBelow(v, k.versionOf(events[i].content));
      }
    }
  }

  /**
   Over every run of updates, starts and power losses, wherever operations fail: the committed builds climb, and the
   executable in place is never older than a committed one, if the metadata of the updates tell the truth.
   */
  lemma UpdatesClimb(k: Install, origin: Bytes, activities: seq<Activity>, env: Environment)
    requires HonestRun(k, activities)
    ensures var s := Run(k, FirstInstall(origin), activities, env);
      CommitsClimb(k, s.events) && NotLowered(k, s.events, s.exe)
  {
    HonestRunKeeps(k, FirstInstall(origin), activities, env);
    var s := Run(k, FirstInstall(origin), activities, env);
    CommitsClimbExactly(k, s.events);
    NotLoweredExactly(k, s.events, s.exe);
  }

  ghost predicate NotLoweredAfter(k: Install, s: Site, activities: seq<Activity>, env: Environment) {
    var t := Run(k, s, activities, env);
    NotLowered(k, t.events, t.exe)
  }

  /** Between its activities the run never leaves an executable below a committed build. */
  ghost predicate NeverLowered(k: Install, s: Site, activities: seq<Activity>, env: Environment) {
    forall n :: 0 <= n < |activities| ==> NotLoweredAfter(k, s, activities[..n], env)
  }

  /**
   Whatever stamps the artifacts carry, the committed builds climb as long as no activity starts from an executable
   below a committed build: a wrong stamp that gets its health check is rolled back.
   */
  lemma {:induction false} UpdatesClimbUnlessLowered(k: Install, origin: Bytes, activities: seq<Activity>,
        env: Environment)
    requires OrdinaryRun(activities) && NeverLowered(k, FirstInstall(origin), activities, env)
    ensures CommitsClimb(k, Run(k, FirstInstall(origin), activities, env).events)
  {
    LaxRunKeeps(k, FirstInstall(origin), activities, env);
    CommitsClimbExactly(k, Run(k, FirstInstall(origin), activities, env).events);
  }

  lemma {:induction false} LaxRunKeeps(k: Install, s: Site, activities: seq<Activity>, env: Environment)
    requires OrdinaryRun(activities) && NeverLowered(k, s, activities, env) && Invariant(Versions(), k, s, false)
    ensures Invariant(Versions(), k, Run(k, s, activities, env), false)
    decreases |activities|
  {
    if activities != [] {
      var n := |activities| - 1;
      NeverLoweredBefore(k, s, activities, n, env);
      LaxRunKeeps(k, s, activities[..n], env);
      LaxStepKeeps(k, Run(k, s, activities[..n], env), activities[n], env);
    }
  }

  lemma NeverLoweredBefore(k: Install, s: Site, activities: seq<Activity>, n: nat, env: Environment)
    requires n <= |activities| && NeverLowered(k, s, activities, env)
    ensures NeverLowered(k, s, activities[..n], env)
  {
    forall m | 0 <= m < n
      ensures NotLoweredAfter(k, s, activities[..n][..m], env)
    {
      assert activities[..n][..m] == activities[..m];
    }
  }

  lemma LaxStepKeeps(k: Install, s: Site, a: Activity, env: Environment)
    requires Invariant(Versions(), k, s, false) && NotLowered(k, s.events, s.exe) && OrdinaryActivity(Versions(), a)
    ensures Invariant(Versions(), k, Act(k, s, a, env), false)
  {
    VersionsAreOrdered();
    NotLoweredExactly(k, s.events, s.exe);
    ActKeeps(Versions(), k, s, a, env, false);
  }
}
