/**
 What a start of the service can still repair: exactly when an installed attempt is resolved, what happens to a
 build whose version stamp does not parse, and exactly when an interrupted swap leaves a build in place that
 no health check ever sees.
 */
module SelfUpdateRecovery {
  import opened Basics
  import opened SelfUpdate
  import opened SelfUpdateProtocol
  import opened Version

  ghost predicate EverythingWorks(env: Environment) {
    forall n: nat :: env(n).io.Works?
  }

  predicate ParsableStamp(k: Install, build: Bytes) {
    ParseVersion(k.versionOf(build)).Some?
  }

  predicate Installing(s: Site) {
    s.journal.Present? && s.journal.journal.state.Installed?
  }

  /** The service has started from the executable on disk. */
  function Started(s: Site): Site {
    s.(running := Some(s.exe))
  }

  // ---------------------------------------------------------------------------------------------
  // Resolution of an installed attempt
  // ---------------------------------------------------------------------------------------------

  /** How a good start ends: committed with the new build, or rolled back to the backed-up one. */
  ghost predicate Resolved(k: Install, s: Site, j: Journal, after: Site, status: Status) {
    && after.journal.Present?
    && ((&& status == Succeeded && after.journal.journal.state.Committed?
         && after.exe == s.exe && k.versionOf(after.exe) == j.toVersion
         && after.events == s.events + [HealthChecked, Adopted(after.exe)]
         && after.previous == Retained(PreviousBuild(j.fromVersion, j.backupPath, j.backupSHA256)))
        || (&& status == RolledBackStatus && after.journal.journal.state.RolledBack?
            && j.backupPath in s.backups && after.exe == s.backups[j.backupPath] && k.digest(after.exe) == j.backupSHA256
            && (after.events == s.events || after.events == s.events + [HealthChecked])))
  }

  lemma GoodRollBack(k: Install, s: Site, j: Journal, reason: string, env: Environment)
    requires EverythingWorks(env) && BackupIntact(k, s, j)
    ensures var (s', status) := RollBack(k, s, j, reason, env);
      && status == RolledBackStatus && s'.exe == s.backups[j.backupPath] && s'.events == s.events
      && s'.journal == Present(j.(state := RolledBack, reason := reason))
  {
  }

  lemma GoodCommit(k: Install, s: Site, j: Journal, env: Environment)
    requires EverythingWorks(env) && BackupIntact(k, s, j)
    ensures var (s', status) := Commit(s, j, env);
      && status == Succeeded && s'.exe == s.exe && s'.events == s.events + [Adopted(s.exe)]
      && s'.journal == Present(j.(state := Committed, reason := "health_check_passed"))
      && s'.previous == Retained(PreviousBuild(j.fromVersion, j.backupPath, j.backupSHA256))
  {
  }

  lemma GoodHealthCheck(k: Install, s: Site, j: Journal, env: Environment)
    requires EverythingWorks(env) && k.versionOf(s.exe) == j.toVersion && BackupIntact(k, s, j)
    ensures var (after, status) := CheckHealth(k, s, j, env);
      Resolved(k, s, j, after, status)
  {
    var c := env(s.step);
    var s1 := Tick(s, c);
    var s2 := s1.(events := s1.events + [HealthChecked]);
    if j.healthDeadline.Some? && s1.clock > j.healthDeadline.value {
      GoodRollBack(k, s1, j, "health_check_deadline_exceeded", env);
    } else if c.healthy.None? {
      GoodRollBack(k, s1, j, "health_check_unavailable", env);
    } else if !c.healthy.value {
      GoodRollBack(k, s2, j, "health_check_failed", env);
    } else {
      GoodCommit(k, s2, j, env);
      assert s2.events + [Adopted(s.exe)] == s.events + [HealthChecked, Adopted(s.exe)];
    }
  }

  lemma GoodInstalledStart(k: Install, s: Site, j: Journal, env: Environment)
    requires EverythingWorks(env) && s.running == Some(s.exe) && s.journal == Present(j) && BackupIntact(k, s, j)
    ensures var (after, status) := ResolveInstalled(k, s, j, env);
      Resolved(k, s, j, after, status)
  {
    var counted := j.(attempts := j.attempts + 1);
    var (s1, step) := SaveJournal(s, counted, env);
    assert step == Worked && s1.journal == Present(counted) && BackupIntact(k, s1, counted);
    if counted.exePath != k.exePath {
      GoodRollBack(k, s1, counted, "installation_path_changed", env);
    } else if k.versionOf(s.exe) != counted.toVersion {
      GoodRollBack(k, s1, counted, "version_mismatch_after_restart", env);
    } else if counted.attempts > MAX_HEALTH_ATTEMPTS {
      GoodRollBack(k, s1, counted, "health_check_attempts_exhausted", env);
    } else {
      GoodHealthCheck(k, s1, counted, env);
    }
  }

  lemma GoodStart(k: Install, s: Site, env: Environment)
    requires EverythingWorks(env) && s.running == Some(s.exe) && ParsableStamp(k, s.exe)
    requires Installing(s) && BackupIntact(k, s, s.journal.journal)
    ensures var (after, status) := Resolve(k, s, env);
      Resolved(k, s, s.journal.journal, after, status)
  {
    GoodInstalledStart(k, s, s.journal.journal, env);
  }

  /**
   One start without crashes and with working I/O settles a reachable installed attempt exactly when the
   version stamp of the executable parses.  Then the new build is committed where it stands, healthy and of the
   expected version, and the replaced one retained, or exactly the backed-up build is back.  Otherwise the
   start changes nothing at all.
   */
  lemma OneGoodStartResolves(k: Install, origin: Bytes, activities: seq<Activity>, env: Environment, later: Environment)
    requires Digests(k) && EverythingWorks(later)
    requires Installing(Run(k, FirstInstall(origin), activities, env))
    ensures var s := Run(k, FirstInstall(origin), activities, env);
      var (after, status) := Resolve(k, Started(s), later);
      && (Resolved(k, s, s.journal.journal, after, status) <==> ParsableStamp(k, s.exe))
      && (!ParsableStamp(k, s.exe) ==> after == Started(s) && status == NoOutcome)
  {
    RunKeepsInvariant(k, origin, activities, env);
    var s := Run(k, FirstInstall(origin), activities, env);
    if ParsableStamp(k, s.exe) {
      GoodStart(k, Started(s), later);
      var (after, status) := Resolve(k, Started(s), later);
      assert Resolved(k, Started(s), s.journal.journal, after, status);
    }
  }

  // ---------------------------------------------------------------------------------------------
  // A build whose stamp does not parse
  // ---------------------------------------------------------------------------------------------

  /** An installed attempt whose build does not know its own version, with no older process left running. */
  ghost predicate Stuck(k: Install, s: Site) {
    Installing(s) && !ParsableStamp(k, s.exe) && (s.running.None? || s.running == Some(s.exe))
  }

  /** Nothing of the update state has moved. */
  ghost predicate SameUpdateState(s: Site, t: Site) {
    t.exe == s.exe && t.journal == s.journal && t.backups == s.backups && t.previous == s.previous && t.events == s.events
  }

  lemma StuckStep(k: Install, s: Site, a: Activity, env: Environment)
    requires Stuck(k, s)
    ensures Stuck(k, Act(k, s, a, env)) && SameUpdateState(s, Act(k, s, a, env))
  {
  }

  /**
   Such a build stays for good: over every run of starts, updates, operator rollbacks and power losses, with
   whatever works or fails, it is neither checked nor rolled back, and the attempt is never resolved.
   */
  lemma {:induction false} UnparsableStampIsNeverResolved(k: Install, s: Site, activities: seq<Activity>,
        env: Environment)
    requires Stuck(k, s)
    ensures Stuck(k, Run(k, s, activities, env)) && SameUpdateState(s, Run(k, s, activities, env))
    decreases |activities|
  {
    if activities != [] {
      var n := |activities| - 1;
      UnparsableStampIsNeverResolved(k, s, activities[..n], env);
      StuckStep(k, Run(k, s, activities[..n], env), activities[n], env);
    }
  }

  /**
   The agent does not look at the stamp of an artifact before it swaps, so such a build is reached: by an update
   that would be accepted (its metadata verified, newer, everything working) and the power loss or restart after it.
   */
  lemma UnparsableStampIsReached(k: Install, s: Site, commandID: string, p: UpdatePayload, content: Bytes,
        env: Environment)
    requires s.running.Some? && Delivers(env, content) && ValidPayload(p)
    requires k.digest(content) == p.sha256 && |content| == p.sizeBytes
    requires p.platform == k.platform && p.channel == k.channel && !InFlight(s.journal) && !s.journal.Unusable?
    requires ParsableStamp(k, s.running.value)
    requires Compare(ParseVersion(p.version).value, ParseVersion(k.versionOf(s.running.value)).value) > 0
    requires Compare(ParseVersion(p.version).value, ParseVersion(p.minSupportedVersion).value) >= 0
    requires !ParsableStamp(k, content) && Digests(k)
    ensures var t := Run(k, s, [Update(commandID, p), PowerLoss], env);
      Stuck(k, t) && t.exe == content
  {
    GoodUpdateReachesItsRestart(k, s, commandID, p, content, env);
    PendingUpdateIsForwardAndReversible(k, s, commandID, p, env);
    GoodUpdateInstallsTheContent(k, s, commandID, p, content, env);
    var run := [Update(commandID, p), PowerLoss];
    assert run[..1] == [Update(commandID, p)] && run[..1][..0] == [];
    assert Run(k, s, [], env) == s;
    assert Run(k, s, run[..1], env) == Settle(ExecuteUpdate(k, s, commandID, p, env));
  }

  lemma GoodUpdateInstallsTheContent(k: Install, s: Site, commandID: string, p: UpdatePayload, content: Bytes,
        env: Environment)
    requires s.running.Some? && Delivers(env, content)
    requires ExecuteUpdate(k, s, commandID, p, env).1 == RestartPending
    ensures ExecuteUpdate(k, s, commandID, p, env).0.exe == content
  {
    UpdateIsRefusedOrDownloads(k, s, commandID, p, env);
    var s1 := Tick(s, env(s.step));
    var s2 := s1.(staged := s1.staged[STAGED_PATH := content], events := s1.events + [Verified(p.sha256, content)]);
    StageOutcome(k, s2, NewJournal(k, s2, commandID, p), content, env);
  }

  // ---------------------------------------------------------------------------------------------
  // Swaps that are cut short
  // ---------------------------------------------------------------------------------------------

  /** A restore that starts at step n puts the backup in place. */
  predicate RestoreTakes(env: Environment, n: nat) {
    env(n).io.Works? && env(n + 1).io.Takes()
  }

  /** The step after a restore that starts at step n and reports failure, if that is how it ends. */
  function AfterRefusedRestore(env: Environment, n: nat): Option<nat> {
    if env(n).io.Fails? then Some(n + 1)
    else if env(n).io.Works? && env(n + 1).io.Fails? then Some(n + 2)
    else None
  }

  /** The request for a restart, at step n, leaves the new build in place. */
  predicate RestartLeavesIt(env: Environment, n: nat) {
    env(n).restartAccepted || !RestoreTakes(env, n + 1)
  }

  /** The request for a restart, at step n, leaves the installed journal. */
  predicate RestartKeepsTheJournal(env: Environment, n: nat) {
    var giveUp := AfterRefusedRestore(env, n + 1);
    !env(n).restartAccepted && giveUp.Some? ==> !env(giveUp.value).io.Takes()
  }

  /** From the save of the installed journal, at step n, the new build is left in place. */
  predicate SaveLeavesIt(env: Environment, n: nat) {
    match env(n).io
    case Works => RestartLeavesIt(env, n + 1)
    case Fails => !RestoreTakes(env, n + 1)
    case _ => true
  }

  predicate SaveSaysInstalled(env: Environment, n: nat) {
    env(n).io.DiesAfter? || (env(n).io.Works? && RestartKeepsTheJournal(env, n + 1))
  }

  /** A swap that starts at step n leaves the new build in place. */
  predicate LeftInPlace(env: Environment, n: nat) {
    env(n).io.DiesAfter? || (env(n).io.Works? && SaveLeavesIt(env, n + 1))
  }

  /** A swap that starts at step n and leaves the new build in place also leaves a journal that says so. */
  predicate SaysInstalled(env: Environment, n: nat) {
    env(n).io.Works? && SaveSaysInstalled(env, n + 1)
  }

  /** An attempt whose backup is made and whose digest is journaled, about to swap. */
  ghost predicate ReadyToSwap(k: Install, s: Site, j: Journal, content: Bytes) {
    && s.journal == Present(j) && j.state.Staged? && s.exe != content
    && BackupIntact(k, s, j) && s.backups[j.backupPath] == s.exe
  }

  /** The new build is in place or the replaced one, the journal says installed or not, and the rest is as before. */
  ghost predicate Leaves(s: Site, after: Site, j: Journal, content: Bytes, inPlace: bool, installed: bool) {
    && j.backupPath in s.backups && after.exe == (if inPlace then content else s.backups[j.backupPath])
    && after.events == s.events && after.backups == s.backups
    && after.journal.Present? && after.journal.journal.toVersion == j.toVersion
    && after.journal.journal.backupPath == j.backupPath && after.journal.journal.backupSHA256 == j.backupSHA256
    && (inPlace ==> (after.journal.journal.state.Installed? <==> installed))
  }

  /** How a restore of an intact backup ends, by the choices of the environment alone. */
  lemma RestoreEnds(k: Install, s: Site, j: Journal, env: Environment)
    requires BackupIntact(k, s, j)
    ensures var (after, step) := RestoreBackup(k, s, j.backupPath, j.backupSHA256, env);
      && after.exe == (if RestoreTakes(env, s.step) then s.backups[j.backupPath] else s.exe)
      && after.journal == s.journal && after.events == s.events && after.backups == s.backups
      && (step == Worked ==> RestoreTakes(env, s.step))
      && (step == Refused <==> AfterRefusedRestore(env, s.step).Some?)
      && (step == Refused ==> after.step == AfterRefusedRestore(env, s.step).value)
  {
  }

  lemma RestartLeaves(k: Install, s: Site, replaced: Bytes, j: Journal, content: Bytes, env: Environment)
    requires s.exe == content != replaced && s.journal == Present(j) && j.state.Installed?
    requires BackupIntact(k, s, j) && s.backups[j.backupPath] == replaced
    ensures Leaves(s, RequestRestart(k, s, j, env).0, j, content,
              RestartLeavesIt(env, s.step), RestartKeepsTheJournal(env, s.step))
  {
    var s1 := Tick(s, env(s.step));
    if !env(s.step).restartAccepted {
      RestoreEnds(k, s1, j, env);
      var (s2, step) := RestoreBackup(k, s1, j.backupPath, j.backupSHA256, env);
      match step {
        case Died => assert RequestRestart(k, s, j, env).0 == s2;
        case Refused =>
          var failed := j.(state := Failed, reason := "restart_and_restore_failed");
          assert RequestRestart(k, s, j, env).0 == SaveJournal(s2, failed, env).0;
        case Worked =>
          var undone := j.(state := RolledBack, reason := "restart_request_failed");
          assert RequestRestart(k, s, j, env).0 == SaveJournal(s2, undone, env).0;
      }
    }
  }

  lemma SaveLeaves(k: Install, s: Site, replaced: Bytes, staged: Journal, j: Journal, content: Bytes, env: Environment)
    requires s.exe == content != replaced && s.journal == Present(staged) && staged.state.Staged? && j.state.Installed?
    requires staged == j.(state := staged.state, stagedPath := staged.stagedPath)
    requires BackupIntact(k, s, j) && s.backups[j.backupPath] == replaced
    ensures Leaves(s, MarkInstalled(k, s, j, env).0, j, content, SaveLeavesIt(env, s.step), SaveSaysInstalled(env, s.step))
  {
    var (s1, step) := SaveJournal(s, j, env);
    if step == Worked {
      RestartLeaves(k, s1, replaced, j, content, env);
      assert MarkInstalled(k, s, j, env) == RequestRestart(k, s1, j, env);
    }
  }

  lemma RefusedSwapLeaves(k: Install, s: Site, j: Journal, content: Bytes, env: Environment)
    requires ReadyToSwap(k, s, j, content) && env(s.step).io.Fails?
    ensures Leaves(s, Swap(k, s, j, content, env).0, j, content, false, false)
  {
    var s1 := Tick(s, env(s.step));
    var (s2, step) := RestoreBackup(k, s1, j.backupPath, j.backupSHA256, env);
    assert s2.exe == s.exe && s2.journal == s.journal && s2.events == s.events && s2.backups == s.backups;
    var failed := j.(state := Failed, reason := "replace_failed");
    var s3 := SaveJournal(Unstage(s2), failed, env).0;
    assert Swap(k, s, j, content, env).0 == if step == Died then s2 else s3;
  }

  lemma WorkedSwap(k: Install, s: Site, j: Journal, content: Bytes, env: Environment)
    requires env(s.step).io.Works?
    ensures Swap(k, s, j, content, env)
      == MarkInstalled(k, Unstage(Replace(s, content, env).0), j.(state := Installed, stagedPath := ""), env)
  {
  }

  lemma DeadSwap(k: Install, s: Site, j: Journal, content: Bytes, env: Environment)
    requires env(s.step).io.DiesBefore? || env(s.step).io.DiesAfter?
    ensures Swap(k, s, j, content, env) == (Replace(s, content, env).0, Interrupted)
  {
  }

  /** What a swap leaves behind, by the choices of the environment alone. */
  lemma SwapLeaves(k: Install, s: Site, j: Journal, content: Bytes, env: Environment)
    requires ReadyToSwap(k, s, j, content)
    ensures Leaves(s, Swap(k, s, j, content, env).0, j, content, LeftInPlace(env, s.step), SaysInstalled(env, s.step))
  {
    match env(s.step).io
    case Works =>
      var installed := j.(state := Installed, stagedPath := "");
      WorkedSwap(k, s, j, content, env);
      SaveLeaves(k, Unstage(Replace(s, content, env).0), s.exe, j, installed, content, env);
    case Fails => RefusedSwapLeaves(k, s, j, content, env);
    case _ => DeadSwap(k, s, j, content, env);
  }

  /** A good start leaves this build in place and has not asked for its health. */
  ghost predicate LeftUnchecked(k: Install, before: Site, after: Site, content: Bytes, later: Environment) {
    var s := Resolve(k, Started(after), later).0;
    s.exe == content && s.events == before.events
  }

  lemma StartLeavesUnchecked(k: Install, before: Site, after: Site, content: Bytes, later: Environment)
    requires EverythingWorks(later) && after.events == before.events && after.journal.Present?
    requires Installing(after) ==> BackupIntact(k, after, after.journal.journal)
    requires Installing(after) ==> after.backups[after.journal.journal.backupPath] != content
    ensures LeftUnchecked(k, before, after, content, later) <==>
      after.exe == content && !(Installing(after) && ParsableStamp(k, content))
  {
    if Installing(after) && ParsableStamp(k, after.exe) {
      GoodStart(k, Started(after), later);
    }
  }

  /**
   The windows the journal does not cover, exactly.  From an attempt about to swap, over every environment, the
   next good start leaves the new build in place without a health check exactly when the swap left it in place
   and either no journal says installed or the build's stamp does not parse.
   */
  lemma NewBuildStaysUncheckedExactly(k: Install, s: Site, j: Journal, content: Bytes, env: Environment,
        later: Environment)
    requires ReadyToSwap(k, s, j, content) && EverythingWorks(later)
    ensures LeftUnchecked(k, s, Swap(k, s, j, content, env).0, content, later) <==>
      LeftInPlace(env, s.step) && (!SaysInstalled(env, s.step) || !ParsableStamp(k, content))
  {
    SwapLeaves(k, s, j, content, env);
    StartLeavesUnchecked(k, s, Swap(k, s, j, content, env).0, content, later);
  }

  /** A start after a swap that left the staged journal: failed before the installation, whatever is in place. */
  lemma StagedIsReportedAsFailure(k: Install, s: Site, j: Journal, later: Environment)
    requires s.journal == Present(j) && j.state.Staged? && ParsableStamp(k, s.exe) && EverythingWorks(later)
    ensures var (s', outcome) := Resolve(k, Started(s), later);
      && outcome == FailedStatus && s'.exe == s.exe && s'.events == s.events
      && s'.journal == Present(j.(state := Failed, reason := "interrupted_before_install"))
  {
    assert later(s.step).io.Works?;
  }

  /** The installed journal never becomes visible, and nothing brings the old build back. */
  lemma UnsavedInstallation(k: Install, s: Site, j: Journal, env: Environment)
    requires BackupIntact(k, s, j)
    requires env(s.step).io.DiesBefore? || (env(s.step).io.Fails? && env(s.step + 1).io.Fails?)
    ensures var (after, status) := MarkInstalled(k, s, j, env);
      && (status == Interrupted || status == InstallFailed)
      && after.exe == s.exe && after.journal == s.journal && after.events == s.events
  {
    var (s1, step) := SaveJournal(s, j, env);
    if step == Refused {
      RestoreEnds(k, s1, j, env);
    }
  }

  /**
   Three of those windows, with what is reported: a crash right after the swap, a crash before the installed
   journal is visible, and, without any crash, a journal that cannot be saved and a backup that cannot be
   restored.  Each time the next start reports that the attempt was interrupted before the installation.
   */
  lemma UncheckedBuildIsReportedAsFailure(k: Install, s: Site, j: Journal, content: Bytes, env: Environment,
        later: Environment)
    requires ReadyToSwap(k, s, j, content) && EverythingWorks(later) && ParsableStamp(k, content)
    requires
      || env(s.step).io.DiesAfter?
      || (env(s.step).io.Works? && env(s.step + 1).io.DiesBefore?)
      || (env(s.step).io.Works? && env(s.step + 1).io.Fails? && env(s.step + 2).io.Fails?)
    ensures var (after, status) := Swap(k, s, j, content, env);
      var (s', outcome) := Resolve(k, Started(after), later);
      && (status == Interrupted || status == InstallFailed) && outcome == FailedStatus
      && s'.exe == content && s'.events == s.events
      && s'.journal == Present(j.(state := Failed, reason := "interrupted_before_install"))
  {
    var after := Swap(k, s, j, content, env).0;
    if env(s.step).io.Works? {
      WorkedSwap(k, s, j, content, env);
      UnsavedInstallation(k, Unstage(Replace(s, content, env).0), j.(state := Installed, stagedPath := ""), env);
    } else {
      DeadSwap(k, s, j, content, env);
    }
    StagedIsReportedAsFailure(k, after, j, later);
  }
}
