/**
 What the self-update protocol guarantees over every run of updates, automatic rollbacks, operator
 rollbacks, failed operations, crashes and restarts.
 */
module SelfUpdateProtocol {
  import opened Basics
  import opened Version
  import opened SelfUpdate

  /** The first build, or an artifact that passed the signed digest. */
  ghost predicate Approved(k: Install, origin: Bytes, events: seq<Event>, digest: string) {
    || digest == k.digest(origin)
    || exists i :: 0 <= i < |events| && events[i].Verified? && events[i].sha256 == digest && k.digest(events[i].content) == digest
  }

  /** Health checks since the current attempt began. */
  function HealthRuns(events: seq<Event>): nat
    decreases |events|
  {
    if events == [] then 0
    else
      var last := events[|events| - 1];
      if last.Began? then 0
      else if last.HealthChecked? then HealthRuns(events[..|events| - 1]) + 1
      else HealthRuns(events[..|events| - 1])
  }

  lemma HealthRunsAppend(events: seq<Event>, e: Event)
    ensures HealthRuns(events + [e]) ==
      if e.Began? then 0 else if e.HealthChecked? then HealthRuns(events) + 1 else HealthRuns(events)
  {
    assert (events + [e])[..|events|] == events;
  }

  lemma ApprovedAppend(k: Install, origin: Bytes, events: seq<Event>, e: Event, digest: string)
    requires Approved(k, origin, events, digest)
    ensures Approved(k, origin, events + [e], digest)
  {
    if digest != k.digest(origin) {
      var i :| 0 <= i < |events| && events[i].Verified? && events[i].sha256 == digest && k.digest(events[i].content) == digest;
      assert (events + [e])[i] == events[i];
    }
  }

  ghost predicate BackupIntact(k: Install, s: Site, j: Journal) {
    && j.backupPath != "" && j.backupSHA256 != ""
    && j.backupPath in s.backups && k.digest(s.backups[j.backupPath]) == j.backupSHA256
  }

  ghost predicate JournalSound(k: Install, origin: Bytes, s: Site, j: Journal) {
    && (j.backupSHA256 != "" ==> Approved(k, origin, s.events, j.backupSHA256))
    && (j.state.Installed? ==> BackupIntact(k, s, j))
    && (j.state.Staged? || j.state.Installed? ==> HealthRuns(s.events) <= j.attempts)
  }

  ghost predicate Invariant(k: Install, origin: Bytes, s: Site) {
    && Approved(k, origin, s.events, k.digest(s.exe))
    && (s.journal.Present? ==> JournalSound(k, origin, s, s.journal.journal))
    && (s.previous.Retained? ==> Approved(k, origin, s.events, s.previous.build.sha256))
    && HealthRuns(s.events) <= MAX_HEALTH_ATTEMPTS
  }

  ghost predicate Digests(k: Install) {
    forall b :: IsSha256(k.digest(b))
  }

  // ---------------------------------------------------------------------------------------------
  // Each operation keeps the invariant
  // ---------------------------------------------------------------------------------------------

  lemma SaveJournalKeeps(k: Install, origin: Bytes, s: Site, j: Journal, env: Environment)
    requires Invariant(k, origin, s) && JournalSound(k, origin, s, j)
    ensures Invariant(k, origin, SaveJournal(s, j, env).0)
  {
  }

  lemma EventKeeps(k: Install, origin: Bytes, s: Site, e: Event)
    requires Invariant(k, origin, s)
    requires e.HealthChecked? ==> HealthRuns(s.events) < MAX_HEALTH_ATTEMPTS
    requires e.HealthChecked? && InFlight(s.journal) ==> HealthRuns(s.events) < s.journal.journal.attempts
    ensures Invariant(k, origin, s.(events := s.events + [e]))
  {
    HealthRunsAppend(s.events, e);
    ApprovedAppend(k, origin, s.events, e, k.digest(s.exe));
    if s.previous.Retained? {
      ApprovedAppend(k, origin, s.events, e, s.previous.build.sha256);
    }
    if s.journal.Present? && s.journal.journal.backupSHA256 != "" {
      ApprovedAppend(k, origin, s.events, e, s.journal.journal.backupSHA256);
    }
  }

  /** A restore can only bring back a build with the recorded, approved digest. */
  lemma RestoreKeeps(k: Install, origin: Bytes, s: Site, path: string, expected: string, env: Environment)
    requires Invariant(k, origin, s)
    requires expected != "" && Approved(k, origin, s.events, expected)
    ensures var (s', step) := RestoreBackup(k, s, path, expected, env);
      && Invariant(k, origin, s')
      && s'.events == s.events && s'.backups == s.backups && s'.journal == s.journal && s'.previous == s.previous
      && (step == Worked ==> path in s.backups && s'.exe == s.backups[path] && k.digest(s'.exe) == expected)
  {
  }

  lemma StageKeeps(k: Install, origin: Bytes, s: Site, j: Journal, content: Bytes, env: Environment)
    requires Invariant(k, origin, s) && Digests(k) && !InFlight(s.journal)
    requires j.state.Staged? && j.attempts == 0 && j.backupSHA256 == "" && j.backupPath != ""
    requires Approved(k, origin, s.events, k.digest(content))
    ensures Invariant(k, origin, Stage(k, s, j, content, env).0)
  {
    var (saved, step) := SaveJournal(s, j, env);
    var s1 := if saved.journal == Present(j) then saved.(events := saved.events + [Began]) else saved;
    if saved.journal == Present(j) {
      BeganKeeps(k, origin, s, saved, j);
      ApprovedAppend(k, origin, s.events, Began, k.digest(content));
    }
    assert Invariant(k, origin, s1);
    if step == Worked {
      BackUpKeeps(k, origin, s1, j, content, env);
    }
  }

  /** A journal that starts a new attempt is sound once the attempt has begun. */
  lemma BeganKeeps(k: Install, origin: Bytes, s: Site, saved: Site, j: Journal)
    requires Invariant(k, origin, s) && j.state.Staged? && j.attempts == 0 && j.backupSHA256 == ""
    requires saved.journal == Present(j)
    requires saved.exe == s.exe && saved.previous == s.previous && saved.events == s.events
    ensures Invariant(k, origin, saved.(events := saved.events + [Began]))
  {
    HealthRunsAppend(s.events, Began);
    ApprovedAppend(k, origin, s.events, Began, k.digest(s.exe));
    if s.previous.Retained? {
      ApprovedAppend(k, origin, s.events, Began, s.previous.build.sha256);
    }
  }

  lemma BackUpKeeps(k: Install, origin: Bytes, s: Site, j: Journal, content: Bytes, env: Environment)
    requires Invariant(k, origin, s) && Digests(k) && s.journal == Present(j)
    requires j.state.Staged? && j.attempts == 0 && j.backupSHA256 == "" && j.backupPath != ""
    requires Approved(k, origin, s.events, k.digest(content))
    ensures Invariant(k, origin, BackUp(k, s, j, content, env).0)
  {
    var (s1, step) := BackupCurrent(s, j.backupPath, env);
    assert Invariant(k, origin, s1);
    if step == Worked {
      var j1 := j.(backupSHA256 := k.digest(s1.exe));
      assert IsSha256(k.digest(s1.exe));
      SaveJournalKeeps(k, origin, s1, j1, env);
      var (s2, step) := SaveJournal(s1, j1, env);
      if step == Worked {
        SwapKeeps(k, origin, s2, j1, content, env);
      }
    } else if step == Refused {
      SaveJournalKeeps(k, origin, Unstage(s1), j.(state := Failed, reason := "backup_failed"), env);
    }
  }

  lemma SwapKeeps(k: Install, origin: Bytes, s: Site, j: Journal, content: Bytes, env: Environment)
    requires Invariant(k, origin, s) && s.journal == Present(j) && j.state.Staged? && BackupIntact(k, s, j)
    requires Approved(k, origin, s.events, k.digest(content))
    ensures Invariant(k, origin, Swap(k, s, j, content, env).0)
  {
    var (s1, step) := Replace(s, content, env);
    assert Invariant(k, origin, s1);
    if step == Refused {
      RestoreKeeps(k, origin, s1, j.backupPath, j.backupSHA256, env);
      var (s2, step) := RestoreBackup(k, s1, j.backupPath, j.backupSHA256, env);
      if step != Died {
        SaveJournalKeeps(k, origin, Unstage(s2), j.(state := Failed, reason := "replace_failed"), env);
      }
    } else if step == Worked {
      MarkInstalledKeeps(k, origin, Unstage(s1), j.(state := Installed, stagedPath := ""), env);
    }
  }

  lemma MarkInstalledKeeps(k: Install, origin: Bytes, s: Site, j: Journal, env: Environment)
    requires Invariant(k, origin, s) && JournalSound(k, origin, s, j) && BackupIntact(k, s, j)
    ensures Invariant(k, origin, MarkInstalled(k, s, j, env).0)
  {
    SaveJournalKeeps(k, origin, s, j, env);
    var (s1, step) := SaveJournal(s, j, env);
    if step == Refused {
      RestoreKeeps(k, origin, s1, j.backupPath, j.backupSHA256, env);
    } else if step == Worked && !env(s1.step).restartAccepted {
      var s2 := Tick(s1, env(s1.step));
      RestoreKeeps(k, origin, s2, j.backupPath, j.backupSHA256, env);
      var (s3, step) := RestoreBackup(k, s2, j.backupPath, j.backupSHA256, env);
      if step == Refused {
        SaveJournalKeeps(k, origin, s3, j.(state := Failed, reason := "restart_and_restore_failed"), env);
      } else if step == Worked {
        SaveJournalKeeps(k, origin, s3, j.(state := RolledBack, reason := "restart_request_failed"), env);
      }
    }
  }

  lemma DownloadKeeps(k: Install, origin: Bytes, s: Site, commandID: string, p: UpdatePayload, env: Environment)
    requires Invariant(k, origin, s) && Digests(k) && s.running.Some? && !InFlight(s.journal)
    ensures Invariant(k, origin, Download(k, s, commandID, p, env).0)
  {
    var c := env(s.step);
    var s1 := Tick(s, c);
    if c.io.Works? && c.download.Some? && k.digest(c.download.value) == p.sha256 {
      var content := c.download.value;
      var e := Verified(p.sha256, content);
      var s2 := s1.(staged := s1.staged[STAGED_PATH := content], events := s1.events + [e]);
      EventKeeps(k, origin, s1, e);
      assert s2.events[|s1.events|] == e;
      StageKeeps(k, origin, s2, NewJournal(k, s2, commandID, p), content, env);
    }
  }

  lemma RestorePreviousKeeps(k: Install, origin: Bytes, s: Site, commandID: string, b: PreviousBuild, env: Environment)
    requires Invariant(k, origin, s) && s.running.Some? && s.previous == Retained(b) && IsSha256(b.sha256)
    ensures Invariant(k, origin, RestorePrevious(k, s, commandID, b, env).0)
  {
    RestoreKeeps(k, origin, s, b.path, b.sha256, env);
    var (s1, step) := RestoreBackup(k, s, b.path, b.sha256, env);
    var j := Journal(RolledBack, "", commandID, k.versionOf(s.running.value), b.version, k.exePath, b.path, "",
                     b.sha256, b.sha256, Some(s.clock + DEFAULT_HEALTH_SECONDS), 0, "operator_requested_rollback");
    if step == Worked {
      assert JournalSound(k, origin, s1, j);
      SaveJournalKeeps(k, origin, s1, j, env);
      var (s2, saved) := SaveJournal(s1, j, env);
      TickKeeps(k, origin, s2, env);
      assert RestorePrevious(k, s, commandID, b, env).0 == if saved == Worked then Tick(s2, env(s2.step)) else s2;
    }
  }

  lemma TickKeeps(k: Install, origin: Bytes, s: Site, env: Environment)
    requires Invariant(k, origin, s)
    ensures Invariant(k, origin, Tick(s, env(s.step)))
  {
  }

  lemma RollBackKeeps(k: Install, origin: Bytes, s: Site, j: Journal, reason: string, env: Environment)
    requires Invariant(k, origin, s) && s.journal == Present(j) && j.state.Installed?
    ensures Invariant(k, origin, RollBack(k, s, j, reason, env).0)
  {
    RestoreKeeps(k, origin, s, j.backupPath, j.backupSHA256, env);
    var (s1, step) := RestoreBackup(k, s, j.backupPath, j.backupSHA256, env);
    if step == Worked {
      SaveJournalKeeps(k, origin, s1, j.(state := RolledBack, reason := reason), env);
    } else if step == Refused {
      SaveJournalKeeps(k, origin, s1, j.(state := Failed, reason := reason + "+restore_failed"), env);
    }
  }

  lemma CommitKeeps(k: Install, origin: Bytes, s: Site, j: Journal, env: Environment)
    requires Invariant(k, origin, s) && s.journal == Present(j) && j.state.Installed?
    ensures Invariant(k, origin, Commit(s, j, env).0)
  {
    var b := PreviousBuild(j.fromVersion, j.backupPath, j.backupSHA256);
    var (s1, step) := SavePrevious(s, b, env);
    assert Invariant(k, origin, s1);
    if step == Worked {
      var committed := j.(state := Committed, reason := "health_check_passed");
      SaveJournalKeeps(k, origin, s1, committed, env);
      var (saved, _) := SaveJournal(s1, committed, env);
      if saved.journal == Present(committed) {
        EventKeeps(k, origin, saved, Adopted(saved.exe));
      }
    }
  }

  lemma CheckHealthKeeps(k: Install, origin: Bytes, s: Site, j: Journal, env: Environment)
    requires Invariant(k, origin, s) && s.journal == Present(j) && j.state.Installed?
    requires HealthRuns(s.events) < j.attempts <= MAX_HEALTH_ATTEMPTS
    ensures Invariant(k, origin, CheckHealth(k, s, j, env).0)
  {
    var c := env(s.step);
    var s1 := Tick(s, c);
    if j.healthDeadline.Some? && s1.clock > j.healthDeadline.value {
      RollBackKeeps(k, origin, s1, j, "health_check_deadline_exceeded", env);
    } else if c.healthy.None? {
      RollBackKeeps(k, origin, s1, j, "health_check_unavailable", env);
    } else {
      var s2 := s1.(events := s1.events + [HealthChecked]);
      EventKeeps(k, origin, s1, HealthChecked);
      if !c.healthy.value {
        RollBackKeeps(k, origin, s2, j, "health_check_failed", env);
      } else if c.io.Works? || c.io.Fails? {
        CommitKeeps(k, origin, s2, j, env);
      }
    }
  }

  /** Past the durable count of this start. */
  lemma CountedKeeps(k: Install, origin: Bytes, s: Site, j: Journal, env: Environment)
    requires Invariant(k, origin, s) && s.running.Some? && s.journal == Present(j) && j.state.Installed?
    requires HealthRuns(s.events) < j.attempts
    ensures j.exePath != k.exePath ==> Invariant(k, origin, RollBack(k, s, j, "installation_path_changed", env).0)
    ensures k.versionOf(s.running.value) != j.toVersion ==>
      Invariant(k, origin, RollBack(k, s, j, "version_mismatch_after_restart", env).0)
    ensures j.attempts > MAX_HEALTH_ATTEMPTS ==>
      Invariant(k, origin, RollBack(k, s, j, "health_check_attempts_exhausted", env).0)
    ensures j.attempts <= MAX_HEALTH_ATTEMPTS ==> Invariant(k, origin, CheckHealth(k, s, j, env).0)
  {
    RollBackKeeps(k, origin, s, j, "installation_path_changed", env);
    RollBackKeeps(k, origin, s, j, "version_mismatch_after_restart", env);
    RollBackKeeps(k, origin, s, j, "health_check_attempts_exhausted", env);
    if j.attempts <= MAX_HEALTH_ATTEMPTS {
      CheckHealthKeeps(k, origin, s, j, env);
    }
  }

  lemma ResolveInstalledKeeps(k: Install, origin: Bytes, s: Site, j: Journal, env: Environment)
    requires Invariant(k, origin, s) && s.running.Some? && s.journal == Present(j) && j.state.Installed?
    ensures Invariant(k, origin, ResolveInstalled(k, s, j, env).0)
  {
    var counted := j.(attempts := j.attempts + 1);
    SaveJournalKeeps(k, origin, s, counted, env);
    var (s1, step) := SaveJournal(s, counted, env);
    if step == Worked {
      CountedKeeps(k, origin, s1, counted, env);
    }
  }

  lemma ResolveKeeps(k: Install, origin: Bytes, s: Site, env: Environment)
    requires Invariant(k, origin, s) && s.running.Some?
    ensures Invariant(k, origin, Resolve(k, s, env).0)
  {
    if s.journal.Present? {
      var j := s.journal.journal;
      match j.state {
        case Staged =>
          SaveJournalKeeps(k, origin, Unstage(s), j.(state := Failed, reason := "interrupted_before_install"), env);
        case Installed => ResolveInstalledKeeps(k, origin, s, j, env);
        case Unrecognized => SaveJournalKeeps(k, origin, s, j.(state := Failed, reason := "unknown_journal_state"), env);
        case _ =>
      }
    }
  }

  lemma StartKeeps(k: Install, origin: Bytes, s: Site, env: Environment)
    requires Invariant(k, origin, s)
    ensures Invariant(k, origin, Start(k, s, env))
  {
    ResolveKeeps(k, origin, s.(running := Some(s.exe)), env);
    var (s1, status) := Resolve(k, s.(running := Some(s.exe)), env);
    assert Invariant(k, origin, Tick(s1, env(s1.step)));
  }

  lemma ExecuteUpdateKeeps(k: Install, origin: Bytes, s: Site, commandID: string, p: UpdatePayload, env: Environment)
    requires Invariant(k, origin, s) && Digests(k) && s.running.Some?
    ensures Invariant(k, origin, ExecuteUpdate(k, s, commandID, p, env).0)
  {
    if !InFlight(s.journal) {
      DownloadKeeps(k, origin, s, commandID, p, env);
    }
  }

  lemma ExecuteRollbackKeeps(k: Install, origin: Bytes, s: Site, commandID: string, p: RollbackPayload,
        env: Environment)
    requires Invariant(k, origin, s) && s.running.Some?
    ensures Invariant(k, origin, ExecuteRollback(k, s, commandID, p, env).0)
  {
    if s.previous.Retained? && IsSha256(s.previous.build.sha256) {
      RestorePreviousKeeps(k, origin, s, commandID, s.previous.build, env);
    }
  }

  lemma ActKeeps(k: Install, origin: Bytes, s: Site, a: Activity, env: Environment)
    requires Invariant(k, origin, s) && Digests(k)
    ensures Invariant(k, origin, Act(k, s, a, env))
  {
    match a
    case PowerLoss =>
    case Boot =>
      if s.running.None? {
        StartKeeps(k, origin, s, env);
      }
    case Update(commandID, p) =>
      if s.running.Some? {
        ExecuteUpdateKeeps(k, origin, s, commandID, p, env);
      }
    case OperatorRollback(commandID, p) =>
      if s.running.Some? {
        ExecuteRollbackKeeps(k, origin, s, commandID, p, env);
      }
  }

  lemma {:induction false} RunKeepsInvariant(k: Install, origin: Bytes, activities: seq<Activity>, env: Environment)
    requires Digests(k)
    ensures Invariant(k, origin, Run(k, FirstInstall(origin), activities, env))
    decreases |activities|
  {
    if activities != [] {
      var n := |activities| - 1;
      RunKeepsInvariant(k, origin, activities[..n], env);
      ActKeeps(k, origin, Run(k, FirstInstall(origin), activities[..n], env), activities[n], env);
    }
  }

  // ---------------------------------------------------------------------------------------------
  // The theorems
  // ---------------------------------------------------------------------------------------------

  /** Two different builds with one digest. */
  ghost predicate Collide(k: Install, a: Bytes, b: Bytes) {
    a != b && k.digest(a) == k.digest(b)
  }

  /** An artifact with this content passed the digest of its signed metadata. */
  ghost predicate WasVerified(k: Install, events: seq<Event>, content: Bytes) {
    exists i :: 0 <= i < |events| && events[i].Verified? && events[i].content == content
      && events[i].sha256 == k.digest(content)
  }

  /**
   The executable is always the build first installed or an artifact whose digest matched its signed
   metadata; or it has the digest of one of these and is different.
   */
  lemma ExecutableIsAlwaysApproved(k: Install, origin: Bytes, activities: seq<Activity>, env: Environment)
    requires Digests(k)
    ensures var s := Run(k, FirstInstall(origin), activities, env);
      || s.exe == origin || WasVerified(k, s.events, s.exe)
      || Collide(k, s.exe, origin) || (exists b :: WasVerified(k, s.events, b) && Collide(k, s.exe, b))
  {
    RunKeepsInvariant(k, origin, activities, env);
    var s := Run(k, FirstInstall(origin), activities, env);
    if k.digest(s.exe) != k.digest(origin) {
      var i :| 0 <= i < |s.events| && s.events[i].Verified? && s.events[i].sha256 == k.digest(s.exe)
        && k.digest(s.events[i].content) == k.digest(s.exe);
      assert WasVerified(k, s.events, s.events[i].content);
    }
  }

  /** One attempt never sees more than three health checks, whatever crashes occur. */
  lemma HealthChecksAreBounded(k: Install, origin: Bytes, activities: seq<Activity>, env: Environment)
    requires Digests(k)
    ensures HealthRuns(Run(k, FirstInstall(origin), activities, env).events) <= MAX_HEALTH_ATTEMPTS
  {
    RunKeepsInvariant(k, origin, activities, env);
  }

  /** From the staged journal on: the possible statuses, and what a pending restart means. */
  ghost predicate Pending(k: Install, before: Site, after: Site, j: Journal, content: Bytes) {
    && after.exe == content && after.previous == before.previous
    && after.journal == Present(j.(state := Installed, stagedPath := "", backupSHA256 := k.digest(before.exe)))
    && j.backupPath in after.backups && after.backups[j.backupPath] == before.exe
  }

  lemma SwapOutcome(k: Install, s: Site, j: Journal, content: Bytes, env: Environment)
    ensures var (s', status) := Swap(k, s, j, content, env);
      && status in {InstallFailed, RestartFailed, RestartPending, Interrupted}
      && (status == RestartPending ==>
            s'.exe == content && s'.previous == s.previous && s'.backups == s.backups
            && s'.journal == Present(j.(state := Installed, stagedPath := "")))
  {
  }

  lemma StageOutcome(k: Install, s: Site, j: Journal, content: Bytes, env: Environment)
    ensures var (s', status) := Stage(k, s, j, content, env);
      && status in {StageFailed, InstallFailed, RestartFailed, RestartPending, Interrupted}
      && (status == RestartPending ==> Pending(k, s, s', j, content))
  {
    var (saved, step) := SaveJournal(s, j, env);
    if step == Worked {
      var s1 := saved.(events := saved.events + [Began]);
      var (s2, step) := BackupCurrent(s1, j.backupPath, env);
      if step == Worked {
        var j1 := j.(backupSHA256 := k.digest(s2.exe));
        var (s3, step) := SaveJournal(s2, j1, env);
        if step == Worked {
          SwapOutcome(k, s3, j1, content, env);
        }
      }
    }
  }

  ghost predicate Untouched(s: Site, s': Site) {
    s'.exe == s.exe && s'.journal == s.journal && s'.backups == s.backups && s'.previous == s.previous && s'.staged == s.staged
  }

  lemma DownloadOutcome(k: Install, s: Site, commandID: string, p: UpdatePayload, env: Environment)
    requires s.running.Some?
    ensures var (s', status) := Download(k, s, commandID, p, env);
      && (status in {DownloadFailed, Tampered, SignatureMismatch} ==> Untouched(s, s'))
      && status !in {Invalid, AlreadyCurrent, DowngradeRefused, ChannelMismatch, PlatformMismatch, UpdateInProgress}
      && (status == RestartPending ==> exists j, content ::
            && Pending(k, s, s', j, content) && k.digest(content) == p.sha256 && |content| == p.sizeBytes
            && j.attempts == 0 && j.toVersion == p.version && j.artifactSHA256 == p.sha256 && j.backupPath != "")
  {
    var c := env(s.step);
    var s1 := Tick(s, c);
    if c.io.Works? && c.download.Some? {
      var content := c.download.value;
      if k.digest(content) == p.sha256 && |content| == p.sizeBytes && !(p.signerPinned && !c.signerMatches) {
        var s2 := s1.(staged := s1.staged[STAGED_PATH := content], events := s1.events + [Verified(p.sha256, content)]);
        var j := NewJournal(k, s2, commandID, p);
        StageOutcome(k, s2, j, content, env);
        var (s3, status) := Stage(k, s2, j, content, env);
        if status == RestartPending {
          assert Pending(k, s, s3, j, content);
        }
      }
    }
  }

  /**
   An update that awaits its restart moved forward, is not below the signed floor, has the verified
   artifact in place, and can be undone: the replaced executable is backed up under the journal.
   */
  lemma PendingUpdateIsForwardAndReversible(k: Install, s: Site, commandID: string, p: UpdatePayload, env: Environment)
    requires Digests(k) && s.running.Some?
    requires ExecuteUpdate(k, s, commandID, p, env).1 == RestartPending
    ensures var (s', _) := ExecuteUpdate(k, s, commandID, p, env);
      var current, target := ParseVersion(k.versionOf(s.running.value)), ParseVersion(p.version);
      && current.Some? && target.Some? && Compare(target.value, current.value) > 0
      && Compare(target.value, ParseVersion(p.minSupportedVersion).value) >= 0
      && k.digest(s'.exe) == p.sha256 && |s'.exe| == p.sizeBytes
      && s'.journal.Present? && s'.journal.journal.state.Installed? && s'.journal.journal.attempts == 0
      && s'.journal.journal.toVersion == p.version && s'.journal.journal.artifactSHA256 == p.sha256
      && BackupIntact(k, s', s'.journal.journal)
      && s'.backups[s'.journal.journal.backupPath] == s.exe
      && s'.previous == s.previous
  {
    CompareZero(ParseVersion(p.version).value, ParseVersion(k.versionOf(s.running.value)).value);
    assert IsSha256(k.digest(s.exe));
    DownloadOutcome(k, s, commandID, p, env);
  }

  /** A refused update touches nothing. */
  lemma RefusedUpdateTouchesNothing(k: Install, s: Site, commandID: string, p: UpdatePayload, env: Environment)
    requires s.running.Some?
    requires ExecuteUpdate(k, s, commandID, p, env).1 in
      {Invalid, AlreadyCurrent, DowngradeRefused, ChannelMismatch, PlatformMismatch, UpdateInProgress, DownloadFailed, Tampered, SignatureMismatch}
    ensures Untouched(s, ExecuteUpdate(k, s, commandID, p, env).0)
  {
    UpdateIsRefusedOrDownloads(k, s, commandID, p, env);
    DownloadOutcome(k, s, commandID, p, env);
  }

  lemma UpdateIsRefusedOrDownloads(k: Install, s: Site, commandID: string, p: UpdatePayload, env: Environment)
    requires s.running.Some?
    ensures var r := ExecuteUpdate(k, s, commandID, p, env);
      r.0 == s || r == Download(k, s, commandID, p, env)
  {
  }

  /** Everything works, the restart is accepted, and every download brings this signed content. */
  ghost predicate Delivers(env: Environment, content: Bytes) {
    forall n: nat :: env(n).io.Works? && env(n).restartAccepted && env(n).signerMatches && env(n).download == Some(content)
  }

  lemma GoodStage(k: Install, s: Site, j: Journal, content: Bytes, env: Environment)
    requires Delivers(env, content)
    ensures Stage(k, s, j, content, env).1 == RestartPending
  {
    var (saved, step) := SaveJournal(s, j, env);
    assert step == Worked;
    var s1 := saved.(events := saved.events + [Began]);
    GoodBackUp(k, s1, j, content, env);
  }

  lemma GoodBackUp(k: Install, s: Site, j: Journal, content: Bytes, env: Environment)
    requires Delivers(env, content)
    ensures BackUp(k, s, j, content, env).1 == RestartPending
  {
    var (s1, step) := BackupCurrent(s, j.backupPath, env);
    assert step == Worked;
    var j1 := j.(backupSHA256 := k.digest(s1.exe));
    var (s2, saved) := SaveJournal(s1, j1, env);
    assert saved == Worked;
    var (s3, replaced) := Replace(s2, content, env);
    assert replaced == Worked;
  }

  /** The updater is not safe by doing nothing: a newer, verified update reaches its restart. */
  lemma GoodUpdateReachesItsRestart(k: Install, s: Site, commandID: string, p: UpdatePayload, content: Bytes,
        env: Environment)
    requires s.running.Some? && Delivers(env, content) && ValidPayload(p)
    requires k.digest(content) == p.sha256 && |content| == p.sizeBytes
    requires p.platform == k.platform && p.channel == k.channel && !InFlight(s.journal) && !s.journal.Unusable?
    requires var current := ParseVersion(k.versionOf(s.running.value));
      current.Some? && Compare(ParseVersion(p.version).value, current.value) > 0
    requires Compare(ParseVersion(p.version).value, ParseVersion(p.minSupportedVersion).value) >= 0
    ensures ExecuteUpdate(k, s, commandID, p, env).1 == RestartPending
  {
    var s1 := Tick(s, env(s.step));
    var s2 := s1.(staged := s1.staged[STAGED_PATH := content], events := s1.events + [Verified(p.sha256, content)]);
    GoodStage(k, s2, NewJournal(k, s2, commandID, p), content, env);
    assert ExecuteUpdate(k, s, commandID, p, env) == Download(k, s, commandID, p, env);
  }
}
