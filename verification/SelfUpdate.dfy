/**
 Self-update and rollback (agent/internal/selfupdate/selfupdate.go and journal.go) at the level of
 file operations: the executable, the backups, the staged artifact, the update journal and the
 record of the retained previous build.  Each operation works, fails, or is where the process dies
 (before or after taking effect), as an environment decides; replacing the executable is one step.
 */
module SelfUpdate {
  import opened Basics
  import opened Numerals
  import opened Version

  const MAX_ARTIFACT_BYTES: nat := 256 * 1024 * 1024
  const MAX_HEALTH_ATTEMPTS: nat := 3
  const MIN_HEALTH_SECONDS: nat := 60
  const MAX_HEALTH_SECONDS: nat := 3600
  const DEFAULT_HEALTH_SECONDS: nat := 600

  /** What does not change on one endpoint: the digest, the version stamp in a build, the options. */
  datatype Install = Install(
    digest: Bytes -> string, versionOf: Bytes -> string,
    exePath: string, platform: string, channel: string)

  predicate IsSha256(s: string) {
    |s| == 64 && forall i :: 0 <= i < |s| ==> IsDigit(s[i]) || 'a' <= s[i] <= 'f'
  }

  datatype State = Staged | Installed | Committed | RolledBack | Failed | Unrecognized

  datatype Journal = Journal(
    state: State, releaseID: string, commandID: string, fromVersion: string, toVersion: string,
    exePath: string, backupPath: string, stagedPath: string, artifactSHA256: string, backupSHA256: string,
    healthDeadline: Option<int>, attempts: nat, reason: string)

  datatype JournalFile = NoJournal | Unusable | Present(journal: Journal)

  datatype PreviousBuild = PreviousBuild(version: string, path: string, sha256: string)

  /** previous.json is written in place, so an interrupted write leaves it damaged. */
  datatype PreviousFile = NoPrevious | Damaged | Retained(build: PreviousBuild)

  datatype Event =
    | Verified(sha256: string, content: Bytes)  // an artifact passed the signed digest and size
    | Began                                     // a new attempt is on disk
    | HealthChecked
    | Adopted(content: Bytes)                   // a journal that commits this executable is on disk

  datatype Site = Site(
    exe: Bytes, backups: map<string, Bytes>, staged: map<string, Bytes>,
    journal: JournalFile, previous: PreviousFile,
    running: Option<Bytes>, clock: int, step: nat, events: seq<Event>)

  datatype IO = Works | Fails | DiesBefore | DiesAfter {
    predicate Takes() { Works? || DiesAfter? }
  }

  datatype Choice = Choice(
    elapsed: nat, io: IO,
    download: Option<Bytes>,   // None: the transfer fails
    debris: Option<Bytes>,     // what an interrupted copy leaves behind
    signerMatches: bool, restartAccepted: bool, healthy: Option<bool>, reported: bool)

  type Environment = nat -> Choice

  datatype Step = Worked | Refused | Died

  function StepOf(io: IO): Step {
    match io
    case Works => Worked
    case Fails => Refused
    case _ => Died
  }

  datatype Status =
    | Invalid | AlreadyCurrent | DowngradeRefused | ChannelMismatch | PlatformMismatch | UpdateInProgress
    | DownloadFailed | Tampered | SignatureMismatch | StageFailed | InstallFailed | RestartPending
    | RestartFailed | Succeeded | RolledBackStatus | FailedStatus | NoPreviousBuild
    | NoOutcome                // Resolve returned an error or had nothing in flight
    | Interrupted              // the process died on the way

  datatype UpdatePayload = UpdatePayload(
    releaseID: string, version: string, channel: string, platform: string,
    sha256: string, sizeBytes: int, minSupportedVersion: string,
    signerPinned: bool, healthSeconds: int, wellFormed: bool)

  /** `wellFormed` stands for the ID, URL, channel-name and thumbprint patterns. */
  predicate ValidPayload(p: UpdatePayload) {
    && p.wellFormed && IsSha256(p.sha256)
    && ParseVersion(p.version).Some? && ParseVersion(p.minSupportedVersion).Some?
    && 0 < p.sizeBytes <= MAX_ARTIFACT_BYTES
    && (p.healthSeconds == 0 || MIN_HEALTH_SECONDS <= p.healthSeconds <= MAX_HEALTH_SECONDS)
  }

  datatype RollbackPayload = RollbackPayload(wellFormed: bool, expectedCurrentVersion: string)

  // ---------------------------------------------------------------------------------------------
  // File operations
  // ---------------------------------------------------------------------------------------------

  function Tick(s: Site, c: Choice): Site {
    s.(clock := s.clock + c.elapsed, step := s.step + 1)
  }

  /** Temporary file, sync, rename, directory sync: the old journal or the new one, never less. */
  function SaveJournal(s: Site, j: Journal, env: Environment): (Site, Step) {
    var c := env(s.step);
    var s := Tick(s, c);
    (if c.io.Takes() then s.(journal := Present(j)) else s, StepOf(c.io))
  }

  function ClearJournal(s: Site, env: Environment): (Site, Step) {
    var c := env(s.step);
    var s := Tick(s, c);
    (if c.io.Takes() then s.(journal := NoJournal) else s, StepOf(c.io))
  }

  function Replace(s: Site, content: Bytes, env: Environment): (Site, Step) {
    var c := env(s.step);
    var s := Tick(s, c);
    (if c.io.Takes() then s.(exe := content) else s, StepOf(c.io))
  }

  /** copyFile truncates its target first, so a backup that is cut short leaves debris. */
  function BackupCurrent(s: Site, path: string, env: Environment): (Site, Step) {
    var c := env(s.step);
    var s := Tick(s, c);
    (if c.io.Takes() then s.(backups := s.backups[path := s.exe])
     else if c.debris.Some? then s.(backups := s.backups[path := c.debris.value]) else s, StepOf(c.io))
  }

  function SavePrevious(s: Site, b: PreviousBuild, env: Environment): (Site, Step) {
    if b.path == "" || b.sha256 == "" then (s, Worked)
    else
      var c := env(s.step);
      var s := Tick(s, c);
      (if c.io.Takes() then s.(previous := Retained(b)) else if c.debris.Some? then s.(previous := Damaged) else s,
       StepOf(c.io))
  }

  /** Digest check, copy beside the executable, replace. */
  function RestoreBackup(k: Install, s: Site, path: string, expected: string, env: Environment): (Site, Step) {
    if path == "" || path !in s.backups then (s, Refused)
    else if expected != "" && k.digest(s.backups[path]) != expected then (s, Refused)
    else
      var c := env(s.step);
      var s := Tick(s, c);
      if c.io.Works? then Replace(s, s.backups[path], env)
      else (s, if c.io.Fails? then Refused else Died)
  }

  function SafeChar(c: char): char {
    if IsDigit(c) || 'a' <= c <= 'z' || 'A' <= c <= 'Z' || c == '.' || c == '-' then c else '_'
  }

  function BackupPath(version: string): string {
    "backup/rmm-agent-" + seq(|version|, i requires 0 <= i < |version| => SafeChar(version[i])) + ".bak"
  }

  /** The error of this step is ignored; dying is not. */
  function Ignoring(r: (Site, Step), status: Status): (Site, Status) {
    (r.0, if r.1 == Died then Interrupted else status)
  }

  // ---------------------------------------------------------------------------------------------
  // agent_self_update
  // ---------------------------------------------------------------------------------------------

  predicate InFlight(f: JournalFile) {
    f.Present? && (f.journal.state.Staged? || f.journal.state.Installed?)
  }

  function ExecuteUpdate(k: Install, s: Site, commandID: string, p: UpdatePayload, env: Environment): (Site, Status)
    requires s.running.Some?
  {
    var current := ParseVersion(k.versionOf(s.running.value));
    if current.None? || !ValidPayload(p) then (s, Invalid)
    else if p.platform != k.platform then (s, PlatformMismatch)
    else if p.channel != k.channel then (s, ChannelMismatch)
    else
      var target, floor := ParseVersion(p.version).value, ParseVersion(p.minSupportedVersion).value;
      if Compare(target, current.value) == 0 then (s, AlreadyCurrent)
      else if Compare(target, current.value) < 0 then (s, DowngradeRefused)
      else if Compare(target, floor) < 0 then (s, DowngradeRefused)
      else if s.journal.Unusable? then (s, Invalid)
      else if InFlight(s.journal) then (s, UpdateInProgress)
      else Download(k, s, commandID, p, env)
  }

  const STAGED_PATH: string := "staging/nodelink-agent.staged"

  function Download(k: Install, s: Site, commandID: string, p: UpdatePayload, env: Environment): (Site, Status)
    requires s.running.Some?
  {
    var c := env(s.step);
    var s := Tick(s, c);
    match c.io
    case Fails => (s, StageFailed)
    case Works =>
      if c.download.None? || |c.download.value| > p.sizeBytes then (s, DownloadFailed)
      else
        var content := c.download.value;
        if k.digest(content) != p.sha256 || |content| != p.sizeBytes then (s, Tampered)
        else if p.signerPinned && !c.signerMatches then (s, SignatureMismatch)
        else
          var s := s.(staged := s.staged[STAGED_PATH := content], events := s.events + [Verified(p.sha256, content)]);
          Stage(k, s, NewJournal(k, s, commandID, p), content, env)
    case _ => (s, Interrupted)
  }

  function NewJournal(k: Install, s: Site, commandID: string, p: UpdatePayload): Journal
    requires s.running.Some?
  {
    var current := k.versionOf(s.running.value);
    var seconds := if p.healthSeconds == 0 then DEFAULT_HEALTH_SECONDS else p.healthSeconds;
    Journal(Staged, p.releaseID, commandID, current, p.version, k.exePath, BackupPath(current), STAGED_PATH,
            p.sha256, "", Some(s.clock + seconds), 0, "")
  }

  function Unstage(s: Site): Site {
    s.(staged := s.staged - {STAGED_PATH})
  }

  /** 4. Journal the staged attempt before touching the installed binary. */
  function Stage(k: Install, s: Site, j: Journal, content: Bytes, env: Environment): (Site, Status) {
    var (saved, step) := SaveJournal(s, j, env);
    var s := if saved.journal == Present(j) then saved.(events := saved.events + [Began]) else saved;
    match step
    case Worked => BackUp(k, s, j, content, env)
    case Refused => (Unstage(s), StageFailed)
    case Died => (s, Interrupted)
  }

  /** 5. Back up the running binary and journal its digest before the swap. */
  function BackUp(k: Install, s: Site, j: Journal, content: Bytes, env: Environment): (Site, Status) {
    var (s, step) := BackupCurrent(s, j.backupPath, env);
    match step
    case Died => (s, Interrupted)
    case Refused => Ignoring(SaveJournal(Unstage(s), j.(state := Failed, reason := "backup_failed"), env), InstallFailed)
    case Worked =>
      var j := j.(backupSHA256 := k.digest(s.exe));
      var (s, step) := SaveJournal(s, j, env);
      match step
      case Worked => Swap(k, s, j, content, env)
      case Refused => (Unstage(s), InstallFailed)
      case Died => (s, Interrupted)
  }

  function Swap(k: Install, s: Site, j: Journal, content: Bytes, env: Environment): (Site, Status) {
    var (s, step) := Replace(s, content, env);
    match step
    case Died => (s, Interrupted)
    case Refused =>
      var (s, step) := RestoreBackup(k, s, j.backupPath, j.backupSHA256, env);
      if step == Died then (s, Interrupted)
      else Ignoring(SaveJournal(Unstage(s), j.(state := Failed, reason := "replace_failed"), env), InstallFailed)
    case Worked => MarkInstalled(k, Unstage(s), j.(state := Installed, stagedPath := ""), env)
  }

  function MarkInstalled(k: Install, s: Site, j: Journal, env: Environment): (Site, Status) {
    var (s, step) := SaveJournal(s, j, env);
    match step
    case Died => (s, Interrupted)
    case Refused => Ignoring(RestoreBackup(k, s, j.backupPath, j.backupSHA256, env), InstallFailed)
    case Worked => RequestRestart(k, s, j, env)
  }

  /** 6. A restart that cannot be requested rolls back at once. */
  function RequestRestart(k: Install, s: Site, j: Journal, env: Environment): (Site, Status) {
    var c := env(s.step);
    var s := Tick(s, c);
    if c.restartAccepted then (s, RestartPending)
    else
      var (s, step) := RestoreBackup(k, s, j.backupPath, j.backupSHA256, env);
      match step
      case Died => (s, Interrupted)
      case Refused => Ignoring(SaveJournal(s, j.(state := Failed, reason := "restart_and_restore_failed"), env), InstallFailed)
      case Worked => Ignoring(SaveJournal(s, j.(state := RolledBack, reason := "restart_request_failed"), env), RestartFailed)
  }

  // ---------------------------------------------------------------------------------------------
  // agent_update_rollback
  // ---------------------------------------------------------------------------------------------

  function ExecuteRollback(k: Install, s: Site, commandID: string, p: RollbackPayload, env: Environment): (Site, Status)
    requires s.running.Some?
  {
    var current := k.versionOf(s.running.value);
    if ParseVersion(current).None? || !p.wellFormed then (s, Invalid)
    else if p.expectedCurrentVersion != "" && p.expectedCurrentVersion != current then (s, Invalid)
    else
      match s.previous
      case NoPrevious => (s, NoPreviousBuild)
      case Damaged => (s, FailedStatus)
      case Retained(b) =>
        if b.path == "" || !IsSha256(b.sha256) then (s, FailedStatus)
        else RestorePrevious(k, s, commandID, b, env)
  }

  function RestorePrevious(k: Install, s: Site, commandID: string, b: PreviousBuild, env: Environment): (Site, Status)
    requires s.running.Some?
  {
    var j := Journal(RolledBack, "", commandID, k.versionOf(s.running.value), b.version, k.exePath, b.path, "",
                     b.sha256, b.sha256, Some(s.clock + DEFAULT_HEALTH_SECONDS), 0, "operator_requested_rollback");
    var (s, step) := RestoreBackup(k, s, b.path, b.sha256, env);
    match step
    case Died => (s, Interrupted)
    case Refused => (s, FailedStatus)
    case Worked =>
      var (s, step) := SaveJournal(s, j, env);
      match step
      case Died => (s, Interrupted)
      case Refused => (s, FailedStatus)
      case Worked => (Tick(s, env(s.step)), if env(s.step).restartAccepted then RolledBackStatus else RestartFailed)
  }

  // ---------------------------------------------------------------------------------------------
  // Resolution on the next start
  // ---------------------------------------------------------------------------------------------

  function Resolve(k: Install, s: Site, env: Environment): (Site, Status)
    requires s.running.Some?
  {
    if ParseVersion(k.versionOf(s.running.value)).None? then (s, NoOutcome)
    else
      match s.journal
      case NoJournal => (s, NoOutcome)
      case Unusable => Ignoring(ClearJournal(s, env), NoOutcome)
      case Present(j) =>
        match j.state
        case Staged =>
          var (s, step) := SaveJournal(Unstage(s), j.(state := Failed, reason := "interrupted_before_install"), env);
          (s, if step == Worked then FailedStatus else if step == Refused then NoOutcome else Interrupted)
        case Installed => ResolveInstalled(k, s, j, env)
        case Committed => (s, Succeeded)
        case RolledBack => (s, RolledBackStatus)
        case Failed => (s, FailedStatus)
        case Unrecognized => Ignoring(SaveJournal(s, j.(state := Failed, reason := "unknown_journal_state"), env), FailedStatus)
  }

  /** This start is counted, durably, before the health check may run. */
  function ResolveInstalled(k: Install, s: Site, j: Journal, env: Environment): (Site, Status)
    requires s.running.Some?
  {
    var j := j.(attempts := j.attempts + 1);
    var (s, step) := SaveJournal(s, j, env);
    match step
    case Died => (s, Interrupted)
    case Refused => (s, NoOutcome)
    case Worked =>
      if j.exePath != k.exePath then RollBack(k, s, j, "installation_path_changed", env)
      else if k.versionOf(s.running.value) != j.toVersion then RollBack(k, s, j, "version_mismatch_after_restart", env)
      else if j.attempts > MAX_HEALTH_ATTEMPTS then RollBack(k, s, j, "health_check_attempts_exhausted", env)
      else CheckHealth(k, s, j, env)
  }

  function CheckHealth(k: Install, s: Site, j: Journal, env: Environment): (Site, Status) {
    var c := env(s.step);
    var s := Tick(s, c);
    if j.healthDeadline.Some? && s.clock > j.healthDeadline.value
    then RollBack(k, s, j, "health_check_deadline_exceeded", env)
    else if c.healthy.None? then RollBack(k, s, j, "health_check_unavailable", env)
    else
      var s := s.(events := s.events + [HealthChecked]);
      if c.io.DiesBefore? || c.io.DiesAfter? then (s, Interrupted)
      else if !c.healthy.value then RollBack(k, s, j, "health_check_failed", env)
      else Commit(s, j, env)
  }

  function Commit(s: Site, j: Journal, env: Environment): (Site, Status) {
    var (s, step) := SavePrevious(s, PreviousBuild(j.fromVersion, j.backupPath, j.backupSHA256), env);
    match step
    case Died => (s, Interrupted)
    case Refused => (s, NoOutcome)
    case Worked =>
      var j := j.(state := Committed, reason := "health_check_passed");
      var (saved, step) := SaveJournal(s, j, env);
      var s := if saved.journal == Present(j) then saved.(events := saved.events + [Adopted(saved.exe)]) else saved;
      match step
      case Died => (s, Interrupted)
      case Refused => (s, NoOutcome)
      case Worked => (s.(staged := map[]), Succeeded)
  }

  function RollBack(k: Install, s: Site, j: Journal, reason: string, env: Environment): (Site, Status) {
    var (s, step) := RestoreBackup(k, s, j.backupPath, j.backupSHA256, env);
    match step
    case Died => (s, Interrupted)
    case Refused => Ignoring(SaveJournal(s, j.(state := Failed, reason := reason + "+restore_failed"), env), FailedStatus)
    case Worked =>
      var (s, step) := SaveJournal(s, j.(state := RolledBack, reason := reason), env);
      match step
      case Died => (s, Interrupted)
      case Refused => (s, NoOutcome)
      case Worked => (s, RolledBackStatus)
  }

  /** Acknowledge, once the server has accepted the outcome. */
  function Acknowledge(s: Site, env: Environment): Site {
    if InFlight(s.journal) then s else ClearJournal(s, env).0
  }

  function Stop(s: Site): Site {
    s.(running := None)
  }

  predicate HasOutcome(status: Status) {
    status in {Succeeded, RolledBackStatus, FailedStatus}
  }

  /** One start of the service: load the image on disk, resolve, report. */
  function Start(k: Install, s: Site, env: Environment): Site {
    var (s, status) := Resolve(k, s.(running := Some(s.exe)), env);
    if status == Interrupted then Stop(s)
    else if HasOutcome(status) && env(s.step).reported then Acknowledge(Tick(s, env(s.step)), env) else s
  }

  datatype Activity =
    | Boot
    | Update(commandID: string, payload: UpdatePayload)
    | OperatorRollback(commandID: string, rollback: RollbackPayload)
    | PowerLoss

  function Settle(r: (Site, Status)): Site {
    if r.1 == Interrupted then Stop(r.0) else r.0
  }

  function Act(k: Install, s: Site, a: Activity, env: Environment): Site {
    match a
    case PowerLoss => Stop(s)
    case Boot => if s.running.Some? then s else Start(k, s, env)
    case Update(commandID, p) => if s.running.None? then s else Settle(ExecuteUpdate(k, s, commandID, p, env))
    case OperatorRollback(commandID, p) =>
      if s.running.None? then s else Settle(ExecuteRollback(k, s, commandID, p, env))
  }

  function Run(k: Install, s: Site, activities: seq<Activity>, env: Environment): Site
    decreases |activities|
  {
    if activities == [] then s
    else Act(k, Run(k, s, activities[..|activities| - 1], env), activities[|activities| - 1], env)
  }

  function FirstInstall(exe: Bytes): Site {
    Site(exe, map[], map[], NoJournal, NoPrevious, None, 0, 0, [])
  }

  // ---------------------------------------------------------------------------------------------
  // The updater, working on the files in place
  // ---------------------------------------------------------------------------------------------

  class Updater {
    const k: Install
    const env: Environment
    var exe: Bytes
    var backups: map<string, Bytes>
    var staged: map<string, Bytes>
    var journal: JournalFile
    var previous: PreviousFile
    var running: Option<Bytes>
    var clock: int
    var step: nat
    var events: seq<Event>

    constructor (k: Install, env: Environment, exe: Bytes)
      ensures this.k == k && this.env == env && State() == FirstInstall(exe)
    {
      this.k, this.env, this.exe := k, env, exe;
      backups, staged, journal, previous := map[], map[], NoJournal, NoPrevious;
      running, clock, step, events := None, 0, 0, [];
    }

    function State(): Site
      reads this
    {
      Site(exe, backups, staged, journal, previous, running, clock, step, events)
    }

    method Next() returns (c: Choice)
      modifies this`clock, this`step
      ensures c == env(old(step)) && State() == Tick(old(State()), c)
    {
      c := env(step);
      clock, step := clock + c.elapsed, step + 1;
    }

    method Save(j: Journal) returns (r: Step)
      modifies this
      ensures (State(), r) == SaveJournal(old(State()), j, env)
    {
      var c := Next();
      if c.io.Takes() {
        journal := Present(j);
      }
      r := StepOf(c.io);
    }

    method AtomicReplace(content: Bytes) returns (r: Step)
      modifies this
      ensures (State(), r) == Replace(old(State()), content, env)
    {
      var c := Next();
      if c.io.Takes() {
        exe := content;
      }
      r := StepOf(c.io);
    }

    method CopyExecutable(path: string) returns (r: Step)
      modifies this
      ensures (State(), r) == BackupCurrent(old(State()), path, env)
    {
      var c := Next();
      if c.io.Takes() {
        backups := backups[path := exe];
      } else if c.debris != None {
        backups := backups[path := c.debris.value];
      }
      r := StepOf(c.io);
    }

    method Restore(path: string, expected: string) returns (r: Step)
      modifies this
      ensures (State(), r) == RestoreBackup(k, old(State()), path, expected, env)
    {
      if path == "" || path !in backups {
        return Refused;
      }
      if expected != "" && k.digest(backups[path]) != expected {
        return Refused;
      }
      var c := Next();
      if c.io != Works {
        return if c.io == Fails then Refused else Died;
      }
      r := AtomicReplace(backups[path]);
    }

    method RemoveStaged()
      modifies this`staged
      ensures State() == Unstage(old(State()))
    {
      staged := staged - {STAGED_PATH};
    }

    /** The refusals of executeUpdate, in order, and then the download. */
    method Update(commandID: string, p: UpdatePayload) returns (status: Status)
      requires running.Some?
      modifies this
      ensures (State(), status) == ExecuteUpdate(k, old(State()), commandID, p, env)
    {
      var current := ParseVersion(k.versionOf(running.value));
      if current == None || !ValidPayload(p) {
        return Invalid;
      }
      if p.platform != k.platform {
        return PlatformMismatch;
      }
      if p.channel != k.channel {
        return ChannelMismatch;
      }
      var target, floor := ParseVersion(p.version).value, ParseVersion(p.minSupportedVersion).value;
      if Compare(target, current.value) == 0 {
        return AlreadyCurrent;
      }
      if Compare(target, current.value) < 0 || Compare(target, floor) < 0 {
        return DowngradeRefused;
      }
      if journal == Unusable {
        return Invalid;
      }
      if journal.Present? && (journal.journal.state == Staged || journal.journal.state == Installed) {
        return UpdateInProgress;
      }
      status := Fetch(commandID, p);
    }

    method Fetch(commandID: string, p: UpdatePayload) returns (status: Status)
      requires running.Some?
      modifies this
      ensures (State(), status) == Download(k, old(State()), commandID, p, env)
    {
      var c := Next();
      if c.io == Fails {
        return StageFailed;
      }
      if c.io != Works {
        return Interrupted;
      }
      if c.download == None || |c.download.value| > p.sizeBytes {
        return DownloadFailed;
      }
      var content := c.download.value;
      if k.digest(content) != p.sha256 || |content| != p.sizeBytes {
        return Tampered;
      }
      if p.signerPinned && !c.signerMatches {
        return SignatureMismatch;
      }
      staged := staged[STAGED_PATH := content];
      events := events + [Verified(p.sha256, content)];
      status := StageAttempt(NewJournal(k, State(), commandID, p), content);
    }

    method StageAttempt(j: Journal, content: Bytes) returns (status: Status)
      modifies this
      ensures (State(), status) == Stage(k, old(State()), j, content, env)
    {
      var r := Save(j);
      if journal == Present(j) {
        events := events + [Began];
      }
      match r
      case Worked => status := BackUpExecutable(j, content);
      case Refused =>
        RemoveStaged();
        status := StageFailed;
      case Died => status := Interrupted;
    }

    method BackUpExecutable(j: Journal, content: Bytes) returns (status: Status)
      modifies this
      ensures (State(), status) == BackUp(k, old(State()), j, content, env)
    {
      var r := CopyExecutable(j.backupPath);
      if r == Died {
        return Interrupted;
      }
      if r == Refused {
        RemoveStaged();
        r := Save(j.(state := Failed, reason := "backup_failed"));
        return if r == Died then Interrupted else InstallFailed;
      }
      var digested := j.(backupSHA256 := k.digest(exe));
      r := Save(digested);
      match r
      case Worked => status := Install(digested, content);
      case Refused =>
        RemoveStaged();
        status := InstallFailed;
      case Died => status := Interrupted;
    }

    method Install(j: Journal, content: Bytes) returns (status: Status)
      modifies this
      ensures (State(), status) == Swap(k, old(State()), j, content, env)
    {
      var r := AtomicReplace(content);
      if r == Died {
        return Interrupted;
      }
      if r == Refused {
        r := Restore(j.backupPath, j.backupSHA256);
        if r == Died {
          return Interrupted;
        }
        RemoveStaged();
        r := Save(j.(state := Failed, reason := "replace_failed"));
        return if r == Died then Interrupted else InstallFailed;
      }
      RemoveStaged();
      status := RecordInstalled(j.(state := Installed, stagedPath := ""));
    }

    method RecordInstalled(j: Journal) returns (status: Status)
      modifies this
      ensures (State(), status) == MarkInstalled(k, old(State()), j, env)
    {
      var r := Save(j);
      if r == Died {
        return Interrupted;
      }
      if r == Refused {
        r := Restore(j.backupPath, j.backupSHA256);
        return if r == Died then Interrupted else InstallFailed;
      }
      status := Restart(j);
    }

    method Restart(j: Journal) returns (status: Status)
      modifies this
      ensures (State(), status) == RequestRestart(k, old(State()), j, env)
    {
      var c := Next();
      if c.restartAccepted {
        return RestartPending;
      }
      var r := Restore(j.backupPath, j.backupSHA256);
      if r == Died {
        return Interrupted;
      }
      if r == Refused {
        r := Save(j.(state := Failed, reason := "restart_and_restore_failed"));
        return if r == Died then Interrupted else InstallFailed;
      }
      r := Save(j.(state := RolledBack, reason := "restart_request_failed"));
      return if r == Died then Interrupted else RestartFailed;
    }

    method Rollback(commandID: string, p: RollbackPayload) returns (status: Status)
      requires running.Some?
      modifies this
      ensures (State(), status) == ExecuteRollback(k, old(State()), commandID, p, env)
    {
      var current := k.versionOf(running.value);
      if ParseVersion(current) == None || !p.wellFormed {
        return Invalid;
      }
      if p.expectedCurrentVersion != "" && p.expectedCurrentVersion != current {
        return Invalid;
      }
      match previous
      case NoPrevious => status := NoPreviousBuild;
      case Damaged => status := FailedStatus;
      case Retained(b) =>
        if b.path == "" || !IsSha256(b.sha256) {
          return FailedStatus;
        }
        status := RestoreRetained(commandID, b);
    }

    method RestoreRetained(commandID: string, b: PreviousBuild) returns (status: Status)
      requires running.Some?
      modifies this
      ensures (State(), status) == RestorePrevious(k, old(State()), commandID, b, env)
    {
      var j := Journal(RolledBack, "", commandID, k.versionOf(running.value), b.version, k.exePath, b.path, "",
                       b.sha256, b.sha256, Some(clock + DEFAULT_HEALTH_SECONDS), 0, "operator_requested_rollback");
      var r := Restore(b.path, b.sha256);
      if r != Worked {
        return if r == Died then Interrupted else FailedStatus;
      }
      r := Save(j);
      if r != Worked {
        return if r == Died then Interrupted else FailedStatus;
      }
      var c := Next();
      return if c.restartAccepted then RolledBackStatus else RestartFailed;
    }

    method ResolveAttempt() returns (status: Status)
      requires running.Some?
      modifies this
      ensures (State(), status) == Resolve(k, old(State()), env)
    {
      if ParseVersion(k.versionOf(running.value)) == None || journal == NoJournal {
        return NoOutcome;
      }
      if journal == Unusable {
        var c := Next();
        if c.io.Takes() {
          journal := NoJournal;
        }
        return if StepOf(c.io) == Died then Interrupted else NoOutcome;
      }
      var j := journal.journal;
      match j.state
      case Staged =>
        RemoveStaged();
        var r := Save(j.(state := Failed, reason := "interrupted_before_install"));
        status := if r == Worked then FailedStatus else if r == Refused then NoOutcome else Interrupted;
      case Installed => status := ResolveInstalledAttempt(j);
      case Committed => status := Succeeded;
      case RolledBack => status := RolledBackStatus;
      case Failed => status := FailedStatus;
      case Unrecognized =>
        var r := Save(j.(state := Failed, reason := "unknown_journal_state"));
        status := if r == Died then Interrupted else FailedStatus;
    }

    method ResolveInstalledAttempt(j: Journal) returns (status: Status)
      requires running.Some?
      modifies this
      ensures (State(), status) == ResolveInstalled(k, old(State()), j, env)
    {
      var counted := j.(attempts := j.attempts + 1);
      var r := Save(counted);
      if r != Worked {
        return if r == Died then Interrupted else NoOutcome;
      }
      if counted.exePath != k.exePath {
        status := RollBackAttempt(counted, "installation_path_changed");
      } else if k.versionOf(running.value) != counted.toVersion {
        status := RollBackAttempt(counted, "version_mismatch_after_restart");
      } else if counted.attempts > MAX_HEALTH_ATTEMPTS {
        status := RollBackAttempt(counted, "health_check_attempts_exhausted");
      } else {
        status := RunHealthCheck(counted);
      }
    }

    method RunHealthCheck(j: Journal) returns (status: Status)
      modifies this
      ensures (State(), status) == CheckHealth(k, old(State()), j, env)
    {
      var c := Next();
      if j.healthDeadline != None && clock > j.healthDeadline.value {
        status := RollBackAttempt(j, "health_check_deadline_exceeded");
        return;
      }
      if c.healthy == None {
        status := RollBackAttempt(j, "health_check_unavailable");
        return;
      }
      events := events + [HealthChecked];
      if c.io == DiesBefore || c.io == DiesAfter {
        return Interrupted;
      }
      if !c.healthy.value {
        status := RollBackAttempt(j, "health_check_failed");
      } else {
        status := CommitAttempt(j);
      }
    }

    method CommitAttempt(j: Journal) returns (status: Status)
      modifies this
      ensures (State(), status) == Commit(old(State()), j, env)
    {
      if j.backupPath != "" && j.backupSHA256 != "" {
        var c := Next();
        if c.io.Takes() {
          previous := Retained(PreviousBuild(j.fromVersion, j.backupPath, j.backupSHA256));
        } else if c.debris != None {
          previous := Damaged;
        }
        if c.io != Works {
          return if c.io == Fails then NoOutcome else Interrupted;
        }
      }
      var committed := j.(state := Committed, reason := "health_check_passed");
      var r := Save(committed);
      if journal == Present(committed) {
        events := events + [Adopted(exe)];
      }
      if r != Worked {
        return if r == Died then Interrupted else NoOutcome;
      }
      staged := map[];
      status := Succeeded;
    }

    method RollBackAttempt(j: Journal, reason: string) returns (status: Status)
      modifies this
      ensures (State(), status) == RollBack(k, old(State()), j, reason, env)
    {
      var r := Restore(j.backupPath, j.backupSHA256);
      if r == Died {
        return Interrupted;
      }
      if r == Refused {
        r := Save(j.(state := Failed, reason := reason + "+restore_failed"));
        return if r == Died then Interrupted else FailedStatus;
      }
      r := Save(j.(state := RolledBack, reason := reason));
      status := if r == Died then Interrupted else if r == Refused then NoOutcome else RolledBackStatus;
    }

    /** A start of the service: load the image, resolve, and clear a reported terminal journal. */
    method Boot()
      modifies this
      ensures State() == Start(k, old(State()), env)
    {
      running := Some(exe);
      var status := ResolveAttempt();
      if status == Interrupted {
        running := None;
        return;
      }
      if HasOutcome(status) && env(step).reported {
        var _ := Next();
        if !InFlight(journal) {
          var c := Next();
          if c.io.Takes() {
            journal := NoJournal;
          }
        }
      }
    }
  }
}
