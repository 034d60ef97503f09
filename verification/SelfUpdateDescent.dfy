/**
 When versions go back down, exactly: which swap puts the executable below a committed build, and why from then on,
 and only then, an honest update commits an older build.
 */
module SelfUpdateDescent {
  import opened Basics
  import opened Numerals
  import opened SelfUpdate
  import opened SelfUpdateProgress
  import opened SelfUpdateProtocol
  import opened SelfUpdateRecovery
  import opened Version

  // ---------------------------------------------------------------------------------------------
  // Runs
  // ---------------------------------------------------------------------------------------------

  lemma RunOneMore(k: Install, s: Site, activities: seq<Activity>, a: Activity, env: Environment)
    ensures Run(k, s, activities + [a], env) == Act(k, Run(k, s, activities, env), a, env)
  {
    assert (activities + [a])[..|activities|] == activities;
  }

  lemma {:induction false} RunInTwoParts(k: Install, s: Site, first: seq<Activity>, second: seq<Activity>,
        env: Environment)
    ensures Run(k, s, first + second, env) == Run(k, Run(k, s, first, env), second, env)
    decreases |second|
  {
    if second == [] {
      assert first + second == first;
    } else {
      var init, last := second[..|second| - 1], second[|second| - 1];
      assert second == init + [last];
      RunInTwoParts(k, s, first, init, env);
      Assoc(first, init, [last]);
      RunOneMore(k, s, first + init, last, env);
      RunOneMore(k, Run(k, s, first, env), init, last, env);
    }
  }

  // ---------------------------------------------------------------------------------------------
  // One update and the start after it, step by step
  // ---------------------------------------------------------------------------------------------

  /** Everything works, takes no time and is healthy; a download brings this content; no outcome is reported. */
  function Good(content: Bytes): Choice {
    Choice(0, Works, Some(content), None, true, true, Some(true), false)
  }

  ghost predicate GoodSteps(env: Environment, from: nat, count: nat, content: Bytes) {
    forall i :: from <= i < from + count ==> env(i) == Good(content)
  }

  /** The signed metadata of an update this endpoint accepts, and an artifact that passes them. */
  predicate Offers(k: Install, p: UpdatePayload, content: Bytes) {
    && ValidPayload(p) && k.digest(content) == p.sha256 && |content| == p.sizeBytes
    && p.platform == k.platform && p.channel == k.channel
    && Compare(ParseVersion(p.version).value, ParseVersion(p.minSupportedVersion).value) >= 0
  }

  predicate Newer(k: Install, p: UpdatePayload, build: Bytes) {
    && ParseVersion(p.version).Some? && ParsableStamp(k, build)
    && Compare(ParseVersion(p.version).value, ParseVersion(k.versionOf(build)).value) > 0
  }

  /** The agent runs the executable on disk and has nothing in flight. */
  predicate AtRest(s: Site) {
    s.running == Some(s.exe) && !InFlight(s.journal) && !s.journal.Unusable?
  }

  /** An attempt as a swap finds it. */
  ghost predicate Prepared(k: Install, s: Site, t: Site, p: UpdatePayload, content: Bytes) {
    && t.journal.Present? && t.exe == s.exe && t.running == s.running && t.clock == s.clock && t.step == s.step + 4
    && t.events == s.events + [Verified(p.sha256, content), Began]
    && var j := t.journal.journal;
       && j.state.Staged? && j.attempts == 0 && j.toVersion == p.version && j.exePath == k.exePath
       && j.healthDeadline.Some? && s.clock <= j.healthDeadline.value
       && BackupIntact(k, t, j) && t.backups[j.backupPath] == s.exe
  }

  lemma UpdatePrepares(k: Install, s: Site, commandID: string, p: UpdatePayload, content: Bytes, env: Environment)
    returns (t: Site)
    requires AtRest(s) && Offers(k, p, content) && Newer(k, p, s.exe) && IsSha256(k.digest(s.exe))
    requires GoodSteps(env, s.step, 4, content)
    ensures Prepared(k, s, t, p, content)
    ensures ExecuteUpdate(k, s, commandID, p, env) == Swap(k, t, t.journal.journal, content, env)
  {
    var e := Verified(p.sha256, content);
    var s1 := Tick(s, env(s.step));
    var s2 := s1.(staged := s1.staged[STAGED_PATH := content], events := s1.events + [e]);
    var j := NewJournal(k, s2, commandID, p);
    assert ExecuteUpdate(k, s, commandID, p, env) == Stage(k, s2, j, content, env);
    t := StagePrepares(k, s2, j, content, env);
    assert t.events == s.events + [e, Began];
  }

  lemma StagePrepares(k: Install, s: Site, j: Journal, content: Bytes, env: Environment) returns (t: Site)
    requires GoodSteps(env, s.step, 3, content)
    ensures t.journal == Present(j.(backupSHA256 := k.digest(s.exe)))
    ensures t.exe == s.exe && t.running == s.running && t.clock == s.clock && t.step == s.step + 3
    ensures t.events == s.events + [Began] && t.backups == s.backups[j.backupPath := s.exe]
    ensures Stage(k, s, j, content, env) == Swap(k, t, t.journal.journal, content, env)
  {
    var (saved, step) := SaveJournal(s, j, env);
    var s1 := saved.(events := saved.events + [Began]);
    assert Stage(k, s, j, content, env) == BackUp(k, s1, j, content, env);
    var (s2, copied) := BackupCurrent(s1, j.backupPath, env);
    var (s3, again) := SaveJournal(s2, j.(backupSHA256 := k.digest(s2.exe)), env);
    t := s3;
  }

  /** The new build is installed and awaits its start. */
  ghost predicate Awaiting(k: Install, t: Site, p: UpdatePayload, content: Bytes) {
    && t.journal.Present? && t.exe == content
    && var j := t.journal.journal;
       && j.state.Installed? && j.attempts == 0 && j.toVersion == p.version && j.exePath == k.exePath
       && j.healthDeadline.Some? && t.clock <= j.healthDeadline.value && BackupIntact(k, t, j)
  }

  lemma SwapInstalls(k: Install, s: Site, t: Site, p: UpdatePayload, content: Bytes, env: Environment)
    requires Prepared(k, s, t, p, content) && GoodSteps(env, t.step, 3, content)
    ensures var r := Swap(k, t, t.journal.journal, content, env);
      r.1 == RestartPending && Awaiting(k, r.0, p, content) && r.0.events == t.events && r.0.step == t.step + 3
  {
    var j := t.journal.journal;
    WorkedSwap(k, t, j, content, env);
    var installed := j.(state := Installed, stagedPath := "");
    var s1 := Unstage(Replace(t, content, env).0);
    var (s2, step) := SaveJournal(s1, installed, env);
    assert MarkInstalled(k, s1, installed, env) == RequestRestart(k, s2, installed, env);
  }

  lemma UpdateInstalls(k: Install, s: Site, commandID: string, p: UpdatePayload, content: Bytes, env: Environment)
    requires AtRest(s) && Offers(k, p, content) && Newer(k, p, s.exe) && IsSha256(k.digest(s.exe))
    requires GoodSteps(env, s.step, 7, content)
    ensures var t := Act(k, s, Update(commandID, p), env);
      && Awaiting(k, t, p, content)
      && t.events == s.events + [Verified(p.sha256, content), Began] && t.step == s.step + 7
  {
    var t := UpdatePrepares(k, s, commandID, p, content, env);
    SwapInstalls(k, s, t, p, content, env);
  }

  lemma StartCommits(k: Install, s: Site, p: UpdatePayload, content: Bytes, env: Environment)
    requires Awaiting(k, s, p, content) && k.versionOf(content) == p.version && ParsableStamp(k, content)
    requires GoodSteps(env, s.step, 4, content) && !env(s.step + 4).reported
    ensures var t := Start(k, s, env);
      && t.events == s.events + [HealthChecked, Adopted(content)] && t.step == s.step + 4
      && t.exe == content && AtRest(t)
  {
    ResolveCommits(k, s, p, content, env);
    assert Start(k, s, env) == Resolve(k, Started(s), env).0;
  }

  lemma ResolveCommits(k: Install, s: Site, p: UpdatePayload, content: Bytes, env: Environment)
    requires Awaiting(k, s, p, content) && k.versionOf(content) == p.version && ParsableStamp(k, content)
    requires GoodSteps(env, s.step, 4, content)
    ensures var (t, status) := Resolve(k, Started(s), env);
      && status == Succeeded && t.exe == content && t.running == Some(content) && t.step == s.step + 4
      && t.events == s.events + [HealthChecked, Adopted(content)]
      && t.journal.Present? && t.journal.journal.state.Committed?
  {
    var j := s.journal.journal.(attempts := 1);
    var (s1, counted) := SaveJournal(Started(s), j, env);
    assert Resolve(k, Started(s), env) == CheckHealth(k, s1, j, env);
    HealthyCommit(k, s1, j, content, env);
  }

  lemma HealthyCommit(k: Install, s: Site, j: Journal, content: Bytes, env: Environment)
    requires s.journal == Present(j) && BackupIntact(k, s, j) && s.running == Some(s.exe)
    requires j.healthDeadline.Some? && s.clock <= j.healthDeadline.value
    requires GoodSteps(env, s.step, 3, content)
    ensures var (t, status) := CheckHealth(k, s, j, env);
      && status == Succeeded && t.exe == s.exe && t.running == s.running && t.step == s.step + 3
      && t.events == s.events + [HealthChecked, Adopted(s.exe)]
      && t.journal.Present? && t.journal.journal.state.Committed?
  {
    var s1 := Tick(s, env(s.step));
    var s2 := s1.(events := s1.events + [HealthChecked]);
    assert CheckHealth(k, s, j, env) == Commit(s2, j, env);
    var (s3, retained) := SavePrevious(s2, PreviousBuild(j.fromVersion, j.backupPath, j.backupSHA256), env);
    assert s2.events + [Adopted(s.exe)] == s.events + [HealthChecked, Adopted(s.exe)];
  }

  /** An update, the restart, and the start that commits it. */
  function UpdateAndStart(commandID: string, p: UpdatePayload): seq<Activity> {
    [Update(commandID, p), PowerLoss, Boot]
  }

  lemma UpdateStops(k: Install, s: Site, commandID: string, p: UpdatePayload, content: Bytes, env: Environment)
    requires AtRest(s) && Offers(k, p, content) && Newer(k, p, s.exe) && IsSha256(k.digest(s.exe))
    requires k.versionOf(content) == p.version && GoodSteps(env, s.step, 7, content)
    ensures var t := Stop(Act(k, s, Update(commandID, p), env));
      && Awaiting(k, t, p, content) && ParsableStamp(k, content)
      && t.events == s.events + [Verified(p.sha256, content), Began] && t.step == s.step + 7
  {
    UpdateInstalls(k, s, commandID, p, content, env);
  }

  lemma UpdateIsCommitted(k: Install, s: Site, commandID: string, p: UpdatePayload, content: Bytes, env: Environment)
    requires AtRest(s) && Offers(k, p, content) && Newer(k, p, s.exe) && IsSha256(k.digest(s.exe))
    requires k.versionOf(content) == p.version
    requires GoodSteps(env, s.step, 11, content) && !env(s.step + 11).reported
    ensures var t := Run(k, s, UpdateAndStart(commandID, p), env);
      && t.events == s.events + [Verified(p.sha256, content), Began, HealthChecked, Adopted(content)]
      && t.exe == content && AtRest(t) && t.step == s.step + 11
  {
    var stopped := Stop(Act(k, s, Update(commandID, p), env));
    UpdateStops(k, s, commandID, p, content, env);
    ThreeActivities(k, s, Update(commandID, p), env);
    StartAppends(k, s, stopped, p, content, env);
  }

  lemma StartAppends(k: Install, s: Site, stopped: Site, p: UpdatePayload, content: Bytes, env: Environment)
    requires Awaiting(k, stopped, p, content) && k.versionOf(content) == p.version && ParsableStamp(k, content)
    requires GoodSteps(env, stopped.step, 4, content) && !env(stopped.step + 4).reported
    requires stopped.events == s.events + [Verified(p.sha256, content), Began]
    ensures var t := Start(k, stopped, env);
      && t.events == s.events + [Verified(p.sha256, content), Began, HealthChecked, Adopted(content)]
      && t.exe == content && AtRest(t) && t.step == stopped.step + 4
  {
    StartCommits(k, stopped, p, content, env);
    Assoc(s.events, [Verified(p.sha256, content), Began], [HealthChecked, Adopted(content)]);
  }

  lemma ThreeActivities(k: Install, s: Site, a: Activity, env: Environment)
    ensures Run(k, s, [a, PowerLoss, Boot], env) == Start(k, Stop(Act(k, s, a, env)), env)
  {
    assert Run(k, s, [], env) == s;
    RunOneMore(k, s, [], a, env);
    RunOneMore(k, s, [a], PowerLoss, env);
    RunOneMore(k, s, [a, PowerLoss], Boot, env);
    assert [] + [a] == [a] && [a] + [PowerLoss] == [a, PowerLoss] && [a, PowerLoss] + [Boot] == [a, PowerLoss, Boot];
  }

  // ---------------------------------------------------------------------------------------------
  // A site climbs for good, exactly
  // ---------------------------------------------------------------------------------------------

  /** A committed build is still offered with metadata that tell the truth. */
  ghost predicate StillOffered(k: Install, content: Bytes) {
    exists p :: Offers(k, p, content) && HonestStamp(k, p) && CanonicalText(p.version)
  }

  /** Every continuation with honest updates and no operator's rollback climbs. */
  ghost predicate ClimbsForGood(k: Install, s: Site) {
    forall activities, env :: HonestRun(k, activities) ==> CommitsClimb(k, Run(k, s, activities, env).events)
  }

  /**
   An agent at rest climbs from here on, over every honest continuation, exactly when it has climbed so far and its
   executable is not below a committed build.
   */
  lemma ClimbsForGoodExactly(k: Install, s: Site)
    requires AtRest(s) && Digests(k) && CanonicalText(k.versionOf(s.exe))
    requires forall i :: AdoptedAt(s.events, i) ==> StillOffered(k, s.events[i].content)
    ensures ClimbsForGood(k, s) <==> CommitsClimb(k, s.events) && NotLowered(k, s.events, s.exe)
  {
    if CommitsClimb(k, s.events) && NotLowered(k, s.events, s.exe) {
      StaysUp(k, s);
    } else if !CommitsClimb(k, s.events) {
      HasComeDown(k, s);
    } else {
      var i :| AdoptedAt(s.events, i) && !NotBelow(k.versionOf(s.exe), k.versionOf(s.events[i].content));
      ComesBack(k, s, i);
    }
  }

  lemma HasComeDown(k: Install, s: Site)
    requires !CommitsClimb(k, s.events)
    ensures !ClimbsForGood(k, s)
  {
    var none: seq<Activity>, env: Environment := [], _ => Good([]);
    assert Run(k, s, none, env) == s;
    DoesNotClimb(k, s, none, env);
  }

  lemma StaysUp(k: Install, s: Site)
    requires AtRest(s) && CommitsClimb(k, s.events) && NotLowered(k, s.events, s.exe)
    ensures ClimbsForGood(k, s)
  {
    CommitsClimbExactly(k, s.events);
    NotLoweredExactly(k, s.events, s.exe);
    assert SelfUpdateProgress.Invariant(Versions(), k, s, true);
    forall activities, env | HonestRun(k, activities)
      ensures CommitsClimb(k, Run(k, s, activities, env).events)
    {
      HonestRunKeeps(k, s, activities, env);
      CommitsClimbExactly(k, Run(k, s, activities, env).events);
    }
  }

  /** A committed build that the executable has fallen below can be committed again, by its own honest metadata. */
  lemma ComesBack(k: Install, s: Site, i: nat)
    requires AtRest(s) && Digests(k) && CanonicalText(k.versionOf(s.exe))
    requires AdoptedAt(s.events, i) && StillOffered(k, s.events[i].content)
    requires !NotBelow(k.versionOf(s.exe), k.versionOf(s.events[i].content))
    ensures !ClimbsForGood(k, s)
  {
    var content := s.events[i].content;
    var p :| Offers(k, p, content) && HonestStamp(k, p) && CanonicalText(p.version);
    BelowIsOlder(k.versionOf(s.exe), p.version);
    var activities, env: Environment := UpdateAndStart("again", p), _ => Good(content);
    IsHonest(k, p);
    CommittedTwice(k, s, p, i, env);
    DoesNotClimb(k, s, activities, env);
  }

  lemma DoesNotClimb(k: Install, s: Site, activities: seq<Activity>, env: Environment)
    requires HonestRun(k, activities) && !CommitsClimb(k, Run(k, s, activities, env).events)
    ensures !ClimbsForGood(k, s)
  {
  }

  lemma IsHonest(k: Install, p: UpdatePayload)
    requires HonestStamp(k, p) && CanonicalText(p.version)
    ensures HonestRun(k, UpdateAndStart("again", p))
  {
  }

  lemma CommittedTwice(k: Install, s: Site, p: UpdatePayload, i: nat, env: Environment)
    requires AtRest(s) && IsSha256(k.digest(s.exe)) && AdoptedAt(s.events, i)
    requires var content := s.events[i].content;
      Offers(k, p, content) && k.versionOf(content) == p.version && Newer(k, p, s.exe) && forall n :: env(n) == Good(content)
    ensures !CommitsClimb(k, Run(k, s, UpdateAndStart("again", p), env).events)
  {
    var content := s.events[i].content;
    UpdateIsCommitted(k, s, "again", p, content, env);
    SameBuildTwice(k, s.events, [Verified(p.sha256, content), Began, HealthChecked, Adopted(content)], i, 3);
  }

  lemma SameBuildTwice(k: Install, events: seq<Event>, added: seq<Event>, i: nat, j: nat)
    requires AdoptedAt(events, i) && AdoptedAt(added, j) && added[j].content == events[i].content
    ensures !CommitsClimb(k, events + added)
  {
    assert AdoptedAt(events + added, i) && (events + added)[i] == events[i];
    assert AdoptedAt(events + added, |events| + j) && (events + added)[|events| + j] == added[j];
  }

  lemma BelowIsOlder(version: string, other: string)
    requires CanonicalText(version) && CanonicalText(other) && !NotBelow(version, other)
    ensures Compare(ParseVersion(other).value, ParseVersion(version).value) > 0
  {
    var a, b := ParseVersion(version).value, ParseVersion(other).value;
    CompareIsTotalOrder(a, b, a);
  }

  // ---------------------------------------------------------------------------------------------
  // The swap that lowers the executable, exactly
  // ---------------------------------------------------------------------------------------------

  /** After a swap and a good start, the executable is below a committed build. */
  ghost predicate Lowered(k: Install, s: Site, j: Journal, content: Bytes, env: Environment, later: Environment) {
    var t := Resolve(k, Started(Swap(k, s, j, content, env).0), later).0;
    !NotLowered(k, t.events, t.exe)
  }

  /**
   From an executable that is not below any committed build, and an attempt that goes above all of them: over every
   environment, the next good start finds the executable below a committed build exactly when the stamp of the
   artifact is, the swap left it in place, and either no journal says installed or the stamp does not parse.
   */
  lemma SwapLowersExactly(k: Install, s: Site, j: Journal, content: Bytes, env: Environment, later: Environment)
    requires ReadyToSwap(k, s, j, content) && EverythingWorks(later)
    requires NotLowered(k, s.events, s.exe) && Rises(Versions(), k, s.events, j.toVersion)
    ensures Lowered(k, s, j, content, env, later) <==>
      && !NotLowered(k, s.events, content)
      && LeftInPlace(env, s.step) && (!SaysInstalled(env, s.step) || !ParsableStamp(k, content))
  {
    var after := Swap(k, s, j, content, env).0;
    SwapLeaves(k, s, j, content, env);
    if Installing(after) && ParsableStamp(k, after.exe) {
      GoodStart(k, Started(after), later);
      ResolvedIsNotLowered(k, after, later);
    } else {
      UnresolvedStays(k, after, later);
    }
  }

  /** A start that resolves nothing leaves the executable and the history as they are. */
  lemma UnresolvedStays(k: Install, s: Site, later: Environment)
    requires EverythingWorks(later) && !(Installing(s) && ParsableStamp(k, s.exe))
    ensures var t := Resolve(k, Started(s), later).0;
      t.exe == s.exe && t.events == s.events
  {
    if !ParsableStamp(k, s.exe) {
      assert Resolve(k, Started(s), later) == (Started(s), NoOutcome);
    } else if s.journal.Present? {
      var j := s.journal.journal;
      if j.state.Staged? {
        var failed := j.(state := Failed, reason := "interrupted_before_install");
        assert Resolve(k, Started(s), later).0 == SaveJournal(Unstage(Started(s)), failed, later).0;
      } else if j.state.Unrecognized? {
        var failed := j.(state := Failed, reason := "unknown_journal_state");
        assert Resolve(k, Started(s), later).0 == SaveJournal(Started(s), failed, later).0;
      }
    }
  }

  lemma NewEventsDoNotLower(k: Install, events: seq<Event>, build: Bytes, added: seq<Event>)
    requires NotLowered(k, events, build)
    requires forall e :: e in added && e.Adopted? ==> NotBelow(k.versionOf(build), k.versionOf(e.content))
    ensures NotLowered(k, events + added, build)
  {
    forall i | AdoptedAt(events + added, i)
      ensures NotBelow(k.versionOf(build), k.versionOf((events + added)[i].content))
    {
      if i < |events| {
        assert AdoptedAt(events, i);
      } else {
        assert (events + added)[i] == added[i - |events|];
      }
    }
  }

  /** A resolved attempt leaves an executable that is not below any committed build, the one just committed included. */
  lemma ResolvedIsNotLowered(k: Install, s: Site, later: Environment)
    requires EverythingWorks(later) && Installing(s) && ParsableStamp(k, s.exe)
    requires BackupIntact(k, s, s.journal.journal)
    requires NotLowered(k, s.events, s.backups[s.journal.journal.backupPath])
    requires Rises(Versions(), k, s.events, s.journal.journal.toVersion)
    ensures var t := Resolve(k, Started(s), later).0;
      NotLowered(k, t.events, t.exe)
  {
    GoodStart(k, Started(s), later);
    var j := s.journal.journal;
    var (t, status) := Resolve(k, Started(s), later);
    if status == Succeeded {
      VersionsAreOrdered();
      assert Versions().notBelow(j.toVersion, j.toVersion);
      AboveAllIsNotBelow(Versions(), k, s.events, j.toVersion);
      NotLoweredExactly(k, s.events, t.exe);
      NewEventsDoNotLower(k, s.events, t.exe, [HealthChecked, Adopted(t.exe)]);
    } else {
      NewEventsDoNotLower(k, s.events, t.exe, [HealthChecked]);
    }
  }

  // ---------------------------------------------------------------------------------------------
  // A run whose committed versions go down
  // ---------------------------------------------------------------------------------------------

  /** Three good downloads one after the other; the machine stops right after the second swap. */
  function CutAtTheSecondSwap(first: Bytes, second: Bytes, third: Bytes): Environment {
    n =>
      if n < 11 then Good(first)
      else if n == 15 then Good(second).(io := DiesAfter)
      else if n < 17 then Good(second)
      else Good(third)
  }

  lemma StepsOfTheCut(first: Bytes, second: Bytes, third: Bytes)
    ensures var env := CutAtTheSecondSwap(first, second, third);
      && GoodSteps(env, 0, 11, first) && GoodSteps(env, 11, 4, second) && GoodSteps(env, 17, 11, third)
      && env(15).io.DiesAfter? && env(16).io.Works?
      && !env(11).reported && !env(17).reported && !env(28).reported
  {
    var env := CutAtTheSecondSwap(first, second, third);
    assert env(16) == Good(second);
  }

  /** An update whose swap is cut right after it took effect, and the start after it: the new build runs unchecked. */
  lemma CutUpdate(k: Install, s: Site, commandID: string, p: UpdatePayload, content: Bytes, env: Environment)
    requires AtRest(s) && Offers(k, p, content) && Newer(k, p, s.exe) && IsSha256(k.digest(s.exe))
    requires GoodSteps(env, s.step, 4, content) && env(s.step + 4).io.DiesAfter? && env(s.step + 5).io.Works?
    requires !env(s.step + 6).reported && ParsableStamp(k, content)
    ensures var t := Run(k, s, UpdateAndStart(commandID, p), env);
      && t.events == s.events + [Verified(p.sha256, content), Began]
      && t.exe == content && AtRest(t) && t.step == s.step + 6
  {
    var t := UpdatePrepares(k, s, commandID, p, content, env);
    var j := t.journal.journal;
    DeadSwap(k, t, j, content, env);
    var cut := Stop(Replace(t, content, env).0);
    assert Act(k, s, Update(commandID, p), env) == cut;
    StartAfterTheCut(k, cut, j, env);
    ThreeActivities(k, s, Update(commandID, p), env);
  }

  lemma StartAfterTheCut(k: Install, s: Site, j: Journal, env: Environment)
    requires s.journal == Present(j) && j.state.Staged? && ParsableStamp(k, s.exe)
    requires env(s.step).io.Works? && !env(s.step + 1).reported
    ensures var t := Start(k, s, env);
      t.events == s.events && t.exe == s.exe && AtRest(t) && t.step == s.step + 1
  {
    var failed := j.(state := Failed, reason := "interrupted_before_install");
    var (t, step) := SaveJournal(Unstage(Started(s)), failed, env);
    assert Resolve(k, Started(s), env) == (t, FailedStatus);
  }

  /** A run of three updates, each with the restart after it. */
  function ThreeUpdates(p: UpdatePayload, q: UpdatePayload, r: UpdatePayload): seq<Activity> {
    [Boot] + UpdateAndStart("p", p) + UpdateAndStart("q", q) + UpdateAndStart("r", r)
  }

  lemma FirstStart(k: Install, origin: Bytes, env: Environment)
    ensures Run(k, FirstInstall(origin), [Boot], env) == Started(FirstInstall(origin))
  {
    StartWithNothing(k, FirstInstall(origin), env);
  }

  lemma StartWithNothing(k: Install, s: Site, env: Environment)
    requires s.journal.NoJournal? && s.running.None?
    ensures Run(k, s, [Boot], env) == Started(s)
  {
    assert Run(k, s, [], env) == s;
    RunOneMore(k, s, [], Boot, env);
    assert [] + [Boot] == [Boot];
    assert Resolve(k, Started(s), env) == (Started(s), NoOutcome);
  }

  /** Three updates from an agent at rest at step 0, the second one cut. */
  lemma ThreeUpdatesCommitTwo(k: Install, s: Site, p: UpdatePayload, first: Bytes, q: UpdatePayload, second: Bytes,
        r: UpdatePayload, third: Bytes, env: Environment)
    requires AtRest(s) && s.step == 0 && env == CutAtTheSecondSwap(first, second, third)
    requires Digests(k) && Offers(k, p, first) && Offers(k, q, second) && Offers(k, r, third)
    requires k.versionOf(first) == p.version && k.versionOf(third) == r.version
    requires Newer(k, p, s.exe) && Newer(k, q, first) && Newer(k, r, second)
    ensures var t := Run(k, Run(k, Run(k, s, UpdateAndStart("p", p), env), UpdateAndStart("q", q), env),
                         UpdateAndStart("r", r), env);
      t.events == s.events + TwoCommitsAndACut(p, first, q, second, r, third)
  {
    StepsOfTheCut(first, second, third);
    UpdateIsCommitted(k, s, "p", p, first, env);
    var s2 := Run(k, s, UpdateAndStart("p", p), env);
    CutUpdate(k, s2, "q", q, second, env);
    var s3 := Run(k, s2, UpdateAndStart("q", q), env);
    UpdateIsCommitted(k, s3, "r", r, third, env);
    var x, y, z := [Verified(p.sha256, first), Began, HealthChecked, Adopted(first)], [Verified(q.sha256, second), Began],
      [Verified(r.sha256, third), Began, HealthChecked, Adopted(third)];
    assert s2.events == s.events + x && s3.events == s2.events + y;
    JoinThree(s.events, x, y, z);
  }

  lemma JoinThree(events: seq<Event>, x: seq<Event>, y: seq<Event>, z: seq<Event>)
    ensures events + x + y + z == events + (x + y + z)
  {
  }

  /** What three updates with the second one cut leave in the history. */
  function TwoCommitsAndACut(p: UpdatePayload, first: Bytes, q: UpdatePayload, second: Bytes, r: UpdatePayload,
        third: Bytes): seq<Event>
  {
    [Verified(p.sha256, first), Began, HealthChecked, Adopted(first)] + [Verified(q.sha256, second), Began]
    + [Verified(r.sha256, third), Began, HealthChecked, Adopted(third)]
  }

  /** The run in its parts. */
  lemma PartsOfTheRun(k: Install, s: Site, a: seq<Activity>, b: seq<Activity>, c: seq<Activity>, d: seq<Activity>,
        env: Environment)
    ensures Run(k, s, a + b + c + d, env) == Run(k, Run(k, Run(k, Run(k, s, a, env), b, env), c, env), d, env)
  {
    RunInTwoParts(k, s, a, b, env);
    RunInTwoParts(k, s, a + b, c, env);
    RunInTwoParts(k, s, a + b + c, d, env);
  }

  lemma FirstThreeUpdates(k: Install, origin: Bytes, p: UpdatePayload, first: Bytes, q: UpdatePayload, second: Bytes,
        r: UpdatePayload, third: Bytes, env: Environment)
    requires env == CutAtTheSecondSwap(first, second, third)
    requires Digests(k) && Offers(k, p, first) && Offers(k, q, second) && Offers(k, r, third)
    requires k.versionOf(first) == p.version && k.versionOf(third) == r.version
    requires Newer(k, p, origin) && Newer(k, q, first) && Newer(k, r, second)
    ensures Run(k, FirstInstall(origin), ThreeUpdates(p, q, r), env).events
      == TwoCommitsAndACut(p, first, q, second, r, third)
  {
    var s := FirstInstall(origin);
    var boot, a, b, c := [Boot], UpdateAndStart("p", p), UpdateAndStart("q", q), UpdateAndStart("r", r);
    FirstStart(k, origin, env);
    ThreeUpdatesCommitTwo(k, Started(s), p, first, q, second, r, third, env);
    PartsOfTheRun(k, s, boot, a, b, c, env);
    assert [] + TwoCommitsAndACut(p, first, q, second, r, third) == TwoCommitsAndACut(p, first, q, second, r, third);
  }

  lemma CommitsInTheHistory(k: Install, p: UpdatePayload, first: Bytes, q: UpdatePayload, second: Bytes,
        r: UpdatePayload, third: Bytes)
    ensures var events := TwoCommitsAndACut(p, first, q, second, r, third);
      && |events| == 10 && events[3] == Adopted(first) && events[9] == Adopted(third)
      && (!Above(k.versionOf(third), k.versionOf(first)) ==> !CommitsClimb(k, events))
  {
    var events := TwoCommitsAndACut(p, first, q, second, r, third);
    assert AdoptedAt(events, 3) && AdoptedAt(events, 9);
  }

  /**
   From the first installation: one build is committed, the next artifact carries an older stamp than its signed
   metadata name and the machine stops right after its swap, and then whatever is above that stamp is committed,
   be it older than the first build or that build itself.
   */
  lemma VersionsComeDown(k: Install, origin: Bytes, p: UpdatePayload, first: Bytes, q: UpdatePayload, second: Bytes,
        r: UpdatePayload, third: Bytes)
    requires Digests(k) && Offers(k, p, first) && Offers(k, q, second) && Offers(k, r, third)
    requires k.versionOf(first) == p.version && k.versionOf(third) == r.version
    requires Newer(k, p, origin) && Newer(k, q, first) && Newer(k, r, second)
    ensures var events := Run(k, FirstInstall(origin), ThreeUpdates(p, q, r), CutAtTheSecondSwap(first, second, third)).events;
      && |events| == 10 && events[3] == Adopted(first) && events[9] == Adopted(third)
      && (!Above(r.version, p.version) ==> !CommitsClimb(k, events))
  {
    FirstThreeUpdates(k, origin, p, first, q, second, r, third, CutAtTheSecondSwap(first, second, third));
    CommitsInTheHistory(k, p, first, q, second, r, third);
  }

  // ---------------------------------------------------------------------------------------------
  // The same with every input written out
  // ---------------------------------------------------------------------------------------------

  /** A version of three digits, the last of them zero. */
  function Dotted(major: char, minor: char): string {
    [major, '.', minor, '.', '0']
  }

  lemma DottedParses(major: char, minor: char)
    requires IsDigit(major) && IsDigit(minor)
    ensures ParseVersion(Dotted(major, minor))
      == Some(Version(major as int - '0' as int, minor as int - '0' as int, 0, ""))
    ensures CanonicalText(Dotted(major, minor))
  {
    var text := Dotted(major, minor);
    NoDash(text);
    assert text[..5] == text;
    var last: string := ['0'];
    SplitPlain(last, '.');
    SplitField(minor, last, []);
    SplitField(major, [minor, '.'] + last, [last]);
    assert text == [major, '.'] + ([minor, '.'] + last);
  }

  /** One more field of one character in front. */
  lemma SplitField(c: char, s: string, rest: seq<string>)
    requires c != '.' && |Split(s, '.')| >= 1 && Split(s, '.')[1..] == rest
    ensures Split([c, '.'] + s, '.') == [[c], Split(s, '.')[0]] + rest
  {
    var dotted := ['.'] + s;
    assert dotted[1..] == s;
    var empty: string := [];
    assert Split(dotted, '.') == [empty] + Split(s, '.');
    assert [c, '.'] + s == [c] + dotted && ([c] + dotted)[1..] == dotted;
    assert [c] + empty == [c];
  }

  lemma {:induction false} NoDash(s: string)
    requires '-' !in s
    ensures IndexOf(s, '-') == |s|
  {
    if s != [] {
      NoDash(s[1..]);
    }
  }

  /** An endpoint with three builds in the world; the second is announced as 3.0.0 and stamped 1.5.0. */
  function SampleInstall(): Install {
    Install(_ => SampleDigest(),
            b => if b == [1] then Dotted('2', '0') else if b == [2] then Dotted('1', '5') else Dotted('1', '0'),
            "agent.exe", "windows", "stable")
  }

  function SampleDigest(): string {
    seq(64, _ => 'a')
  }

  function SampleUpdate(version: string): UpdatePayload {
    UpdatePayload("release", version, "stable", "windows", SampleDigest(), 1, Dotted('1', '0'), false, 0, true)
  }

  lemma SampleOffers(major: char, content: Bytes)
    requires IsDigit(major) && major != '0' && |content| == 1
    ensures Offers(SampleInstall(), SampleUpdate(Dotted(major, '0')), content)
  {
    DottedParses(major, '0');
    DottedParses('1', '0');
  }

  lemma SampleStamps()
    ensures var k := SampleInstall();
      && k.versionOf([0]) == Dotted('1', '0') && k.versionOf([1]) == Dotted('2', '0') && k.versionOf([2]) == Dotted('1', '5')
      && Digests(k)
  {
  }

  lemma SampleIsNewer(major: char, build: Bytes, m: char, n: char)
    requires IsDigit(major) && IsDigit(m) && IsDigit(n) && major > m
    requires SampleInstall().versionOf(build) == Dotted(m, n)
    ensures Newer(SampleInstall(), SampleUpdate(Dotted(major, '0')), build)
  {
    DottedParses(major, '0');
    DottedParses(m, n);
  }

  lemma NotAboveItself(version: string)
    ensures !Above(version, version)
  {
    if CanonicalText(version) {
      CompareZero(ParseVersion(version).value, ParseVersion(version).value);
    }
  }

  /** 2.0.0 is committed, a build announced as 3.0.0 and stamped 1.5.0 is cut in, and 2.0.0 is committed again. */
  lemma SampleComesDown()
    ensures var p, q := SampleUpdate(Dotted('2', '0')), SampleUpdate(Dotted('3', '0'));
      var events := Run(SampleInstall(), FirstInstall([0]), ThreeUpdates(p, q, p), CutAtTheSecondSwap([1], [2], [1])).events;
      && |events| == 10 && events[3] == events[9] == Adopted([1]) && !CommitsClimb(SampleInstall(), events)
  {
    SampleOffers('2', [1]);
    SampleOffers('3', [2]);
    SampleStamps();
    SampleIsNewer('2', [0], '1', '0');
    SampleIsNewer('3', [1], '2', '0');
    SampleIsNewer('2', [2], '1', '5');
    var k, p, q := SampleInstall(), SampleUpdate(Dotted('2', '0')), SampleUpdate(Dotted('3', '0'));
    NotAboveItself(p.version);
    VersionsComeDown(k, [0], p, [1], q, [2], p, [1]);
  }
}
