/**
 From the server to the process: with the real verifier in the session, and a signature scheme under which only
 the server's own messages pass, the runs of the agent start only what the server issued, and start it once.
 */
module IssuedCommands {
  import opened AgentRunner
  import opened Basics
  import opened CommandEnvelope
  import opened CommandJournal
  import CanonicalCommand
  import JournalGates
  import JournalProtocol

  type Check = (Key, string, string) -> bool
  type ParseTime = string -> Option<Time>

  /** The session checks signatures with VerifyWithKeyID over this scheme. */
  ghost predicate UsesVerifier(t: Trust, check: Check, parseTime: ParseTime) {
    && t.parseTime == parseTime
    && forall k, e, s :: t.verifies(k, e, s) <==> CanonicalCommand.VerifyWithKeyID(k, e, s, check, parseTime)
  }

  ghost predicate Trusts(t: Trust, key: Key) {
    key == t.legacy || exists k :: k in t.keys && t.keys[k] == key
  }

  /** Under this key only the canonical bytes of issued commands pass. */
  ghost predicate SignsOnly(key: Key, issued: set<Envelope>, check: Check, parseTime: ParseTime) {
    forall m, s :: check(key, m, s) ==>
      exists f :: f in issued && CanonicalCommand.CanonicalCommandBytes(f, parseTime) == Ok(m)
  }

  /** Every session of the run uses the verifier, and trusts only keys the server signs issued commands with. */
  ghost predicate HonestSession(a: Activity, issued: set<Envelope>, check: Check, parseTime: ParseTime) {
    a.Beats? && a.beat.Answered? ==>
      && UsesVerifier(a.beat.trust, check, parseTime)
      && forall key :: Trusts(a.beat.trust, key) ==> SignsOnly(key, issued, check, parseTime)
  }

  ghost predicate HonestRun(activities: seq<Activity>, issued: set<Envelope>, check: Check, parseTime: ParseTime) {
    forall i :: 0 <= i < |activities| ==> HonestSession(activities[i], issued, check, parseTime)
  }

  /** The started command is this issued one, and was admitted inside its window. */
  ghost predicate StartOf(f: Envelope, e: Event, parseTime: ParseTime) {
    && e.Started? && e.id == f.commandID && e.nonce == f.nonce
    && parseTime(f.expiresAt) == Some(e.expiry)
    && parseTime(f.issuedAt).Some? && parseTime(f.issuedAt).value - MAX_SKEW <= e.admittedAt < e.expiry
  }

  lemma VerifiedWasIssued(d: Delivery, t: Trust, issued: set<Envelope>, check: Check, parseTime: ParseTime)
    requires UsesVerifier(t, check, parseTime)
    requires forall key :: Trusts(t, key) ==> SignsOnly(key, issued, check, parseTime)
    requires SigningKey(d.envelope, t).Some?
    requires t.verifies(SigningKey(d.envelope, t).value, SignedForm(d.envelope, t), d.signature)
    ensures exists f :: f in issued && CanonicalCommand.SameCommand(SignedForm(d.envelope, t), f)
  {
    var key := SigningKey(d.envelope, t).value;
    assert Trusts(t, key);
    CanonicalCommand.AcceptedCommandWasIssued(key, SignedForm(d.envelope, t), d.signature, check, issued, parseTime);
  }

  lemma SameCommandSameFields(e: Envelope, f: Envelope)
    requires CanonicalCommand.SameCommand(e, f)
    ensures e.commandID == f.commandID && e.nonce == f.nonce && e.agentID == f.agentID && e.kind == f.kind
    ensures e.issuedAt == f.issuedAt && e.expiresAt == f.expiresAt
  {
    var g := e.(payload := "");
    assert g == f.(payload := "");
    assert g.commandID == f.commandID && g.nonce == f.nonce && g.agentID == f.agentID && g.kind == f.kind;
    assert g.issuedAt == f.issuedAt && g.expiresAt == f.expiresAt;
  }

  /** What was started, kind and payload included, is a command the server issued. */
  ghost predicate StartedAsIssued(e: Event, t: Trust, issued: set<Envelope>, parseTime: ParseTime) {
    e.Started? && e.envelope.agentID == t.agentID &&
    exists f :: f in issued && StartOf(f, e, parseTime) && CanonicalCommand.SameCommand(SignedForm(e.envelope, t), f)
  }

  /** The session of some heartbeat of the run started what the server issued. */
  ghost predicate IssuedTo(a: Activity, e: Event, issued: set<Envelope>, parseTime: ParseTime) {
    a.Beats? && a.beat.Answered? && StartedAsIssued(e, a.beat.trust, issued, parseTime)
  }

  lemma AuthorizedStart(d: Delivery, t: Trust, f: Envelope, e: Event, parseTime: ParseTime)
    requires t.parseTime == parseTime && JournalGates.Authorizes(d, t, e)
    requires CanonicalCommand.SameCommand(SignedForm(d.envelope, t), f)
    ensures StartOf(f, e, parseTime)
  {
    SameCommandSameFields(SignedForm(d.envelope, t), f);
  }

  lemma AuthorizedIsIssued(a: Activity, e: Event, issued: set<Envelope>, check: Check, parseTime: ParseTime)
    requires HonestSession(a, issued, check, parseTime) && JournalGates.Authorized(a, e)
    ensures IssuedTo(a, e, issued, parseTime)
  {
    var t := a.beat.trust;
    var d :| d in a.beat.deliveries && JournalGates.Authorizes(d, t, e);
    VerifiedWasIssued(d, t, issued, check, parseTime);
    var f :| f in issued && CanonicalCommand.SameCommand(SignedForm(d.envelope, t), f);
    AuthorizedStart(d, t, f, e, parseTime);
  }

  /**
   Over every run, whatever the network delivers and wherever saves fail or the machine stops: each process was
   started for a command the server issued to this agent, with the kind and the payload that were handed to it,
   within the window the server signed.
   */
  lemma StartedCommandsWereIssued(disk: Journal, clock: Time, activities: seq<Activity>, env: Environment,
        issued: set<Envelope>, check: Check, parseTime: ParseTime, i: nat)
    requires HonestRun(activities, issued, check, parseTime)
    requires i < |JournalProtocol.RunEvents(disk, clock, activities, env)|
    requires JournalProtocol.RunEvents(disk, clock, activities, env)[i].Started?
    ensures var e := JournalProtocol.RunEvents(disk, clock, activities, env)[i];
      exists a :: a in activities && IssuedTo(a, e, issued, parseTime)
  {
    JournalGates.StartedCommandsPassedEveryGate(disk, clock, activities, env, i);
    var e := JournalProtocol.RunEvents(disk, clock, activities, env)[i];
    var a :| a in activities && JournalGates.Authorized(a, e);
    var n :| 0 <= n < |activities| && activities[n] == a;
    AuthorizedIsIssued(a, e, issued, check, parseTime);
  }

  /** The server gives each command ID one expiry. */
  ghost predicate OneExpiryPerID(issued: set<Envelope>, parseTime: ParseTime, signed: string -> Time) {
    forall f :: f in issued ==> parseTime(f.expiresAt).Some? ==> parseTime(f.expiresAt).value == signed(f.commandID)
  }

  /** The server does not issue IDs that look like replay keys. */
  ghost predicate PlainIDs(issued: set<Envelope>) {
    forall f :: f in issued ==> !IsNonceKey(f.commandID)
  }

  lemma HonestIsLawful(a: Activity, issued: set<Envelope>, check: Check, parseTime: ParseTime, signed: string -> Time)
    requires HonestSession(a, issued, check, parseTime) && PlainIDs(issued) && OneExpiryPerID(issued, parseTime, signed)
    ensures JournalProtocol.LawfulActivity(a, signed)
  {
    if a.Beats? && a.beat.Answered? {
      var ds, t := a.beat.deliveries, a.beat.trust;
      forall i | 0 <= i < |ds|
        ensures JournalProtocol.Lawful(Judge(ds[i], t), signed)
      {
        assert ds[i] in ds;
        if Judge(ds[i], t).authentic {
          VerifiedWasIssued(ds[i], t, issued, check, parseTime);
          var f :| f in issued && CanonicalCommand.SameCommand(SignedForm(ds[i].envelope, t), f);
          SameCommandSameFields(SignedForm(ds[i].envelope, t), f);
        }
      }
    }
  }

  /**
   At-most-once from the server's side.  If the server gives each ID one expiry and issues no ID that looks like a
   replay key, then over every run of honest sessions, whatever else is delivered, no issued command is started twice, and no two with one nonce within the first one's window.
   */
  lemma IssuedCommandsStartAtMostOnce(disk: Journal, clock: Time, activities: seq<Activity>, env: Environment,
        issued: set<Envelope>, check: Check, parseTime: ParseTime, signed: string -> Time, i: nat, j: nat)
    requires JournalProtocol.Initial(disk, clock) && HonestRun(activities, issued, check, parseTime)
    requires OneExpiryPerID(issued, parseTime, signed) && PlainIDs(issued)
    requires var events := Run(FirstBoot(disk, clock), activities, env).events;
      i < j < |events| && events[i].Started? && events[j].Started?
    ensures var events := Run(FirstBoot(disk, clock), activities, env).events;
      && events[i].id != events[j].id
      && (events[i].nonce == events[j].nonce ==> events[i].expiry < events[j].at)
  {
    forall n | 0 <= n < |activities|
      ensures JournalProtocol.LawfulActivity(activities[n], signed)
    {
      HonestIsLawful(activities[n], issued, check, parseTime, signed);
    }
    JournalProtocol.AtMostOnce(disk, clock, activities, env, signed);
    assert Run(FirstBoot(disk, clock), activities, env).events
      == JournalProtocol.RunEvents(disk, clock, activities, env);
  }
}
