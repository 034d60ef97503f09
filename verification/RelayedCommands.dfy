/**
 Commands over relays: the chain of routing manifests and the gates of the runtime together.  One signature scheme
 serves both; the two kinds of signed text cannot be taken for each other.  If the server's keys sign only what the
 server issued, and its manifests hand over only its own keys, then however the beats are relayed, only commands the
 server issued are started.
 */
module RelayedCommands {
  import opened AgentRunner
  import opened Basics
  import opened CommandEnvelope
  import opened IssuedCommands
  import CanonicalCommand
  import CommandJournal
  import JournalProtocol
  import Json
  import RoutingManifest

  /** The text of a command the server issued. */
  ghost predicate IsIssuedCommand(m: string, issued: set<Envelope>, parseTime: ParseTime) {
    exists f :: f in issued && CanonicalCommand.CanonicalCommandBytes(f, parseTime) == Ok(m)
  }

  /** The text of a manifest the server signed. */
  ghost predicate IsIssuedManifest(m: string, manifests: set<string>) {
    exists raw :: raw in manifests && m == RoutingManifest.CONTEXT + raw
  }

  /** What the server has signed, and with which keys. */
  datatype Server = Server(keys: set<Key>, issued: set<Envelope>, manifests: set<string>)

  /** The keys of this manifest are the server's. */
  ghost predicate HandsOverServerKeys(raw: string, server: Server, lib: RoutingManifest.Libraries) {
    lib.decode(raw).Some? ==> AreServerKeys(lib.decode(raw).value.keys, server, lib)
  }

  ghost predicate AreServerKeys(keys: map<string, string>, server: Server, lib: RoutingManifest.Libraries) {
    forall k :: k in keys && lib.parsePEM(keys[k]).Some? ==> lib.parsePEM(keys[k]).value in server.keys
  }

  /** Under the server's keys only what it issued verifies, and its manifests hand over its own keys. */
  ghost predicate HonestServer(server: Server, lib: RoutingManifest.Libraries, parseTime: ParseTime) {
    && (forall key, m, s :: key in server.keys && lib.checks(key, m, s) ==>
          IsIssuedCommand(m, server.issued, parseTime) || IsIssuedManifest(m, server.manifests))
    && forall raw :: raw in server.manifests ==> HandsOverServerKeys(raw, server, lib)
  }

  // ---------------------------------------------------------------------------------------------
  // The two kinds of signed text
  // ---------------------------------------------------------------------------------------------

  predicate StartsAnObject(m: string) {
    m != "" && m[0] == '{'
  }

  lemma ObjectsStartWithABrace(v: Json.Value, style: Json.Style)
    requires v.Object?
    ensures StartsAnObject(Json.Print(v, style))
  {
  }

  lemma CommandsAreObjects(e: Envelope, parseTime: ParseTime)
    requires CanonicalCommand.CanonicalCommandBytes(e, parseTime).Ok?
    ensures StartsAnObject(CanonicalCommand.CanonicalCommandBytes(e, parseTime).value)
  {
    CanonicalCommand.BytesArePrinted(e, parseTime);
    ObjectsStartWithABrace(CanonicalCommand.Document(e, CanonicalCommand.ReadPayload(e.payload).value), Json.Go);
  }

  lemma ManifestsAreNot(raw: string)
    ensures !StartsAnObject(RoutingManifest.CONTEXT + raw)
  {
    assert (RoutingManifest.CONTEXT + raw)[0] == RoutingManifest.CONTEXT[0];
  }

  lemma ObjectsAreNotManifests(m: string, manifests: set<string>)
    requires StartsAnObject(m)
    ensures !IsIssuedManifest(m, manifests)
  {
    forall raw | raw in manifests
      ensures m != RoutingManifest.CONTEXT + raw
    {
      ManifestsAreNot(raw);
    }
  }

  /** The scheme, for texts that can be commands. */
  function ForCommands(check: Check): Check {
    (key, m, s) => StartsAnObject(m) && check(key, m, s)
  }

  /** Verifying a command never looks at anything but texts that can be commands. */
  lemma VerifierSeesObjects(t: Trust, check: Check, parseTime: ParseTime)
    requires UsesVerifier(t, check, parseTime)
    ensures UsesVerifier(t, ForCommands(check), parseTime)
  {
    forall k, e, s
      ensures CanonicalCommand.VerifyWithKeyID(k, e, s, check, parseTime)
        <==> CanonicalCommand.VerifyWithKeyID(k, e, s, ForCommands(check), parseTime)
    {
      if CanonicalCommand.CanonicalCommandBytes(e, parseTime).Ok? {
        CommandsAreObjects(e, parseTime);
      }
    }
  }

  lemma ServerKeysSignOnlyIssued(server: Server, lib: RoutingManifest.Libraries, parseTime: ParseTime, key: Key)
    requires HonestServer(server, lib, parseTime) && key in server.keys
    ensures SignsOnly(key, server.issued, ForCommands(lib.checks), parseTime)
  {
    forall m, s | ForCommands(lib.checks)(key, m, s)
      ensures IsIssuedCommand(m, server.issued, parseTime)
    {
      ObjectsAreNotManifests(m, server.manifests);
    }
  }

  // ---------------------------------------------------------------------------------------------
  // The keys of a session stay the server's
  // ---------------------------------------------------------------------------------------------

  ghost predicate ServerKeysOnly(keys: map<string, Key>, server: Server) {
    forall k :: k in keys ==> keys[k] in server.keys
  }

  /** Only the bundle of a direct answer is believed without a signature. */
  ghost predicate HonestAck(ack: RoutingManifest.HeartbeatAck, server: Server, lib: RoutingManifest.Libraries) {
    !ack.relayed ==> AreServerKeys(ack.keys, server, lib)
  }

  lemma ManifestsAreNotCommands(raw: string, issued: set<Envelope>, parseTime: ParseTime)
    ensures !IsIssuedCommand(RoutingManifest.CONTEXT + raw, issued, parseTime)
  {
    ManifestsAreNot(raw);
    forall f | f in issued && CanonicalCommand.CanonicalCommandBytes(f, parseTime).Ok?
      ensures CanonicalCommand.CanonicalCommandBytes(f, parseTime).value != RoutingManifest.CONTEXT + raw
    {
      CommandsAreObjects(f, parseTime);
    }
  }

  lemma VouchedManifestIsIssued(raw: string, trusted: map<string, Key>, legacy: Key, server: Server,
        lib: RoutingManifest.Libraries, parseTime: ParseTime)
    requires HonestServer(server, lib, parseTime) && ServerKeysOnly(trusted, server) && legacy in server.keys
    requires RoutingManifest.Vouched(RoutingManifest.CONTEXT + raw, trusted, Some(legacy), lib)
    ensures HandsOverServerKeys(raw, server, lib)
  {
    var m := RoutingManifest.CONTEXT + raw;
    var key, sig :| (key in trusted.Values || Some(legacy) == Some(key)) && lib.checks(key, m, sig);
    assert key in server.keys;
    ManifestsAreNotCommands(raw, server.issued, parseTime);
    var issued :| issued in server.manifests && m == RoutingManifest.CONTEXT + issued;
    assert raw == m[|RoutingManifest.CONTEXT|..] == issued;
  }

  lemma AckKeepsServerKeys(t: RoutingManifest.Trust, ack: RoutingManifest.HeartbeatAck, agentID: string, legacy: Key,
        server: Server, lib: RoutingManifest.Libraries, parseTime: ParseTime)
    requires HonestServer(server, lib, parseTime) && ServerKeysOnly(t.keys, server) && legacy in server.keys
    requires HonestAck(ack, server, lib)
    ensures ServerKeysOnly(RoutingManifest.AppliedTrust(t, ack, agentID, Some(legacy), lib).keys, server)
  {
    RoutingManifest.AllOrNothing(t, ack, agentID, Some(legacy), lib);
    if RoutingManifest.TakesEffect(t, ack, agentID, Some(legacy), lib) {
      RoutingManifest.EffectRequires(t, ack, agentID, Some(legacy), lib);
      VouchedManifestIsIssued(lib.base64(ack.manifest.value.manifestB64).value, t.keys, legacy, server, lib, parseTime);
    }
  }

  lemma {:induction false} KeysStayTheServers(t: RoutingManifest.Trust, acks: seq<RoutingManifest.HeartbeatAck>,
        agentID: string, legacy: Key, server: Server, lib: RoutingManifest.Libraries, parseTime: ParseTime)
    requires HonestServer(server, lib, parseTime) && ServerKeysOnly(t.keys, server) && legacy in server.keys
    requires forall i :: 0 <= i < |acks| ==> HonestAck(acks[i], server, lib)
    ensures ServerKeysOnly(RoutingManifest.Run(t, acks, agentID, Some(legacy), lib).keys, server)
    decreases |acks|
  {
    if acks != [] {
      AckKeepsServerKeys(t, acks[0], agentID, legacy, server, lib, parseTime);
      var next := RoutingManifest.AppliedTrust(t, acks[0], agentID, Some(legacy), lib);
      KeysStayTheServers(next, acks[1..], agentID, legacy, server, lib, parseTime);
    }
  }

  // ---------------------------------------------------------------------------------------------
  // The theorem
  // ---------------------------------------------------------------------------------------------

  /** Where the keys of a session come from: those it was loaded with, and the answers since. */
  datatype Origin = Origin(start: RoutingManifest.Trust, acks: seq<RoutingManifest.HeartbeatAck>)

  ghost predicate HonestOrigin(o: Origin, server: Server, lib: RoutingManifest.Libraries) {
    ServerKeysOnly(o.start.keys, server) && forall i :: 0 <= i < |o.acks| ==> HonestAck(o.acks[i], server, lib)
  }

  /** The session of this activity took its keys over as the runtime does, and verifies as the runtime does. */
  ghost predicate SessionOf(a: Activity, o: Origin, legacy: Key, lib: RoutingManifest.Libraries, parseTime: ParseTime) {
    a.Beats? && a.beat.Answered? ==>
      var t := a.beat.trust;
      && t.legacy == legacy && UsesVerifier(t, lib.checks, parseTime)
      && t.keys == RoutingManifest.Run(o.start, o.acks, t.agentID, Some(legacy), lib).keys
  }

  lemma SessionIsHonest(a: Activity, o: Origin, legacy: Key, server: Server, lib: RoutingManifest.Libraries,
        parseTime: ParseTime)
    requires HonestServer(server, lib, parseTime) && legacy in server.keys && HonestOrigin(o, server, lib)
    requires SessionOf(a, o, legacy, lib, parseTime)
    ensures HonestSession(a, server.issued, ForCommands(lib.checks), parseTime)
  {
    if a.Beats? && a.beat.Answered? {
      var t := a.beat.trust;
      VerifierSeesObjects(t, lib.checks, parseTime);
      KeysStayTheServers(o.start, o.acks, t.agentID, legacy, server, lib, parseTime);
      forall key | Trusts(t, key)
        ensures SignsOnly(key, server.issued, ForCommands(lib.checks), parseTime)
      {
        ServerKeysSignOnlyIssued(server, lib, parseTime, key);
      }
    }
  }

  /**
   Over every run, with the keys of each session reached from server keys by whatever answers relays and the server
   gave: every process was started for a command the server issued to this agent, kind and payload included.
   */
  lemma RelayedCommandsWereIssued(disk: CommandJournal.Journal, clock: CommandJournal.Time, activities: seq<Activity>,
        env: Environment, origins: seq<Origin>, legacy: Key, server: Server, lib: RoutingManifest.Libraries,
        parseTime: ParseTime, i: nat)
    requires HonestServer(server, lib, parseTime) && legacy in server.keys && |origins| == |activities|
    requires forall n :: 0 <= n < |activities| ==>
      HonestOrigin(origins[n], server, lib) && SessionOf(activities[n], origins[n], legacy, lib, parseTime)
    requires i < |JournalProtocol.RunEvents(disk, clock, activities, env)|
    requires JournalProtocol.RunEvents(disk, clock, activities, env)[i].Started?
    ensures var e := JournalProtocol.RunEvents(disk, clock, activities, env)[i];
      exists a :: a in activities && IssuedTo(a, e, server.issued, parseTime)
  {
    forall n | 0 <= n < |activities|
      ensures HonestSession(activities[n], server.issued, ForCommands(lib.checks), parseTime)
    {
      SessionIsHonest(activities[n], origins[n], legacy, server, lib, parseTime);
    }
    StartedCommandsWereIssued(disk, clock, activities, env, server.issued, ForCommands(lib.checks), parseTime, i);
  }
}
