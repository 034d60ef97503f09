/**
 Signed routing manifests: their verification (agent/internal/verify/manifest.go) and how a session
 takes one over (agent/internal/service/runner.go, applyRoutingAndKeys and adoptManifest).
 */
module RoutingManifest {
  import opened Basics
  import CommandEnvelope
  import opened Numerals

  /** Raw key material and raw bytes. */
  type Key = string

  const CONTEXT: string := "nodelink-agent-routing-v1:"
  const MANIFEST_VERSION: string := "routing-manifest-v1"
  const MAX_BYTES: nat := 64 * 1024
  const MAX_ROUTES: nat := 16
  const MAX_SIGNATURES: nat := 16
  const SIGNATURE_SIZE: nat := 64
  const MAX_LIFETIME: int := 24 * 3600 * SECOND
  const MAX_SKEW_SECONDS: int := 120

  type Int64 = x: int | -MAX_INT64 - 1 <= x <= MAX_INT64

  datatype Route = Route(kind: string, relayID: string, region: string, baseURL: string, pins: seq<string>)

  datatype Manifest = Manifest(
    version: string, agentID: string, issuedAt: Int64, expiresAt: Int64, residencyMode: string, homeRegion: string,
    routes: seq<Route>, keys: map<string, string>)

  datatype Signature = Signature(keyID: string, signature: string)

  datatype SignedManifest = SignedManifest(manifestB64: string, signatures: seq<Signature>)

  /** The libraries: base64, JSON into the manifest struct, PEM, Ed25519, url.Parse, and the client's route builder. */
  datatype Libraries = Libraries(
    base64: string -> Option<string>,
    decode: string -> Option<Manifest>,
    parsePEM: string -> Option<Key>,
    checks: (Key, string, string) -> bool,
    goodURL: string -> bool,
    buildable: seq<Route> -> bool)

  datatype Code =
    | Malformed | TooLarge | SignatureMissing | SignatureUntrusted | UnsupportedVersion | WrongAgent | LifetimeInvalid
    | IssuedInFuture | Expired | Rollback | ResidencyModeInvalid | RegionInvalid | RoutesInvalid | RouteInvalid
    | KeysMissing | KeysInvalid

  // ---------------------------------------------------------------------------------------------
  // VerifyRoutingManifest
  // ---------------------------------------------------------------------------------------------

  predicate IsRegion(s: string) {
    |s| <= 32 && forall i :: 0 <= i < |s| ==> IsDigit(s[i]) || 'a' <= s[i] <= 'z' || s[i] == '-'
  }

  predicate IsRelayID(s: string) {
    |s| == 36 && forall i :: 0 <= i < |s| ==> IsDigit(s[i]) || 'a' <= s[i] <= 'f' || s[i] == '-'
  }

  predicate GoodRoute(r: Route, lib: Libraries) {
    if r.kind == "origin" then r.relayID == "" && r.baseURL == "" && r.pins == []
    else r.kind == "relay" && IsRelayID(r.relayID) && IsRegion(r.region) && lib.goodURL(r.baseURL) && |r.pins| <= 4
  }

  /** Signature i is a good signature of a key the agent trusts under that ID, or of the legacy key. */
  predicate TrustedSignature(item: Signature, message: string, trusted: map<string, Key>, legacy: Option<Key>,
        lib: Libraries) {
    && CommandEnvelope.IsKeyID(item.keyID)
    && var sig := lib.base64(item.signature);
    && sig.Some? && |sig.value| == SIGNATURE_SIZE
    && ((item.keyID in trusted && lib.checks(trusted[item.keyID], message, sig.value))
        || (legacy.Some? && lib.checks(legacy.value, message, sig.value)))
  }

  predicate Authentic(signatures: seq<Signature>, message: string, trusted: map<string, Key>, legacy: Option<Key>,
        lib: Libraries) {
    exists i :: 0 <= i < |signatures| && TrustedSignature(signatures[i], message, trusted, legacy, lib)
  }

  /** The lifetime test as Go computes it: a 64-bit difference, scaled to a 64-bit Duration. */
  predicate LifetimeRefused(m: Manifest) {
    m.expiresAt <= m.issuedAt || Wrap64(Wrap64(m.expiresAt - m.issuedAt) * SECOND) > MAX_LIFETIME
  }

  predicate GoodKeys(keys: map<string, string>, lib: Libraries) {
    forall k :: k in keys ==> CommandEnvelope.IsKeyID(k) && lib.parsePEM(keys[k]).Some?
  }

  predicate GoodRoutes(routes: seq<Route>, lib: Libraries) {
    forall i :: 0 <= i < |routes| ==> GoodRoute(routes[i], lib)
  }

  function ContentProblem(m: Manifest, agentID: string, floor: int, now: int, lib: Libraries): Option<Code> {
    if m.version != MANIFEST_VERSION then Some(UnsupportedVersion)
    else if m.agentID != agentID then Some(WrongAgent)
    else if LifetimeRefused(m) then Some(LifetimeInvalid)
    else if m.issuedAt > now + MAX_SKEW_SECONDS then Some(IssuedInFuture)
    else if m.expiresAt <= now then Some(Expired)
    else if m.issuedAt < floor then Some(Rollback)
    else if m.residencyMode !in {"none", "preferred", "strict"} then Some(ResidencyModeInvalid)
    else if !IsRegion(m.homeRegion) then Some(RegionInvalid)
    else if m.routes == [] || |m.routes| > MAX_ROUTES then Some(RoutesInvalid)
    else if !GoodRoutes(m.routes, lib) then Some(RouteInvalid)
    else if m.keys == map[] then Some(KeysMissing)
    else if !GoodKeys(m.keys, lib) then Some(KeysInvalid)
    else None
  }

  function VerifiedManifest(signed: SignedManifest, trusted: map<string, Key>, legacy: Option<Key>, agentID: string,
      floor: int, now: int, lib: Libraries): Result<Manifest, Code>
  {
    var raw := lib.base64(signed.manifestB64);
    if raw.None? || raw.value == "" then Err(Malformed)
    else if |raw.value| > MAX_BYTES then Err(TooLarge)
    else if signed.signatures == [] || |signed.signatures| > MAX_SIGNATURES then Err(SignatureMissing)
    else if !Authentic(signed.signatures, CONTEXT + raw.value, trusted, legacy, lib) then Err(SignatureUntrusted)
    else
      match lib.decode(raw.value)
      case None => Err(Malformed)
      case Some(m) =>
        match ContentProblem(m, agentID, floor, now, lib)
        case Some(code) => Err(code)
        case None => Ok(m)
  }

  method VerifyRoutingManifest(signed: SignedManifest, trusted: map<string, Key>, legacy: Option<Key>, agentID: string,
      floor: int, now: int, lib: Libraries) returns (r: Result<Manifest, Code>)
    ensures r == VerifiedManifest(signed, trusted, legacy, agentID, floor, now, lib)
  {
    var raw := lib.base64(signed.manifestB64);
    if raw.None? || raw.value == "" {
      return Err(Malformed);
    }
    if |raw.value| > MAX_BYTES {
      return Err(TooLarge);
    }
    if signed.signatures == [] || |signed.signatures| > MAX_SIGNATURES {
      return Err(SignatureMissing);
    }
    var message := CONTEXT + raw.value;
    var verified := false;
    for i := 0 to |signed.signatures|
      invariant verified == exists j ::
        0 <= j < i && TrustedSignature(signed.signatures[j], message, trusted, legacy, lib)
    {
      var item := signed.signatures[i];
      if !CommandEnvelope.IsKeyID(item.keyID) {
        continue;
      }
      var sig := lib.base64(item.signature);
      if sig.None? || |sig.value| != SIGNATURE_SIZE {
        continue;
      }
      if item.keyID in trusted && lib.checks(trusted[item.keyID], message, sig.value) {
        verified := true;
        break;
      }
      if legacy.Some? && lib.checks(legacy.value, message, sig.value) {
        verified := true;
        break;
      }
    }
    if !verified {
      return Err(SignatureUntrusted);
    }
    var decoded := lib.decode(raw.value);
    if decoded.None? {
      return Err(Malformed);
    }
    var problem := ContentProblem(decoded.value, agentID, floor, now, lib);
    if problem.Some? {
      return Err(problem.value);
    }
    r := Ok(decoded.value);
  }

  /**
   The lifetime bound of a manifest the agent accepts holds exactly when the difference in seconds fits a
   Duration.
   */
  lemma LifetimeBoundHoldsExactlyWithoutOverflow(m: Manifest)
    requires !LifetimeRefused(m)
    ensures m.expiresAt - m.issuedAt <= 24 * 3600 <==> (m.expiresAt - m.issuedAt) * SECOND <= MAX_INT64
  {
    var d := m.expiresAt - m.issuedAt;
    if d * SECOND <= MAX_INT64 {
      assert Wrap64(d) == d && Wrap64(d * SECOND) == d * SECOND;
    }
  }

  /** A lifetime of 584 years passes the test. */
  lemma OverflowingLifetimeIsAccepted(m: Manifest)
    requires m.expiresAt - m.issuedAt == 18_446_744_074
    ensures !LifetimeRefused(m)
  {
    assert Wrap64(18_446_744_074) == 18_446_744_074;
    assert Wrap64(18_446_744_074 * SECOND) == 290_448_384;
  }

  // ---------------------------------------------------------------------------------------------
  // The session
  // ---------------------------------------------------------------------------------------------

  datatype Stored = Stored(issuedAt: int, expiresAt: int, residencyMode: string, routes: seq<Route>)

  /** What applyRoutingAndKeys may change; `saved` is the identity file. */
  datatype Trust = Trust(
    keys: map<string, Key>,
    identityKeys: map<string, string>,
    stored: Option<Stored>,
    clientRoutes: seq<Route>,
    routesUntil: int,
    saved: (map<string, string>, Option<Stored>))

  /** A heartbeat answer; `relayed` says which way it came, `saveWorks` whether the identity can be written. */
  datatype HeartbeatAck = HeartbeatAck(manifest: Option<SignedManifest>, keys: map<string, string>, relayed: bool,
        now: int, saveWorks: bool)

  function Floor(t: Trust): int {
    if t.stored.Some? then t.stored.value.issuedAt else 0
  }

  function Relays(routes: seq<Route>): seq<Route> {
    if routes == [] then []
    else if routes[0].kind == "relay" then [routes[0]] + Relays(routes[1..])
    else Relays(routes[1..])
  }

  function StoredOf(m: Manifest): Stored {
    Stored(m.issuedAt, m.expiresAt, m.residencyMode, Relays(m.routes))
  }

  predicate Parses(keys: map<string, string>, lib: Libraries) {
    forall k :: k in keys ==> lib.parsePEM(keys[k]).Some?
  }

  function ParsedKeys(keys: map<string, string>, lib: Libraries): map<string, Key>
    requires Parses(keys, lib)
  {
    map k | k in keys :: lib.parsePEM(keys[k]).value
  }

  function Saved(t: Trust, works: bool): Trust {
    if works then t.(saved := (t.identityKeys, t.stored)) else t
  }

  function AdoptedTrust(t: Trust, m: Manifest, saveWorks: bool, lib: Libraries): Trust {
    if !Parses(m.keys, lib) || !lib.buildable(Relays(m.routes)) then t
    else
      Saved(Trust(ParsedKeys(m.keys, lib), m.keys, Some(StoredOf(m)), Relays(m.routes), m.expiresAt, t.saved), saveWorks)
  }

  function AppliedTrust(t: Trust, ack: HeartbeatAck, agentID: string, legacy: Option<Key>, lib: Libraries): Trust {
    var verified := ManifestOf(t, ack, agentID, legacy, lib);
    if verified.Some? then AdoptedTrust(t, verified.value, ack.saveWorks, lib)
    else if ack.relayed || ack.keys == map[] || !Parses(ack.keys, lib) then t
    else Saved(t.(keys := ParsedKeys(ack.keys, lib), identityKeys := ack.keys), ack.saveWorks)
  }

  /** The manifest of an answer, when it verifies in the state the answer meets. */
  function ManifestOf(t: Trust, ack: HeartbeatAck, agentID: string, legacy: Option<Key>,
        lib: Libraries): Option<Manifest> {
    if ack.manifest.None? then None
    else
      match VerifiedManifest(ack.manifest.value, t.keys, legacy, agentID, Floor(t), ack.now, lib)
      case Ok(m) => Some(m)
      case Err(_) => None
  }

  class Session {
    var pubKeys: map<string, Key>
    var identityKeys: map<string, string>
    var routingManifest: Option<Stored>
    var clientRoutes: seq<Route>
    var routesUntil: int
    var saved: (map<string, string>, Option<Stored>)
    const legacy: Option<Key>
    const agentID: string
    const lib: Libraries

    function State(): Trust
      reads this
    {
      Trust(pubKeys, identityKeys, routingManifest, clientRoutes, routesUntil, saved)
    }

    constructor (t: Trust, agentID: string, legacy: Option<Key>, lib: Libraries)
      ensures State() == t && this.agentID == agentID && this.legacy == legacy && this.lib == lib
    {
      pubKeys, identityKeys, routingManifest := t.keys, t.identityKeys, t.stored;
      clientRoutes, routesUntil, saved := t.clientRoutes, t.routesUntil, t.saved;
      this.agentID, this.legacy, this.lib := agentID, legacy, lib;
    }

    /** parseKeyBundle. */
    method ParseKeyBundle(bundle: map<string, string>) returns (r: Option<map<string, Key>>)
      ensures r == if Parses(bundle, lib) then Some(ParsedKeys(bundle, lib)) else None
    {
      var updated: map<string, Key> := map[];
      var todo := bundle.Keys;
      while todo != {}
        invariant todo <= bundle.Keys
        invariant updated.Keys == bundle.Keys - todo
        invariant forall k :: k in updated ==> lib.parsePEM(bundle[k]) == Some(updated[k])
        decreases |todo|
      {
        var k :| k in todo;
        var parsed := lib.parsePEM(bundle[k]);
        if parsed.None? {
          return None;
        }
        updated := updated[k := parsed.value];
        todo := todo - {k};
      }
      assert Parses(bundle, lib);
      assert updated == ParsedKeys(bundle, lib);
      r := Some(updated);
    }

    method Save(works: bool)
      modifies this`saved
      ensures State() == Saved(old(State()), works)
    {
      if works {
        saved := (identityKeys, routingManifest);
      }
    }

    /** The client swaps its route list, or refuses and keeps the old one. */
    method SetRoutes(routes: seq<Route>, until: int) returns (ok: bool)
      modifies this`clientRoutes, this`routesUntil
      ensures ok == lib.buildable(routes)
      ensures State() == if ok then old(State()).(clientRoutes := routes, routesUntil := until) else old(State())
    {
      ok := lib.buildable(routes);
      if ok {
        clientRoutes, routesUntil := routes, until;
      }
    }

    method AdoptManifest(m: Manifest, saveWorks: bool)
      modifies this
      ensures State() == AdoptedTrust(old(State()), m, saveWorks, lib)
    {
      var keys := ParseKeyBundle(m.keys);
      if keys.None? {
        return;
      }
      var relays: seq<Route> := [];
      for i := 0 to |m.routes|
        invariant Relays(m.routes) == relays + Relays(m.routes[i..])
      {
        assert m.routes[i..][0] == m.routes[i] && m.routes[i..][1..] == m.routes[i + 1..];
        if m.routes[i].kind == "relay" {
          relays := relays + [m.routes[i]];
        }
      }
      assert relays == Relays(m.routes);
      var stored := Stored(m.issuedAt, m.expiresAt, m.residencyMode, relays);
      var ok := SetRoutes(relays, m.expiresAt);
      if !ok {
        return;
      }
      pubKeys, identityKeys, routingManifest := keys.value, m.keys, Some(stored);
      Save(saveWorks);
    }

    method ApplyRoutingAndKeys(ack: HeartbeatAck)
      modifies this
      ensures State() == AppliedTrust(old(State()), ack, agentID, legacy, lib)
    {
      if ack.manifest.Some? {
        var floor := if routingManifest.Some? then routingManifest.value.issuedAt else 0;
        var r := VerifyRoutingManifest(ack.manifest.value, pubKeys, legacy, agentID, floor, ack.now, lib);
        if r.Ok? {
          AdoptManifest(r.value, ack.saveWorks);
          return;
        }
      }
      if ack.relayed || ack.keys == map[] {
        return;
      }
      var updated := ParseKeyBundle(ack.keys);
      if updated.None? {
        return;
      }
      pubKeys, identityKeys := updated.value, ack.keys;
      Save(ack.saveWorks);
    }
  }

  // ---------------------------------------------------------------------------------------------
  // Whole runs
  // ---------------------------------------------------------------------------------------------

  function Run(t: Trust, acks: seq<HeartbeatAck>, agentID: string, legacy: Option<Key>, lib: Libraries): Trust
    decreases |acks|
  {
    if acks == [] then t else Run(AppliedTrust(t, acks[0], agentID, legacy, lib), acks[1..], agentID, legacy, lib)
  }

  /** A manifest took effect in state `t`: it passed, and the client could build its routes. */
  predicate TakesEffect(t: Trust, ack: HeartbeatAck, agentID: string, legacy: Option<Key>, lib: Libraries) {
    && ManifestOf(t, ack, agentID, legacy, lib).Some?
    && Parses(ManifestOf(t, ack, agentID, legacy, lib).value.keys, lib)
    && lib.buildable(Relays(ManifestOf(t, ack, agentID, legacy, lib).value.routes))
  }

  /** One link of the chain of trust: the bytes of a manifest and the keys it hands over. */
  datatype Link = Link(message: string, keys: map<string, Key>)

  /** The manifests that took effect, in order. */
  function Links(t: Trust, acks: seq<HeartbeatAck>, agentID: string, legacy: Option<Key>, lib: Libraries): seq<Link>
    decreases |acks|
  {
    if acks == [] then []
    else
      var rest := Links(AppliedTrust(t, acks[0], agentID, legacy, lib), acks[1..], agentID, legacy, lib);
      if TakesEffect(t, acks[0], agentID, legacy, lib) then [LinkOf(t, acks[0], agentID, legacy, lib)] + rest else rest
  }

  function LinkOf(t: Trust, ack: HeartbeatAck, agentID: string, legacy: Option<Key>, lib: Libraries): Link
    requires TakesEffect(t, ack, agentID, legacy, lib)
  {
    Link(CONTEXT + lib.base64(ack.manifest.value.manifestB64).GetOr(""), ParsedKeys(ManifestOf(t, ack, agentID, legacy, lib).value.keys, lib))
  }

  /** Some key trusted at this point, or the legacy key, has signed these bytes. */
  ghost predicate Vouched(message: string, trusted: map<string, Key>, legacy: Option<Key>, lib: Libraries) {
    exists key, sig :: (key in trusted.Values || legacy == Some(key)) && lib.checks(key, message, sig)
  }

  /** Each link is vouched for by the keys of the link before it, the first by the starting keys. */
  ghost predicate ChainOfTrust(start: map<string, Key>, links: seq<Link>, legacy: Option<Key>, lib: Libraries)
    decreases |links|
  {
    links == [] || (Vouched(links[0].message, start, legacy, lib)
        && ChainOfTrust(links[0].keys, links[1..], legacy, lib))
  }

  function LastKeys(start: map<string, Key>, links: seq<Link>): map<string, Key> {
    if links == [] then start else links[|links| - 1].keys
  }

  predicate AllRelayed(acks: seq<HeartbeatAck>) {
    forall i :: 0 <= i < |acks| ==> acks[i].relayed
  }

  lemma AuthenticIsVouched(signatures: seq<Signature>, message: string, trusted: map<string, Key>,
        legacy: Option<Key>, lib: Libraries)
    requires Authentic(signatures, message, trusted, legacy, lib)
    ensures Vouched(message, trusted, legacy, lib)
  {
    var i :| 0 <= i < |signatures| && TrustedSignature(signatures[i], message, trusted, legacy, lib);
    var sig := lib.base64(signatures[i].signature).value;
    if signatures[i].keyID in trusted && lib.checks(trusted[signatures[i].keyID], message, sig) {
      var key := trusted[signatures[i].keyID];
      assert key in trusted.Values;
    }
  }

  lemma EffectIsVouched(t: Trust, ack: HeartbeatAck, agentID: string, legacy: Option<Key>, lib: Libraries)
    requires TakesEffect(t, ack, agentID, legacy, lib)
    ensures Vouched(LinkOf(t, ack, agentID, legacy, lib).message, t.keys, legacy, lib)
  {
    var signed := ack.manifest.value;
    AuthenticIsVouched(signed.signatures, CONTEXT + lib.base64(signed.manifestB64).value, t.keys, legacy, lib);
  }

  /** What a manifest has been checked for by the time it takes effect. */
  lemma EffectRequires(t: Trust, ack: HeartbeatAck, agentID: string, legacy: Option<Key>, lib: Libraries)
    requires TakesEffect(t, ack, agentID, legacy, lib)
    ensures var m := ManifestOf(t, ack, agentID, legacy, lib).value;
      && m.agentID == agentID && m.version == MANIFEST_VERSION
      && Floor(t) <= m.issuedAt <= ack.now + MAX_SKEW_SECONDS && ack.now < m.expiresAt
      && 1 <= |m.routes| <= MAX_ROUTES && GoodRoutes(m.routes, lib)
      && m.keys != map[] && GoodKeys(m.keys, lib)
      && Vouched(CONTEXT + lib.base64(ack.manifest.value.manifestB64).value, t.keys, legacy, lib)
  {
    EffectIsVouched(t, ack, agentID, legacy, lib);
  }

  /**
   A beat changes keys, stored manifest and client routes together, all from one verified manifest, or a
   relayed beat changes nothing at all; and a manifest that verifies always has keys that parse.
   */
  lemma AllOrNothing(t: Trust, ack: HeartbeatAck, agentID: string, legacy: Option<Key>, lib: Libraries)
    ensures var u := AppliedTrust(t, ack, agentID, legacy, lib);
      if TakesEffect(t, ack, agentID, legacy, lib) then
        var m := ManifestOf(t, ack, agentID, legacy, lib).value;
        u.keys == ParsedKeys(m.keys, lib) && u.identityKeys == m.keys && u.stored == Some(StoredOf(m))
        && u.clientRoutes == Relays(m.routes) && u.routesUntil == m.expiresAt
      else
        u.stored == t.stored && u.clientRoutes == t.clientRoutes && u.routesUntil == t.routesUntil && (ack.relayed ==> u == t)
    ensures ManifestOf(t, ack, agentID, legacy, lib).Some? ==> Parses(ManifestOf(t, ack, agentID, legacy, lib).value.keys, lib)
  {
  }

  lemma OneMoreLink(start: map<string, Key>, link: Link, rest: seq<Link>, legacy: Option<Key>, lib: Libraries)
    requires Vouched(link.message, start, legacy, lib) && ChainOfTrust(link.keys, rest, legacy, lib)
    ensures ChainOfTrust(start, [link] + rest, legacy, lib)
    ensures LastKeys(start, [link] + rest) == LastKeys(link.keys, rest)
  {
    assert ([link] + rest)[1..] == rest;
  }

  /** The keys after a run of relayed beats are reached from the starting keys by a chain of signed manifests. */
  lemma {:induction false} RelayedKeysAreVouchedFor(t: Trust, acks: seq<HeartbeatAck>, agentID: string,
        legacy: Option<Key>, lib: Libraries)
    requires AllRelayed(acks)
    ensures ChainOfTrust(t.keys, Links(t, acks, agentID, legacy, lib), legacy, lib)
    ensures Run(t, acks, agentID, legacy, lib).keys == LastKeys(t.keys, Links(t, acks, agentID, legacy, lib))
    decreases |acks|
  {
    if acks != [] {
      var next := AppliedTrust(t, acks[0], agentID, legacy, lib);
      AllOrNothing(t, acks[0], agentID, legacy, lib);
      var rest := Links(next, acks[1..], agentID, legacy, lib);
      RelayedKeysAreVouchedFor(next, acks[1..], agentID, legacy, lib);
      if TakesEffect(t, acks[0], agentID, legacy, lib) {
        EffectIsVouched(t, acks[0], agentID, legacy, lib);
        OneMoreLink(t.keys, LinkOf(t, acks[0], agentID, legacy, lib), rest, legacy, lib);
      }
    }
  }

  /** The held manifest never goes back in time, whichever way the beats come. */
  lemma {:induction false} HeldManifestNeverGoesBack(t: Trust, acks: seq<HeartbeatAck>, agentID: string,
        legacy: Option<Key>, lib: Libraries)
    ensures Floor(t) <= Floor(Run(t, acks, agentID, legacy, lib))
    ensures t.stored.Some? ==> Run(t, acks, agentID, legacy, lib).stored.Some?
    decreases |acks|
  {
    if acks != [] {
      AllOrNothing(t, acks[0], agentID, legacy, lib);
      HeldManifestNeverGoesBack(AppliedTrust(t, acks[0], agentID, legacy, lib), acks[1..], agentID, legacy, lib);
    }
  }
}
