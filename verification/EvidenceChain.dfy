/**
 The clean-room evidence verifier (server/scripts/verify_evidence_bundle.py, verify and event_hash).

 A document is the value json.loads returns; its numbers are integers (floats are left out).
 `digest` stands for the hexadecimal SHA-256 of the UTF-8 text, `seal` for the digest of the canonical
 text, `H` for SHA-256 on bytes.
 */
module EvidenceChain {
  import opened Basics
  import opened Numerals
  import opened Json
  import PythonJson
  import Merkle

  type Digest = string -> string

  type Seal = Value -> string

  const FORMAT: string := "nodelink-evidence-bundle"
  const VERSION: int := 1
  const SECTIONS: seq<string> := [
    "tenant", "actors", "sites", "endpoints", "policies", "signed_actions", "results",
    "audit_events", "audit_hashes", "anchors", "verification_keys"]
  const GENESIS: string := "0000000000000000000000000000000000000000000000000000000000000000"

  datatype Failure =
    | BadFormat | MissingParts | BadSections | BadBundleID | BadHashes | BadScope | BadEvents | BadAnchors

  // ---------------------------------------------------------------------------------------------
  // Python values
  // ---------------------------------------------------------------------------------------------

  /** dict.get; other values have no such method and are rejected before. */
  function Get(v: Value, key: string): Value {
    if v.Object? && key in v.members then v.members[key] else Null
  }

  /** An int; bool is a subclass of int in Python. */
  function AsInt(v: Value): Option<int> {
    match v
    case Number(literal) => IntValue(literal)
    case Bool(b) => Some(if b then 1 else 0)
    case _ => None
  }

  function Size(v: Value): Option<nat> {
    match v
    case Array(items) => Some(|items|)
    case Object(members) => Some(|members|)
    case String(s) => Some(|s|)
    case _ => None
  }

  /** Iteration over records: a non-empty dict or string yields strings, on which `.get` fails. */
  function Records(v: Value): Option<seq<Value>> {
    match v
    case Array(items) => Some(items)
    case Object(members) => if members == map[] then Some([]) else None
    case String(s) => if s == "" then Some([]) else None
    case _ => None
  }

  /** digest(canonical(value)). */
  function SealOf(digest: Digest): Seal {
    v => digest(PythonJson.Dumps(v))
  }

  // ---------------------------------------------------------------------------------------------
  // What verify checks, part by part
  // ---------------------------------------------------------------------------------------------

  predicate GoodSection(section: Value, name: string, records: Value, seal: Seal)
    requires records.Object? && name in records.members
  {
    && section.Object?
    && Size(records.members[name]).Some?
    && AsInt(Get(section, "record_count")) == Some(Size(records.members[name]).value)
    && Get(section, "sha256") == String(seal(records.members[name]))
  }

  predicate NamedSections(sections: seq<Value>) {
    && |sections| == |SECTIONS|
    && forall i :: 0 <= i < |sections| ==> sections[i].Object? && Get(sections[i], "name") == String(SECTIONS[i])
  }

  predicate HasAllSections(records: Value) {
    records.Object? && records.members.Keys == Elems(SECTIONS)
  }

  lemma SectionIsThere(records: Value, i: nat)
    requires HasAllSections(records) && i < |SECTIONS|
    ensures SECTIONS[i] in records.members
  {
    assert SECTIONS[i] in Elems(SECTIONS);
  }

  predicate GoodSections(manifest: Value, records: Value, seal: Seal)
    requires HasAllSections(records)
  {
    var sections := Get(manifest, "sections");
    && sections.Array? && NamedSections(sections.items)
    && forall i :: 0 <= i < |SECTIONS| ==>
         (SectionIsThere(records, i); GoodSection(sections.items[i], SECTIONS[i], records, seal))
  }

  function BaseManifest(manifest: Value): Value
    requires manifest.Object?
  {
    Object(manifest.members - {"bundle_id"})
  }

  predicate GoodBundleID(manifest: Value, seal: Seal)
    requires manifest.Object?
  {
    Get(manifest, "bundle_id") == String(seal(BaseManifest(manifest)))
  }

  predicate GoodHashItem(item: Value, seq_no: int) {
    && AsInt(Get(item, "seq")) == Some(seq_no)
    && var value := Get(item, "event_hash");
    && value.String? && |value.s| == 64 && Merkle.FromHex(value.s).Some?
    && Get(item, "event_id").String? && Get(item, "event_id").s != ""
  }

  predicate GoodHashes(hashes: seq<Value>) {
    forall i :: 0 <= i < |hashes| ==> GoodHashItem(hashes[i], i + 1)
  }

  /** The audit hash with sequence number `s`. */
  function HashAt(hashes: seq<Value>, s: int): Value
    requires 1 <= s <= |hashes|
  {
    Get(hashes[s - 1], "event_hash")
  }

  predicate GoodScope(scope: Value, hashes: seq<Value>) {
    && scope.Object?
    && AsInt(Get(scope, "from_seq")).Some?
    && AsInt(Get(scope, "through_seq")) == Some(|hashes|)
    && if |hashes| == 0 then Get(scope, "snapshot_event_hash").Null? && Get(scope, "snapshot_at").Null?
       else Get(scope, "snapshot_event_hash") == HashAt(hashes, |hashes|)
  }

  /** The fields of an event that event_hash covers, or None where Python raises. */
  function HashedFields(event: Value): Option<Value> {
    if !event.Object?
      || !({"prev_hash", "ts_iso", "actor", "action", "detail", "hash_schema"} <= event.members.Keys)
      || AsInt(event.members["hash_schema"]).None?
    then None
    else
      var base := map[
        "prev_hash" := event.members["prev_hash"],
        "ts" := event.members["ts_iso"],
        "actor" := event.members["actor"],
        "action" := event.members["action"],
        "agent_id" := Get(event, "agent_id"),
        "detail" := event.members["detail"]
      ];
      if AsInt(event.members["hash_schema"]).value < 2 then Some(Object(base))
      else if "seq" !in event.members then None
      else Some(Object(base["seq" := event.members["seq"]]))
  }

  predicate GoodEvent(event: Value, after: int, from: int, hashes: seq<Value>, seal: Seal) {
    && event.Object?
    && AsInt(Get(event, "seq")).Some?
    && var s := AsInt(Get(event, "seq")).value;
    && from <= s <= |hashes| && after < s && 1 <= s
    && HashAt(hashes, s) == Get(event, "event_hash")
    && Get(hashes[s - 1], "event_id") == Get(event, "event_id")
    && Get(event, "prev_hash") == (if s == 1 then String(GENESIS) else HashAt(hashes, s - 1))
    && HashedFields(event).Some?
    && String(seal(HashedFields(event).value)) == Get(event, "event_hash")
  }

  /** previous_selected_seq when event i is looked at. */
  function SelectedBefore(events: seq<Value>, i: nat, from: int): int
    requires i <= |events|
  {
    if i == 0 then from - 1
    else
      match AsInt(Get(events[i - 1], "seq"))
      case Some(s) => s
      case None => from - 1
  }

  predicate GoodEventAt(events: seq<Value>, i: nat, from: int, hashes: seq<Value>, seal: Seal)
    requires i < |events|
  {
    GoodEvent(events[i], SelectedBefore(events, i, from), from, hashes, seal)
  }

  predicate GoodEvents(events: seq<Value>, from: int, hashes: seq<Value>, seal: Seal) {
    forall i :: 0 <= i < |events| ==> GoodEventAt(events, i, from, hashes, seal)
  }

  function HashTexts(hashes: seq<Value>): (r: seq<string>)
    requires GoodHashes(hashes)
    ensures |r| == |hashes| && forall i :: 0 <= i < |r| ==> String(r[i]) == HashAt(hashes, i + 1)
  {
    seq(|hashes|, i requires 0 <= i < |hashes| =>
      assert GoodHashItem(hashes[i], i + 1);
      Get(hashes[i], "event_hash").s)
  }

  lemma PrefixIsGood(hashes: seq<Value>, count: nat)
    requires GoodHashes(hashes) && count <= |hashes|
    ensures GoodHashes(hashes[..count])
  {
  }

  predicate GoodPublication(publication: Value, seal: Seal) {
    && publication.Object?
    && (Get(publication, "receipt").Null? ||
        Get(publication, "receipt_sha256") == String(seal(Get(publication, "receipt"))))
  }

  predicate GoodPublications(publications: seq<Value>, seal: Seal) {
    forall i :: 0 <= i < |publications| ==> GoodPublication(publications[i], seal)
  }

  predicate AnchorCovers(anchor: Value, hashes: seq<Value>, H: Merkle.Hash)
    requires GoodHashes(hashes)
  {
    && anchor.Object?
    && AsInt(Get(anchor, "event_count")).Some?
    && var count := AsInt(Get(anchor, "event_count")).value;
    && 1 <= count <= |hashes|
    && Get(hashes[count - 1], "event_id") == Get(anchor, "last_event_id")
    && (PrefixIsGood(hashes, count);
        var root := Merkle.MerkleRootOf(H, HashTexts(hashes[..count]));
        root.Ok? && Get(anchor, "merkle_root") == String(root.value))
  }

  predicate GoodAnchor(anchor: Value, hashes: seq<Value>, seal: Seal, H: Merkle.Hash)
    requires GoodHashes(hashes)
  {
    && AnchorCovers(anchor, hashes, H)
    && var publications := if "publications" in anchor.members then Records(anchor.members["publications"]) else Some([]);
    && publications.Some? && GoodPublications(publications.value, seal)
  }

  predicate GoodAnchors(anchors: seq<Value>, hashes: seq<Value>, seal: Seal, H: Merkle.Hash)
    requires GoodHashes(hashes)
  {
    forall i :: 0 <= i < |anchors| ==> GoodAnchor(anchors[i], hashes, seal, H)
  }

  /** The records of a section, when they can be iterated. */
  function Section(document: Value, name: string): Option<seq<Value>> {
    Records(Get(Get(document, "records"), name))
  }

  /** verify: the bundle ID, or the first part that fails. */
  function Verdict(document: Value, seal: Seal, H: Merkle.Hash): Result<string, Failure> {
    var manifest, records := Get(document, "manifest"), Get(document, "records");
    if !document.Object? || Get(document, "format") != String(FORMAT) || AsInt(Get(document, "version")) != Some(VERSION)
    then Err(BadFormat)
    else if !manifest.Object? || !records.Object? then Err(MissingParts)
    else if !HasAllSections(records) || !GoodSections(manifest, records, seal) then Err(BadSections)
    else if !GoodBundleID(manifest, seal) then Err(BadBundleID)
    else
      var hashes := Section(document, "audit_hashes");
      var events, anchors := Section(document, "audit_events"), Section(document, "anchors");
      var scope := Get(manifest, "scope");
      if hashes.None? || !GoodHashes(hashes.value) then Err(BadHashes)
      else if !GoodScope(scope, hashes.value) then Err(BadScope)
      else if events.None? || !GoodEvents(events.value, AsInt(Get(scope, "from_seq")).value, hashes.value, seal)
      then Err(BadEvents)
      else if anchors.None? || !GoodAnchors(anchors.value, hashes.value, seal, H) then Err(BadAnchors)
      else Ok(Get(manifest, "bundle_id").s)
  }

  // ---------------------------------------------------------------------------------------------
  // The loops of verify
  // ---------------------------------------------------------------------------------------------

  method CheckSections(manifest: Value, records: Value, seal: Seal) returns (ok: bool)
    requires HasAllSections(records)
    ensures ok == GoodSections(manifest, records, seal)
  {
    var sections := Get(manifest, "sections");
    if !sections.Array? || !NamedSections(sections.items) {
      return false;
    }
    for i := 0 to |SECTIONS|
      invariant forall j :: 0 <= j < i ==>
        (SectionIsThere(records, j); GoodSection(sections.items[j], SECTIONS[j], records, seal))
    {
      SectionIsThere(records, i);
      if !GoodSection(sections.items[i], SECTIONS[i], records, seal) {
        return false;
      }
    }
    ok := true;
  }

  ghost predicate Indexes(bySeq: map<int, Value>, hashes: seq<Value>) {
    && (forall s :: s in bySeq <==> 1 <= s <= |hashes|)
    && forall s :: 1 <= s <= |hashes| ==> bySeq[s] == hashes[s - 1]
  }

  lemma IndexOneMore(bySeq: map<int, Value>, hashes: seq<Value>, i: nat)
    requires i < |hashes| && Indexes(bySeq, hashes[..i])
    ensures Indexes(bySeq[i + 1 := hashes[i]], hashes[..i + 1])
  {
    assert hashes[..i + 1][..i] == hashes[..i];
  }

  /** Builds the dictionary from sequence numbers to audit hashes while checking it. */
  method IndexHashes(hashes: seq<Value>) returns (ok: bool, bySeq: map<int, Value>)
    ensures ok == GoodHashes(hashes)
    ensures ok ==> Indexes(bySeq, hashes)
  {
    bySeq := map[];
    for i := 0 to |hashes|
      invariant forall j :: 0 <= j < i ==> GoodHashItem(hashes[j], j + 1)
      invariant Indexes(bySeq, hashes[..i])
    {
      var good := GoodHashItem(hashes[i], i + 1);
      if !good {
        return false, bySeq;
      }
      IndexOneMore(bySeq, hashes, i);
      bySeq := bySeq[i + 1 := hashes[i]];
    }
    assert hashes[..|hashes|] == hashes;
    ok := true;
  }

  /** One turn of the loop over the selected events. */
  method CheckEvent(event: Value, previousSelected: int, from: int, hashes: seq<Value>, bySeq: map<int, Value>,
        seal: Seal)
    returns (ok: bool, selected: int)
    requires Indexes(bySeq, hashes)
    ensures ok == GoodEvent(event, previousSelected, from, hashes, seal)
    ensures ok ==> AsInt(Get(event, "seq")) == Some(selected)
  {
    selected := previousSelected;
    var s := AsInt(Get(event, "seq"));
    if !event.Object? || s.None? || !(from <= s.value <= |hashes|) || s.value <= previousSelected {
      return false, selected;
    }
    selected := s.value;
    if selected !in bySeq
      || Get(bySeq[selected], "event_hash") != Get(event, "event_hash")
      || Get(bySeq[selected], "event_id") != Get(event, "event_id")
    {
      return false, selected;
    }
    var previous := if selected == 1 then String(GENESIS) else Get(bySeq[selected - 1], "event_hash");
    if Get(event, "prev_hash") != previous {
      return false, selected;
    }
    var fields := HashedFields(event);
    ok := fields.Some? && String(seal(fields.value)) == Get(event, "event_hash");
  }

  /** The first n selected events are good. */
  predicate GoodPrefix(events: seq<Value>, n: nat, from: int, hashes: seq<Value>, seal: Seal)
    requires n <= |events|
  {
    n == 0 || (GoodPrefix(events, n - 1, from, hashes, seal) && GoodEventAt(events, n - 1, from, hashes, seal))
  }

  lemma {:induction false} GoodPrefixIsGood(events: seq<Value>, n: nat, from: int, hashes: seq<Value>, seal: Seal)
    requires n <= |events| && GoodPrefix(events, n, from, hashes, seal)
    ensures forall i :: 0 <= i < n ==> GoodEventAt(events, i, from, hashes, seal)
  {
    if n > 0 {
      GoodPrefixIsGood(events, n - 1, from, hashes, seal);
    }
  }

  method CheckEvents(events: seq<Value>, from: int, hashes: seq<Value>, bySeq: map<int, Value>, seal: Seal)
    returns (ok: bool)
    requires Indexes(bySeq, hashes)
    ensures ok == GoodEvents(events, from, hashes, seal)
  {
    var previousSelected := from - 1;
    for i := 0 to |events|
      invariant GoodPrefix(events, i, from, hashes, seal)
      invariant previousSelected == SelectedBefore(events, i, from)
    {
      ok, previousSelected := CheckEvent(events[i], previousSelected, from, hashes, bySeq, seal);
      assert ok == GoodEventAt(events, i, from, hashes, seal);
      if !ok {
        return false;
      }
    }
    GoodPrefixIsGood(events, |events|, from, hashes, seal);
    ok := true;
  }

  /** One turn of the loop over the anchors. */
  method CheckAnchor(anchor: Value, hashes: seq<Value>, seal: Seal, H: Merkle.Hash) returns (ok: bool)
    requires GoodHashes(hashes)
    ensures ok == GoodAnchor(anchor, hashes, seal, H)
  {
    var count := AsInt(Get(anchor, "event_count"));
    if !anchor.Object? || count.None? || !(1 <= count.value <= |hashes|) {
      return false;
    }
    if Get(hashes[count.value - 1], "event_id") != Get(anchor, "last_event_id") {
      return false;
    }
    PrefixIsGood(hashes, count.value);
    var root := Merkle.MerkleRoot(H, HashTexts(hashes[..count.value]));
    if root.Err? || Get(anchor, "merkle_root") != String(root.value) {
      return false;
    }
    var publications := if "publications" in anchor.members then Records(anchor.members["publications"]) else Some([]);
    if publications.None? {
      return false;
    }
    ok := CheckPublications(publications.value, seal);
  }

  method CheckAnchors(anchors: seq<Value>, hashes: seq<Value>, seal: Seal, H: Merkle.Hash) returns (ok: bool)
    requires GoodHashes(hashes)
    ensures ok == GoodAnchors(anchors, hashes, seal, H)
  {
    for i := 0 to |anchors|
      invariant forall j :: 0 <= j < i ==> GoodAnchor(anchors[j], hashes, seal, H)
    {
      ok := CheckAnchor(anchors[i], hashes, seal, H);
      if !ok {
        return false;
      }
    }
    ok := true;
  }

  method CheckPublications(publications: seq<Value>, seal: Seal) returns (ok: bool)
    ensures ok == GoodPublications(publications, seal)
  {
    for i := 0 to |publications|
      invariant forall j :: 0 <= j < i ==> GoodPublication(publications[j], seal)
    {
      if !GoodPublication(publications[i], seal) {
        return false;
      }
    }
    ok := true;
  }

  method Verify(document: Value, seal: Seal, H: Merkle.Hash) returns (r: Result<string, Failure>)
    ensures r == Verdict(document, seal, H)
  {
    if !document.Object? || Get(document, "format") != String(FORMAT) || AsInt(Get(document, "version")) != Some(VERSION) {
      return Err(BadFormat);
    }
    var manifest, records := Get(document, "manifest"), Get(document, "records");
    if !manifest.Object? || !records.Object? {
      return Err(MissingParts);
    }
    if !HasAllSections(records) {
      return Err(BadSections);
    }
    var ok := CheckSections(manifest, records, seal);
    if !ok {
      return Err(BadSections);
    }
    if !GoodBundleID(manifest, seal) {
      return Err(BadBundleID);
    }
    var hashes := Section(document, "audit_hashes");
    if hashes.None? {
      return Err(BadHashes);
    }
    var bySeq;
    ok, bySeq := IndexHashes(hashes.value);
    if !ok {
      return Err(BadHashes);
    }
    var scope := Get(manifest, "scope");
    if !GoodScope(scope, hashes.value) {
      return Err(BadScope);
    }
    var events := Section(document, "audit_events");
    if events.None? {
      return Err(BadEvents);
    }
    ok := CheckEvents(events.value, AsInt(Get(scope, "from_seq")).value, hashes.value, bySeq, seal);
    if !ok {
      return Err(BadEvents);
    }
    var anchors := Section(document, "anchors");
    if anchors.None? {
      return Err(BadAnchors);
    }
    ok := CheckAnchors(anchors.value, hashes.value, seal, H);
    if !ok {
      return Err(BadAnchors);
    }
    r := Ok(Get(manifest, "bundle_id").s);
  }
}
