/**
 What an accepted evidence artifact commits to (server/scripts/verify_evidence_bundle.py): its bundle ID to
 manifest and records, its snapshot hash to the history, its anchors to the prefix they cover.

 Binding is stated as "equal, or two different values that these artifacts seal have one digest".
 */
module EvidenceBinding {
  import opened Basics
  import opened Json
  import opened EvidenceChain
  import Merkle
  import PythonJson

  // ---------------------------------------------------------------------------------------------
  // Accepted documents
  // ---------------------------------------------------------------------------------------------

  ghost predicate Accepted(document: Value, digest: Digest, H: Merkle.Hash) {
    Printable(document) && Verdict(document, SealOf(digest), H).Ok?
  }

  /** Among these values two have different canonical texts with one digest. */
  ghost predicate Collide(digest: Digest, A: set<Value>, B: set<Value>) {
    exists a, b :: a in A && b in B && PythonJson.Dumps(a) != PythonJson.Dumps(b)
      && digest(PythonJson.Dumps(a)) == digest(PythonJson.Dumps(b))
  }

  /** Between these values, equal seals mean equal values. */
  ghost predicate Binds(seal: Seal, A: set<Value>, B: set<Value>) {
    forall a, b :: a in A && b in B && seal(a) == seal(b) ==> a == b
  }

  ghost predicate AllPrintable(values: set<Value>) {
    forall v :: v in values ==> Printable(v)
  }

  lemma SealBinds(digest: Digest, A: set<Value>, B: set<Value>)
    requires AllPrintable(A) && AllPrintable(B)
    ensures Binds(SealOf(digest), A, B) || Collide(digest, A, B)
  {
    if !Collide(digest, A, B) {
      forall a, b | a in A && b in B && SealOf(digest)(a) == SealOf(digest)(b)
        ensures a == b
      {
        PythonJson.DumpsInjective(a, b);
      }
    }
  }

  /** What the bundle ID and the sections of an artifact seal: the manifest without its ID, and each section. */
  function SealedParts(document: Value): set<Value> {
    var manifest, records := Get(document, "manifest"), Get(document, "records");
    (if manifest.Object? then {BaseManifest(manifest)} else {})
    + (if records.Object? then set k | k in records.members :: records.members[k] else {})
  }

  /** What the selected events of an artifact seal: their hashed fields. */
  function SealedEvents(document: Value): set<Value> {
    var events := Events(document);
    set i | 0 <= i < |events| && HashedFields(events[i]).Some? :: HashedFields(events[i]).value
  }

  function Hashes(document: Value): seq<Value> {
    Section(document, "audit_hashes").GetOr([])
  }

  function Events(document: Value): seq<Value> {
    Section(document, "audit_events").GetOr([])
  }

  function FromSeq(document: Value): int {
    AsInt(Get(Get(Get(document, "manifest"), "scope"), "from_seq")).GetOr(0)
  }

  lemma MemberIsPrintable(v: Value, key: string)
    requires Printable(v)
    ensures Printable(Get(v, key))
  {
  }

  lemma AcceptedParts(d: Value, seal: Seal, H: Merkle.Hash)
    requires Verdict(d, seal, H).Ok?
    ensures Get(d, "manifest").Object? && Get(d, "records").Object? && HasAllSections(Get(d, "records"))
    ensures GoodSections(Get(d, "manifest"), Get(d, "records"), seal) && GoodBundleID(Get(d, "manifest"), seal)
    ensures Verdict(d, seal, H).value == Get(Get(d, "manifest"), "bundle_id").s
    ensures GoodHashes(Hashes(d)) && GoodEvents(Events(d), FromSeq(d), Hashes(d), seal)
    ensures GoodScope(Get(Get(d, "manifest"), "scope"), Hashes(d))
  {
  }

  // ---------------------------------------------------------------------------------------------
  // The bundle ID commits to the manifest and to every record
  // ---------------------------------------------------------------------------------------------

  lemma BaseManifestIsPrintable(manifest: Value)
    requires manifest.Object? && Printable(manifest)
    ensures Printable(BaseManifest(manifest))
  {
  }

  lemma SealedPartsArePrintable(d: Value)
    requires Printable(d)
    ensures AllPrintable(SealedParts(d))
  {
    MemberIsPrintable(d, "manifest");
    MemberIsPrintable(d, "records");
    if Get(d, "manifest").Object? {
      BaseManifestIsPrintable(Get(d, "manifest"));
    }
  }

  lemma EqualManifests(m: Value, n: Value, seal: Seal, A: set<Value>, B: set<Value>)
    requires m.Object? && n.Object? && Binds(seal, A, B) && BaseManifest(m) in A && BaseManifest(n) in B
    requires GoodBundleID(m, seal) && GoodBundleID(n, seal) && Get(m, "bundle_id") == Get(n, "bundle_id")
    ensures m == n
  {
    var x, y := BaseManifest(m), BaseManifest(n);
    assert x == y;
    assert "bundle_id" in m.members && "bundle_id" in n.members;
    assert m.members == x.members["bundle_id" := m.members["bundle_id"]];
    assert n.members == y.members["bundle_id" := n.members["bundle_id"]];
  }

  lemma EqualSection(manifest: Value, r: Value, t: Value, i: nat, seal: Seal, A: set<Value>, B: set<Value>)
    requires HasAllSections(r) && HasAllSections(t) && Binds(seal, A, B)
    requires GoodSections(manifest, r, seal) && GoodSections(manifest, t, seal) && i < |SECTIONS|
    requires forall k :: k in r.members ==> r.members[k] in A
    requires forall k :: k in t.members ==> t.members[k] in B
    ensures SECTIONS[i] in r.members && SECTIONS[i] in t.members
    ensures r.members[SECTIONS[i]] == t.members[SECTIONS[i]]
  {
    SectionIsThere(r, i);
    SectionIsThere(t, i);
    var section := Get(manifest, "sections").items[i];
    assert GoodSection(section, SECTIONS[i], r, seal) && GoodSection(section, SECTIONS[i], t, seal);
  }

  lemma EqualRecords(manifest: Value, r: Value, t: Value, seal: Seal, A: set<Value>, B: set<Value>)
    requires HasAllSections(r) && HasAllSections(t) && Binds(seal, A, B)
    requires GoodSections(manifest, r, seal) && GoodSections(manifest, t, seal)
    requires forall k :: k in r.members ==> r.members[k] in A
    requires forall k :: k in t.members ==> t.members[k] in B
    ensures r == t
  {
    forall k | k in r.members
      ensures k in t.members && r.members[k] == t.members[k]
    {
      assert k in Elems(SECTIONS);
      var i :| 0 <= i < |SECTIONS| && SECTIONS[i] == k;
      EqualSection(manifest, r, t, i, seal, A, B);
    }
    assert r.members == t.members;
  }

  /**
   Two accepted artifacts with the same bundle ID hold the same manifest and the same records, or two of the
   parts they seal differ and have one digest.
   */
  lemma BundleIDCommitsToTheRecords(d: Value, e: Value, digest: Digest, H: Merkle.Hash)
    requires Accepted(d, digest, H) && Accepted(e, digest, H)
    requires Verdict(d, SealOf(digest), H) == Verdict(e, SealOf(digest), H)
    ensures (Get(d, "manifest") == Get(e, "manifest") && Get(d, "records") == Get(e, "records"))
         || Collide(digest, SealedParts(d), SealedParts(e))
  {
    var seal, A, B := SealOf(digest), SealedParts(d), SealedParts(e);
    SealedPartsArePrintable(d);
    SealedPartsArePrintable(e);
    SealBinds(digest, A, B);
    AcceptedParts(d, seal, H);
    AcceptedParts(e, seal, H);
    if Binds(seal, A, B) {
      EqualManifests(Get(d, "manifest"), Get(e, "manifest"), seal, A, B);
      EqualRecords(Get(d, "manifest"), Get(d, "records"), Get(e, "records"), seal, A, B);
    }
  }

  // ---------------------------------------------------------------------------------------------
  // The chain commits to the history
  // ---------------------------------------------------------------------------------------------

  /** Every event from from_seq to through_seq was selected. */
  ghost predicate SelectsEveryEvent(document: Value) {
    |Events(document)| == |Hashes(document)| - FromSeq(document) + 1
  }

  /** Sequence numbers of the selected events climb, so a full selection has no gap. */
  lemma {:induction false} SelectedClimb(events: seq<Value>, from: int, hashes: seq<Value>, seal: Seal, i: nat)
    requires GoodEvents(events, from, hashes, seal) && i < |events|
    ensures AsInt(Get(events[i], "seq")).Some? && from + i <= AsInt(Get(events[i], "seq")).value
  {
    assert GoodEventAt(events, i, from, hashes, seal);
    if i > 0 {
      SelectedClimb(events, from, hashes, seal, i - 1);
    }
  }

  lemma {:induction false} SelectedLeaveRoom(events: seq<Value>, from: int, hashes: seq<Value>, seal: Seal, i: nat)
    requires GoodEvents(events, from, hashes, seal) && i < |events|
    ensures AsInt(Get(events[i], "seq")).Some? && AsInt(Get(events[i], "seq")).value <= |hashes| - (|events| - 1 - i)
    decreases |events| - i
  {
    assert GoodEventAt(events, i, from, hashes, seal);
    if i < |events| - 1 {
      SelectedLeaveRoom(events, from, hashes, seal, i + 1);
      assert GoodEventAt(events, i + 1, from, hashes, seal);
    }
  }

  lemma FullSelectionNumbers(events: seq<Value>, from: int, hashes: seq<Value>, seal: Seal, i: nat)
    requires GoodEvents(events, from, hashes, seal) && |events| == |hashes| - from + 1 && i < |events|
    ensures AsInt(Get(events[i], "seq")) == Some(from + i)
    ensures SelectedBefore(events, i, from) == from + i - 1
  {
    SelectedClimb(events, from, hashes, seal, i);
    SelectedLeaveRoom(events, from, hashes, seal, i);
    if i > 0 {
      SelectedClimb(events, from, hashes, seal, i - 1);
      SelectedLeaveRoom(events, from, hashes, seal, i - 1);
    }
  }

  lemma FullSelection(events: seq<Value>, from: int, hashes: seq<Value>, seal: Seal, i: nat)
    requires GoodEvents(events, from, hashes, seal) && |events| == |hashes| - from + 1 && i < |events|
    ensures AsInt(Get(events[i], "seq")) == Some(from + i)
    ensures GoodEvent(events[i], from + i - 1, from, hashes, seal)
  {
    FullSelectionNumbers(events, from, hashes, seal, i);
    assert GoodEventAt(events, i, from, hashes, seal);
  }

  lemma HashedFieldsArePrintable(event: Value)
    requires Printable(event) && HashedFields(event).Some?
    ensures Printable(HashedFields(event).value)
  {
  }

  lemma HashedFieldsName(event: Value)
    requires HashedFields(event).Some?
    ensures HashedFields(event).value.Object? && "prev_hash" in HashedFields(event).value.members
    ensures HashedFields(event).value.members["prev_hash"] == Get(event, "prev_hash")
  {
  }

  lemma EventsArePrintable(d: Value, i: nat)
    requires Printable(d) && i < |Events(d)|
    ensures Printable(Events(d)[i])
  {
    MemberIsPrintable(d, "records");
    MemberIsPrintable(Get(d, "records"), "audit_events");
  }

  lemma EqualFields(a: Value, b: Value, seal: Seal, A: set<Value>, B: set<Value>)
    requires HashedFields(a).Some? && HashedFields(b).Some? && Binds(seal, A, B)
    requires HashedFields(a).value in A && HashedFields(b).value in B
    requires seal(HashedFields(a).value) == seal(HashedFields(b).value)
    ensures HashedFields(a) == HashedFields(b) && Get(a, "prev_hash") == Get(b, "prev_hash")
  {
    HashedFieldsName(a);
    HashedFieldsName(b);
  }

  lemma GoodEventFacts(a: Value, s: int, from: int, h: seq<Value>, seal: Seal)
    requires GoodEvent(a, s - 1, from, h, seal) && AsInt(Get(a, "seq")) == Some(s)
    ensures 1 <= s <= |h| && HashedFields(a).Some? && String(seal(HashedFields(a).value)) == HashAt(h, s)
    ensures Get(a, "prev_hash") == (if s == 1 then String(GENESIS) else HashAt(h, s - 1))
  {
  }

  /** One link backwards: equal hashes at s give equal events at s and equal hashes at s - 1. */
  lemma LinkBack(a: Value, b: Value, s: int, from: int, h: seq<Value>, k: seq<Value>, seal: Seal, A: set<Value>,
        B: set<Value>)
    requires GoodEvent(a, s - 1, from, h, seal) && GoodEvent(b, s - 1, from, k, seal)
    requires AsInt(Get(a, "seq")) == Some(s) == AsInt(Get(b, "seq"))
    requires 1 <= s <= |h| == |k| && HashAt(h, s) == HashAt(k, s)
    requires Binds(seal, A, B) && HashedFields(a).value in A && HashedFields(b).value in B
    ensures HashedFields(a) == HashedFields(b) && HashedFields(a).Some?
    ensures s > 1 ==> HashAt(h, s - 1) == HashAt(k, s - 1)
  {
    GoodEventFacts(a, s, from, h, seal);
    GoodEventFacts(b, s, from, k, seal);
    EqualFields(a, b, seal, A, B);
  }

  /** The histories as (hashes, events) pairs agree from sequence number `s` on. */
  ghost predicate AgreeFrom(h: seq<Value>, x: seq<Value>, k: seq<Value>, y: seq<Value>, from: int, s: int)
    requires |h| == |k| && |x| == |y|
  {
    && (forall i {:trigger x[i]} {:trigger y[i]} :: 0 <= i < |x| && from + i >= s ==>
          HashedFields(x[i]) == HashedFields(y[i]) && HashedFields(x[i]).Some?)
    && (forall i :: 1 <= i <= |h| && i >= s - 1 ==> HashAt(h, i) == HashAt(k, i))
  }

  /** The hashed fields of these events are among these values. */
  ghost predicate SealedIn(x: seq<Value>, A: set<Value>) {
    forall i :: 0 <= i < |x| && HashedFields(x[i]).Some? ==> HashedFields(x[i]).value in A
  }

  lemma SelectedAgree(h: seq<Value>, x: seq<Value>, k: seq<Value>, y: seq<Value>, from: int, s: int, seal: Seal,
        A: set<Value>, B: set<Value>)
    requires GoodEvents(x, from, h, seal) && GoodEvents(y, from, k, seal)
    requires Binds(seal, A, B) && SealedIn(x, A) && SealedIn(y, B)
    requires |h| == |k| >= 1 && |x| == |y| == |h| - from + 1 && from <= s <= |h|
    requires 1 <= s ==> HashAt(h, s) == HashAt(k, s)
    ensures 1 <= s && HashedFields(x[s - from]) == HashedFields(y[s - from]) && HashedFields(x[s - from]).Some?
    ensures s > 1 ==> HashAt(h, s - 1) == HashAt(k, s - 1)
  {
    var i := s - from;
    FullSelection(x, from, h, seal, i);
    FullSelection(y, from, k, seal, i);
    var a, b := x[i], y[i];
    GoodEventFacts(a, s, from, h, seal);
    GoodEventFacts(b, s, from, k, seal);
    assert HashedFields(a).value in A && HashedFields(b).value in B;
    LinkBack(a, b, s, from, h, k, seal, A, B);
  }

  lemma HistoryStep(h: seq<Value>, x: seq<Value>, k: seq<Value>, y: seq<Value>, from: int, s: int, seal: Seal,
        A: set<Value>, B: set<Value>)
    requires GoodEvents(x, from, h, seal) && GoodEvents(y, from, k, seal)
    requires Binds(seal, A, B) && SealedIn(x, A) && SealedIn(y, B)
    requires |h| == |k| >= 1 && |x| == |y| == |h| - from + 1 && from <= s <= |h|
    requires AgreeFrom(h, x, k, y, from, s + 1)
    ensures AgreeFrom(h, x, k, y, from, s)
  {
    SelectedAgree(h, x, k, y, from, s, seal, A, B);
  }

  lemma {:induction false} HistoryAgrees(h: seq<Value>, x: seq<Value>, k: seq<Value>, y: seq<Value>, from: int,
        s: int, seal: Seal, A: set<Value>, B: set<Value>)
    requires GoodEvents(x, from, h, seal) && GoodEvents(y, from, k, seal)
    requires Binds(seal, A, B) && SealedIn(x, A) && SealedIn(y, B)
    requires |h| == |k| >= 1 && |x| == |y| == |h| - from + 1 && from <= s <= |h| + 1
    requires HashAt(h, |h|) == HashAt(k, |k|)
    ensures AgreeFrom(h, x, k, y, from, s)
    decreases |h| + 1 - s
  {
    if s <= |h| {
      HistoryAgrees(h, x, k, y, from, s + 1, seal, A, B);
      HistoryStep(h, x, k, y, from, s, seal, A, B);
    }
  }

  lemma SealedEventsArePrintable(d: Value)
    requires Printable(d)
    ensures AllPrintable(SealedEvents(d)) && SealedIn(Events(d), SealedEvents(d))
  {
    var events := Events(d);
    forall i | 0 <= i < |events| && HashedFields(events[i]).Some?
      ensures Printable(HashedFields(events[i]).value)
    {
      EventsArePrintable(d, i);
      HashedFieldsArePrintable(events[i]);
    }
  }

  /**
   Two accepted artifacts that end in the same snapshot hash and select every event of the same range
   agree on every hashed field of every event, and on every audit hash from from_seq - 1 on; or the hashed
   fields of two of their events differ and have one digest.
   */
  lemma SnapshotBindsTheHistory(d: Value, e: Value, digest: Digest, H: Merkle.Hash)
    requires Accepted(d, digest, H) && Accepted(e, digest, H)
    requires SelectsEveryEvent(d) && SelectsEveryEvent(e)
    requires |Hashes(d)| == |Hashes(e)| >= 1 && FromSeq(d) == FromSeq(e) <= |Hashes(d)| + 1
    requires Get(Get(Get(d, "manifest"), "scope"), "snapshot_event_hash")
          == Get(Get(Get(e, "manifest"), "scope"), "snapshot_event_hash")
    ensures AgreeFrom(Hashes(d), Events(d), Hashes(e), Events(e), FromSeq(d), FromSeq(d))
         || Collide(digest, SealedEvents(d), SealedEvents(e))
  {
    var seal, A, B := SealOf(digest), SealedEvents(d), SealedEvents(e);
    SealedEventsArePrintable(d);
    SealedEventsArePrintable(e);
    SealBinds(digest, A, B);
    AcceptedParts(d, seal, H);
    AcceptedParts(e, seal, H);
    if Binds(seal, A, B) {
      HistoryAgrees(Hashes(d), Events(d), Hashes(e), Events(e), FromSeq(d), FromSeq(d), seal, A, B);
    }
  }

  // ---------------------------------------------------------------------------------------------
  // An anchor commits to the prefix it covers
  // ---------------------------------------------------------------------------------------------

  ghost predicate SameHashBytes(h: seq<Value>, k: seq<Value>, count: int)
    requires GoodHashes(h) && GoodHashes(k) && count <= |h| && count <= |k|
  {
    forall i :: 0 <= i < count ==>
      Merkle.FromHex(HashTexts(h)[i]) == Merkle.FromHex(HashTexts(k)[i])
  }

  /** The leaves of the anchor over the first `count` audit hashes. */
  function Covered(hashes: seq<Value>, count: nat): (r: seq<Bytes>)
    requires GoodHashes(hashes) && count <= |hashes|
    ensures |r| == count
  {
    PrefixIsGood(hashes, count);
    CoveredAreHex(hashes, count);
    Merkle.Leaves(HashTexts(hashes[..count]))
  }

  lemma CoveredAreHex(hashes: seq<Value>, count: nat)
    requires GoodHashes(hashes) && count <= |hashes|
    ensures GoodHashes(hashes[..count]) && Merkle.AllHex(HashTexts(hashes[..count]))
  {
    PrefixIsGood(hashes, count);
    var prefix := hashes[..count];
    forall i | 0 <= i < count
      ensures Merkle.FromHex(HashTexts(prefix)[i]).Some?
    {
      assert GoodHashItem(prefix[i], i + 1);
      assert String(HashTexts(prefix)[i]) == HashAt(prefix, i + 1);
    }
  }

  /**
   Two accepted artifacts with anchors of the same count and root: the audit hashes the anchors cover are
   the same bytes, provided one side's are full 32-byte digests; or their two trees exhibit a collision.
   */
  lemma AnchorBindsThePrefix(h: seq<Value>, k: seq<Value>, a: Value, b: Value, H: Merkle.Hash)
    requires GoodHashes(h) && GoodHashes(k) && AnchorCovers(a, h, H) && AnchorCovers(b, k, H) && Merkle.Is32(H)
    requires AsInt(Get(a, "event_count")) == AsInt(Get(b, "event_count"))
    requires Get(a, "merkle_root") == Get(b, "merkle_root")
    requires Merkle.AllHex(HashTexts(h)) && Merkle.AllOfLength32(Merkle.Leaves(HashTexts(h)))
    ensures SameHashBytes(h, k, AsInt(Get(a, "event_count")).value)
         || Merkle.Collide(H, Covered(h, AsInt(Get(a, "event_count")).value), Covered(k, AsInt(Get(a, "event_count")).value))
  {
    var count := AsInt(Get(a, "event_count")).value;
    PrefixIsGood(h, count);
    PrefixIsGood(k, count);
    var xs, ys := HashTexts(h[..count]), HashTexts(k[..count]);
    forall i | 0 <= i < count
      ensures |xs[i]| == 64 && |ys[i]| == 64 && xs[i] == HashTexts(h)[i] && ys[i] == HashTexts(k)[i]
    {
      assert GoodHashItem(h[i], i + 1) && GoodHashItem(k[i], i + 1);
      assert String(xs[i]) == HashAt(h[..count], i + 1) == HashAt(h, i + 1);
      assert String(ys[i]) == HashAt(k[..count], i + 1) == HashAt(k, i + 1);
    }
    Merkle.EqualRootsEqualLeaves(H, xs, ys);
    if Merkle.Leaves(xs) == Merkle.Leaves(ys) {
      forall i | 0 <= i < count
        ensures Merkle.FromHex(HashTexts(h)[i]) == Merkle.FromHex(HashTexts(k)[i])
      {
        assert Merkle.Leaves(xs)[i] == Merkle.Leaves(ys)[i];
      }
    }
  }
}
