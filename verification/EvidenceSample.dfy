/**
 The evidence verifier is not sound by refusing everything: the export of a tenant in which nothing has
 happened yet passes, whatever the hashes.
 */
module EvidenceSample {
  import opened Basics
  import opened Numerals
  import opened Json
  import opened EvidenceChain
  import Merkle

  function EmptyRecords(): Value {
    Object(map s | s in SECTIONS :: Array([]))
  }

  function EmptySection(name: string, seal: Seal): Value {
    Object(map["name" := String(name), "record_count" := Number("0"), "sha256" := String(seal(Array([])))])
  }

  function EmptyManifest(seal: Seal): Value {
    Object(map[
      "sections" := Array(seq(|SECTIONS|, i requires 0 <= i < |SECTIONS| => EmptySection(SECTIONS[i], seal))),
      "scope" := Object(map["from_seq" := Number("1"), "through_seq" := Number("0")])
    ])
  }

  /** The export of a tenant in which nothing has happened yet. */
  function EmptyBundle(seal: Seal): Value {
    Object(map[
      "format" := String(FORMAT),
      "version" := Number("1"),
      "manifest" := Object(EmptyManifest(seal).members["bundle_id" := String(seal(EmptyManifest(seal)))]),
      "records" := EmptyRecords()
    ])
  }

  lemma SmallNumbers()
    ensures IntValue("0") == Some(0) && IntValue("1") == Some(1)
  {
    IntTextReadsBack(0);
    IntTextReadsBack(1);
    assert IntText(0) == "0" && IntText(1) == "1";
  }

  lemma EmptySectionsAreGood(manifest: Value, seal: Seal)
    requires manifest.Object? && Get(manifest, "sections") == Get(EmptyManifest(seal), "sections")
    ensures HasAllSections(EmptyRecords()) && GoodSections(manifest, EmptyRecords(), seal)
  {
    RecordsOfEmpty();
    var sections := Get(manifest, "sections").items;
    forall i | 0 <= i < |SECTIONS|
      ensures sections[i].Object? && Get(sections[i], "name") == String(SECTIONS[i])
      ensures SECTIONS[i] in EmptyRecords().members && GoodSection(sections[i], SECTIONS[i], EmptyRecords(), seal)
    {
      SectionIsThere(EmptyRecords(), i);
      OneEmptySection(SECTIONS[i], seal);
    }
  }

  lemma RecordsOfEmpty()
    ensures HasAllSections(EmptyRecords())
  {
    assert forall s :: s in SECTIONS <==> s in Elems(SECTIONS);
    assert EmptyRecords().members.Keys == Elems(SECTIONS);
  }

  lemma OneEmptySection(name: string, seal: Seal)
    requires name in SECTIONS
    ensures Get(EmptySection(name, seal), "name") == String(name)
    ensures name in EmptyRecords().members && GoodSection(EmptySection(name, seal), name, EmptyRecords(), seal)
  {
    SmallNumbers();
    assert EmptyRecords().members[name] == Array([]);
  }

  lemma ManifestOfEmpty(seal: Seal)
    ensures var d := EmptyBundle(seal);
      var manifest := Get(d, "manifest");
      && d.Object? && manifest.Object? && Get(d, "records") == EmptyRecords()
      && Get(d, "format") == String(FORMAT) && Get(d, "version") == Number("1")
      && Get(manifest, "sections") == Get(EmptyManifest(seal), "sections")
      && Get(manifest, "scope") == Get(EmptyManifest(seal), "scope")
      && Get(manifest, "bundle_id") == String(seal(EmptyManifest(seal)))
      && BaseManifest(manifest) == EmptyManifest(seal)
  {
    var base := EmptyManifest(seal).members;
    var manifest := base["bundle_id" := String(seal(EmptyManifest(seal)))];
    assert "bundle_id" !in base;
    assert manifest - {"bundle_id"} == base;
  }

  lemma NothingInSection(d: Value, name: string)
    requires d.Object? && Get(d, "records") == EmptyRecords() && name in SECTIONS
    ensures Section(d, name) == Some([])
  {
  }

  lemma NothingInSections(d: Value)
    requires d.Object? && Get(d, "records") == EmptyRecords()
    ensures Section(d, "audit_hashes") == Section(d, "audit_events") == Section(d, "anchors") == Some([])
  {
    assert SECTIONS[7] == "audit_events" && SECTIONS[8] == "audit_hashes" && SECTIONS[9] == "anchors";
    NothingInSection(d, SECTIONS[7]);
    NothingInSection(d, SECTIONS[8]);
    NothingInSection(d, SECTIONS[9]);
  }

  lemma EmptyScopeIsGood(seal: Seal)
    ensures GoodScope(Get(EmptyManifest(seal), "scope"), [])
  {
    SmallNumbers();
  }

  /** The checks of verify put together, for a bundle without hashes, events and anchors. */
  lemma EmptyVerdict(d: Value, seal: Seal, H: Merkle.Hash)
    requires d.Object? && Get(d, "format") == String(FORMAT) && AsInt(Get(d, "version")) == Some(VERSION)
    requires Get(d, "manifest").Object? && Get(d, "records").Object?
    requires HasAllSections(Get(d, "records")) && GoodSections(Get(d, "manifest"), Get(d, "records"), seal)
    requires GoodBundleID(Get(d, "manifest"), seal)
    requires Section(d, "audit_hashes") == Section(d, "audit_events") == Section(d, "anchors") == Some([])
    requires GoodScope(Get(Get(d, "manifest"), "scope"), [])
    ensures Verdict(d, seal, H) == Ok(Get(Get(d, "manifest"), "bundle_id").s)
  {
  }

  /** An empty export passes, with its own bundle ID. */
  lemma EmptyBundleIsAccepted(seal: Seal, H: Merkle.Hash)
    ensures Verdict(EmptyBundle(seal), seal, H) == Ok(seal(EmptyManifest(seal)))
  {
    var d := EmptyBundle(seal);
    SmallNumbers();
    ManifestOfEmpty(seal);
    EmptySectionsAreGood(Get(d, "manifest"), seal);
    EmptyScopeIsGood(seal);
    NothingInSections(d);
    EmptyVerdict(d, seal, H);
  }
}
