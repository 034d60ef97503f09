/**
 The CSV form of an evidence bundle (server/scripts/verify_evidence_bundle.py, serialize_csv and
 parse_csv), with the digest as a parameter.
 */
module EvidenceCsv {
  import opened Basics
  import opened Numerals
  import opened Json
  import opened PythonJson
  import opened EvidenceChain
  import Csv

  type Sections = map<string, seq<Value>>

  const HEADER: seq<string> := ["section", "ordinal", "record_sha256", "record_json"]
  const MANIFEST: string := "manifest"

  datatype CsvError =
    | BadHeader | MalformedRow | DigestMismatch | NotCanonicalJson | BadManifestRow | UnknownSection
    | OrdinalsNotContiguous | NoManifest | NotCanonicalText

  // ---------------------------------------------------------------------------------------------
  // serialize_csv
  // ---------------------------------------------------------------------------------------------

  function Row(section: string, ordinal: int, record: Value, digest: Digest): seq<string> {
    [section, IntText(ordinal), digest(Dumps(record)), Dumps(record)]
  }

  /** The rows of one section from record `i` on. */
  function SectionRows(section: string, records: seq<Value>, i: nat, digest: Digest): (rows: seq<seq<string>>)
    requires i <= |records|
    ensures |rows| == |records| - i
    decreases |records| - i
  {
    if i == |records| then []
    else [Row(section, i + 1, records[i], digest)] + SectionRows(section, records, i + 1, digest)
  }

  ghost predicate HasSections(records: Sections) {
    records.Keys == Elems(SECTIONS)
  }

  /** The rows of the named sections. */
  function AllSectionRows(names: seq<string>, records: Sections, digest: Digest): seq<seq<string>>
    requires forall s :: s in names ==> s in records
  {
    if names == [] then []
    else SectionRows(names[0], records[names[0]], 0, digest) + AllSectionRows(names[1..], records, digest)
  }

  lemma KnownSections(records: Sections)
    requires HasSections(records)
    ensures forall s :: s in SECTIONS <==> s in records
  {
    assert forall s :: s in SECTIONS <==> s in Elems(SECTIONS);
  }

  function AllRows(manifest: Value, records: Sections, digest: Digest): seq<seq<string>>
    requires HasSections(records)
  {
    KnownSections(records);
    [HEADER, Row(MANIFEST, 0, manifest, digest)] + AllSectionRows(SECTIONS, records, digest)
  }

  function CsvText(manifest: Value, records: Sections, digest: Digest): string
    requires HasSections(records)
  {
    Csv.RowsText(AllRows(manifest, records, digest))
  }

  method WriteSection(section: string, records: seq<Value>, digest: Digest, ghost before: seq<seq<string>>,
        text: string)
    returns (r: string)
    requires text == Csv.RowsText(before)
    ensures r == Csv.RowsText(before + SectionRows(section, records, 0, digest))
  {
    r := text;
    ghost var written := before;
    for i := 0 to |records|
      invariant r == Csv.RowsText(written)
      invariant before + SectionRows(section, records, 0, digest) == written + SectionRows(section, records, i, digest)
    {
      var row := Row(section, i + 1, records[i], digest);
      Csv.RowsTextSnoc(written, row);
      Assoc(written, [row], SectionRows(section, records, i + 1, digest));
      r := r + Csv.RowText(row);
      written := written + [row];
    }
    assert written + [] == written;
  }

  lemma StartOfText(manifestRow: seq<string>)
    ensures Csv.RowsText([HEADER, manifestRow]) == Csv.RowText(HEADER) + Csv.RowText(manifestRow)
  {
    Csv.RowsTextOfOne(HEADER);
    Csv.RowsTextSnoc([HEADER], manifestRow);
    assert [HEADER] + [manifestRow] == [HEADER, manifestRow];
  }

  /** The loop over the sections. */
  method WriteSections(names: seq<string>, records: Sections, digest: Digest, ghost before: seq<seq<string>>,
        text: string)
    returns (r: string)
    requires (forall s :: s in names ==> s in records) && text == Csv.RowsText(before)
    ensures r == Csv.RowsText(before + AllSectionRows(names, records, digest))
  {
    r := text;
    ghost var written := before;
    for i := 0 to |names|
      invariant r == Csv.RowsText(written)
      invariant before + AllSectionRows(names, records, digest) == written + AllSectionRows(names[i..], records, digest)
    {
      ghost var rows, rest := SectionRows(names[i], records[names[i]], 0, digest), AllSectionRows(names[i + 1..], records, digest);
      assert names[i..][0] == names[i] && names[i..][1..] == names[i + 1..];
      r := WriteSection(names[i], records[names[i]], digest, written, r);
      Assoc(written, rows, rest);
      written := written + rows;
    }
    assert written + [] == written;
  }

  /** serialize_csv. */
  method SerializeCsv(manifest: Value, records: Sections, digest: Digest) returns (text: string)
    requires HasSections(records)
    ensures text == CsvText(manifest, records, digest)
  {
    var manifestRow := Row(MANIFEST, 0, manifest, digest);
    StartOfText(manifestRow);
    text := Csv.RowText(HEADER) + Csv.RowText(manifestRow);
    KnownSections(records);
    text := WriteSections(SECTIONS, records, digest, [HEADER, manifestRow], text);
  }

  // ---------------------------------------------------------------------------------------------
  // parse_csv
  // ---------------------------------------------------------------------------------------------

  /** The locals of parse_csv's loop; `ordinals` holds the next ordinal of each section. */
  datatype Progress = Progress(manifest: Option<Value>, records: Sections, ordinals: map<string, int>)

  function Start(): Progress {
    Progress(None, map s | s in SECTIONS :: [], map s | s in SECTIONS :: 1)
  }

  function Cell(row: seq<string>, i: nat): Option<string> {
    if i < |row| then Some(row[i]) else None
  }

  /** The record and ordinal of a row, after its digest and its canonical form were checked. */
  function ReadRecord(row: seq<string>, digest: Digest): Result<(Value, int), CsvError> {
    var text := Cell(row, 3);
    if text.None? then Err(MalformedRow)
    else if Cell(row, 2) != Some(digest(text.value)) then Err(DigestMismatch)
    else
      var record, ordinal := Loads(text.value), IntValue(Cell(row, 1).GetOr(""));
      if record.None? || ordinal.None? then Err(MalformedRow)
      else if Dumps(record.value) != text.value then Err(NotCanonicalJson)
      else Ok((record.value, ordinal.value))
  }

  predicate Tracks(p: Progress) {
    p.records.Keys == p.ordinals.Keys == Elems(SECTIONS)
  }

  function TakeRow(p: Progress, row: seq<string>, digest: Digest): (r: Result<Progress, CsvError>)
    requires Tracks(p)
    ensures r.Ok? ==> Tracks(r.value)
  {
    match ReadRecord(row, digest)
    case Err(e) => Err(e)
    case Ok((record, ordinal)) =>
      var section := Cell(row, 0).GetOr("");
      if section == MANIFEST then
        if p.manifest.Some? || ordinal != 0 then Err(BadManifestRow) else Ok(p.(manifest := Some(record)))
      else if section !in p.records then Err(UnknownSection)
      else if ordinal != p.ordinals[section] then Err(OrdinalsNotContiguous)
      else Ok(p.(records := p.records[section := p.records[section] + [record]],
                 ordinals := p.ordinals[section := ordinal + 1]))
  }

  /** DictReader skips empty rows. */
  function TakeRows(p: Progress, rows: seq<seq<string>>, digest: Digest): (r: Result<Progress, CsvError>)
    requires Tracks(p)
    ensures r.Ok? ==> Tracks(r.value)
    decreases |rows|
  {
    if rows == [] then Ok(p)
    else if rows[0] == [] then TakeRows(p, rows[1..], digest)
    else
      match TakeRow(p, rows[0], digest)
      case Err(e) => Err(e)
      case Ok(q) => TakeRows(q, rows[1..], digest)
  }

  /** The document parse_csv returns. */
  function Artifact(manifest: Value, records: Sections): Value {
    Object(map[
      "format" := Get(manifest, "format"),
      "version" := Get(manifest, "version"),
      "manifest" := manifest,
      "records" := Object(map s | s in records :: Array(records[s]))
    ])
  }

  function Finish(p: Progress, payload: string, digest: Digest): Result<Value, CsvError>
    requires Tracks(p)
  {
    if p.manifest.None? then Err(NoManifest)
    else if !p.manifest.value.Object? then Err(BadManifestRow)
    else if CsvText(p.manifest.value, p.records, digest) != payload then Err(NotCanonicalText)
    else Ok(Artifact(p.manifest.value, p.records))
  }

  function ParseCsvOf(payload: string, digest: Digest): Result<Value, CsvError> {
    match Csv.ReadRows(payload)
    case None => Err(MalformedRow)
    case Some(rows) =>
      if rows == [] || rows[0] != HEADER then Err(BadHeader)
      else
        StartTracks();
        match TakeRows(Start(), rows[1..], digest)
        case Err(e) => Err(e)
        case Ok(p) => Finish(p, payload, digest)
  }

  lemma StartTracks()
    ensures Tracks(Start())
  {
    assert forall s :: s in SECTIONS <==> s in Elems(SECTIONS);
  }

  /** The body of the loop. */
  method TakeOneRow(p: Progress, row: seq<string>, digest: Digest) returns (r: Result<Progress, CsvError>)
    requires Tracks(p)
    ensures r == TakeRow(p, row, digest)
  {
    var manifest, records, ordinals := p.manifest, p.records, p.ordinals;
    var read := ReadRecord(row, digest);
    if read.Err? {
      return Err(read.error);
    }
    var (record, ordinal) := read.value;
    var section := Cell(row, 0).GetOr("");
    if section == MANIFEST {
      if manifest.Some? || ordinal != 0 {
        return Err(BadManifestRow);
      }
      manifest := Some(record);
    } else if section !in records {
      return Err(UnknownSection);
    } else {
      if ordinal != ordinals[section] {
        return Err(OrdinalsNotContiguous);
      }
      ordinals := ordinals[section := ordinals[section] + 1];
      records := records[section := records[section] + [record]];
    }
    r := Ok(Progress(manifest, records, ordinals));
  }

  method TakeAllRows(rows: seq<seq<string>>, digest: Digest) returns (r: Result<Progress, CsvError>)
    requires Tracks(Start())
    ensures r == TakeRows(Start(), rows, digest)
  {
    var p := Start();
    for i := 0 to |rows|
      invariant Tracks(p)
      invariant TakeRows(Start(), rows, digest) == TakeRows(p, rows[i..], digest)
    {
      assert rows[i..][0] == rows[i] && rows[i..][1..] == rows[i + 1..];
      if rows[i] != [] {
        var next := TakeOneRow(p, rows[i], digest);
        if next.Err? {
          return Err(next.error);
        }
        p := next.value;
      }
    }
    r := Ok(p);
  }

  /** parse_csv. */
  method ParseCsv(payload: string, digest: Digest) returns (r: Result<Value, CsvError>)
    ensures r == ParseCsvOf(payload, digest)
  {
    var rows := Csv.ReadRows(payload);
    if rows.None? {
      return Err(MalformedRow);
    }
    if rows.value == [] || rows.value[0] != HEADER {
      return Err(BadHeader);
    }
    StartTracks();
    var p := TakeAllRows(rows.value[1..], digest);
    if p.Err? {
      return Err(p.error);
    }
    if p.value.manifest.None? {
      return Err(NoManifest);
    }
    var manifest := p.value.manifest.value;
    if !manifest.Object? {
      return Err(BadManifestRow);
    }
    var text := SerializeCsv(manifest, p.value.records, digest);
    if text != payload {
      return Err(NotCanonicalText);
    }
    r := Ok(Artifact(manifest, p.value.records));
  }

  // ---------------------------------------------------------------------------------------------
  // Round trip
  // ---------------------------------------------------------------------------------------------

  ghost predicate AllLoadable(records: seq<Value>) {
    forall i :: 0 <= i < |records| ==> Loadable(records[i])
  }

  ghost predicate LoadableSections(records: Sections) {
    HasSections(records) && forall s :: s in records ==> AllLoadable(records[s])
  }

  lemma ReadWrittenRecord(section: string, ordinal: int, record: Value, digest: Digest)
    requires Loadable(record)
    ensures ReadRecord(Row(section, ordinal, record, digest), digest) == Ok((record, ordinal))
  {
    LoadsDumps(record);
    IntTextReadsBack(ordinal);
  }

  lemma SectionIsNotManifest(section: string)
    requires section in SECTIONS
    ensures section != MANIFEST
  {
    var i :| 0 <= i < |SECTIONS| && SECTIONS[i] == section;
  }

  function WithSection(p: Progress, section: string, records: seq<Value>): Progress {
    p.(records := p.records[section := records], ordinals := p.ordinals[section := |records| + 1])
  }

  lemma TakeSectionRow(p: Progress, section: string, record: Value, digest: Digest)
    requires Tracks(p) && section in p.records && section != MANIFEST && Loadable(record)
    requires p.ordinals[section] == |p.records[section]| + 1
    ensures TakeRow(p, Row(section, |p.records[section]| + 1, record, digest), digest)
         == Ok(WithSection(p, section, p.records[section] + [record]))
  {
    var row := Row(section, |p.records[section]| + 1, record, digest);
    ReadWrittenRecord(section, |p.records[section]| + 1, record, digest);
    assert Cell(row, 0) == Some(section);
  }

  lemma WithSectionTwice(p: Progress, section: string, a: seq<Value>, b: seq<Value>)
    ensures WithSection(WithSection(p, section, a), section, b) == WithSection(p, section, b)
  {
  }

  lemma TakeFirstRow(p: Progress, q: Progress, row: seq<string>, rows: seq<seq<string>>, digest: Digest)
    requires Tracks(p) && row != [] && TakeRow(p, row, digest) == Ok(q)
    ensures Tracks(q) && TakeRows(p, [row] + rows, digest) == TakeRows(q, rows, digest)
  {
    assert ([row] + rows)[1..] == rows;
  }

  lemma SectionComplete(p: Progress, section: string, records: seq<Value>)
    requires section in p.records && section in p.ordinals
    requires p.records[section] == records && p.ordinals[section] == |records| + 1
    ensures WithSection(p, section, records) == p
  {
    assert p.records[section := records] == p.records;
    assert p.ordinals[section := |records| + 1] == p.ordinals;
  }

  lemma TakeNextRow(p: Progress, section: string, records: seq<Value>, i: nat, rest: seq<seq<string>>, digest: Digest)
    requires Tracks(p) && section in p.records && section != MANIFEST && AllLoadable(records) && i < |records|
    requires p.records[section] == records[..i] && p.ordinals[section] == i + 1
    ensures var next := WithSection(p, section, records[..i + 1]);
      Tracks(next) && TakeRows(p, SectionRows(section, records, i, digest) + rest, digest)
                   == TakeRows(next, SectionRows(section, records, i + 1, digest) + rest, digest)
  {
    var row := Row(section, i + 1, records[i], digest);
    var more := SectionRows(section, records, i + 1, digest);
    assert records[..i] + [records[i]] == records[..i + 1];
    TakeSectionRow(p, section, records[i], digest);
    TakeFirstRow(p, WithSection(p, section, records[..i + 1]), row, more + rest, digest);
    Assoc([row], more, rest);
  }

  /** Reading the rest of a section appends exactly its remaining records. */
  lemma {:induction false} TakeSection(p: Progress, section: string, records: seq<Value>, i: nat,
        rest: seq<seq<string>>, digest: Digest)
    requires Tracks(p) && section in p.records && section != MANIFEST && AllLoadable(records) && i <= |records|
    requires p.records[section] == records[..i] && p.ordinals[section] == i + 1
    ensures Tracks(WithSection(p, section, records))
    ensures TakeRows(p, SectionRows(section, records, i, digest) + rest, digest)
         == TakeRows(WithSection(p, section, records), rest, digest)
    decreases |records| - i
  {
    if i == |records| {
      assert SectionRows(section, records, i, digest) + rest == rest;
      assert records[..i] == records;
      SectionComplete(p, section, records);
    } else {
      TakeNextRow(p, section, records, i, rest, digest);
      TakeSection(WithSection(p, section, records[..i + 1]), section, records, i + 1, rest, digest);
      WithSectionTwice(p, section, records[..i + 1], records);
    }
  }

  lemma SectionsAreDistinct()
    ensures Distinct(SECTIONS)
  {
  }

  /** The named sections are still to come, the others are complete. */
  ghost predicate StillToRead(p: Progress, records: Sections, names: seq<string>)
    requires Tracks(p) && HasSections(records)
  {
    forall s :: s in records ==>
      if s in names then p.records[s] == [] && p.ordinals[s] == 1 else p.records[s] == records[s]
  }

  lemma {:induction false} TakeSections(p: Progress, records: Sections, names: seq<string>, digest: Digest)
    requires Tracks(p) && LoadableSections(records) && StillToRead(p, records, names)
    requires Distinct(names) && forall s :: s in names ==> s in records && s != MANIFEST
    ensures var r := TakeRows(p, AllSectionRows(names, records, digest), digest);
      r.Ok? && r.value.manifest == p.manifest && r.value.records == records
    decreases |names|
  {
    if names == [] {
      assert p.records == records;
    } else {
      var s := names[0];
      var q := WithSection(p, s, records[s]);
      TakeSection(p, s, records[s], 0, AllSectionRows(names[1..], records, digest), digest);
      assert forall t :: t in names <==> t == s || t in names[1..];
      assert s !in names[1..];
      TakeSections(q, records, names[1..], digest);
    }
  }

  ghost predicate AreRows(rows: seq<seq<string>>) {
    forall j :: 0 <= j < |rows| ==> rows[j] != []
  }

  lemma {:induction false} SectionRowsAreRows(section: string, records: seq<Value>, i: nat, digest: Digest)
    requires i <= |records|
    ensures AreRows(SectionRows(section, records, i, digest))
    decreases |records| - i
  {
    if i < |records| {
      SectionRowsAreRows(section, records, i + 1, digest);
    }
  }

  lemma {:induction false} AllSectionRowsAreRows(names: seq<string>, records: Sections, digest: Digest)
    requires forall s :: s in names ==> s in records
    ensures AreRows(AllSectionRows(names, records, digest))
  {
    if names != [] {
      SectionRowsAreRows(names[0], records[names[0]], 0, digest);
      AllSectionRowsAreRows(names[1..], records, digest);
    }
  }

  lemma TakeManifestRow(manifest: Value, digest: Digest)
    requires Loadable(manifest) && Tracks(Start())
    ensures TakeRow(Start(), Row(MANIFEST, 0, manifest, digest), digest) == Ok(Start().(manifest := Some(manifest)))
  {
    ReadWrittenRecord(MANIFEST, 0, manifest, digest);
  }

  lemma RowsAfterHeader(manifest: Value, records: Sections, digest: Digest)
    requires HasSections(records)
    ensures forall s :: s in SECTIONS ==> s in records
    ensures AllRows(manifest, records, digest)[1..]
         == [Row(MANIFEST, 0, manifest, digest)] + AllSectionRows(SECTIONS, records, digest)
  {
    KnownSections(records);
  }

  lemma TakeManifestAndSections(start: Progress, p: Progress, row: seq<string>, names: seq<string>, records: Sections,
        digest: Digest)
    requires Tracks(start) && row != [] && TakeRow(start, row, digest) == Ok(p)
    requires Tracks(p) && LoadableSections(records) && StillToRead(p, records, names)
    requires Distinct(names) && forall s :: s in names ==> s in records && s != MANIFEST
    ensures var r := TakeRows(start, [row] + AllSectionRows(names, records, digest), digest);
      r.Ok? && r.value.manifest == p.manifest && r.value.records == records
  {
    TakeFirstRow(start, p, row, AllSectionRows(names, records, digest), digest);
    TakeSections(p, records, names, digest);
  }

  lemma TakeWrittenRows(manifest: Value, records: Sections, digest: Digest)
    requires Loadable(manifest) && LoadableSections(records) && Tracks(Start())
    ensures var r := TakeRows(Start(), AllRows(manifest, records, digest)[1..], digest);
      r.Ok? && r.value.manifest == Some(manifest) && r.value.records == records
  {
    var p := Start().(manifest := Some(manifest));
    TakeManifestRow(manifest, digest);
    RowsAfterHeader(manifest, records, digest);
    NothingRead(p, records);
    TakeManifestAndSections(Start(), p, Row(MANIFEST, 0, manifest, digest), SECTIONS, records, digest);
  }

  lemma NothingRead(p: Progress, records: Sections)
    requires Tracks(p) && HasSections(records) && p.records == Start().records && p.ordinals == Start().ordinals
    ensures StillToRead(p, records, SECTIONS) && Distinct(SECTIONS)
    ensures forall s :: s in SECTIONS ==> s in records && s != MANIFEST
  {
    KnownSections(records);
    SectionsAreDistinct();
    forall s | s in SECTIONS
      ensures s != MANIFEST
    {
      SectionIsNotManifest(s);
    }
  }

  lemma ReadWrittenRows(manifest: Value, records: Sections, digest: Digest)
    requires HasSections(records)
    ensures Csv.ReadRows(CsvText(manifest, records, digest)) == Some(AllRows(manifest, records, digest))
  {
    KnownSections(records);
    AllSectionRowsAreRows(SECTIONS, records, digest);
    Csv.ReadRowsOfRowsText(AllRows(manifest, records, digest));
  }

  /** parse_csv undoes serialize_csv. */
  lemma CsvRoundTrip(manifest: Value, records: Sections, digest: Digest)
    requires manifest.Object? && Loadable(manifest) && LoadableSections(records)
    ensures ParseCsvOf(CsvText(manifest, records, digest), digest) == Ok(Artifact(manifest, records))
  {
    StartTracks();
    ReadWrittenRows(manifest, records, digest);
    TakeWrittenRows(manifest, records, digest);
  }

  // ---------------------------------------------------------------------------------------------
  // Nothing else is accepted
  // ---------------------------------------------------------------------------------------------

  ghost predicate LoadableProgress(p: Progress) {
    (p.manifest.Some? ==> Loadable(p.manifest.value)) && LoadableSections(p.records)
  }

  lemma TakeRowKeepsLoadable(p: Progress, row: seq<string>, digest: Digest)
    requires Tracks(p) && LoadableProgress(p) && TakeRow(p, row, digest).Ok?
    ensures LoadableProgress(TakeRow(p, row, digest).value)
  {
    LoadsIsLoadable(Cell(row, 3).value);
  }

  lemma {:induction false} TakeRowsKeepsLoadable(p: Progress, rows: seq<seq<string>>, digest: Digest)
    requires Tracks(p) && LoadableProgress(p) && TakeRows(p, rows, digest).Ok?
    ensures LoadableProgress(TakeRows(p, rows, digest).value)
    decreases |rows|
  {
    if rows != [] {
      if rows[0] == [] {
        TakeRowsKeepsLoadable(p, rows[1..], digest);
      } else {
        TakeRowKeepsLoadable(p, rows[0], digest);
        TakeRowsKeepsLoadable(TakeRow(p, rows[0], digest).value, rows[1..], digest);
      }
    }
  }

  ghost predicate Writes(manifest: Value, records: Sections, payload: string, digest: Digest) {
    manifest.Object? && Loadable(manifest) && LoadableSections(records) && payload == CsvText(manifest, records, digest)
  }

  lemma AcceptedIsWritten(payload: string, document: Value, digest: Digest)
    requires ParseCsvOf(payload, digest) == Ok(document)
    ensures exists m, r :: Writes(m, r, payload, digest) && document == Artifact(m, r)
  {
    var rows := Csv.ReadRows(payload).value[1..];
    StartTracks();
    StartIsLoadable();
    TakeRowsKeepsLoadable(Start(), rows, digest);
    var p := TakeRows(Start(), rows, digest).value;
    assert Writes(p.manifest.value, p.records, payload, digest);
  }

  lemma StartIsLoadable()
    requires Tracks(Start())
    ensures LoadableProgress(Start())
  {
  }

  /** A text is accepted exactly when serialize_csv writes it for some bundle, and then as that bundle. */
  lemma AcceptsExactlyTheSerializedBundles(payload: string, document: Value, digest: Digest)
    ensures ParseCsvOf(payload, digest) == Ok(document) <==>
      exists m, r :: Writes(m, r, payload, digest) && document == Artifact(m, r)
  {
    if ParseCsvOf(payload, digest) == Ok(document) {
      AcceptedIsWritten(payload, document, digest);
    }
    forall m, r | Writes(m, r, payload, digest)
      ensures ParseCsvOf(payload, digest) == Ok(Artifact(m, r))
    {
      CsvRoundTrip(m, r, digest);
    }
  }
}
