/**
 The installed-software section (agent/internal/inventory/software.go): deduplication across registry
 views, the deterministic order, and the fit to the server's byte limit.  Text is ASCII.
 */
module Software {
  import opened Basics
  import opened Numerals
  import Lex

  const MAX_ENTRIES: nat := 1024
  const MAX_SECTION_BYTES: nat := 256 * 1024

  datatype Row = Row(name: string, version: string, publisher: string, installDate: string, identifier: string,
        source: string)

  /** One wire entry; an optional field that is left out is "" here. */
  datatype Entry = Entry(
    name: string, architecture: string, scope: string, version: string, publisher: string, identifier: string,
    installDate: Option<string>)

  // ---------------------------------------------------------------------------------------------
  // Text
  // ---------------------------------------------------------------------------------------------

  predicate IsSpace(c: char) {
    c == ' ' || 9 <= c as int <= 13
  }

  function TrimLeft(s: string): (r: string)
    ensures |r| <= |s|
    ensures r == [] || !IsSpace(r[0])
  {
    if s != [] && IsSpace(s[0]) then TrimLeft(s[1..]) else s
  }

  function TrimRight(s: string): (r: string)
    ensures |r| <= |s| && r == s[..|r|]
    ensures r == [] || !IsSpace(r[|r| - 1])
  {
    if s != [] && IsSpace(s[|s| - 1]) then TrimRight(s[..|s| - 1]) else s
  }

  /** strings.TrimSpace. */
  function Trim(s: string): string {
    TrimRight(TrimLeft(s))
  }

  function LowerChar(c: char): char {
    if 'A' <= c <= 'Z' then (c as int + 32) as char else c
  }

  function Lower(s: string): (r: string)
    ensures |r| == |s| && forall i :: 0 <= i < |s| ==> r[i] == LowerChar(s[i])
  {
    seq(|s|, i requires 0 <= i < |s| => LowerChar(s[i]))
  }

  /** The length of the run of non-space characters at the front. */
  function WordLength(s: string): (n: nat)
    ensures n <= |s|
    ensures s != [] && !IsSpace(s[0]) ==> n > 0
  {
    if s == [] || IsSpace(s[0]) then 0 else 1 + WordLength(s[1..])
  }

  /** strings.Fields. */
  function Words(s: string): seq<string>
    decreases |s|
  {
    var t := TrimLeft(s);
    if t == [] then [] else [t[..WordLength(t)]] + Words(t[WordLength(t)..])
  }

  function JoinWords(words: seq<string>): string {
    if words == [] then ""
    else if |words| == 1 then words[0]
    else words[0] + " " + JoinWords(words[1..])
  }

  /** dedupKey. */
  function Key(name: string, version: string): (string, string) {
    (Lower(JoinWords(Words(name))), Lower(Trim(version)))
  }

  function Rank(source: string): int {
    if source == "machine_x64" then 3 else if source == "machine_x86" then 2 else if source == "user" then 1 else 0
  }

  function Architecture(source: string): string {
    if source == "machine_x64" then "x64" else if source == "machine_x86" then "x86" else "unknown"
  }

  function Scope(source: string): string {
    if source == "user" then "user" else "machine"
  }

  function DaysIn(year: int, month: int): int {
    if month == 2 then (if year % 4 == 0 && (year % 100 != 0 || year % 400 == 0) then 29 else 28)
    else if month in {4, 6, 9, 11} then 30
    else 31
  }

  /** parseInstallDate: eight digits that name a day, as RFC 3339. */
  function InstallDate(value: string): Option<string> {
    var t := Trim(value);
    if |t| != 8 || !AllDigits(t) then None
    else
      var year, month, day := DecimalValue(t[..4]), DecimalValue(t[4..6]), DecimalValue(t[6..]);
      if 1 <= month <= 12 && 1 <= day <= DaysIn(year, month)
      then Some(t[..4] + "-" + t[4..6] + "-" + t[6..] + "T00:00:00Z") else None
  }

  // ---------------------------------------------------------------------------------------------
  // Deduplication
  // ---------------------------------------------------------------------------------------------

  function RowKey(row: Row): (string, string) {
    Key(Trim(row.name), row.version)
  }

  predicate Named(row: Row) {
    Trim(row.name) != ""
  }

  function EntryOf(row: Row): Entry {
    Entry(Trim(row.name), Architecture(row.source), Scope(row.source), Trim(row.version), Trim(row.publisher),
          Trim(row.identifier), InstallDate(row.installDate))
  }

  type Best = map<(string, string), Row>

  function Take(best: Best, row: Row): Best {
    if !Named(row) then best
    else if RowKey(row) in best && Rank(best[RowKey(row)].source) >= Rank(row.source) then best
    else best[RowKey(row) := row]
  }

  function BestOf(rows: seq<Row>): Best {
    if rows == [] then map[] else Take(BestOf(rows[..|rows| - 1]), rows[|rows| - 1])
  }

  /** `row` is one of the highest-ranked rows of its program. */
  ghost predicate IsTop(rows: seq<Row>, row: Row) {
    && row in rows && Named(row)
    && forall other :: other in rows && Named(other) && RowKey(other) == RowKey(row) ==> Rank(other.source) <= Rank(row.source)
  }

  /** The survivor of each program is a top row of it, and every program has one. */
  lemma {:induction false} BestIsTop(rows: seq<Row>)
    ensures forall k :: k in BestOf(rows) ==> IsTop(rows, BestOf(rows)[k]) && RowKey(BestOf(rows)[k]) == k
    ensures forall row :: row in rows && Named(row) ==> RowKey(row) in BestOf(rows)
  {
    if rows != [] {
      var init, last := rows[..|rows| - 1], rows[|rows| - 1];
      BestIsTop(init);
      assert forall row :: row in rows <==> row in init || row == last;
    }
  }

  /** A top row that comes first survives. */
  lemma {:induction false} FirstTopSurvives(row: Row, rest: seq<Row>)
    requires IsTop([row] + rest, row)
    ensures RowKey(row) in BestOf([row] + rest) && BestOf([row] + rest)[RowKey(row)] == row
  {
    var rows := [row] + rest;
    if rest == [] {
      assert rows[..0] == [];
      assert BestOf(rows[..0]) == map[];
      assert BestOf(rows) == map[RowKey(row) := row];
    } else {
      var init := [row] + rest[..|rest| - 1];
      assert rows[..|rows| - 1] == init;
      assert forall other :: other in init ==> other in rows;
      FirstTopSurvives(row, rest[..|rest| - 1]);
      assert rows[|rows| - 1] in rows;
    }
  }

  // ---------------------------------------------------------------------------------------------
  // The order
  // ---------------------------------------------------------------------------------------------

  /** The less function handed to sort.Slice. */
  predicate Before(a: Entry, b: Entry) {
    if Lower(a.name) != Lower(b.name) then Lex.Less(Lower(a.name), Lower(b.name)) else Lex.Less(a.version, b.version)
  }

  ghost predicate Ordered(r: seq<Entry>) {
    forall i, j :: 0 <= i < j < |r| ==> Before(r[i], r[j])
  }

  lemma BeforeIsStrict(a: Entry, b: Entry)
    ensures !(Before(a, b) && Before(b, a)) && !Before(a, a)
    ensures Before(a, b) || Before(b, a) || (Lower(a.name) == Lower(b.name) && a.version == b.version)
  {
    Lex.LessTrichotomy(Lower(a.name), Lower(b.name));
    Lex.LessTrichotomy(a.version, b.version);
    Lex.LessTrichotomy(a.version, a.version);
  }

  lemma BeforeIsTransitive(a: Entry, b: Entry, c: Entry)
    requires Before(a, b) && Before(b, c)
    ensures Before(a, c)
  {
    var x, y, z := Lower(a.name), Lower(b.name), Lower(c.name);
    if x != y && y != z {
      Lex.LessTransitive(x, y, z);
      Lex.LessTrichotomy(x, y);
    } else if x == y == z {
      Lex.LessTransitive(a.version, b.version, c.version);
    }
  }

  lemma HeadIsUnique(r: seq<Entry>, s: seq<Entry>)
    requires r != [] && s != [] && Ordered(r) && Ordered(s) && Elems(r) == Elems(s)
    ensures r[0] == s[0] && Elems(r[1..]) == Elems(s[1..]) == Elems(r) - {r[0]}
  {
    assert r[0] in Elems(s) && s[0] in Elems(r);
    var i :| 0 <= i < |s| && s[i] == r[0];
    var j :| 0 <= j < |r| && r[j] == s[0];
    if i > 0 && j > 0 {
      BeforeIsStrict(r[0], s[0]);
    }
    TailElems(r);
    TailElems(s);
  }

  lemma TailElems(r: seq<Entry>)
    requires r != [] && Ordered(r)
    ensures Elems(r[1..]) == Elems(r) - {r[0]}
  {
    forall e | e in r[1..]
      ensures e != r[0] && e in r
    {
      var i :| 0 <= i < |r[1..]| && r[1..][i] == e;
      assert Before(r[0], r[i + 1]);
      BeforeIsStrict(e, e);
    }
    forall e | e in r && e != r[0]
      ensures e in r[1..]
    {
      var i :| 0 <= i < |r| && r[i] == e;
      assert r[1..][i - 1] == e;
    }
  }

  /** An ordered list is determined by its elements. */
  lemma {:induction false} OrderIsUnique(r: seq<Entry>, s: seq<Entry>)
    requires Ordered(r) && Ordered(s) && Elems(r) == Elems(s)
    ensures r == s
    decreases |r|
  {
    assert s != [] ==> s[0] in Elems(s);
    if r != [] {
      assert r[0] in Elems(s);
      HeadIsUnique(r, s);
      OrderIsUnique(r[1..], s[1..]);
      assert r == [r[0]] + r[1..] && s == [s[0]] + s[1..];
    }
  }

  // ---------------------------------------------------------------------------------------------
  // Equal sort keys mean the same program
  // ---------------------------------------------------------------------------------------------

  lemma {:induction false} LowerTrimLeft(s: string)
    ensures Lower(TrimLeft(s)) == TrimLeft(Lower(s))
  {
    if s != [] && IsSpace(s[0]) {
      LowerTrimLeft(s[1..]);
      assert Lower(s)[1..] == Lower(s[1..]);
    }
  }

  lemma {:induction false} LowerWordLength(s: string)
    ensures WordLength(Lower(s)) == WordLength(s)
  {
    if s != [] && !IsSpace(s[0]) {
      LowerWordLength(s[1..]);
      assert Lower(s)[1..] == Lower(s[1..]);
    }
  }

  function LowerAll(words: seq<string>): (r: seq<string>)
    ensures |r| == |words|
  {
    if words == [] then [] else [Lower(words[0])] + LowerAll(words[1..])
  }

  lemma {:induction false} LowerWords(s: string)
    ensures LowerAll(Words(s)) == Words(Lower(s))
    decreases |s|
  {
    var t := TrimLeft(s);
    LowerTrimLeft(s);
    if t != [] {
      var n := WordLength(t);
      LowerWordLength(t);
      LowerWords(t[n..]);
      assert Lower(t)[..n] == Lower(t[..n]) && Lower(t)[n..] == Lower(t[n..]);
      assert Words(s)[1..] == Words(t[n..]);
      TrimLeftAgain(t);
    }
  }

  lemma TrimLeftAgain(t: string)
    requires t == [] || !IsSpace(t[0])
    ensures TrimLeft(Lower(t)) == Lower(t)
  {
  }

  lemma {:induction false} LowerJoin(words: seq<string>)
    ensures Lower(JoinWords(words)) == JoinWords(LowerAll(words))
  {
    if |words| > 1 {
      LowerJoin(words[1..]);
      var rest := JoinWords(words[1..]);
      assert Lower(words[0] + " " + rest) == Lower(words[0]) + " " + Lower(rest);
      assert LowerAll(words)[1..] == LowerAll(words[1..]);
    }
  }

  /** The key of a row can be read off its entry, so entries of different programs are never tied. */
  lemma EntriesOfDifferentProgramsAreOrdered(a: Row, b: Row)
    requires RowKey(a) != RowKey(b)
    ensures Before(EntryOf(a), EntryOf(b)) || Before(EntryOf(b), EntryOf(a))
  {
    var x, y := EntryOf(a), EntryOf(b);
    BeforeIsStrict(x, y);
    if Lower(x.name) == Lower(y.name) && x.version == y.version {
      LowerWords(x.name);
      LowerWords(y.name);
      LowerJoin(Words(x.name));
      LowerJoin(Words(y.name));
    }
  }

  lemma SameEntrySameProgram(a: Row, b: Row)
    requires EntryOf(a) == EntryOf(b)
    ensures RowKey(a) == RowKey(b)
  {
  }

  lemma DifferentProgramsDifferentEntries(a: Row, b: Row)
    requires RowKey(a) != RowKey(b)
    ensures EntryOf(a) != EntryOf(b)
  {
    if EntryOf(a) == EntryOf(b) {
      SameEntrySameProgram(a, b);
    }
  }

  // ---------------------------------------------------------------------------------------------
  // NormalizeSoftware
  // ---------------------------------------------------------------------------------------------

  function EntriesOf(best: Best): set<Entry> {
    set k | k in best :: EntryOf(best[k])
  }

  /** The list NormalizeSoftware returns: one entry per program, from its surviving row, in order. */
  ghost predicate Normalized(rows: seq<Row>, r: seq<Entry>) {
    Ordered(r) && Elems(r) == EntriesOf(BestOf(rows))
  }

  function Insert(sorted: seq<Entry>, e: Entry): seq<Entry> {
    if sorted == [] then [e]
    else if Before(e, sorted[0]) then [e] + sorted
    else [sorted[0]] + Insert(sorted[1..], e)
  }

  lemma {:induction false} InsertKeepsOrder(sorted: seq<Entry>, e: Entry)
    requires Ordered(sorted) && forall i :: 0 <= i < |sorted| ==> Before(sorted[i], e) || Before(e, sorted[i])
    ensures Ordered(Insert(sorted, e)) && Elems(Insert(sorted, e)) == Elems(sorted) + {e}
  {
    var r := Insert(sorted, e);
    if sorted == [] {
    } else if Before(e, sorted[0]) {
      forall j | 0 < j < |sorted|
        ensures Before(e, sorted[j])
      {
        BeforeIsTransitive(e, sorted[0], sorted[j]);
      }
      assert forall x :: x in r <==> x in sorted || x == e;
    } else {
      InsertKeepsOrder(sorted[1..], e);
      var rest := Insert(sorted[1..], e);
      forall j | 0 <= j < |rest|
        ensures Before(sorted[0], rest[j])
      {
        assert rest[j] in Elems(rest);
      }
      assert sorted == [sorted[0]] + sorted[1..];
      assert forall x :: x in r <==> x == sorted[0] || x in rest;
      assert forall x :: x in rest <==> x in Elems(rest);
      assert forall x :: x in sorted <==> x == sorted[0] || x in sorted[1..];
    }
  }

  /** The first loop: the best row of each program. */
  method Dedupe(rows: seq<Row>) returns (best: Best)
    ensures best == BestOf(rows)
  {
    best := map[];
    for i := 0 to |rows|
      invariant best == BestOf(rows[..i])
    {
      assert rows[..i + 1][..i] == rows[..i];
      var row := rows[i];
      if !Named(row) {
        continue;
      }
      if RowKey(row) in best && Rank(best[RowKey(row)].source) >= Rank(row.source) {
        continue;
      }
      best := best[RowKey(row) := row];
    }
    assert rows[..|rows|] == rows;
  }

  ghost predicate KeyedByProgram(best: Best) {
    forall k :: k in best ==> RowKey(best[k]) == k
  }

  function EntriesIn(best: Best, keys: set<(string, string)>): set<Entry> {
    set k | k in best && k in keys :: EntryOf(best[k])
  }

  lemma AllEntries(best: Best)
    ensures EntriesIn(best, best.Keys) == EntriesOf(best)
  {
  }

  lemma NewEntryIsNew(best: Best, done: set<(string, string)>, k: (string, string))
    requires KeyedByProgram(best) && k in best && k !in done
    ensures EntryOf(best[k]) !in EntriesIn(best, done)
    ensures EntriesIn(best, done + {k}) == EntriesIn(best, done) + {EntryOf(best[k])}
  {
    forall j | j in best && j in done
      ensures EntryOf(best[j]) != EntryOf(best[k])
    {
      DifferentProgramsDifferentEntries(best[j], best[k]);
    }
  }

  /** One more survivor goes into its place. */
  lemma InsertSurvivor(best: Best, done: set<(string, string)>, k: (string, string), entries: seq<Entry>)
    requires KeyedByProgram(best) && k in best && k !in done
    requires Ordered(entries) && Elems(entries) == EntriesIn(best, done)
    ensures var r := Insert(entries, EntryOf(best[k]));
      Ordered(r) && Elems(r) == EntriesIn(best, done + {k})
  {
    forall i | 0 <= i < |entries|
      ensures Before(entries[i], EntryOf(best[k])) || Before(EntryOf(best[k]), entries[i])
    {
      assert entries[i] in Elems(entries);
      var other :| other in best && other in done && EntryOf(best[other]) == entries[i];
      EntriesOfDifferentProgramsAreOrdered(best[other], best[k]);
    }
    InsertKeepsOrder(entries, EntryOf(best[k]));
    NewEntryIsNew(best, done, k);
  }

  ghost predicate Comparable(r: seq<Entry>) {
    forall i, j :: 0 <= i < j < |r| ==> Before(r[i], r[j]) || Before(r[j], r[i])
  }

  lemma AppendSurvivor(best: Best, done: set<(string, string)>, k: (string, string), entries: seq<Entry>)
    requires KeyedByProgram(best) && k in best && k !in done
    requires Comparable(entries) && Elems(entries) == EntriesIn(best, done)
    ensures Comparable(entries + [EntryOf(best[k])]) && Elems(entries + [EntryOf(best[k])])
        == EntriesIn(best, done + {k})
  {
    var e := EntryOf(best[k]);
    forall i | 0 <= i < |entries|
      ensures Before(entries[i], e) || Before(e, entries[i])
    {
      assert entries[i] in Elems(entries);
      var other :| other in best && other in done && EntryOf(best[other]) == entries[i];
      EntriesOfDifferentProgramsAreOrdered(best[other], best[k]);
    }
    NewEntryIsNew(best, done, k);
    assert forall x :: x in entries + [e] <==> x in entries || x == e;
  }

  lemma OneLess(keys: set<(string, string)>, todo: set<(string, string)>, k: (string, string))
    requires k in todo && todo <= keys
    ensures keys - todo + {k} == keys - (todo - {k})
    ensures todo - {k} <= keys && |todo - {k}| < |todo|
  {
    assert |todo - {k}| == |todo| - 1;
  }

  /** The second loop: one entry for each survivor, in map order. */
  method CollectEntries(best: Best) returns (entries: seq<Entry>)
    requires KeyedByProgram(best)
    ensures Comparable(entries) && Elems(entries) == EntriesIn(best, best.Keys)
  {
    entries := [];
    var todo := best.Keys;
    while todo != {}
      invariant todo <= best.Keys
      invariant Comparable(entries)
      invariant Elems(entries) == EntriesIn(best, best.Keys - todo)
      decreases |todo|
    {
      var k :| k in todo;
      AppendSurvivor(best, best.Keys - todo, k, entries);
      OneLess(best.Keys, todo, k);
      entries := entries + [EntryOf(best[k])];
      todo := todo - {k};
    }
    assert best.Keys - {} == best.Keys;
  }

  /** sort.Slice with Before, on entries of which no two are tied. */
  method SortSlice(entries: seq<Entry>) returns (r: seq<Entry>)
    requires Comparable(entries)
    ensures Ordered(r) && Elems(r) == Elems(entries)
  {
    r := [];
    for n := 0 to |entries|
      invariant Ordered(r) && Elems(r) == Elems(entries[..n])
    {
      forall i | 0 <= i < |r|
        ensures Before(r[i], entries[n]) || Before(entries[n], r[i])
      {
        assert r[i] in Elems(r);
        var j :| 0 <= j < n && entries[..n][j] == r[i];
        assert entries[j] == r[i];
      }
      InsertKeepsOrder(r, entries[n]);
      assert entries[..n + 1] == entries[..n] + [entries[n]];
      r := Insert(r, entries[n]);
    }
    assert entries[..|entries|] == entries;
  }

  method NormalizeSoftware(rows: seq<Row>) returns (entries: seq<Entry>)
    ensures Normalized(rows, entries)
  {
    var best := Dedupe(rows);
    BestIsTop(rows);
    entries := CollectEntries(best);
    AllEntries(best);
    entries := SortSlice(entries);
  }

  // ---------------------------------------------------------------------------------------------
  // The list does not depend on the enumeration order
  // ---------------------------------------------------------------------------------------------

  /** All top rows of a program give the same entry. */
  ghost predicate TopsAgree(rows: seq<Row>) {
    forall a, b :: IsTop(rows, a) && IsTop(rows, b) && RowKey(a) == RowKey(b) ==> EntryOf(a) == EntryOf(b)
  }

  ghost predicate IsPermutation(p: seq<Row>, rows: seq<Row>) {
    multiset(p) == multiset(rows)
  }

  ghost predicate OrderDoesNotMatter(rows: seq<Row>) {
    forall p, r, s :: IsPermutation(p, rows) && Normalized(rows, r) && Normalized(p, s) ==> r == s
  }

  lemma PermutationHasSameTops(p: seq<Row>, rows: seq<Row>, row: Row)
    requires IsPermutation(p, rows)
    ensures IsTop(p, row) <==> IsTop(rows, row)
  {
    assert forall x :: x in p <==> x in multiset(p);
    assert forall x :: x in rows <==> x in multiset(rows);
  }

  lemma SameEntries(p: seq<Row>, rows: seq<Row>)
    requires IsPermutation(p, rows) && TopsAgree(rows)
    ensures EntriesOf(BestOf(p)) <= EntriesOf(BestOf(rows))
  {
    BestIsTop(p);
    BestIsTop(rows);
    forall e | e in EntriesOf(BestOf(p))
      ensures e in EntriesOf(BestOf(rows))
    {
      var k :| k in BestOf(p) && EntryOf(BestOf(p)[k]) == e;
      var a := BestOf(p)[k];
      PermutationHasSameTops(p, rows, a);
      assert k in BestOf(rows);
    }
  }

  lemma {:induction false} AgreeingTopsGiveOneList(rows: seq<Row>)
    requires TopsAgree(rows)
    ensures OrderDoesNotMatter(rows)
  {
    forall p, r, s | IsPermutation(p, rows) && Normalized(rows, r) && Normalized(p, s)
      ensures r == s
    {
      SameEntries(p, rows);
      forall row
        ensures IsTop(p, row) <==> IsTop(rows, row)
      {
        PermutationHasSameTops(p, rows, row);
      }
      SameEntries(rows, p);
      OrderIsUnique(r, s);
    }
  }

  /** Moves row i to the front. */
  function ToFront(rows: seq<Row>, i: nat): seq<Row>
    requires i < |rows|
  {
    [rows[i]] + (rows[..i] + rows[i + 1..])
  }

  lemma ToFrontPermutes(rows: seq<Row>, i: nat)
    requires i < |rows|
    ensures IsPermutation(ToFront(rows, i), rows)
  {
    assert rows == rows[..i] + ([rows[i]] + rows[i + 1..]);
  }

  /** The entry list of some permutation holds the entry of a chosen top row. */
  lemma TopCanBeReported(rows: seq<Row>, row: Row) returns (p: seq<Row>)
    requires IsTop(rows, row)
    ensures IsPermutation(p, rows) && RowKey(row) in BestOf(p) && BestOf(p)[RowKey(row)] == row
  {
    var i :| 0 <= i < |rows| && rows[i] == row;
    p := ToFront(rows, i);
    ToFrontPermutes(rows, i);
    PermutationHasSameTops(p, rows, row);
    FirstTopSurvives(row, rows[..i] + rows[i + 1..]);
  }

  /** An entry of the list that looks like a row's is the one of that row's program. */
  lemma EntryInBestIsTheSurvivors(best: Best, row: Row, e: Entry)
    requires KeyedByProgram(best) && e in EntriesOf(best) && EntryOf(row) == e
    ensures RowKey(row) in best && EntryOf(best[RowKey(row)]) == e
  {
    var k :| k in best && EntryOf(best[k]) == e;
    SameEntrySameProgram(best[k], row);
  }

  lemma OneListForcesAgreement(rows: seq<Row>, a: Row, b: Row)
    requires OrderDoesNotMatter(rows) && IsTop(rows, a) && IsTop(rows, b) && RowKey(a) == RowKey(b)
    ensures EntryOf(a) == EntryOf(b)
  {
    var p := TopCanBeReported(rows, a);
    var q := TopCanBeReported(rows, b);
    BestIsTop(rows);
    BestIsTop(p);
    BestIsTop(q);
    var r := ListOf(rows);
    var s := ListOf(p);
    var t := ListOf(q);
    assert r == s && r == t;
    assert EntryOf(a) in EntriesOf(BestOf(p));
    assert EntryOf(a) in EntriesOf(BestOf(q));
    EntryInBestIsTheSurvivors(BestOf(q), a, EntryOf(a));
  }

  /** Every list of rows has a normal form. */
  lemma ListOf(rows: seq<Row>) returns (r: seq<Entry>)
    ensures Normalized(rows, r)
  {
    BestIsTop(rows);
    r := OrderedListOf(BestOf(rows), BestOf(rows).Keys);
    AllEntries(BestOf(rows));
  }

  lemma {:induction false} OrderedListOf(best: Best, keys: set<(string, string)>) returns (r: seq<Entry>)
    requires KeyedByProgram(best) && keys <= best.Keys
    ensures Ordered(r) && Elems(r) == EntriesIn(best, keys)
    decreases |keys|
  {
    if keys == {} {
      r := [];
    } else {
      var k :| k in keys;
      var rest := OrderedListOf(best, keys - {k});
      InsertSurvivor(best, keys - {k}, k, rest);
      r := Insert(rest, EntryOf(best[k]));
      assert keys - {k} + {k} == keys;
    }
  }

  /**
   NormalizeSoftware gives one list for every enumeration order of the rows exactly when, for each
   program, all its highest-ranked rows give the same entry.
   */
  lemma OneListExactlyWhenTopsAgree(rows: seq<Row>)
    ensures OrderDoesNotMatter(rows) <==> TopsAgree(rows)
  {
    if TopsAgree(rows) {
      AgreeingTopsGiveOneList(rows);
    }
    if OrderDoesNotMatter(rows) {
      forall a, b | IsTop(rows, a) && IsTop(rows, b) && RowKey(a) == RowKey(b)
        ensures EntryOf(a) == EntryOf(b)
      {
        OneListForcesAgreement(rows, a, b);
      }
    }
  }

  /** Some row of this program came from that registry view. */
  ghost predicate RegisteredIn(rows: seq<Row>, k: (string, string), source: string) {
    exists row :: row in rows && Named(row) && RowKey(row) == k && row.source == source
  }

  /** A program is reported from its most authoritative registration. */
  lemma SurvivorIsMostAuthoritative(rows: seq<Row>, k: (string, string))
    requires k in BestOf(rows)
    ensures var source := BestOf(rows)[k].source;
      if RegisteredIn(rows, k, "machine_x64") then source == "machine_x64"
      else if RegisteredIn(rows, k, "machine_x86") then source == "machine_x86"
      else RegisteredIn(rows, k, "user") ==> source == "user"
  {
    BestIsTop(rows);
    var best := BestOf(rows)[k];
    assert RegisteredIn(rows, k, best.source);
    assert IsTop(rows, best);
  }

  /** One entry per program: the list is as long as the number of distinct dedup keys. */
  lemma OneEntryPerProgram(rows: seq<Row>, r: seq<Entry>)
    requires Normalized(rows, r)
    ensures |r| == |BestOf(rows)|
    ensures forall row :: row in rows && Named(row) ==> RowKey(row) in BestOf(rows)
    ensures forall k :: k in BestOf(rows) ==> IsTop(rows, BestOf(rows)[k]) && RowKey(BestOf(rows)[k]) == k
  {
    BestIsTop(rows);
    OrderedHasDistinct(r);
    EntryCount(BestOf(rows), BestOf(rows).Keys);
    AllEntries(BestOf(rows));
    assert |BestOf(rows).Keys| == |BestOf(rows)|;
  }

  lemma {:induction false} OrderedHasDistinct(r: seq<Entry>)
    requires Ordered(r)
    ensures |Elems(r)| == |r|
    decreases |r|
  {
    if r != [] {
      TailElems(r);
      OrderedHasDistinct(r[1..]);
      assert r[0] in Elems(r);
      assert Elems(r) == Elems(r[1..]) + {r[0]};
    }
  }

  lemma {:induction false} EntryCount(best: Best, keys: set<(string, string)>)
    requires KeyedByProgram(best) && keys <= best.Keys
    ensures |EntriesIn(best, keys)| == |keys|
    decreases |keys|
  {
    if keys == {} {
      assert EntriesIn(best, keys) == {};
    } else {
      var k :| k in keys;
      var rest := keys - {k};
      EntryCount(best, rest);
      OneMoreEntry(best, rest, k);
      assert rest + {k} == keys;
    }
  }

  lemma OneMoreEntry(best: Best, rest: set<(string, string)>, k: (string, string))
    requires KeyedByProgram(best) && k in best && k !in rest
    ensures |EntriesIn(best, rest + {k})| == |EntriesIn(best, rest)| + 1
  {
    NewEntryIsNew(best, rest, k);
  }

  // ---------------------------------------------------------------------------------------------
  // FitSoftwareEntries
  // ---------------------------------------------------------------------------------------------

  /**
   `size` is the length of the JSON encoding of a list of entries, or None where it cannot be encoded.
   The result is a prefix that fits or is empty, it is flagged exactly when it is shorter, and a list
   that fits is left alone.
   */
  method FitSoftwareEntries(entries: seq<Entry>, size: seq<Entry> -> Option<nat>) returns (fit: seq<Entry>,
        trimmed: bool)
    ensures |fit| <= |entries| && fit == entries[..|fit|] && |fit| <= MAX_ENTRIES
    ensures fit == [] || (size(fit).Some? && size(fit).value <= MAX_SECTION_BYTES)
    ensures trimmed <==> |fit| < |entries|
    ensures |entries| <= MAX_ENTRIES && size(entries).Some? && size(entries).value <= MAX_SECTION_BYTES ==> fit == entries
  {
    fit, trimmed := entries, false;
    if |fit| > MAX_ENTRIES {
      fit, trimmed := fit[..MAX_ENTRIES], true;
    }
    while |fit| > 0
      invariant |fit| <= |entries| && fit == entries[..|fit|] && |fit| <= MAX_ENTRIES
      invariant trimmed <==> |fit| < |entries|
      invariant |entries| <= MAX_ENTRIES && size(entries).Some? && size(entries).value <= MAX_SECTION_BYTES ==> fit == entries
      decreases |fit|
    {
      var encoded := size(fit);
      if encoded.None? {
        return [], true;
      }
      if encoded.value <= MAX_SECTION_BYTES {
        return;
      }
      var keep := |fit| * MAX_SECTION_BYTES / encoded.value;
      if keep >= |fit| {
        keep := |fit| - 1;
      }
      if keep < 0 {
        keep := 0;
      }
      fit, trimmed := fit[..keep], true;
    }
  }
}
