/**
 Release versions (agent/internal/selfupdate/version.go): parsing, `Compare`, and its relation to
 the precedence of section 11 of Semantic Versioning 2.0.0.
 */
module Version {
  import opened Basics
  import opened Numerals
  import Lex

  /** strconv.Atoi on text without '+': an optional '-', then digits, within the int range. */
  function Atoi(s: string): Option<int> {
    match IntValue(s)
    case None => None
    case Some(n) => if -MAX_INT64 - 1 <= n <= MAX_INT64 then Some(n) else None
  }

  /** strings.Split: never empty, and inverse to joining with the separator. */
  function Split(s: string, sep: char): (parts: seq<string>)
    ensures |parts| >= 1
  {
    if s == [] then [[]]
    else
      var rest := Split(s[1..], sep);
      if s[0] == sep then [[]] + rest else [[s[0]] + rest[0]] + rest[1..]
  }

  function Join(parts: seq<string>, sep: char): string
    requires |parts| >= 1
  {
    if |parts| == 1 then parts[0] else parts[0] + [sep] + Join(parts[1..], sep)
  }

  lemma {:induction false} JoinSplit(s: string, sep: char)
    ensures Join(Split(s, sep), sep) == s
  {
    if s != [] {
      JoinSplit(s[1..], sep);
      var rest := Split(s[1..], sep);
      JoinHead(s[0], rest, sep);
      assert s == [s[0]] + s[1..];
    }
  }

  /** One more character in front: its own empty part if it separates, else the start of the first part. */
  lemma JoinHead(c: char, rest: seq<string>, sep: char)
    requires |rest| >= 1
    ensures Join([[]] + rest, sep) == [sep] + Join(rest, sep)
    ensures Join([[c] + rest[0]] + rest[1..], sep) == [c] + Join(rest, sep)
  {
    var empty: string := [];
    assert ([empty] + rest)[1..] == rest;
    var longer := [[c] + rest[0]] + rest[1..];
    assert longer[1..] == rest[1..];
    if |rest| > 1 {
      var tail := Join(rest[1..], sep);
      assert [c] + rest[0] + [sep] + tail == [c] + (rest[0] + [sep] + tail);
    }
  }

  lemma {:induction false} SplitPlain(s: string, sep: char)
    requires sep !in s
    ensures Split(s, sep) == [s]
  {
    if s != [] {
      SplitPlain(s[1..], sep);
      assert [s[0]] + s[1..] == s;
    }
  }

  datatype Version = Version(major: int, minor: int, patch: int, prerelease: string)

  predicate IsNumericField(s: string) {
    1 <= |s| <= 6 && AllDigits(s)
  }

  predicate IsPrereleaseChar(c: char) {
    IsDigit(c) || 'A' <= c <= 'Z' || 'a' <= c <= 'z' || c == '.' || c == '-'
  }

  predicate IsPrereleaseText(s: string) {
    1 <= |s| <= 64 && forall i :: 0 <= i < |s| ==> IsPrereleaseChar(s[i])
  }

  function IndexOf(s: string, c: char): (i: nat)
    ensures i <= |s|
    ensures i < |s| ==> s[i] == c
    ensures c !in s[..i]
  {
    if s == [] || s[0] == c then 0 else 1 + IndexOf(s[1..], c)
  }

  /** MAJOR.MINOR.PATCH[-prerelease]; the core holds no dash, so the first dash ends it. */
  function ParseVersion(raw: string): Option<Version> {
    var dash := IndexOf(raw, '-');
    var fields := Split(raw[..dash], '.');
    if |fields| != 3 || !IsNumericField(fields[0]) || !IsNumericField(fields[1]) || !IsNumericField(fields[2]) then None
    else if dash < |raw| && !IsPrereleaseText(raw[dash + 1..]) then None
    else
      Some(Version(DecimalValue(fields[0]), DecimalValue(fields[1]), DecimalValue(fields[2]),
                   if dash < |raw| then raw[dash + 1..] else ""))
  }

  function Sign(less: bool): int {
    if less then -1 else 1
  }

  /** One step of the identifier walk, for identifiers that differ. */
  function CompareIdentifiers(a: string, b: string): int {
    var x, y := Atoi(a), Atoi(b);
    if x.Some? && y.Some? then Sign(x.value < y.value)
    else if x.Some? then -1
    else if y.Some? then 1
    else Sign(Lex.Less(a, b))
  }

  function CompareLists(a: seq<string>, b: seq<string>): int {
    if a == [] && b == [] then 0
    else if a == [] then -1
    else if b == [] then 1
    else if a[0] == b[0] then CompareLists(a[1..], b[1..])
    else CompareIdentifiers(a[0], b[0])
  }

  /** comparePrerelease: the index loop over both identifier lists. */
  method ComparePrerelease(a: string, b: string) returns (r: int)
    ensures r == CompareLists(Split(a, '.'), Split(b, '.'))
  {
    var left, right := Split(a, '.'), Split(b, '.');
    var i := 0;
    while i < |left| && i < |right|
      invariant 0 <= i <= |left| && i <= |right|
      invariant CompareLists(left, right) == CompareLists(left[i..], right[i..])
    {
      if left[i] != right[i] {
        var leftNum, rightNum := Atoi(left[i]), Atoi(right[i]);
        if leftNum.Some? && rightNum.Some? {
          return if leftNum.value < rightNum.value then -1 else 1;
        } else if leftNum.Some? {
          return -1;
        } else if rightNum.Some? {
          return 1;
        } else if Lex.Less(left[i], right[i]) {
          return -1;
        } else {
          return 1;
        }
      }
      i := i + 1;
    }
    if |left| < |right| {
      return -1;
    } else if |left| > |right| {
      return 1;
    }
    return 0;
  }

  function Compare(a: Version, b: Version): int {
    if a.major != b.major then Sign(a.major < b.major)
    else if a.minor != b.minor then Sign(a.minor < b.minor)
    else if a.patch != b.patch then Sign(a.patch < b.patch)
    else if a.prerelease == b.prerelease then 0
    else if a.prerelease == "" then 1
    else if b.prerelease == "" then -1
    else CompareLists(Split(a.prerelease, '.'), Split(b.prerelease, '.'))
  }

  // ---------------------------------------------------------------------------------------------
  // Where Compare is an order
  // ---------------------------------------------------------------------------------------------

  lemma SplitInjective(a: string, b: string)
    requires Split(a, '.') == Split(b, '.')
    ensures a == b
  {
    JoinSplit(a, '.');
    JoinSplit(b, '.');
  }

  lemma {:induction false} CompareListsZero(a: seq<string>, b: seq<string>)
    ensures CompareLists(a, b) == 0 <==> a == b
    ensures CompareLists(a, b) in {-1, 0, 1}
  {
    if a != [] && b != [] && a[0] == b[0] {
      CompareListsZero(a[1..], b[1..]);
      assert a == [a[0]] + a[1..] && b == [b[0]] + b[1..];
    }
  }

  /** Zero means the same fields, for all versions. */
  lemma CompareZero(a: Version, b: Version)
    ensures Compare(a, b) == 0 <==> a == b
    ensures Compare(a, b) in {-1, 0, 1}
  {
    CompareListsZero(Split(a.prerelease, '.'), Split(b.prerelease, '.'));
    if Split(a.prerelease, '.') == Split(b.prerelease, '.') {
      SplitInjective(a.prerelease, b.prerelease);
    }
  }

  /** Two different identifiers that read as the same number, such as "01" and "1". */
  predicate Clash(a: string, b: string) {
    a != b && Atoi(a).Some? && Atoi(a) == Atoi(b)
  }

  predicate FirstDifferenceClashes(a: seq<string>, b: seq<string>) {
    a != [] && b != [] && if a[0] == b[0] then FirstDifferenceClashes(a[1..], b[1..]) else Clash(a[0], b[0])
  }

  lemma {:induction false} CompareListsAntisymmetric(a: seq<string>, b: seq<string>)
    ensures CompareLists(a, b) == -CompareLists(b, a) <==> !FirstDifferenceClashes(a, b)
  {
    if a != [] && b != [] {
      if a[0] == b[0] {
        CompareListsAntisymmetric(a[1..], b[1..]);
      } else {
        Lex.LessTrichotomy(a[0], b[0]);
      }
    }
  }

  predicate SameCore(a: Version, b: Version) {
    a.major == b.major && a.minor == b.minor && a.patch == b.patch
  }

  /**
   Exactly when Compare is antisymmetric: the versions have different cores, or the first prerelease
   identifiers in which they differ do not read as the same number.
   */
  lemma CompareAntisymmetric(a: Version, b: Version)
    ensures Compare(a, b) == -Compare(b, a) <==>
      !(SameCore(a, b) && a.prerelease != "" && b.prerelease != ""
        && FirstDifferenceClashes(Split(a.prerelease, '.'), Split(b.prerelease, '.')))
  {
    CompareListsAntisymmetric(Split(a.prerelease, '.'), Split(b.prerelease, '.'));
    if a.prerelease == b.prerelease {
      NoSelfClash(Split(a.prerelease, '.'));
    }
  }

  lemma {:induction false} NoSelfClash(a: seq<string>)
    ensures !FirstDifferenceClashes(a, a)
  {
    if a != [] {
      NoSelfClash(a[1..]);
    }
  }

  /** Each of 1.0.0-01 and 1.0.0-1 compares greater than the other. */
  lemma LeadingZerosBreakAntisymmetry()
    ensures Compare(Version(1, 0, 0, "01"), Version(1, 0, 0, "1")) == 1
    ensures Compare(Version(1, 0, 0, "1"), Version(1, 0, 0, "01")) == 1
  {
    SplitPlain("1", '.');
    SplitPlain("01", '.');
    assert DecimalValue("0") == 0 by {
      assert "0"[..0] == "";
    }
    assert "1"[..0] == "" && "01"[..1] == "0";
    assert DecimalValue("1") == 1 && DecimalValue("01") == 1;
    assert Atoi("1") == Some(1) && Atoi("01") == Some(1);
  }

  /** An identifier whose number, if it reads as one, is written canonically and without a sign. */
  predicate CanonicalIdentifier(s: string) {
    Atoi(s).Some? ==> s[0] != '-' && (|s| > 1 ==> s[0] != '0')
  }

  predicate Canonical(v: Version) {
    var ids := Split(v.prerelease, '.');
    forall i :: 0 <= i < |ids| ==> CanonicalIdentifier(ids[i])
  }

  lemma {:induction false} DecimalPositive(a: string)
    requires AllDigits(a) && a != [] && a[0] != '0'
    ensures DecimalValue(a) >= 1
  {
    if |a| > 1 {
      DecimalPositive(a[..|a| - 1]);
    }
  }

  /** Canonical decimals denote different numbers when they are different strings. */
  lemma {:induction false} DecimalInjective(a: string, b: string)
    requires AllDigits(a) && AllDigits(b)
    requires a != [] && b != []
    requires (|a| > 1 ==> a[0] != '0') && (|b| > 1 ==> b[0] != '0')
    requires DecimalValue(a) == DecimalValue(b)
    ensures a == b
    decreases |a|
  {
    var a', b' := a[..|a| - 1], b[..|b| - 1];
    assert a == a' + [a[|a| - 1]] && b == b' + [b[|b| - 1]];
    assert DecimalValue(a') == DecimalValue(b') && a[|a| - 1] == b[|b| - 1];
    if a' != [] && b' != [] {
      DecimalInjective(a', b');
    } else if a' != [] {
      DecimalPositive(a');
    } else if b' != [] {
      DecimalPositive(b');
    }
  }

  lemma CanonicalNoClash(a: string, b: string)
    requires CanonicalIdentifier(a) && CanonicalIdentifier(b)
    ensures !Clash(a, b)
  {
    if Atoi(a).Some? && Atoi(a) == Atoi(b) {
      DecimalInjective(a, b);
    }
  }

  predicate CanonicalList(a: seq<string>) {
    forall i :: 0 <= i < |a| ==> CanonicalIdentifier(a[i])
  }

  lemma {:induction false} CanonicalListsNoClash(a: seq<string>, b: seq<string>)
    requires CanonicalList(a) && CanonicalList(b)
    ensures !FirstDifferenceClashes(a, b)
  {
    if a != [] && b != [] {
      if a[0] == b[0] {
        CanonicalListsNoClash(a[1..], b[1..]);
      } else {
        CanonicalNoClash(a[0], b[0]);
      }
    }
  }

  lemma IdentifiersTransitive(a: string, b: string, c: string)
    requires CanonicalIdentifier(a) && CanonicalIdentifier(b) && CanonicalIdentifier(c)
    requires a != b && b != c
    requires CompareIdentifiers(a, b) == -1 && CompareIdentifiers(b, c) == -1
    ensures a != c && CompareIdentifiers(a, c) == -1
  {
    CanonicalNoClash(a, b);
    Lex.LessTrichotomy(a, b);
    if Lex.Less(a, b) && Lex.Less(b, c) {
      Lex.LessTransitive(a, b, c);
      Lex.LessTrichotomy(a, c);
    }
  }

  lemma {:induction false} CompareListsTransitive(a: seq<string>, b: seq<string>, c: seq<string>)
    requires CanonicalList(a) && CanonicalList(b) && CanonicalList(c)
    requires CompareLists(a, b) == -1 && CompareLists(b, c) == -1
    ensures CompareLists(a, c) == -1
  {
    if a != [] && b != [] && c != [] {
      if a[0] == b[0] && b[0] == c[0] {
        CompareListsTransitive(a[1..], b[1..], c[1..]);
      } else if a[0] != b[0] && b[0] != c[0] {
        IdentifiersTransitive(a[0], b[0], c[0]);
      }
    }
  }

  /** On canonical versions Compare is a strict total order: total, antisymmetric and transitive. */
  lemma CompareIsTotalOrder(a: Version, b: Version, c: Version)
    requires Canonical(a) && Canonical(b) && Canonical(c)
    ensures Compare(a, b) == -Compare(b, a)
    ensures Compare(a, b) == -1 || a == b || Compare(b, a) == -1
    ensures Compare(a, b) == -1 && Compare(b, c) == -1 ==> Compare(a, c) == -1
  {
    var x, y, z := Split(a.prerelease, '.'), Split(b.prerelease, '.'), Split(c.prerelease, '.');
    CompareZero(a, b);
    CanonicalListsNoClash(x, y);
    CompareAntisymmetric(a, b);
    if Compare(a, b) == -1 && Compare(b, c) == -1 && SameCore(a, b) && SameCore(b, c) {
      if a.prerelease != "" && b.prerelease != "" && c.prerelease != "" {
        CompareListsTransitive(x, y, z);
        CompareListsZero(x, z);
      }
    }
  }

  // ---------------------------------------------------------------------------------------------
  // Semantic Versioning 2.0.0, section 11
  // ---------------------------------------------------------------------------------------------

  /** Section 9: an identifier of digits only is numeric. */
  predicate NumericIdentifier(s: string) {
    s != [] && AllDigits(s)
  }

  /** Clauses 11.4.1 to 11.4.3: numeric by value, alphanumeric in ASCII order, numeric first. */
  predicate IdentifierPrecedes(a: string, b: string) {
    if NumericIdentifier(a) && NumericIdentifier(b) then DecimalValue(a) < DecimalValue(b)
    else if NumericIdentifier(a) then true
    else if NumericIdentifier(b) then false
    else Lex.Less(a, b)
  }

  /** The first `k` identifiers agree, and there either `a` ends or its next identifier precedes (11.4.4). */
  ghost predicate PrecedesAt(a: seq<string>, b: seq<string>, k: nat) {
    && k <= |a| && k < |b| && a[..k] == b[..k]
    && (k == |a| || (a[k] != b[k] && IdentifierPrecedes(a[k], b[k])))
  }

  /** Clauses 11.1 to 11.4 as a relation, independent of Compare. */
  ghost predicate Precedes(a: Version, b: Version) {
    || a.major < b.major
    || (a.major == b.major && a.minor < b.minor)
    || (a.major == b.major && a.minor == b.minor && a.patch < b.patch)
    || (SameCore(a, b) && a.prerelease != "" && b.prerelease == "")
    || (SameCore(a, b) && a.prerelease != "" && b.prerelease != ""
        && exists k: nat :: PrecedesAt(Split(a.prerelease, '.'), Split(b.prerelease, '.'), k))
  }

  /** Numeric identifiers stay within Go's int, and none of the others reads as a number. */
  predicate Ordinary(s: string) {
    && CanonicalIdentifier(s)
    && (NumericIdentifier(s) ==> DecimalValue(s) <= MAX_INT64)
  }

  lemma OrdinaryIdentifiers(a: string, b: string)
    requires Ordinary(a) && Ordinary(b) && a != b
    ensures CompareIdentifiers(a, b) == -1 <==> IdentifierPrecedes(a, b)
  {
    assert NumericIdentifier(a) <==> Atoi(a).Some?;
    assert NumericIdentifier(b) <==> Atoi(b).Some?;
  }

  lemma {:induction false} CompareListsIsPrecedence(a: seq<string>, b: seq<string>)
    requires (forall i :: 0 <= i < |a| ==> Ordinary(a[i])) && (forall i :: 0 <= i < |b| ==> Ordinary(b[i]))
    ensures CompareLists(a, b) == -1 <==> exists k: nat :: PrecedesAt(a, b, k)
  {
    if a == [] {
      if b != [] {
        assert PrecedesAt(a, b, 0);
      }
    } else if b != [] {
      if a[0] != b[0] {
        FirstDecides(a, b);
      } else {
        CompareListsIsPrecedence(a[1..], b[1..]);
        EqualHeadsDecideNothing(a, b);
      }
    }
  }

  lemma FirstDecides(a: seq<string>, b: seq<string>)
    requires a != [] && b != [] && a[0] != b[0] && Ordinary(a[0]) && Ordinary(b[0])
    ensures CompareLists(a, b) == -1 <==> exists k: nat :: PrecedesAt(a, b, k)
  {
    OrdinaryIdentifiers(a[0], b[0]);
    assert CompareLists(a, b) == -1 ==> PrecedesAt(a, b, 0);
    forall k: nat | PrecedesAt(a, b, k)
      ensures CompareLists(a, b) == -1
    {
      if k > 0 {
        assert a[..k][0] == b[..k][0];
      }
    }
  }

  lemma EqualHeadsDecideNothing(a: seq<string>, b: seq<string>)
    requires a != [] && b != [] && a[0] == b[0]
    ensures (exists k: nat :: PrecedesAt(a, b, k)) <==> exists k: nat :: PrecedesAt(a[1..], b[1..], k)
  {
    forall k: nat | PrecedesAt(a, b, k)
      ensures k > 0 && PrecedesAt(a[1..], b[1..], k - 1)
    {
      assert a[1..][..k - 1] == a[..k][1..] && b[1..][..k - 1] == b[..k][1..];
    }
    forall k: nat | PrecedesAt(a[1..], b[1..], k)
      ensures PrecedesAt(a, b, k + 1)
    {
      assert a[..k + 1] == [a[0]] + a[1..][..k] && b[..k + 1] == [b[0]] + b[1..][..k];
    }
  }

  /** Compare is the precedence of the standard, both ways, for versions with ordinary identifiers. */
  lemma CompareFollowsSemVer(a: Version, b: Version)
    requires forall s :: s in Split(a.prerelease, '.') || s in Split(b.prerelease, '.') ==> Ordinary(s)
    ensures Compare(a, b) == -1 <==> Precedes(a, b)
  {
    var x, y := Split(a.prerelease, '.'), Split(b.prerelease, '.');
    CompareListsIsPrecedence(x, y);
    CompareListsZero(x, y);
  }

  // ---------------------------------------------------------------------------------------------
  // Chains of updates
  // ---------------------------------------------------------------------------------------------

  /** Above something that is not below `a` is above `a`. */
  lemma AboveIsTransitive(a: Version, b: Version, c: Version)
    requires Canonical(a) && Canonical(b) && Canonical(c)
    requires Compare(b, a) >= 0 && Compare(c, b) > 0
    ensures Compare(c, a) > 0
  {
    CompareIsTotalOrder(a, b, c);
    CompareIsTotalOrder(b, c, a);
    CompareIsTotalOrder(a, c, b);
    CompareZero(b, c);
    assert Compare(b, c) == -1;
  }

  lemma AboveIsDifferent(a: Version, b: Version)
    requires Compare(b, a) > 0
    ensures a != b
  {
    CompareZero(b, a);
  }
}
