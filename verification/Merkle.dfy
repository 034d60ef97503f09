/**
 The Merkle root of the audit anchors (server/scripts/verify_evidence_bundle.py and
 verify_anchor_receipt.py carry the same construction).  The hash is a parameter; binding is stated
 as "equal, or two different inputs that were hashed while the two trees were built have one hash".
 */
module Merkle {
  import opened Basics
  import opened Json

  type Hash = Bytes -> Bytes

  // ---------------------------------------------------------------------------------------------
  // Hexadecimal text
  // ---------------------------------------------------------------------------------------------

  predicate IsAsciiSpace(c: char) {
    c == ' ' || 9 <= c as int <= 13
  }

  /** bytes.fromhex: pairs of digits, with ASCII whitespace skipped between pairs. */
  function FromHex(s: string): (r: Option<Bytes>)
    ensures r.Some? ==> 2 * |r.value| <= |s|
  {
    if s == [] then Some([])
    else if IsAsciiSpace(s[0]) then FromHex(s[1..])
    else if |s| < 2 || HexValue(s[0]) == 16 || HexValue(s[1]) == 16 then None
    else
      match FromHex(s[2..])
      case None => None
      case Some(rest) => Some([(16 * HexValue(s[0]) + HexValue(s[1])) as Byte] + rest)
  }

  function ToHex(b: Bytes): (s: string)
    ensures |s| == 2 * |b|
  {
    if b == [] then "" else [HexDigit(b[0] as int / 16), HexDigit(b[0] as int % 16)] + ToHex(b[1..])
  }

  lemma HexDigitValue(n: int)
    requires 0 <= n < 16
    ensures HexValue(HexDigit(n)) == n && !IsAsciiSpace(HexDigit(n))
  {
  }

  lemma HexPair(b: Byte, text: string)
    ensures var hi, lo := HexDigit(b as int / 16), HexDigit(b as int % 16);
      FromHex([hi, lo] + text) == if FromHex(text).None? then None else Some([b] + FromHex(text).value)
  {
    var hi, lo := HexDigit(b as int / 16), HexDigit(b as int % 16);
    HexDigitValue(b as int / 16);
    HexDigitValue(b as int % 16);
    assert ([hi, lo] + text)[2..] == text;
    assert 16 * (b as int / 16) + b as int % 16 == b as int;
  }

  lemma {:induction false} HexRoundTrip(b: Bytes)
    ensures FromHex(ToHex(b)) == Some(b)
  {
    if b != [] {
      HexRoundTrip(b[1..]);
      HexPair(b[0], ToHex(b[1..]));
      assert b == [b[0]] + b[1..];
    }
  }

  lemma ToHexInjective(a: Bytes, b: Bytes)
    requires ToHex(a) == ToHex(b)
    ensures a == b
  {
    HexRoundTrip(a);
    HexRoundTrip(b);
  }

  // ---------------------------------------------------------------------------------------------
  // The tree shape
  // ---------------------------------------------------------------------------------------------

  predicate IsPowerOfTwo(k: nat) {
    k == 1 || (k > 1 && k % 2 == 0 && IsPowerOfTwo(k / 2))
  }

  /** The largest power of two below n. */
  function SplitPoint(n: nat): (k: nat)
    requires n >= 2
    ensures 1 <= k < n <= 2 * k && IsPowerOfTwo(k)
  {
    if n == 2 then 1
    else
      var half := SplitPoint((n + 1) / 2);
      assert 2 * half / 2 == half;
      2 * half
  }

  lemma {:induction false} SplitPointIsTheLargest(n: nat, k: nat)
    requires n >= 2 && k < n && IsPowerOfTwo(k)
    ensures k <= SplitPoint(n)
  {
    if n > 2 && k > 1 {
      SplitPointIsTheLargest((n + 1) / 2, k / 2);
    }
  }

  /** The tree of section 2.1 of RFC 6962, without its leaf and node prefixes. */
  function Tree(H: Hash, leaves: seq<Bytes>): Bytes
    requires leaves != []
    decreases |leaves|
  {
    if |leaves| == 1 then leaves[0]
    else
      var k := SplitPoint(|leaves|);
      H(Tree(H, leaves[..k]) + Tree(H, leaves[k..]))
  }

  /** One pass of the loop: neighbours are hashed together, an odd last node is carried up. */
  function NextLevel(H: Hash, level: seq<Bytes>): (r: seq<Bytes>)
    ensures |r| == (|level| + 1) / 2
  {
    if |level| <= 1 then level else [H(level[0] + level[1])] + NextLevel(H, level[2..])
  }

  lemma {:induction false} NextLevelConcat(H: Hash, a: seq<Bytes>, b: seq<Bytes>)
    requires |a| % 2 == 0
    ensures NextLevel(H, a + b) == NextLevel(H, a) + NextLevel(H, b)
  {
    if a == [] {
      assert a + b == b;
    } else {
      NextLevelConcat(H, a[2..], b);
      assert (a + b)[2..] == a[2..] + b;
      Assoc([H(a[0] + a[1])], NextLevel(H, a[2..]), NextLevel(H, b));
    }
  }

  /** A pass of the loop leaves the root of the tree as it is. */
  lemma {:induction false} PassKeepsTheRoot(H: Hash, level: seq<Bytes>)
    requires |level| >= 2
    ensures Tree(H, NextLevel(H, level)) == Tree(H, level)
    decreases |level|
  {
    var n := |level|;
    if n == 2 {
      assert NextLevel(H, level) == [H(level[0] + level[1])] + [];
      assert level[..1] == [level[0]] && level[1..] == [level[1]];
    } else {
      var k := SplitPoint(n);
      assert k == 2 * SplitPoint((n + 1) / 2);
      var left, right := level[..k], level[k..];
      var next := NextLevel(H, level);
      assert level == left + right;
      NextLevelConcat(H, left, right);
      assert next[..k / 2] == NextLevel(H, left) && next[k / 2..] == NextLevel(H, right);
      PassKeepsTheRoot(H, left);
      if |right| >= 2 {
        PassKeepsTheRoot(H, right);
      }
    }
  }

  // ---------------------------------------------------------------------------------------------
  // merkle_root
  // ---------------------------------------------------------------------------------------------

  datatype MerkleError = NoLeaves | NotHexadecimal

  predicate AllHex(hashes: seq<string>) {
    forall i :: 0 <= i < |hashes| ==> FromHex(hashes[i]).Some?
  }

  function Leaves(hashes: seq<string>): (r: seq<Bytes>)
    requires AllHex(hashes)
    ensures |r| == |hashes| && forall i :: 0 <= i < |r| ==> r[i] == FromHex(hashes[i]).value
  {
    seq(|hashes|, i requires 0 <= i < |hashes| => FromHex(hashes[i]).value)
  }

  function MerkleRootOf(H: Hash, hashes: seq<string>): Result<string, MerkleError> {
    if hashes == [] then Err(NoLeaves)
    else if !AllHex(hashes) then Err(NotHexadecimal)
    else Ok(ToHex(Tree(H, Leaves(hashes))))
  }

  /** The list comprehension over bytes.fromhex. */
  method DecodeLeaves(hashes: seq<string>) returns (level: Option<seq<Bytes>>)
    ensures level == if AllHex(hashes) then Some(Leaves(hashes)) else None
  {
    var leaves: seq<Bytes> := [];
    for i := 0 to |hashes|
      invariant |leaves| == i
      invariant forall j :: 0 <= j < i ==> FromHex(hashes[j]) == Some(leaves[j])
    {
      var leaf := FromHex(hashes[i]);
      if leaf.None? {
        return None;
      }
      leaves := leaves + [leaf.value];
    }
    assert leaves == Leaves(hashes);
    level := Some(leaves);
  }

  /** The next pair of a level is hashed together. */
  lemma NextPair(H: Hash, level: seq<Bytes>, index: nat)
    requires index + 1 < |level|
    ensures NextLevel(H, level[index..]) == [H(level[index] + level[index + 1])] + NextLevel(H, level[index + 2..])
  {
    var rest := level[index..];
    assert rest[0] == level[index] && rest[1] == level[index + 1] && rest[2..] == level[index + 2..];
  }

  /** What is left of a level after its pairs is carried up. */
  lemma LastOfLevel(H: Hash, level: seq<Bytes>, index: nat)
    requires |level| - 1 <= index <= |level|
    ensures NextLevel(H, level[index..]) == level[index..]
  {
  }

  /** The inner loop: one level from the one below it. */
  method HashLevel(H: Hash, level: seq<Bytes>) returns (next: seq<Bytes>)
    ensures next == NextLevel(H, level)
  {
    next := [];
    var index := 0;
    while index < |level| - 1
      invariant 0 <= index <= |level| && index % 2 == 0
      invariant NextLevel(H, level) == next + NextLevel(H, level[index..])
    {
      var node := H(level[index] + level[index + 1]);
      NextPair(H, level, index);
      Assoc(next, [node], NextLevel(H, level[index + 2..]));
      next := next + [node];
      index := index + 2;
    }
    LastOfLevel(H, level, index);
    if |level| % 2 == 1 {
      assert level[index..] == [level[|level| - 1]];
      next := next + [level[|level| - 1]];
    }
  }

  /** merkle_root: the level-by-level loop computes the root of the recursive tree. */
  method MerkleRoot(H: Hash, hashes: seq<string>) returns (root: Result<string, MerkleError>)
    ensures root == MerkleRootOf(H, hashes)
  {
    if hashes == [] {
      return Err(NoLeaves);
    }
    var leaves := DecodeLeaves(hashes);
    if leaves.None? {
      return Err(NotHexadecimal);
    }
    var level := leaves.value;
    while |level| > 1
      invariant level != [] && Tree(H, level) == Tree(H, Leaves(hashes))
      decreases |level|
    {
      PassKeepsTheRoot(H, level);
      level := HashLevel(H, level);
    }
    root := Ok(ToHex(level[0]));
  }

  // ---------------------------------------------------------------------------------------------
  // Binding
  // ---------------------------------------------------------------------------------------------

  /** Everything that is hashed while the tree over these leaves is built. */
  function Inputs(H: Hash, leaves: seq<Bytes>): (r: set<Bytes>)
    requires leaves != []
    decreases |leaves|
  {
    if |leaves| == 1 then {}
    else
      var k := SplitPoint(|leaves|);
      {Tree(H, leaves[..k]) + Tree(H, leaves[k..])} + Inputs(H, leaves[..k]) + Inputs(H, leaves[k..])
  }

  /** The two trees themselves exhibit a collision of the hash: an input of each, different, with one hash. */
  ghost predicate Collide(H: Hash, xs: seq<Bytes>, ys: seq<Bytes>)
    requires xs != [] && ys != []
  {
    exists x, y :: x in Inputs(H, xs) && y in Inputs(H, ys) && x != y && H(x) == H(y)
  }

  /** The inputs of a part are inputs of the whole. */
  lemma CollideInParts(H: Hash, xs: seq<Bytes>, ys: seq<Bytes>)
    requires |xs| == |ys| > 1
    requires var k := SplitPoint(|xs|); Collide(H, xs[..k], ys[..k]) || Collide(H, xs[k..], ys[k..])
    ensures Collide(H, xs, ys)
  {
    var k := SplitPoint(|xs|);
    if Collide(H, xs[..k], ys[..k]) {
      var x, y :| x in Inputs(H, xs[..k]) && y in Inputs(H, ys[..k]) && x != y && H(x) == H(y);
      assert x in Inputs(H, xs) && y in Inputs(H, ys);
    } else {
      var x, y :| x in Inputs(H, xs[k..]) && y in Inputs(H, ys[k..]) && x != y && H(x) == H(y);
      assert x in Inputs(H, xs) && y in Inputs(H, ys);
    }
  }

  ghost predicate Is32(H: Hash) {
    forall x :: |H(x)| == 32
  }

  ghost predicate AllOfLength32(xs: seq<Bytes>) {
    forall i :: 0 <= i < |xs| ==> |xs[i]| == 32
  }

  ghost predicate AllAtMost32(xs: seq<Bytes>) {
    forall i :: 0 <= i < |xs| ==> |xs[i]| <= 32
  }

  lemma TreeLength(H: Hash, xs: seq<Bytes>)
    requires xs != [] && Is32(H) && AllAtMost32(xs)
    ensures |Tree(H, xs)| <= 32
    ensures AllOfLength32(xs) ==> |Tree(H, xs)| == 32
  {
  }

  lemma HalvesAgree(H: Hash, xs: seq<Bytes>, ys: seq<Bytes>, k: nat)
    requires |xs| == |ys| > 1 && k == SplitPoint(|xs|) && Is32(H) && AllOfLength32(xs) && AllAtMost32(ys)
    requires Tree(H, xs) == Tree(H, ys)
    ensures (Tree(H, xs[..k]) == Tree(H, ys[..k]) && Tree(H, xs[k..]) == Tree(H, ys[k..])) || Collide(H, xs, ys)
  {
    var a, b, c, d := Tree(H, xs[..k]), Tree(H, xs[k..]), Tree(H, ys[..k]), Tree(H, ys[k..]);
    if a + b == c + d {
      TreeLength(H, xs[..k]);
      TreeLength(H, xs[k..]);
      TreeLength(H, ys[..k]);
      TreeLength(H, ys[k..]);
      assert |a + b| == 64 == |c + d|;
      SplitEqual(a, b, c, d);
    } else {
      assert a + b in Inputs(H, xs) && c + d in Inputs(H, ys);
    }
  }

  /**
   Two lists of the same length with the same root are the same list, or somewhere in their trees two
   different inputs have one hash.  Only one side needs full digests: a list of hashes the auditor trusts against any list of texts of
   64 characters.
   */
  lemma {:induction false} RootBindsLeaves(H: Hash, xs: seq<Bytes>, ys: seq<Bytes>)
    requires |xs| == |ys| >= 1 && Is32(H) && AllOfLength32(xs) && AllAtMost32(ys)
    requires Tree(H, xs) == Tree(H, ys)
    ensures xs == ys || Collide(H, xs, ys)
    decreases |xs|
  {
    if |xs| > 1 {
      var k := SplitPoint(|xs|);
      HalvesAgree(H, xs, ys, k);
      if !Collide(H, xs, ys) {
        RootBindsLeaves(H, xs[..k], ys[..k]);
        RootBindsLeaves(H, xs[k..], ys[k..]);
        if Collide(H, xs[..k], ys[..k]) || Collide(H, xs[k..], ys[k..]) {
          CollideInParts(H, xs, ys);
        }
        assert xs == xs[..k] + xs[k..] && ys == ys[..k] + ys[k..];
      }
    } else {
      assert xs == [xs[0]] && ys == [ys[0]];
    }
  }

  /** The same for the texts both scripts read and the text they compare. */
  lemma EqualRootsEqualLeaves(H: Hash, xs: seq<string>, ys: seq<string>)
    requires |xs| == |ys| && Is32(H)
    requires forall i :: 0 <= i < |ys| ==> |xs[i]| == 64 && |ys[i]| == 64
    requires MerkleRootOf(H, xs).Ok? && AllOfLength32(Leaves(xs))
    requires MerkleRootOf(H, xs) == MerkleRootOf(H, ys)
    ensures AllHex(ys) && (Leaves(xs) == Leaves(ys) || Collide(H, Leaves(xs), Leaves(ys)))
  {
    ToHexInjective(Tree(H, Leaves(xs)), Tree(H, Leaves(ys)));
    forall i | 0 <= i < |ys|
      ensures |Leaves(ys)[i]| <= 32
    {
      assert FromHex(ys[i]).Some?;
    }
    RootBindsLeaves(H, Leaves(xs), Leaves(ys));
  }

  /** With short leaves on both sides the root no longer tells where one leaf ends: any hash. */
  lemma ShortLeavesAreAmbiguous(H: Hash)
    ensures var xs, ys: seq<Bytes> := [[1], [2, 3]], [[1, 2], [3]];
      xs != ys && Tree(H, xs) == Tree(H, ys)
  {
    var xs, ys: seq<Bytes> := [[1], [2, 3]], [[1, 2], [3]];
    assert xs[..1] == [[1]] && xs[1..] == [[2, 3]] && ys[..1] == [[1, 2]] && ys[1..] == [[3]];
    var a: Bytes := [1];
    var b: Bytes := [2, 3];
    assert a + b == [1, 2] + [3];
    assert xs[0] != ys[0];
  }

  /** The root alone does not bind the count: every list of two or more has the root of a shorter one. */
  lemma RootDoesNotBindTheCount(H: Hash, xs: seq<Bytes>)
    requires |xs| >= 2
    ensures exists ys :: 1 <= |ys| < |xs| && Tree(H, ys) == Tree(H, xs)
  {
    PassKeepsTheRoot(H, xs);
    assert 1 <= |NextLevel(H, xs)| < |xs|;
  }
}
