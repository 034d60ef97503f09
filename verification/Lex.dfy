/**
 Byte-wise string order: the order of Go's `<` on strings, of `sort.Strings`, and of Python's
 `sort_keys`.  Code-point order and the order of the UTF-8 bytes agree, so strings are compared
 by character.
 */
module Lex {
  import opened Basics

  predicate Less(a: string, b: string) {
    if b == [] then false
    else if a == [] then true
    else if a[0] != b[0] then a[0] < b[0]
    else Less(a[1..], b[1..])
  }

  lemma {:induction false} LessTrichotomy(a: string, b: string)
    ensures Less(a, b) || a == b || Less(b, a)
    ensures !(Less(a, b) && Less(b, a))
    ensures !Less(a, a)
  {
    if a != [] && b != [] && a[0] == b[0] {
      LessTrichotomy(a[1..], b[1..]);
      assert a == [a[0]] + a[1..] && b == [b[0]] + b[1..];
    }
    if a != [] {
      LessTrichotomy(a[1..], a[1..]);
    }
  }

  lemma {:induction false} LessTransitive(a: string, b: string, c: string)
    requires Less(a, b) && Less(b, c)
    ensures Less(a, c)
  {
    if a != [] && b != [] && c != [] && a[0] == b[0] == c[0] {
      LessTransitive(a[1..], b[1..], c[1..]);
    }
  }

  predicate IsLeast(x: string, s: set<string>) {
    x in s && forall y :: y in s && y != x ==> Less(x, y)
  }

  lemma LeastExists(s: set<string>)
    requires s != {}
    ensures exists x :: IsLeast(x, s)
    decreases |s|
  {
    var x :| x in s;
    var rest := s - {x};
    if rest == {} {
      assert s == {x};
      assert IsLeast(x, s);
    } else {
      LeastExists(rest);
      var m :| IsLeast(m, rest);
      LessTrichotomy(x, m);
      if Less(m, x) {
        assert IsLeast(m, s);
      } else {
        forall y | y in s && y != x
          ensures Less(x, y)
        {
          if y != m {
            LessTransitive(x, m, y);
          }
        }
        assert IsLeast(x, s);
      }
    }
  }

  lemma LeastUnique(x: string, y: string, s: set<string>)
    requires IsLeast(x, s) && IsLeast(y, s)
    ensures x == y
  {
    if x != y {
      LessTrichotomy(x, y);
    }
  }

  function Least(s: set<string>): (x: string)
    requires s != {}
    ensures IsLeast(x, s)
  {
    LeastExists(s);
    assert forall x, y :: IsLeast(x, s) && IsLeast(y, s) ==> x == y by {
      forall x, y | IsLeast(x, s) && IsLeast(y, s)
        ensures x == y
      {
        LeastUnique(x, y, s);
      }
    }
    var x :| x in s && IsLeast(x, s);
    x
  }

  lemma ElemsCons(x: string, rest: seq<string>)
    ensures Elems([x] + rest) == {x} + Elems(rest)
  {
    var r := [x] + rest;
    assert r[0] == x;
    forall y | y in rest
      ensures y in r
    {
      var i :| 0 <= i < |rest| && rest[i] == y;
      assert r[i + 1] == y;
    }
  }

  /** The elements of a finite set in increasing order: what `sort.Slice` and `sort_keys` produce. */
  function SortedSeq(s: set<string>): (r: seq<string>)
    ensures Elems(r) == s
    ensures |r| == |s|
  {
    if s == {} then []
    else
      var x := Least(s);
      var rest := SortedSeq(s - {x});
      ElemsCons(x, rest);
      [x] + rest
  }

  ghost predicate StrictlySorted(r: seq<string>) {
    forall i, j :: 0 <= i < j < |r| ==> Less(r[i], r[j])
  }

  lemma {:induction false} SortedSeqIsSorted(s: set<string>)
    ensures StrictlySorted(SortedSeq(s))
    decreases |s|
  {
    if s != {} {
      var x := Least(s);
      SortedSeqIsSorted(s - {x});
      var rest := SortedSeq(s - {x});
      forall j | 0 <= j < |rest|
        ensures Less(x, rest[j])
      {
        assert rest[j] in Elems(rest);
      }
    }
  }

  lemma SortedHead(r: seq<string>, s: set<string>)
    requires StrictlySorted(r) && Elems(r) == s && r != []
    ensures s != {} && r[0] == Least(s)
    ensures r == [r[0]] + r[1..] && Elems(r[1..]) == s - {r[0]}
  {
    assert r[0] in s;
    forall y | y in s && y != r[0]
      ensures Less(r[0], y)
    {
      var i :| 0 <= i < |r| && r[i] == y;
    }
    LeastUnique(r[0], Least(s), s);
    assert r == [r[0]] + r[1..];
    ElemsCons(r[0], r[1..]);
    if r[0] in r[1..] {
      var i :| 0 <= i < |r[1..]| && r[1..][i] == r[0];
      assert Less(r[0], r[i + 1]);
      LessTrichotomy(r[0], r[0]);
    }
  }

  /** Sorting has one answer: any strictly increasing listing of a set is `SortedSeq`. */
  lemma {:induction false} SortedSeqUnique(r: seq<string>, s: set<string>)
    requires StrictlySorted(r) && Elems(r) == s
    ensures r == SortedSeq(s)
    decreases |r|
  {
    if r == [] {
      assert s == {};
    } else {
      SortedHead(r, s);
      SortedSeqUnique(r[1..], s - {r[0]});
    }
  }
}
