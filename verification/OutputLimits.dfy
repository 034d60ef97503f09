/**
 Output capture of a command (agent/internal/executor/limits.go): the capped writers, the trim to a
 character boundary and the combined cap.  UTF-8 is section 4 of RFC 3629.
 */
module OutputLimits {
  import opened Basics

  const MAX_STREAM: nat := 256 * 1024
  const MAX_COMBINED: nat := 384 * 1024

  // ---------------------------------------------------------------------------------------------
  // UTF-8
  // ---------------------------------------------------------------------------------------------

  predicate IsContinuation(b: Byte) {
    0x80 <= b < 0xC0
  }

  /** What may follow the first byte of a character of more than one byte. */
  predicate GoodSecond(first: Byte, second: Byte) {
    if first == 0xE0 then 0xA0 <= second < 0xC0
    else if first == 0xED then 0x80 <= second < 0xA0
    else if first == 0xF0 then 0x90 <= second < 0xC0
    else if first == 0xF4 then 0x80 <= second < 0x90
    else IsContinuation(second)
  }

  /** The length the first byte announces, 0 for a byte that starts nothing. */
  function Announced(first: Byte): (n: nat)
    ensures n <= 4
  {
    if first < 0x80 then 1
    else if 0xC2 <= first < 0xE0 then 2
    else if 0xE0 <= first < 0xF0 then 3
    else if 0xF0 <= first < 0xF5 then 4
    else 0
  }

  /** DecodeRune: the length of the character at the front, 0 where Go returns (RuneError, 1) or no byte. */
  function CharSize(p: Bytes): (n: nat)
    ensures n <= |p| && n <= 4
  {
    if p == [] then 0
    else
      var n := Announced(p[0]);
      if n > |p| || (n >= 2 && !GoodSecond(p[0], p[1])) || (n >= 3 && !IsContinuation(p[2]))
        || (n == 4 && !IsContinuation(p[3]))
      then 0 else n
  }

  predicate WellFormed(p: Bytes) {
    p == [] || (CharSize(p) > 0 && WellFormed(p[CharSize(p)..]))
  }

  /** The characters at the front, up to the first place where there is none. */
  function WellFormedPrefix(p: Bytes): (w: Bytes)
    ensures |w| <= |p| && w == p[..|w|]
  {
    if CharSize(p) == 0 then [] else p[..CharSize(p)] + WellFormedPrefix(p[CharSize(p)..])
  }

  lemma SizeOfFront(p: Bytes, q: Bytes)
    requires CharSize(p) > 0
    ensures CharSize(p + q) == CharSize(p) == CharSize(p[..CharSize(p)])
  {
  }

  lemma {:induction false} PrefixIsWellFormed(p: Bytes)
    ensures WellFormed(WellFormedPrefix(p))
  {
    var n := CharSize(p);
    if n > 0 {
      PrefixIsWellFormed(p[n..]);
      var w := WellFormedPrefix(p);
      SizeOfFront(p[..n], w[n..]);
      SizeOfFront(p, []);
      assert w == p[..n] + w[n..];
      assert w[n..] == WellFormedPrefix(p[n..]);
    }
  }

  /** It is the longest one. */
  lemma {:induction false} PrefixIsLongest(p: Bytes, n: nat)
    requires n <= |p| && WellFormed(p[..n])
    ensures n <= |WellFormedPrefix(p)|
    decreases n
  {
    if n > 0 {
      var k := CharSize(p[..n]);
      SizeOfFront(p[..n], p[n..]);
      assert p == p[..n] + p[n..];
      assert p[k..][..n - k] == p[..n][k..];
      PrefixIsLongest(p[k..], n - k);
    }
  }

  // ---------------------------------------------------------------------------------------------
  // limitWriter
  // ---------------------------------------------------------------------------------------------

  function Capped(s: Bytes, max: nat): Bytes {
    if |s| <= max then s else s[..max]
  }

  class LimitWriter {
    const max: nat
    var buf: Bytes
    var total: int
    ghost var written: Bytes

    ghost predicate Valid()
      reads this
    {
      buf == Capped(written, max) && total == |written|
    }

    constructor (max: nat)
      ensures Valid() && this.max == max && written == []
    {
      this.max := max;
      buf, total, written := [], 0, [];
    }

    /** Always reports the full length; the excess is dropped. */
    method Write(p: Bytes) returns (n: nat)
      requires Valid()
      modifies this
      ensures Valid() && written == old(written) + p && n == |p|
    {
      n := |p|;
      total := total + n;
      var remaining := max - |buf|;
      if remaining > 0 {
        buf := buf + if n > remaining then p[..remaining] else p;
      }
      written := written + p;
    }

    method Truncated() returns (r: bool)
      requires Valid()
      ensures r == (|written| > max)
    {
      r := total > |buf|;
    }
  }

  // ---------------------------------------------------------------------------------------------
  // trimIncompleteRune
  // ---------------------------------------------------------------------------------------------

  /** The backward search of DecodeLastRune for a byte that is not a continuation byte. */
  function LastStart(p: Bytes, start: int, lim: nat): (r: int)
    requires start < |p|
    ensures lim - 1 <= r || r == start
    ensures r <= start
    decreases start - lim + 1
  {
    if start < lim then start
    else if !IsContinuation(p[start]) then start
    else LastStart(p, start - 1, lim)
  }

  /** DecodeLastRune: the length of the character at the end, 0 where Go returns (RuneError, 1). */
  function LastSize(p: Bytes): (n: nat)
    requires p != []
    ensures n <= |p|
  {
    var end := |p|;
    if p[end - 1] < 0x80 then 1
    else
      var lim := if end < 4 then 0 else end - 4;
      var found := LastStart(p, end - 2, lim);
      var start := if found < 0 then 0 else found;
      var size := CharSize(p[start..]);
      if start + size == end then size else 0
  }

  function Trimmed(b: Bytes, i: nat): (r: Bytes)
    ensures |b| - 3 + i <= |r| <= |b| || r == b
    ensures r == b[..|r|]
    decreases |b|
  {
    if i >= 3 || b == [] || LastSize(b) != 0 then b
    else
      var last := b[|b| - 1];
      var shorter := b[..|b| - 1];
      if last < 0x80 then b
      else if last >= 0xC0 then shorter
      else Trimmed(shorter, i + 1)
  }

  method TrimIncompleteRune(b: Bytes) returns (r: Bytes)
    ensures r == Trimmed(b, 0)
  {
    r := b;
    var i := 0;
    while i < 3 && |r| > 0
      invariant Trimmed(b, 0) == Trimmed(r, i)
      decreases |r|
    {
      if LastSize(r) != 0 {
        return;
      }
      var last := r[|r| - 1];
      if last < 0x80 {
        return;
      }
      r := r[..|r| - 1];
      if last >= 0xC0 {
        return;
      }
      i := i + 1;
    }
  }

  /** applyOutputLimits on what the child wrote to each stream. */
  function OutputBytes(out: Bytes, err: Bytes): Bytes {
    var o, e := Capped(out, MAX_STREAM), Capped(err, MAX_STREAM);
    Trimmed(if |o| + |e| > MAX_COMBINED then o[..MAX_COMBINED - |e|] else o, 0)
  }

  function ErrorBytes(err: Bytes): Bytes {
    Trimmed(Capped(err, MAX_STREAM), 0)
  }

  method ApplyOutputLimits(stdout: LimitWriter, stderr: LimitWriter)
    returns (outBytes: Bytes, errBytes: Bytes, outTrunc: bool, errTrunc: bool)
    requires stdout.Valid() && stderr.Valid() && stdout.max == stderr.max == MAX_STREAM
    ensures outBytes == OutputBytes(stdout.written, stderr.written) && errBytes == ErrorBytes(stderr.written)
    ensures outTrunc == (|outBytes| < |stdout.written|) && errTrunc == (|errBytes| < |stderr.written|)
  {
    outBytes, errBytes := stdout.buf, stderr.buf;
    if |outBytes| + |errBytes| > MAX_COMBINED {
      var keep := MAX_COMBINED - |errBytes|;
      if keep < 0 {
        keep := 0;
      }
      outBytes := outBytes[..keep];
    }
    outBytes := TrimIncompleteRune(outBytes);
    errBytes := TrimIncompleteRune(errBytes);
    outTrunc := stdout.total > |outBytes|;
    errTrunc := stderr.total > |errBytes|;
  }

  // ---------------------------------------------------------------------------------------------
  // The trim finds the boundary
  // ---------------------------------------------------------------------------------------------

  /** One whole character. */
  predicate IsChar(c: Bytes) {
    c != [] && CharSize(c) == |c|
  }

  lemma CharShape(c: Bytes)
    requires IsChar(c)
    ensures |c| <= 4 && |c| == Announced(c[0]) && !IsContinuation(c[0])
    ensures forall i :: 1 <= i < |c| ==> IsContinuation(c[i])
    ensures |c| == 1 <==> c[0] < 0x80
    ensures |c| > 1 ==> c[0] >= 0xC0
  {
  }

  lemma {:induction false} LastStartFinds(p: Bytes, start: int, lim: nat, at: nat)
    requires lim <= at <= start < |p| && !IsContinuation(p[at])
    requires forall i :: at < i <= start ==> IsContinuation(p[i])
    ensures LastStart(p, start, lim) == at
    decreases start
  {
    if start > at {
      LastStartFinds(p, start - 1, lim, at);
    }
  }

  /** A text that ends in a character is seen to end in it. */
  lemma LastCharIsFound(v: Bytes, c: Bytes)
    requires IsChar(c)
    ensures LastSize(v + c) == |c|
  {
    var p := v + c;
    CharShape(c);
    assert p[|v|..] == c && p[|p| - 1] == c[|c| - 1];
    if |c| > 1 {
      var lim := if |p| < 4 then 0 else |p| - 4;
      forall i | |v| < i <= |p| - 2
        ensures IsContinuation(p[i])
      {
        assert p[i] == c[i - |v|];
      }
      assert p[|v|] == c[0];
      LastStartFinds(p, |p| - 2, lim, |v|);
    }
  }

  /** The last byte that is not a continuation byte. */
  ghost predicate LeadAt(p: Bytes, at: nat) {
    at < |p| && !IsContinuation(p[at]) && forall i :: at < i < |p| ==> IsContinuation(p[i])
  }

  /** The character at the end, if there is one, starts at the last lead byte. */
  lemma LastSizeIsFromTheLead(p: Bytes, at: nat)
    requires LeadAt(p, at)
    ensures LastSize(p) == 0 || CharSize(p[at..]) == |p| - at
  {
    var size := LastSize(p);
    if size != 0 {
      var tail := p[|p| - size..];
      assert CharSize(tail) == size;
      CharShape(tail);
      assert LeadAt(p, |p| - size) by {
        assert forall i :: |p| - size < i < |p| ==> p[i] == tail[i - (|p| - size)];
      }
    }
  }

  /** A text that ends in the beginning of a character is seen not to end in one. */
  lemma CutCharIsNotFound(v: Bytes, c: Bytes, k: nat)
    requires IsChar(c) && 1 <= k < |c|
    ensures LastSize(v + c[..k]) == 0
  {
    var p := v + c[..k];
    CharShape(c);
    assert p[|v|] == c[0];
    assert forall i :: 0 <= i < k ==> p[|v| + i] == c[i];
    assert LeadAt(p, |v|) by {
      assert forall i :: |v| < i < |p| ==> p[i] == c[i - |v|];
    }
    LastSizeIsFromTheLead(p, |v|);
    assert p[|v|..] == c[..k];
    assert CharSize(c[..k]) == 0;
  }

  lemma DropLastByte(v: Bytes, c: Bytes, k: nat)
    requires 1 <= k <= |c|
    ensures var b := v + c[..k];
      b != [] && b[|b| - 1] == c[k - 1] && b[..|b| - 1] == v + c[..k - 1]
    ensures v + c[..0] == v
  {
  }

  lemma {:induction false} TrimDropsTheCutChar(v: Bytes, c: Bytes, k: nat, i: nat)
    requires IsChar(c) && 1 <= k < |c| && i + k <= 3
    ensures Trimmed(v + c[..k], i) == v
    decreases k
  {
    CutCharIsNotFound(v, c, k);
    CharShape(c);
    DropLastByte(v, c, k);
    if k > 1 {
      TrimDropsTheCutChar(v, c, k - 1, i + 1);
    }
  }

  lemma CutInsideFirst(s: Bytes, n: nat)
    requires 0 < n < CharSize(s)
    ensures WellFormedPrefix(s[..n]) == [] && IsChar(s[..CharSize(s)]) && s[..n] == s[..CharSize(s)][..n]
  {
    SizeOfFront(s, []);
  }

  lemma PrefixOfFront(first: Bytes, rest: Bytes)
    requires IsChar(first)
    ensures WellFormedPrefix(first + rest) == first + WellFormedPrefix(rest)
  {
    SizeOfFront(first, rest);
    assert (first + rest)[..|first|] == first && (first + rest)[|first|..] == rest;
  }

  lemma CutAfterFirst(s: Bytes, n: nat)
    requires 0 < CharSize(s) <= n <= |s|
    ensures var m := CharSize(s);
      s[..n] == s[..m] + s[m..][..n - m] && WellFormedPrefix(s[..n]) == s[..m] + WellFormedPrefix(s[m..][..n - m])
  {
    var m := CharSize(s);
    var first, rest := s[..m], s[m..][..n - m];
    assert s[..n] == first + rest;
    SizeOfFront(s, []);
    PrefixOfFront(first, rest);
  }

  /** A cut of a well-formed text: characters, and then less than one character. */
  lemma {:induction false} CutShape(s: Bytes, n: nat) returns (c: Bytes, k: nat)
    requires WellFormed(s) && n <= |s|
    ensures k <= |c| && s[..n] == WellFormedPrefix(s[..n]) + c[..k]
    ensures k == 0 || (IsChar(c) && 1 <= k < |c|)
    decreases |s|
  {
    var m := CharSize(s);
    if n == 0 {
      c, k := [], 0;
    } else if n < m {
      c, k := s[..m], n;
      CutInsideFirst(s, n);
      assert [] + c[..k] == c[..k];
    } else {
      c, k := CutShape(s[m..], n - m);
      CutAfterFirst(s, n);
      Assoc(s[..m], WellFormedPrefix(s[m..][..n - m]), c[..k]);
    }
  }

  lemma {:induction false} EndsInChar(w: Bytes) returns (v: Bytes, c: Bytes)
    requires WellFormed(w) && w != []
    ensures w == v + c && IsChar(c)
  {
    var n := CharSize(w);
    SizeOfFront(w, []);
    if n == |w| {
      v, c := [], w;
    } else {
      v, c := EndsInChar(w[n..]);
      v := w[..n] + v;
    }
  }

  /** Whatever the cut, the trim leaves the longest well-formed prefix. */
  lemma TrimIsWellFormedPrefix(s: Bytes, n: nat)
    requires WellFormed(s) && n <= |s|
    ensures Trimmed(s[..n], 0) == WellFormedPrefix(s[..n])
  {
    var c, k := CutShape(s, n);
    var w := WellFormedPrefix(s[..n]);
    if k > 0 {
      CharShape(c);
      TrimDropsTheCutChar(w, c, k, 0);
    } else {
      assert s[..n] == w;
      if w != [] {
        PrefixIsWellFormed(s[..n]);
        var v, d := EndsInChar(w);
        LastCharIsFound(v, d);
      }
    }
  }

  /** How much of stdout the caps leave, before the trim. */
  function StdoutBudget(out: Bytes, err: Bytes): nat {
    Min(|out|, Min(MAX_STREAM, MAX_COMBINED - |Capped(err, MAX_STREAM)|))
  }

  /**
   For any two well-formed streams: stderr is the longest well-formed prefix of its first 256 KiB and is
   never cut by the combined cap; stdout is the longest well-formed prefix of what the caps leave; both
   bounds hold.
   */
  lemma CaptureIsTheLongestWellFormedPrefix(out: Bytes, err: Bytes)
    requires WellFormed(out) && WellFormed(err)
    ensures ErrorBytes(err) == WellFormedPrefix(Capped(err, MAX_STREAM))
    ensures OutputBytes(out, err) == WellFormedPrefix(out[..StdoutBudget(out, err)])
    ensures WellFormed(OutputBytes(out, err)) && WellFormed(ErrorBytes(err))
    ensures |OutputBytes(out, err)| <= MAX_STREAM && |ErrorBytes(err)| <= MAX_STREAM
    ensures |OutputBytes(out, err)| + |ErrorBytes(err)| <= MAX_COMBINED
  {
    CaptureStderr(err);
    CaptureStdout(out, err);
  }

  lemma CaptureStderr(err: Bytes)
    requires WellFormed(err)
    ensures ErrorBytes(err) == WellFormedPrefix(Capped(err, MAX_STREAM)) && WellFormed(ErrorBytes(err))
    ensures |ErrorBytes(err)| <= |Capped(err, MAX_STREAM)| <= MAX_STREAM
  {
    var n := Min(|err|, MAX_STREAM);
    assert Capped(err, MAX_STREAM) == err[..n];
    TrimIsWellFormedPrefix(err, n);
    PrefixIsWellFormed(err[..n]);
  }

  lemma CaptureStdout(out: Bytes, err: Bytes)
    requires WellFormed(out)
    ensures OutputBytes(out, err) == WellFormedPrefix(out[..StdoutBudget(out, err)])
        && WellFormed(OutputBytes(out, err))
    ensures |OutputBytes(out, err)| <= StdoutBudget(out, err)
  {
    var m := StdoutBudget(out, err);
    var o, e := Capped(out, MAX_STREAM), Capped(err, MAX_STREAM);
    assert out[..m] == if |o| + |e| > MAX_COMBINED then o[..MAX_COMBINED - |e|] else o;
    TrimIsWellFormedPrefix(out, m);
    PrefixIsWellFormed(out[..m]);
  }
}
