/**
 The rotating service log (agent/internal/service/rotatelog.go), without I/O errors.  `files[0]` is
 the active file at `path`, `files[i]` the older segment `path.i`.
 */
module RotateLog {
  import opened Basics

  type Files = map<nat, Bytes>

  function Content(files: Files, i: nat): Bytes {
    if i in files then files[i] else []
  }

  /** path.n down to path.1 and then path, read one after the other. */
  function Reading(files: Files, n: nat): Bytes {
    if n == 0 then Content(files, 0) else Content(files, n) + Reading(files, n - 1)
  }

  /** os.Rename, its error for a missing source ignored. */
  function Renamed(files: Files, from: nat, to: nat): Files {
    if from in files then (files - {from})[to := files[from]] else files
  }

  function At(files: Files, k: nat): Option<Bytes> {
    if k in files then Some(files[k]) else None
  }

  /** File k after a rotation with n >= 1 backups: the oldest is gone, the others are one further. */
  function RotatedAt(before: Files, n: nat, k: nat): Option<Bytes> {
    if k == 0 then Some([]) else if k <= n then At(before, k - 1) else At(before, k)
  }

  ghost predicate IsRotated(before: Files, after: Files, n: nat) {
    forall k: nat {:trigger At(after, k)} :: At(after, k) == RotatedAt(before, n, k)
  }

  /** File k while segments up to i are still in place, i + 1 is free and the ones above have moved up. */
  function HalfShiftedAt(before: Files, n: nat, i: nat, k: nat): Option<Bytes> {
    if k <= i || k > n then At(before, k) else if k == i + 1 then None else At(before, k - 1)
  }

  ghost predicate HalfShifted(before: Files, now: Files, n: nat, i: nat) {
    i + 1 <= n && forall k: nat {:trigger At(now, k)} :: At(now, k) == HalfShiftedAt(before, n, i, k)
  }

  lemma ShiftOne(before: Files, now: Files, n: nat, i: nat)
    requires i >= 1 && HalfShifted(before, now, n, i)
    ensures HalfShifted(before, Renamed(now, i, i + 1), n, i - 1)
  {
    var after := Renamed(now, i, i + 1);
    forall k: nat
      ensures At(after, k) == HalfShiftedAt(before, n, i - 1, k)
    {
      assert At(now, k) == HalfShiftedAt(before, n, i, k);
      assert At(now, i) == At(before, i);
    }
  }

  lemma ShiftLast(before: Files, now: Files, n: nat)
    requires HalfShifted(before, now, n, 0) && 0 in before
    ensures 0 !in Renamed(now, 0, 1) && IsRotated(before, Renamed(now, 0, 1)[0 := []], n)
  {
    var after := Renamed(now, 0, 1)[0 := []];
    assert At(now, 0) == At(before, 0);
    forall k: nat
      ensures At(after, k) == RotatedAt(before, n, k)
    {
      assert At(now, k) == HalfShiftedAt(before, n, 0, k);
    }
  }

  lemma OldestDropped(before: Files, n: nat)
    requires n >= 1
    ensures HalfShifted(before, before - {n}, n, n - 1)
  {
  }

  class RotatingWriter {
    const maxSize: int
    const maxBackups: int
    var files: Files
    var size: int

    ghost predicate Valid()
      reads this
    {
      0 in files && size == |files[0]|
    }

    /** newRotatingWriter on the files that are there. */
    constructor (existing: Files, maxSize: int, maxBackups: int)
      ensures Valid() && this.maxSize == maxSize && this.maxBackups == maxBackups
      ensures files == existing[0 := Content(existing, 0)]
    {
      this.maxSize, this.maxBackups := maxSize, maxBackups;
      files := existing[0 := Content(existing, 0)];
      size := |Content(existing, 0)|;
    }

    method Open()
      modifies this
      ensures Valid() && files == old(files)[0 := Content(old(files), 0)]
    {
      files := files[0 := Content(files, 0)];
      size := |files[0]|;
    }

    /** Shifts the backups up by one, from the oldest down, and the active file to path.1. */
    method Shift()
      requires maxBackups >= 1 && 0 in files
      modifies this`files
      ensures 0 !in files && IsRotated(old(files), files[0 := []], maxBackups)
    {
      ghost var before := files;
      var n := maxBackups;
      OldestDropped(before, n);
      files := files - {n};
      var i := n - 1;
      while i >= 1
        invariant 0 <= i <= n - 1
        invariant HalfShifted(before, files, n, i)
        decreases i
      {
        ShiftOne(before, files, n, i);
        files := Renamed(files, i, i + 1);
        i := i - 1;
      }
      ShiftLast(before, files, n);
      files := Renamed(files, 0, 1);
    }

    method Rotate()
      requires Valid()
      modifies this
      ensures Valid() && size == 0
      ensures maxBackups <= 0 ==> files == old(files)[0 := []]
      ensures maxBackups >= 1 ==> IsRotated(old(files), files, maxBackups)
    {
      if maxBackups <= 0 {
        files := files - {0};
        Open();
        assert files == old(files)[0 := []];
        return;
      }
      Shift();
      Open();
    }

    method Write(p: Bytes) returns (n: nat)
      requires Valid()
      modifies this
      ensures Valid() && n == |p|
      ensures Written(old(files), p, files, maxSize, maxBackups)
    {
      if maxSize > 0 && size > 0 && size + |p| > maxSize {
        Rotate();
      }
      ghost var cleared := files;
      assert [] + p == p;
      files := files[0 := files[0] + p];
      size := size + |p|;
      n := |p|;
      if MustRotate(old(files), p, maxSize) {
        if maxBackups <= 0 {
          assert files == old(files)[0 := p];
        } else {
          assert files[0 := []] == cleared;
        }
      }
    }
  }

  predicate MustRotate(files: Files, p: Bytes, maxSize: int)
    requires 0 in files
  {
    maxSize > 0 && files[0] != [] && |files[0]| + |p| > maxSize
  }

  /** What one Write does to the files. */
  ghost predicate Written(before: Files, p: Bytes, after: Files, maxSize: int, maxBackups: int) {
    && 0 in before && 0 in after
    && if !MustRotate(before, p, maxSize) then after == before[0 := before[0] + p]
       else if maxBackups <= 0 then after == before[0 := p]
       else after[0] == p && IsRotated(before, after[0 := []], maxBackups)
  }

  // ---------------------------------------------------------------------------------------------
  // Nothing is lost but the oldest
  // ---------------------------------------------------------------------------------------------

  lemma {:induction false} ReadingAppends(files: Files, p: Bytes, n: nat)
    requires 0 in files
    ensures Reading(files[0 := files[0] + p], n) == Reading(files, n) + p
  {
    if n > 0 {
      ReadingAppends(files, p, n - 1);
    }
  }

  lemma RotatedContent(before: Files, after: Files, n: nat, i: nat)
    requires IsRotated(before, after, n) && i < n
    ensures Content(after, i + 1) == Content(before, i) && Content(after, 0) == []
  {
    assert At(after, i + 1) == At(before, i);
    assert At(after, 0) == Some([]);
  }

  lemma {:induction false} ReadingShifted(before: Files, after: Files, n: nat, i: nat)
    requires IsRotated(before, after, n) && i < n
    ensures Reading(after, i + 1) == Reading(before, i)
  {
    RotatedContent(before, after, n, i);
    if i == 0 {
      assert Reading(after, 1) == Content(after, 1) + Reading(after, 0);
    } else {
      ReadingShifted(before, after, n, i - 1);
    }
  }

  /**
   One write: the log grows by exactly the bytes written and, when the file rotates, loses exactly its
   oldest segment (with no backups, everything that was in the active file).
   */
  lemma WriteLosesOnlyTheOldest(before: Files, p: Bytes, after: Files, maxSize: int, n: nat)
    requires Written(before, p, after, maxSize, n)
    ensures !MustRotate(before, p, maxSize) ==> Reading(after, n) == Reading(before, n) + p
    ensures MustRotate(before, p, maxSize) && n == 0 ==> Reading(after, n) == p
    ensures MustRotate(before, p, maxSize) && n >= 1 ==>
      Reading(before, n) + p == Content(before, n) + Reading(after, n)
  {
    if !MustRotate(before, p, maxSize) {
      ReadingAppends(before, p, n);
    } else if n >= 1 {
      RotationLosesOnlyTheOldest(before, p, after, n);
    }
  }

  lemma RotationLosesOnlyTheOldest(before: Files, p: Bytes, after: Files, n: nat)
    requires n >= 1 && 0 in after && after[0] == p && IsRotated(before, after[0 := []], n)
    ensures Reading(before, n) + p == Content(before, n) + Reading(after, n)
  {
    var empty := after[0 := []];
    ReadingShifted(before, empty, n, n - 1);
    FillActive(empty, after, p, n);
    Assoc(Content(before, n), Reading(before, n - 1), p);
  }

  lemma FillActive(empty: Files, after: Files, p: Bytes, n: nat)
    requires 0 in after && after[0] == p && empty == after[0 := []]
    ensures Reading(after, n) == Reading(empty, n) + p
  {
    ReadingAppends(empty, p, n);
    assert [] + p == p;
    assert empty[0 := empty[0] + p] == after;
  }

  /** The files after a run of writes, one set of files per write. */
  ghost predicate Runs(start: Files, writes: seq<Bytes>, states: seq<Files>, maxSize: int, maxBackups: int) {
    && |states| == |writes| + 1 && states[0] == start
    && forall i :: 0 <= i < |writes| ==> Written(states[i], writes[i], states[i + 1], maxSize, maxBackups)
  }

  function Flat(writes: seq<Bytes>): Bytes {
    if writes == [] then [] else Flat(writes[..|writes| - 1]) + writes[|writes| - 1]
  }

  predicate IsSuffix(a: Bytes, b: Bytes) {
    |a| <= |b| && b[|b| - |a|..] == a
  }

  lemma SuffixGrows(old_: Bytes, whole: Bytes, p: Bytes)
    requires IsSuffix(old_, whole)
    ensures IsSuffix(old_ + p, whole + p)
  {
    assert (whole + p)[|whole| - |old_|..] == whole[|whole| - |old_|..] + p;
  }

  lemma SuffixOfTail(dropped: Bytes, kept: Bytes, whole: Bytes)
    requires IsSuffix(dropped + kept, whole)
    ensures IsSuffix(kept, whole)
  {
    assert whole[|whole| - |kept|..] == whole[|whole| - |dropped + kept|..][|dropped|..];
  }

  lemma SuffixAfterWrite(before: Files, p: Bytes, after: Files, maxSize: int, n: nat, whole: Bytes)
    requires Written(before, p, after, maxSize, n) && IsSuffix(Reading(before, n), whole)
    ensures IsSuffix(Reading(after, n), whole + p)
  {
    WriteLosesOnlyTheOldest(before, p, after, maxSize, n);
    SuffixGrows(Reading(before, n), whole, p);
    if MustRotate(before, p, maxSize) {
      SuffixOfTail(if n == 0 then Reading(before, n) else Content(before, n), Reading(after, n), whole + p);
    }
  }

  /** What can be read is always a suffix of what was there at the start and everything written since. */
  lemma {:induction false} LogIsASuffix(start: Files, writes: seq<Bytes>, states: seq<Files>, maxSize: int, n: nat)
    requires 0 in start && Runs(start, writes, states, maxSize, n)
    ensures IsSuffix(Reading(states[|writes|], n), Reading(start, n) + Flat(writes))
  {
    if writes == [] {
      assert Reading(start, n) + [] == Reading(start, n);
    } else {
      var init, p := writes[..|writes| - 1], writes[|writes| - 1];
      assert Written(states[|init|], writes[|init|], states[|init| + 1], maxSize, n);
      LogIsASuffix(start, init, states[..|states| - 1], maxSize, n);
      SuffixAfterWrite(states[|init|], p, states[|writes|], maxSize, n, Reading(start, n) + Flat(init));
      assert Reading(start, n) + Flat(init) + p == Reading(start, n) + (Flat(init) + p);
    }
  }

  // ---------------------------------------------------------------------------------------------
  // Bounds
  // ---------------------------------------------------------------------------------------------

  /** After any write the active file is within the limit or holds that write alone. */
  lemma ActiveFileIsBounded(before: Files, p: Bytes, after: Files, maxSize: int, maxBackups: int)
    requires Written(before, p, after, maxSize, maxBackups) && maxSize > 0
    ensures |after[0]| <= maxSize || after[0] == p
  {
  }

  ghost predicate WithinSize(files: Files, maxSize: int) {
    forall k :: k in files ==> |files[k]| <= maxSize
  }

  ghost predicate WithinCount(files: Files, n: nat) {
    forall k :: k in files ==> k <= n
  }

  lemma WriteKeepsBounds(before: Files, p: Bytes, after: Files, maxSize: int, maxBackups: int)
    requires Written(before, p, after, maxSize, maxBackups) && maxSize > 0
    ensures maxBackups >= 0 && WithinCount(before, maxBackups) ==> WithinCount(after, maxBackups)
    ensures WithinSize(before, maxSize) && |p| <= maxSize ==> WithinSize(after, maxSize)
  {
    if MustRotate(before, p, maxSize) && maxBackups >= 1 {
      var empty := after[0 := []];
      forall k | k in after && k != 0
        ensures At(empty, k) == Some(after[k]) && At(empty, k) == RotatedAt(before, maxBackups, k)
      {
      }
    }
  }

  function DiskUse(files: Files, n: nat): nat {
    |Content(files, n)| + if n == 0 then 0 else DiskUse(files, n - 1)
  }

  lemma {:induction false} DiskUseIsBounded(files: Files, maxSize: nat, n: nat)
    requires WithinSize(files, maxSize)
    ensures DiskUse(files, n) <= (n + 1) * maxSize
  {
    if n > 0 {
      DiskUseIsBounded(files, maxSize, n - 1);
    }
  }

  /**
   Starting within bounds and writing at most maxSize bytes at a time, there are never more than
   maxBackups older segments and never more than (maxBackups + 1) * maxSize bytes on disk.
   */
  lemma {:induction false} LogStaysBounded(start: Files, writes: seq<Bytes>, states: seq<Files>, maxSize: nat, n: nat)
    requires maxSize > 0 && Runs(start, writes, states, maxSize, n)
    requires WithinCount(start, n) && WithinSize(start, maxSize) && forall i :: 0 <= i < |writes| ==> |writes[i]| <= maxSize
    ensures WithinCount(states[|writes|], n) && WithinSize(states[|writes|], maxSize)
    ensures DiskUse(states[|writes|], n) <= (n + 1) * maxSize
  {
    if writes != [] {
      var init := writes[..|writes| - 1];
      LogStaysBounded(start, init, states[..|states| - 1], maxSize, n);
      assert Written(states[|init|], writes[|init|], states[|init| + 1], maxSize, n);
      WriteKeepsBounds(states[|init|], writes[|init|], states[|writes|], maxSize, n);
    }
    DiskUseIsBounded(states[|writes|], maxSize, n);
  }
}
