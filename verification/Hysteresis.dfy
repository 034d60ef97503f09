/**
 The hysteresis of monitoring checks (agent/internal/monitoring/evaluator.go, applyHysteresis): a
 counter machine, and the definition over the history of raw statuses that it refines.
 */
module Hysteresis {
  import opened Basics

  datatype Raw = Unknown | Healthy | Warning | Critical

  /** The stored status; Unset is the empty string of a check that has never run. */
  datatype Status = Unset | Is(raw: Raw)

  /** RaiseSamples and ClearSamples as configured; values below 1 count as 1. */
  datatype Samples = Samples(raise: int, clear: int)

  function Raise(h: Samples): (n: int) {
    if h.raise < 1 then 1 else h.raise
  }

  function Clear(h: Samples): (n: int) {
    if h.clear < 1 then 1 else h.clear
  }

  function Severity(r: Raw): int {
    match r
    case Unknown => -1
    case Healthy => 0
    case Warning => 1
    case Critical => 2
  }

  datatype Counter = Counter(status: Status, pending: Option<Raw>, count: int)

  const EMPTY: Counter := Counter(Unset, None, 0)
  const UNKNOWN: Counter := Counter(Is(Unknown), None, 0)

  // ---------------------------------------------------------------------------------------------
  // The counter machine
  // ---------------------------------------------------------------------------------------------

  /** The status fields of CheckState. */
  class CheckState {
    var status: Status
    var pendingStatus: Option<Raw>
    var pendingCount: int

    function State(): Counter
      reads this
    {
      Counter(status, pendingStatus, pendingCount)
    }

    constructor (c: Counter)
      ensures State() == c
    {
      status, pendingStatus, pendingCount := c.status, c.pending, c.count;
    }

    method ApplyHysteresis(raw: Raw, configured: Samples) returns (stable: Status)
      modifies this
      ensures State() == Step(old(State()), raw, configured)
      ensures stable == status
    {
      var raise := if configured.raise < 1 then 1 else configured.raise;
      var clear := if configured.clear < 1 then 1 else configured.clear;
      if raw == Unknown {
        status, pendingStatus, pendingCount := Is(raw), None, 0;
        return status;
      }
      if status == Unset {
        var required := 1;
        if raw == Warning || raw == Critical {
          required := raise;
        }
        if required == 1 {
          status := Is(raw);
          return status;
        }
        status, pendingStatus, pendingCount := Is(Unknown), Some(raw), 1;
        return status;
      }
      if Is(raw) == status {
        pendingStatus, pendingCount := None, 0;
        return status;
      }
      var required := clear;
      if Severity(raw) > Severity(status.raw) {
        required := raise;
      }
      if status == Is(Unknown) && raw == Healthy {
        required := 1;
      }
      if pendingStatus == Some(raw) {
        pendingCount := pendingCount + 1;
      } else {
        pendingStatus, pendingCount := Some(raw), 1;
      }
      if pendingCount >= required {
        status, pendingStatus, pendingCount := Is(raw), None, 0;
      }
      stable := status;
    }
  }

  function Required(from: Raw, to: Raw, h: Samples): int {
    if from == Unknown && to == Healthy then 1
    else if Severity(to) > Severity(from) then Raise(h)
    else Clear(h)
  }

  function Step(c: Counter, raw: Raw, h: Samples): Counter {
    if raw == Unknown then UNKNOWN
    else if c.status == Unset then
      if raw == Healthy || Raise(h) == 1 then c.(status := Is(raw)) else Counter(Is(Unknown), Some(raw), 1)
    else if c.status == Is(raw) then Counter(c.status, None, 0)
    else
      var count := if c.pending == Some(raw) then c.count + 1 else 1;
      if count >= Required(c.status.raw, raw, h) then Counter(Is(raw), None, 0) else Counter(c.status, Some(raw), count)
  }

  function Run(c: Counter, raws: seq<Raw>, h: Samples): Counter {
    if raws == [] then c else Step(Run(c, raws[..|raws| - 1], h), raws[|raws| - 1], h)
  }

  // ---------------------------------------------------------------------------------------------
  // The definition over the history
  // ---------------------------------------------------------------------------------------------

  /** How often the last raw status was seen without interruption. */
  function TailRun(raws: seq<Raw>): (n: nat)
    ensures n <= |raws|
  {
    if raws == [] then 0
    else if |raws| > 1 && raws[|raws| - 2] == raws[|raws| - 1] then 1 + TailRun(raws[..|raws| - 1])
    else 1
  }

  /** The reported status after a history, with no counters: it moves when the tail run is long enough. */
  function Stable(raws: seq<Raw>, h: Samples): Raw {
    if raws == [] then Unknown
    else
      var before, last := Stable(raws[..|raws| - 1], h), raws[|raws| - 1];
      if last == Unknown then Unknown
      else if TailRun(raws) >= Required(before, last, h) then last
      else before
  }

  /** TailRun is the length of the longest constant tail. */
  lemma {:induction false} TailRunIsTheLongestConstantTail(raws: seq<Raw>, n: nat)
    requires raws != [] && 1 <= n <= |raws|
    ensures n <= TailRun(raws) <==> forall i :: |raws| - n <= i < |raws| ==> raws[i] == raws[|raws| - 1]
  {
    var init := raws[..|raws| - 1];
    if n > 1 {
      TailRunIsTheLongestConstantTail(init, n - 1);
      if raws[|raws| - 2] == raws[|raws| - 1] {
        if forall i :: |raws| - n <= i < |raws| ==> raws[i] == raws[|raws| - 1] {
          assert forall i :: |init| - (n - 1) <= i < |init| ==> init[i] == raws[i];
        }
        if n <= TailRun(raws) {
          forall i | |raws| - n <= i < |raws|
            ensures raws[i] == raws[|raws| - 1]
          {
            if i < |init| {
              assert init[i] == init[|init| - 1];
            }
          }
        }
      }
    }
  }

  /** What the counter holds after a history: the stable status, and the tail run while it differs. */
  function Expected(raws: seq<Raw>, h: Samples): Counter {
    if raws == [] then UNKNOWN
    else
      var stable, last := Stable(raws, h), raws[|raws| - 1];
      if last == stable then Counter(Is(stable), None, 0) else Counter(Is(stable), Some(last), TailRun(raws))
  }

  lemma TailRunGrows(raws: seq<Raw>)
    requires raws != []
    ensures var init, t := raws[..|raws| - 1], raws[|raws| - 1];
      TailRun(raws) == if init != [] && init[|init| - 1] == t then TailRun(init) + 1 else 1
  {
    var init := raws[..|raws| - 1];
    if init != [] {
      assert init[|init| - 1] == raws[|raws| - 2];
    }
  }

  lemma StepExpected(raws: seq<Raw>, h: Samples)
    requires raws != []
    ensures Step(Expected(raws[..|raws| - 1], h), raws[|raws| - 1], h) == Expected(raws, h)
  {
    var init, t := raws[..|raws| - 1], raws[|raws| - 1];
    var before := Stable(init, h);
    TailRunGrows(raws);
    if before != t && t != Unknown {
      var c := Expected(init, h);
      assert c.status == Is(before);
      assert TailRun(raws) == if c.pending == Some(t) then c.count + 1 else 1;
    }
  }

  /**
   The counter machine refines the definition over the history: same status, and the pending count is the
   length of the tail run; a check that never ran behaves as one that is unknown.
   */
  lemma {:induction false} CounterRefinesHistory(raws: seq<Raw>, h: Samples)
    ensures Run(UNKNOWN, raws, h) == Expected(raws, h)
    ensures raws != [] ==> Run(EMPTY, raws, h) == Expected(raws, h)
  {
    if raws != [] {
      var init := raws[..|raws| - 1];
      CounterRefinesHistory(init, h);
      StepExpected(raws, h);
      if init == [] {
        assert Run(EMPTY, init, h) == EMPTY;
        assert Step(EMPTY, raws[0], h) == Step(UNKNOWN, raws[0], h);
      }
    }
  }

  /** The last n samples exist and are all t. */
  predicate EndsIn(raws: seq<Raw>, t: Raw, n: int) {
    n <= |raws| && forall i :: 0 <= i < |raws| && |raws| - n <= i ==> raws[i] == t
  }

  /**
   The stored status moves to t exactly when t differs from it and either t is unknown or the last
   Required samples, this one included, are all t.
   */
  lemma StatusMovesExactlyOnAFullRun(raws: seq<Raw>, t: Raw, h: Samples)
    ensures var before, after := Run(UNKNOWN, raws, h).status, Run(UNKNOWN, raws + [t], h).status;
      && before.Is? && after.Is?
      && (after != before ==> after == Is(t))
      && (after == before <==> (Is(t) == before || (t != Unknown && !EndsIn(raws, t, Required(before.raw, t, h) - 1))))
  {
    var next := raws + [t];
    assert next[..|next| - 1] == raws;
    CounterRefinesHistory(raws, h);
    CounterRefinesHistory(next, h);
    var n := Required(Stable(raws, h), t, h);
    if 1 <= n <= |next| {
      TailRunIsTheLongestConstantTail(next, n);
      assert forall i :: 0 <= i < |raws| ==> next[i] == raws[i];
    }
  }
}
