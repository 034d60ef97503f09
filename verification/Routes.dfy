/**
 Relay routing in the agent's HTTP client (agent/internal/client/routes.go and client.go, do): the
 cooldown of failed relays in 64-bit arithmetic, the route list, and the walk over it with the origin
 last.  Times are nanoseconds.
 */
module Routes {
  import opened Basics

  const ORIGIN: string := "origin"
  const COOLDOWN_INITIAL: int := 30 * SECOND
  const COOLDOWN_MAX: int := 600 * SECOND
  const ZERO_TIME: int := -62_135_596_800 * SECOND

  // ---------------------------------------------------------------------------------------------
  // Cooldown
  // ---------------------------------------------------------------------------------------------

  /** The cooldown markRoute computes: a 64-bit shift, then the clamp. */
  function Cooldown(failures: nat): int
    requires failures >= 1
  {
    var cooldown := Wrap64(COOLDOWN_INITIAL * Pow2(failures - 1));
    if cooldown <= 0 || cooldown > COOLDOWN_MAX then COOLDOWN_MAX else cooldown
  }

  lemma {:induction false} Pow2Monotone(a: nat, b: nat)
    requires a <= b
    ensures Pow2(a) <= Pow2(b)
    decreases b
  {
    if a < b {
      Pow2Monotone(a, b - 1);
    }
  }

  lemma {:induction false} Pow2Sum(a: nat, b: nat)
    ensures Pow2(a + b) == Pow2(a) * Pow2(b)
  {
    if b > 0 {
      Pow2Sum(a, b - 1);
    }
  }

  lemma Pow2Values()
    ensures Pow2(4) == 16 && Pow2(5) == 32 && Pow2(28) == 0x1000_0000 && Pow2(29) == 0x2000_0000 && Pow2(30) == 0x4000_0000
  {
    assert Pow2(10) == 1024;
    Pow2Sum(10, 10);
    Pow2Sum(20, 8);
    assert Pow2(8) == 256;
  }

  /** A multiple of 2^40 stays one when it wraps, so it is never a small positive number. */
  lemma WrappedMultiple(m: nat)
    ensures Wrap64(m * 0x100_0000_0000) <= 0 || Wrap64(m * 0x100_0000_0000) >= 0x100_0000_0000
  {
    var x := m * 0x100_0000_0000;
    var q := x / 0x1_0000_0000_0000_0000;
    var r := x % 0x1_0000_0000_0000_0000;
    assert r == 0x100_0000_0000 * (m - q * 0x100_0000);
  }

  lemma SmallShift(k: nat)
    requires k <= 28
    ensures Wrap64(COOLDOWN_INITIAL * Pow2(k)) == COOLDOWN_INITIAL * Pow2(k)
  {
    Pow2Values();
    Pow2Monotone(k, 28);
    SmallProduct(Pow2(k));
  }

  lemma SmallProduct(p: int)
    requires 0 <= p <= 0x1000_0000
    ensures Wrap64(COOLDOWN_INITIAL * p) == COOLDOWN_INITIAL * p
  {
  }

  /** From the 30th failure on the shifted value is not a small positive number. */
  lemma LargeShift(k: nat)
    requires k >= 29
    ensures var w := Wrap64(COOLDOWN_INITIAL * Pow2(k));
      w <= 0 || w > COOLDOWN_MAX
  {
    Pow2Values();
    if k == 29 {
      assert COOLDOWN_INITIAL * 0x2000_0000 == 16_106_127_360_000_000_000;
    } else {
      Pow2Sum(30, k - 30);
      var p := Pow2(k - 30);
      assert COOLDOWN_INITIAL * (0x4000_0000 * p) == (29_296_875 * p) * 0x100_0000_0000;
      WrappedMultiple(29_296_875 * p);
    }
  }

  /** For every failure count the cooldown is exactly min(30 s * 2^(f-1), 10 min), overflow included. */
  lemma CooldownIsExact(failures: nat)
    requires failures >= 1
    ensures Cooldown(failures) == Min(COOLDOWN_INITIAL * Pow2(failures - 1), COOLDOWN_MAX)
  {
    var k := failures - 1;
    if k <= 28 {
      SmallShift(k);
    } else {
      LargeShift(k);
      Pow2Values();
      Pow2Monotone(5, k);
      assert COOLDOWN_INITIAL * Pow2(k) >= COOLDOWN_INITIAL * 32;
    }
  }

  // ---------------------------------------------------------------------------------------------
  // Routes and answers
  // ---------------------------------------------------------------------------------------------

  datatype Route = Route(id: string, baseURL: string, pins: seq<string>)

  /** One relay as the client keeps it. */
  datatype RouteState = RouteState(id: string, baseURL: string, failures: nat, until: int)

  datatype Answer =
    | Success
    | Canceled
    | DeadlineExceeded
    | Transport
    | Status(code: int, message: string)

  predicate Contains(text: string, part: string) {
    part <= text || (text != [] && Contains(text[1..], part))
  }

  predicate ShouldFailover(a: Answer) {
    match a
    case Success => false
    case Canceled => false
    case DeadlineExceeded => false
    case Transport => true
    case Status(code, message) =>
      if code >= 500 || code == 429 then true
      else if code == 401 then false
      else
        Contains(message, "\"code\":\"relay_") || Contains(message, "\"code\": \"relay_")
        || Contains(message, "\"code\":\"residency_") || Contains(message, "\"code\": \"residency_")
  }

  predicate InUse(r: RouteState, now: int) {
    now >= r.until
  }

  function Failed(r: RouteState, now: int): RouteState {
    r.(failures := r.failures + 1, until := now + Cooldown(r.failures + 1))
  }

  function Recovered(r: RouteState): RouteState {
    r.(failures := 0, until := ZERO_TIME)
  }

  /** The newest state with this ID in the old list. */
  function Previous(routes: seq<RouteState>, id: string): Option<RouteState> {
    if routes == [] then None
    else if routes[|routes| - 1].id == id then Some(routes[|routes| - 1])
    else Previous(routes[..|routes| - 1], id)
  }

  function Carried(route: Route, old_: seq<RouteState>): RouteState {
    match Previous(old_, route.id)
    case None => RouteState(route.id, route.baseURL, 0, ZERO_TIME)
    case Some(p) => RouteState(route.id, route.baseURL, p.failures, p.until)
  }

  predicate DistinctIDs(routes: seq<RouteState>) {
    forall i, j :: 0 <= i < j < |routes| ==> routes[i].id != routes[j].id
  }

  lemma {:induction false} PreviousIsTheSurvivor(routes: seq<RouteState>, i: nat)
    requires DistinctIDs(routes) && i < |routes|
    ensures Previous(routes, routes[i].id) == Some(routes[i])
  {
    if i < |routes| - 1 {
      PreviousIsTheSurvivor(routes[..|routes| - 1], i);
    }
  }

  // ---------------------------------------------------------------------------------------------
  // The client
  // ---------------------------------------------------------------------------------------------

  class Client {
    var routes: seq<RouteState>
    var routesExpireAt: int
    var lastRoute: string

    constructor ()
      ensures routes == [] && routesExpireAt == ZERO_TIME && lastRoute == ""
    {
      routes, routesExpireAt, lastRoute := [], ZERO_TIME, "";
    }

    /** `buildable` tells whether a TLS client can be made for a route. */
    method SetRoutes(newRoutes: seq<Route>, expiresAt: int, buildable: Route -> bool) returns (ok: bool)
      modifies this
      ensures ok == forall i :: 0 <= i < |newRoutes| ==> buildable(newRoutes[i])
      ensures lastRoute == old(lastRoute)
      ensures !ok ==> routes == old(routes) && routesExpireAt == old(routesExpireAt)
      ensures ok ==> routesExpireAt == expiresAt && |routes| == |newRoutes|
      ensures ok ==> forall i :: 0 <= i < |routes| ==> routes[i] == Carried(newRoutes[i], old(routes))
    {
      var built: seq<RouteState> := [];
      for i := 0 to |newRoutes|
        invariant |built| == i && routes == old(routes)
        invariant forall j :: 0 <= j < i ==> buildable(newRoutes[j])
        invariant forall j :: 0 <= j < i ==> built[j] == RouteState(newRoutes[j].id, newRoutes[j].baseURL, 0, ZERO_TIME)
      {
        if !buildable(newRoutes[i]) {
          return false;
        }
        built := built + [RouteState(newRoutes[i].id, newRoutes[i].baseURL, 0, ZERO_TIME)];
      }
      var previous: map<string, RouteState> := map[];
      for i := 0 to |routes|
        invariant routes == old(routes)
        invariant forall id :: if Previous(routes[..i], id).Some? then id in previous && previous[id] == Previous(routes[..i], id).value else id !in previous
      {
        assert routes[..i + 1][..i] == routes[..i];
        previous := previous[routes[i].id := routes[i]];
      }
      assert routes[..|routes|] == routes;
      var kept: seq<RouteState> := [];
      for i := 0 to |built|
        invariant |kept| == i && routes == old(routes)
        invariant forall j :: 0 <= j < i ==> kept[j] == Carried(newRoutes[j], routes)
      {
        var state := built[i];
        if state.id in previous {
          state := state.(failures := previous[state.id].failures, until := previous[state.id].until);
        }
        kept := kept + [state];
      }
      routes, routesExpireAt := kept, expiresAt;
      ok := true;
    }

    /** The indices of the relays to try now, in order. */
    method ActiveRoutes(now: int) returns (out: seq<nat>)
      ensures forall k :: 0 <= k < |out| ==> out[k] < |routes|
      ensures forall k, l :: 0 <= k < l < |out| ==> out[k] < out[l]
      ensures forall i :: 0 <= i < |routes| ==> (i in out <==> IsActive(routes, routesExpireAt, i, now))
    {
      out := [];
      if |routes| == 0 || now >= routesExpireAt {
        return;
      }
      for i := 0 to |routes|
        invariant forall k :: 0 <= k < |out| ==> out[k] < i
        invariant forall k, l :: 0 <= k < l < |out| ==> out[k] < out[l]
        invariant forall j :: 0 <= j < i ==> (j in out <==> InUse(routes[j], now))
      {
        if now < routes[i].until {
          continue;
        }
        out := out + [i];
      }
    }

    method MarkRoute(i: nat, ok: bool, now: int)
      requires i < |routes|
      modifies this`routes
      ensures routes == old(routes)[i := if ok then Recovered(old(routes)[i]) else Failed(old(routes)[i], now)]
    {
      var state := routes[i];
      if ok {
        routes := routes[i := state.(failures := 0, until := ZERO_TIME)];
        return;
      }
      var failures := state.failures + 1;
      var cooldown := Wrap64(COOLDOWN_INITIAL * Pow2(failures - 1));
      if cooldown <= 0 || cooldown > COOLDOWN_MAX {
        cooldown := COOLDOWN_MAX;
      }
      routes := routes[i := state.(failures := failures, until := now + cooldown)];
    }

    /**
     do, for an authenticated call a relay may carry; `answer` is what each relay of the list replies, by its
     place, and `origin` what the origin replies.
     */
    method Do(now: int, answer: nat -> Answer, origin: Answer) returns (r: Answer)
      modifies this
      ensures routesExpireAt == old(routesExpireAt)
      ensures var first := Carrier(old(routes), routesExpireAt, now, answer, 0);
        && r == (if first < |old(routes)| then answer(first) else origin)
        && lastRoute == (if r != Success then old(lastRoute)
                         else if first < |old(routes)| then old(routes)[first].id else ORIGIN)
        && |routes| == |old(routes)|
        && forall i :: 0 <= i < |routes| ==> routes[i] == AfterCall(old(routes), routesExpireAt, now, first, i)
    {
      var active := ActiveRoutes(now);
      ghost var start := routes;
      for k := 0 to |active|
        invariant routesExpireAt == old(routesExpireAt) && lastRoute == old(lastRoute) && |routes| == |start|
        invariant forall l :: 0 <= l < k ==> ShouldFailover(answer(active[l]))
        invariant forall i :: 0 <= i < |routes| ==>
          routes[i] == if i in active[..k] then Failed(start[i], now) else start[i]
      {
        var i := active[k];
        NotYet(active, k);
        r := answer(i);
        if !ShouldFailover(r) {
          CarrierFound(start, routesExpireAt, now, answer, i, active, k);
          MarkRoute(i, true, now);
          if r == Success {
            lastRoute := routes[i].id;
          }
          return;
        }
        MarkRoute(i, false, now);
        assert active[..k + 1] == active[..k] + [i];
      }
      assert active[..|active|] == active;
      NoCarrier(start, routesExpireAt, now, answer, active);
      r := origin;
      if r == Success {
        lastRoute := ORIGIN;
      }
    }
  }

  predicate IsActive(routes: seq<RouteState>, expireAt: int, i: nat, now: int)
    requires i < |routes|
  {
    now < expireAt && InUse(routes[i], now)
  }

  /** The first relay from index i on that is tried and does not fail over; |routes| when there is none. */
  function Carrier(routes: seq<RouteState>, expireAt: int, now: int, answer: nat -> Answer, i: nat): (c: nat)
    requires i <= |routes|
    ensures i <= c <= |routes|
    ensures c < |routes| ==> IsActive(routes, expireAt, c, now) && !ShouldFailover(answer(c))
    ensures forall j :: i <= j < c && IsActive(routes, expireAt, j, now) ==> ShouldFailover(answer(j))
    decreases |routes| - i
  {
    if i == |routes| then i
    else if IsActive(routes, expireAt, i, now) && !ShouldFailover(answer(i)) then i
    else Carrier(routes, expireAt, now, answer, i + 1)
  }

  /** Relay i after a call that relay `first` answered: those tried before it are in cooldown, the rest are as before. */
  function AfterCall(routes: seq<RouteState>, expireAt: int, now: int, first: nat, i: nat): RouteState
    requires i < |routes|
  {
    if i < first && IsActive(routes, expireAt, i, now) then Failed(routes[i], now)
    else if i == first then Recovered(routes[i])
    else routes[i]
  }

  lemma NotYet(active: seq<nat>, k: nat)
    requires k < |active| && forall a, b :: 0 <= a < b < |active| ==> active[a] < active[b]
    ensures active[k] !in active[..k]
  {
  }

  lemma {:induction false} CarrierIs(routes: seq<RouteState>, expireAt: int, now: int, answer: nat -> Answer,
        i: nat, c: nat)
    requires i <= c <= |routes|
    requires c < |routes| ==> IsActive(routes, expireAt, c, now) && !ShouldFailover(answer(c))
    requires forall j :: i <= j < c && IsActive(routes, expireAt, j, now) ==> ShouldFailover(answer(j))
    ensures Carrier(routes, expireAt, now, answer, i) == c
    decreases c - i
  {
    if i < c {
      CarrierIs(routes, expireAt, now, answer, i + 1, c);
    }
  }

  lemma CarrierFound(routes: seq<RouteState>, expireAt: int, now: int, answer: nat -> Answer, i: nat,
        active: seq<nat>, k: nat)
    requires i < |routes| && k < |active| && active[k] == i
    requires forall a, b :: 0 <= a < b < |active| ==> active[a] < active[b]
    requires forall j :: 0 <= j < |routes| ==> (j in active <==> IsActive(routes, expireAt, j, now))
    requires forall l :: 0 <= l < |active| ==> active[l] < |routes|
    requires forall l :: 0 <= l < k ==> ShouldFailover(answer(active[l]))
    requires !ShouldFailover(answer(i))
    ensures Carrier(routes, expireAt, now, answer, 0) == i
    ensures forall j :: 0 <= j < |routes| ==> (j in active[..k] <==> j < i && IsActive(routes, expireAt, j, now))
  {
    forall j | 0 <= j < |routes|
      ensures j in active[..k] <==> j < i && IsActive(routes, expireAt, j, now)
    {
      if j in active && j < i {
        var l :| 0 <= l < |active| && active[l] == j;
        assert l < k;
        assert active[..k][l] == j;
      }
    }
    forall j | 0 <= j < i && IsActive(routes, expireAt, j, now)
      ensures ShouldFailover(answer(j))
    {
      var l :| 0 <= l < k && active[..k][l] == j;
    }
    assert i in active;
    CarrierIs(routes, expireAt, now, answer, 0, i);
  }

  lemma NoCarrier(routes: seq<RouteState>, expireAt: int, now: int, answer: nat -> Answer, active: seq<nat>)
    requires forall j :: 0 <= j < |routes| ==> (j in active <==> IsActive(routes, expireAt, j, now))
    requires forall l :: 0 <= l < |active| ==> active[l] < |routes| && ShouldFailover(answer(active[l]))
    ensures Carrier(routes, expireAt, now, answer, 0) == |routes|
  {
    forall j | 0 <= j < |routes| && IsActive(routes, expireAt, j, now)
      ensures ShouldFailover(answer(j))
    {
      var l :| 0 <= l < |active| && active[l] == j;
    }
    CarrierIs(routes, expireAt, now, answer, 0, |routes|);
  }

  // ---------------------------------------------------------------------------------------------
  // What callers can rely on
  // ---------------------------------------------------------------------------------------------

  /** A manifest refresh keeps the failure count and the deadline of every relay that stays. */
  lemma RefreshKeepsCooldowns(old_: seq<RouteState>, i: nat, route: Route)
    requires DistinctIDs(old_) && i < |old_| && route.id == old_[i].id
    ensures Carried(route, old_).failures == old_[i].failures && Carried(route, old_).until == old_[i].until
  {
    PreviousIsTheSurvivor(old_, i);
  }

  /**
   After a relay has failed for the f-th time in a row it is left alone for exactly
   min(30 s * 2^(f-1), 10 min) and used again from then on.
   */
  lemma FailedRelayRestsExactly(r: RouteState, now: int, later: int)
    ensures InUse(Failed(r, now), later) <==> later >= now + Min(COOLDOWN_INITIAL * Pow2(r.failures), COOLDOWN_MAX)
  {
    CooldownIsExact(r.failures + 1);
  }

  /** With every relay failing over, in cooldown or lapsed, the origin answers. */
  lemma OriginIsTheLastResort(routes: seq<RouteState>, expireAt: int, now: int, answer: nat -> Answer)
    ensures Carrier(routes, expireAt, now, answer, 0) == |routes| <==>
      forall i :: 0 <= i < |routes| && IsActive(routes, expireAt, i, now) ==> ShouldFailover(answer(i))
  {
  }
}
