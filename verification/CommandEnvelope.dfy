/**
 What the verifier of signed commands and the runtime share: the fields of a command as they arrive, the
 grammar of key IDs, and the clock policy (agent/internal/verify/verify.go).
 */
module CommandEnvelope {
  import opened Basics
  import opened Numerals

  const VERSION_2: string := "command-v2"
  const VERSION_3: string := "command-v3"

  /** Nanoseconds. */
  const MAX_SKEW: int := 2 * 60 * SECOND
  const MAX_LIFETIME: int := 24 * 3600 * SECOND

  /** The arguments of canonicalCommandBytes; `payload` is the raw text, `keyID` is "" when absent. */
  datatype Envelope = Envelope(
    version: string, schema: int, commandID: string, agentID: string, kind: string, payload: string,
    issuedAt: string, expiresAt: string, nonce: string, keyID: string)

  predicate IsWordChar(c: char) {
    IsDigit(c) || 'A' <= c <= 'Z' || 'a' <= c <= 'z' || c == '_' || c == '-'
  }

  predicate IsKeyID(s: string) {
    1 <= |s| <= 64 && forall i :: 0 <= i < |s| ==> IsWordChar(s[i]) || s[i] == '.'
  }

  /** The two ends of a window are in order and not more than a day apart. */
  predicate GoodPair(issued: int, expires: int) {
    0 < expires - issued <= MAX_LIFETIME
  }

  /** The expiry of a command that may run now.  A time is None when it does not parse canonically. */
  function Window(issued: Option<int>, expires: Option<int>, now: int): Option<int> {
    if issued.None? || expires.None? then None
    else if !GoodPair(issued.value, expires.value) then None
    else if issued.value > now + MAX_SKEW || expires.value <= now then None
    else expires
  }

  /** The clock policy: expiry is exclusive and only a small forward skew is forgiven. */
  lemma WindowIsAnInterval(issued: Option<int>, expires: Option<int>, now: int)
    ensures Window(issued, expires, now).Some? <==>
      && issued.Some? && expires.Some? && GoodPair(issued.value, expires.value)
      && issued.value - MAX_SKEW <= now < expires.value
    ensures Window(issued, expires, now).Some? ==> Window(issued, expires, now) == expires
  {
  }
}
