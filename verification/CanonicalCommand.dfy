/**
 The signed form of a command (agent/internal/verify/verify.go and canonical.go): the checks on the
 envelope, the document that is printed, and what equal bytes say about two envelopes.

 `parseTime` stands for parseCommandTime (time package): nanoseconds since the epoch, or None.
 */
module CanonicalCommand {
  import opened Basics
  import opened CommandEnvelope
  import opened Json
  import JsonText
  import opened Numerals
  import opened PythonJson
  import Version

  const SCHEMA_1: int := 1
  const MAX_BYTES: nat := 64 * 1024
  const MAX_DEPTH: nat := 16

  const KINDS: set<string> := {
    "powershell", "shell", "collect_inventory", "scan_updates", "install_updates",
    "file_upload", "file_download", "registry_read", "registry_write", "registry_delete", "remediation_rollback",
    "reboot", "shutdown", "cancel_power_action", "query_event_log", "scan_packages", "install_packages",
    "deploy_software", "list_services", "control_service", "list_processes", "terminate_process",
    "agent_self_update", "agent_update_rollback"
  }

  datatype Problem =
    | MissingVersion | UnsupportedVersion | MissingSchema | UnsupportedSchema | MissingField | UnsupportedKind
    | MissingNonce | MalformedNonce | MalformedKeyID | UnexpectedKeyID | BadTime | BadWindow
    | BadPayload | PayloadNotAnObject | PayloadValueRefused | TooLarge

  predicate IsNonce(s: string) {
    22 <= |s| <= 64 && forall i :: 0 <= i < |s| ==> IsWordChar(s[i])
  }

  /** validateCommandTimePair: None when the pair is good. */
  function TimePairProblem(e: Envelope, parseTime: string -> Option<int>): Option<Problem> {
    var issued, expires := parseTime(e.issuedAt), parseTime(e.expiresAt);
    if issued.None? || expires.None? then Some(BadTime)
    else if !GoodPair(issued.value, expires.value) then Some(BadWindow)
    else None
  }

  /** Everything canonicalCommandBytes checks before it looks at the payload, in its order. */
  function HeaderProblem(e: Envelope, parseTime: string -> Option<int>): Option<Problem> {
    if e.version != VERSION_2 && e.version != VERSION_3 then
      Some(if e.version == "" then MissingVersion else UnsupportedVersion)
    else if e.schema == 0 then Some(MissingSchema)
    else if e.schema != SCHEMA_1 then Some(UnsupportedSchema)
    else if e.commandID == "" || e.agentID == "" || e.kind == "" then Some(MissingField)
    else if e.kind !in KINDS then Some(UnsupportedKind)
    else if e.nonce == "" then Some(MissingNonce)
    else if !IsNonce(e.nonce) then Some(MalformedNonce)
    else if e.version == VERSION_3 && !IsKeyID(e.keyID) then Some(MalformedKeyID)
    else if e.version != VERSION_3 && e.keyID != "" then Some(UnexpectedKeyID)
    else TimePairProblem(e, parseTime)
  }

  /** No point, no exponent, and within int64. */
  predicate IsPayloadInteger(literal: string) {
    !('.' in literal || 'e' in literal || 'E' in literal) && Version.Atoi(literal).Some?
  }

  predicate ValidPayloadValue(v: Value, depth: nat) {
    depth <= MAX_DEPTH &&
    match v
    case Number(literal) => IsPayloadInteger(literal)
    case Array(items) => forall i :: 0 <= i < |items| ==> ValidPayloadValue(items[i], depth + 1)
    case Object(members) => forall k :: k in members ==> ValidPayloadValue(members[k], depth + 1)
    case _ => true
  }

  function ReadPayload(text: string): Result<Value, Problem> {
    var value := if text == "" then Some(Object(map[])) else Decode(text);
    match value
    case None => Err(BadPayload)
    case Some(v) =>
      if !v.Object? then Err(PayloadNotAnObject)
      else if !ValidPayloadValue(v, 0) then Err(PayloadValueRefused)
      else Ok(v)
  }

  function Fields(e: Envelope, payload: Value): map<string, Value> {
    map[
      "agent_id" := String(e.agentID),
      "command_id" := String(e.commandID),
      "envelope_version" := String(e.version),
      "expires_at" := String(e.expiresAt),
      "issued_at" := String(e.issuedAt),
      "kind" := String(e.kind),
      "nonce" := String(e.nonce),
      "payload" := payload,
      "schema_version" := Number(IntText(e.schema))
    ]
  }

  function Document(e: Envelope, payload: Value): Value {
    Object(if e.version == VERSION_3 then Fields(e, payload)["signing_key_id" := String(e.keyID)]
        else Fields(e, payload))
  }

  function Utf8Length(s: string): nat {
    if s == [] then 0
    else
      (if s[0] as int < 0x80 then 1 else if s[0] as int < 0x800 then 2 else if s[0] as int < 0x10000 then 3 else 4)
      + Utf8Length(s[1..])
  }

  function CanonicalCommandBytes(e: Envelope, parseTime: string -> Option<int>): Result<string, Problem> {
    match HeaderProblem(e, parseTime)
    case Some(problem) => Err(problem)
    case None =>
      match ReadPayload(e.payload)
      case Err(problem) => Err(problem)
      case Ok(payload) =>
        var encoded := Print(Document(e, payload), Go);
        if Utf8Length(encoded) > MAX_BYTES then Err(TooLarge) else Ok(encoded)
  }

  /** VerifyWithKeyID, with the signature scheme as a parameter. */
  predicate VerifyWithKeyID<Key, Signature>(key: Key, e: Envelope, signature: Signature,
      check: (Key, string, Signature) -> bool, parseTime: string -> Option<int>)
  {
    var msg := CanonicalCommandBytes(e, parseTime);
    msg.Ok? && check(key, msg.value, signature)
  }

  /** ValidateCommandWindow: the expiry when the command may run now. */
  function ValidateCommandWindow(e: Envelope, now: int, parseTime: string -> Option<int>): Option<int> {
    Window(parseTime(e.issuedAt), parseTime(e.expiresAt), now)
  }

  // ---------------------------------------------------------------------------------------------
  // What the decoder returns can be printed
  // ---------------------------------------------------------------------------------------------

  lemma PayloadIsPrintable(text: string)
    requires ReadPayload(text).Ok?
    ensures Printable(ReadPayload(text).value)
  {
    if text != "" {
      DecodedIsPrintable(SkipWs(text));
    }
  }

  lemma DocumentIsPrintable(e: Envelope, payload: Value)
    requires Printable(payload) && e.schema == SCHEMA_1
    ensures Printable(Document(e, payload))
  {
    assert IntText(1) == "1";
    assert IsNumber("1");
  }

  // ---------------------------------------------------------------------------------------------
  // The signature covers every field
  // ---------------------------------------------------------------------------------------------

  /** The two envelopes carry the same command, payload compared by value. */
  ghost predicate SameCommand(e: Envelope, f: Envelope) {
    && e.(payload := "") == f.(payload := "")
    && ReadPayload(e.payload) == ReadPayload(f.payload)
  }

  /** An envelope the agent gives bytes to. */
  ghost predicate WellFormedEnvelope(e: Envelope, parseTime: string -> Option<int>) {
    && e.version in {VERSION_2, VERSION_3} && e.schema == SCHEMA_1
    && e.commandID != "" && e.agentID != "" && e.kind in KINDS && IsNonce(e.nonce)
    && (if e.version == VERSION_3 then IsKeyID(e.keyID) else e.keyID == "")
    && GoodWindow(e, parseTime)
    && ReadPayload(e.payload).Ok?
    && Utf8Length(Print(Document(e, ReadPayload(e.payload).value), Go)) <= MAX_BYTES
  }

  /** Both times parse, in order, and not more than a day apart. */
  ghost predicate GoodWindow(e: Envelope, parseTime: string -> Option<int>) {
    && parseTime(e.issuedAt).Some? && parseTime(e.expiresAt).Some?
    && GoodPair(parseTime(e.issuedAt).value, parseTime(e.expiresAt).value)
  }

  lemma HeaderIsGoodExactly(e: Envelope, parseTime: string -> Option<int>)
    ensures HeaderProblem(e, parseTime).None? <==>
      && e.version in {VERSION_2, VERSION_3} && e.schema == SCHEMA_1
      && e.commandID != "" && e.agentID != "" && e.kind in KINDS && IsNonce(e.nonce)
      && (if e.version == VERSION_3 then IsKeyID(e.keyID) else e.keyID == "")
      && GoodWindow(e, parseTime)
  {
    assert "" !in KINDS;
  }

  /** Exactly the well-formed envelopes get canonical bytes. */
  lemma AcceptsExactlyWellFormedEnvelopes(e: Envelope, parseTime: string -> Option<int>)
    ensures CanonicalCommandBytes(e, parseTime).Ok? <==> WellFormedEnvelope(e, parseTime)
  {
    HeaderIsGoodExactly(e, parseTime);
    if CanonicalCommandBytes(e, parseTime).Ok? {
      BytesArePrinted(e, parseTime);
    }
  }

  /**
   The clock policy: a command may run at exactly the moments of one interval, whose expiry is exclusive and
   whose start forgives a small forward skew.  For a command that has canonical bytes only the clock matters.
   */
  lemma CommandRunsExactlyInItsWindow(e: Envelope, now: int, parseTime: string -> Option<int>)
    ensures ValidateCommandWindow(e, now, parseTime).Some? <==>
      GoodWindow(e, parseTime) && parseTime(e.issuedAt).value - MAX_SKEW <= now < parseTime(e.expiresAt).value
    ensures CanonicalCommandBytes(e, parseTime).Ok? ==> GoodWindow(e, parseTime)
  {
    HeaderIsGoodExactly(e, parseTime);
    if CanonicalCommandBytes(e, parseTime).Ok? {
      BytesArePrinted(e, parseTime);
    }
  }

  lemma DocumentNames(e: Envelope, p: Value)
    ensures var d := Document(e, p).members;
      && "agent_id" in d && d["agent_id"] == String(e.agentID)
      && "command_id" in d && d["command_id"] == String(e.commandID)
      && "envelope_version" in d && d["envelope_version"] == String(e.version)
      && "kind" in d && d["kind"] == String(e.kind)
      && (e.version == VERSION_3 ==> "signing_key_id" in d && d["signing_key_id"] == String(e.keyID))
  {
  }

  lemma DocumentRest(e: Envelope, p: Value)
    ensures var d := Document(e, p).members;
      && "expires_at" in d && d["expires_at"] == String(e.expiresAt)
      && "issued_at" in d && d["issued_at"] == String(e.issuedAt)
      && "nonce" in d && d["nonce"] == String(e.nonce)
      && "payload" in d && d["payload"] == p
  {
  }

  lemma EqualDocuments(e: Envelope, f: Envelope, p: Value, q: Value)
    requires Document(e, p) == Document(f, q)
    requires e.schema == f.schema
    requires e.version != VERSION_3 ==> e.keyID == ""
    requires f.version != VERSION_3 ==> f.keyID == ""
    ensures e.(payload := "") == f.(payload := "") && p == q
  {
    DocumentNames(e, p);
    DocumentNames(f, q);
    DocumentRest(e, p);
    DocumentRest(f, q);
  }

  lemma HeaderFacts(e: Envelope, parseTime: string -> Option<int>)
    requires HeaderProblem(e, parseTime).None?
    ensures e.schema == SCHEMA_1 && (e.version != VERSION_3 ==> e.keyID == "")
  {
  }

  lemma BytesArePrinted(e: Envelope, parseTime: string -> Option<int>)
    requires CanonicalCommandBytes(e, parseTime).Ok?
    ensures HeaderProblem(e, parseTime).None? && ReadPayload(e.payload).Ok?
    ensures CanonicalCommandBytes(e, parseTime).value == Print(Document(e, ReadPayload(e.payload).value), Go)
  {
    var problem, payload := HeaderProblem(e, parseTime), ReadPayload(e.payload);
    assert problem.None?;
    assert payload.Ok?;
  }

  /** What an accepted envelope has been checked for. */
  lemma AcceptedEnvelope(e: Envelope, parseTime: string -> Option<int>)
    requires CanonicalCommandBytes(e, parseTime).Ok?
    ensures e.schema == SCHEMA_1 && (e.version != VERSION_3 ==> e.keyID == "")
    ensures ReadPayload(e.payload).Ok?
    ensures CanonicalCommandBytes(e, parseTime).value == Print(Document(e, ReadPayload(e.payload).value), Go)
  {
    BytesArePrinted(e, parseTime);
    HeaderFacts(e, parseTime);
  }

  /** Decoding the canonical bytes gives back the document that was checked. */
  lemma CanonicalBytesDecodeToTheDocument(e: Envelope, parseTime: string -> Option<int>)
    requires CanonicalCommandBytes(e, parseTime).Ok?
    ensures ReadPayload(e.payload).Ok?
    ensures Decode(CanonicalCommandBytes(e, parseTime).value) == Some(Document(e, ReadPayload(e.payload).value))
  {
    AcceptedEnvelope(e, parseTime);
    var payload := ReadPayload(e.payload).value;
    PayloadIsPrintable(e.payload);
    DocumentIsPrintable(e, payload);
    JsonText.RoundTrip(Document(e, payload), Go);
  }

  lemma SameCommandSameBytes(e: Envelope, f: Envelope, parseTime: string -> Option<int>)
    requires SameCommand(e, f)
    ensures CanonicalCommandBytes(e, parseTime) == CanonicalCommandBytes(f, parseTime)
  {
    var g := e.(payload := "");
    assert f.(payload := "") == g;
    assert HeaderProblem(e, parseTime) == HeaderProblem(g, parseTime) == HeaderProblem(f, parseTime);
    var r := ReadPayload(e.payload);
    if r.Ok? {
      assert Document(e, r.value) == Document(g, r.value) == Document(f, r.value);
    }
  }

  lemma SameDocumentSameCommand(e: Envelope, f: Envelope, p: Value, q: Value)
    requires ReadPayload(e.payload) == Ok(p) && ReadPayload(f.payload) == Ok(q)
    requires e.schema == f.schema && (e.version != VERSION_3 ==> e.keyID == "") && (f.version != VERSION_3 ==> f.keyID == "")
    requires Document(e, p) == Document(f, q)
    ensures SameCommand(e, f)
  {
    EqualDocuments(e, f, p, q);
  }

  lemma SameBytesSameCommand(e: Envelope, f: Envelope, parseTime: string -> Option<int>)
    requires CanonicalCommandBytes(e, parseTime).Ok?
    requires CanonicalCommandBytes(e, parseTime) == CanonicalCommandBytes(f, parseTime)
    ensures SameCommand(e, f)
  {
    var m := CanonicalCommandBytes(e, parseTime);
    AcceptedEnvelope(e, parseTime);
    AcceptedEnvelope(f, parseTime);
    CanonicalBytesDecodeToTheDocument(e, parseTime);
    CanonicalBytesDecodeToTheDocument(f, parseTime);
    var p, q := ReadPayload(e.payload).value, ReadPayload(f.payload).value;
    assert Decode(m.value) == Some(Document(e, p)) == Some(Document(f, q));
    SameDocumentSameCommand(e, f, p, q);
  }

  /** Two accepted envelopes have the same canonical bytes exactly when they are the same command. */
  lemma EqualBytesExactlyForTheSameCommand(e: Envelope, f: Envelope, parseTime: string -> Option<int>)
    requires CanonicalCommandBytes(e, parseTime).Ok?
    ensures CanonicalCommandBytes(e, parseTime) == CanonicalCommandBytes(f, parseTime) <==> SameCommand(e, f)
  {
    if SameCommand(e, f) {
      SameCommandSameBytes(e, f, parseTime);
    }
    if CanonicalCommandBytes(e, parseTime) == CanonicalCommandBytes(f, parseTime) {
      SameBytesSameCommand(e, f, parseTime);
    }
  }

  /**
   If the only messages that pass the signature check are those of the commands the server issued, then
   every command the agent accepts is one of those, field for field and payload value for payload value.
   */
  lemma AcceptedCommandWasIssued<Key(!new), Signature(!new)>(key: Key, e: Envelope, signature: Signature,
      check: (Key, string, Signature) -> bool, issued: set<Envelope>, parseTime: string -> Option<int>)
    requires forall m, s :: check(key, m, s) ==>
      exists f :: f in issued && CanonicalCommandBytes(f, parseTime) == Ok(m)
    requires VerifyWithKeyID(key, e, signature, check, parseTime)
    ensures exists f :: f in issued && SameCommand(e, f)
  {
    var m := CanonicalCommandBytes(e, parseTime).value;
    var f :| f in issued && CanonicalCommandBytes(f, parseTime) == Ok(m);
    EqualBytesExactlyForTheSameCommand(e, f, parseTime);
  }

  /** Payload texts that differ only in layout, member order, repeated keys or escapes are the same payload. */
  lemma LayoutDoesNotMatter(e: Envelope, before: string, t: JsonText.Tree, after: string,
      before': string, u: JsonText.Tree, after': string, parseTime: string -> Option<int>)
    requires AllWs(before) && AllWs(after) && AllWs(before') && AllWs(after')
    requires JsonText.Valid(t) && JsonText.Valid(u) && JsonText.MeaningOf(t) == JsonText.MeaningOf(u)
    ensures CanonicalCommandBytes(e.(payload := before + JsonText.TextOf(t) + after), parseTime)
         == CanonicalCommandBytes(e.(payload := before' + JsonText.TextOf(u) + after'), parseTime)
  {
    JsonText.TextStart(t);
    JsonText.TextStart(u);
    JsonText.DecodeReadsEveryText(before, t, after);
    JsonText.DecodeReadsEveryText(before', u, after');
    var a, b := e.(payload := before + JsonText.TextOf(t) + after), e.(payload := before' + JsonText.TextOf(u) + after');
    assert ReadPayload(a.payload) == ReadPayload(b.payload);
    SameCommandSameBytes(a, b, parseTime);
  }

  // ---------------------------------------------------------------------------------------------
  // The server prints the same bytes
  // ---------------------------------------------------------------------------------------------

  function EscapeOne(c: char): string {
    if IsLineSeparator(c) then PrintChar(c, Go) else [c]
  }

  /** str.replace on the two line separators, after json.dumps. */
  function EscapeLineSeparators(s: string): string {
    if s == [] then "" else EscapeOne(s[0]) + EscapeLineSeparators(s[1..])
  }

  lemma {:induction false} EscapeConcat(a: string, b: string)
    ensures EscapeLineSeparators(a + b) == EscapeLineSeparators(a) + EscapeLineSeparators(b)
  {
    if a == [] {
      assert a + b == b;
    } else {
      HeadTail(a, b);
      EscapeConcat(a[1..], b);
      Assoc(EscapeOne(a[0]), EscapeLineSeparators(a[1..]), EscapeLineSeparators(b));
    }
  }

  lemma {:induction false} EscapePlain(s: string)
    requires forall i :: 0 <= i < |s| ==> !IsLineSeparator(s[i])
    ensures EscapeLineSeparators(s) == s
  {
    if s != [] {
      EscapePlain(s[1..]);
    }
  }

  lemma EscapeChar(c: char)
    ensures EscapeLineSeparators(PrintChar(c, Python)) == PrintChar(c, Go)
  {
    var p := PrintChar(c, Python);
    if IsLineSeparator(c) {
      assert p == [c];
      assert p[1..] == [];
    } else {
      EscapePlain(p);
    }
  }

  lemma {:induction false} EscapeChars(s: string)
    ensures EscapeLineSeparators(PrintChars(s, Python)) == PrintChars(s, Go)
  {
    if s != [] {
      EscapeChar(s[0]);
      EscapeChars(s[1..]);
      EscapeConcat(PrintChar(s[0], Python), PrintChars(s[1..], Python));
    }
  }

  lemma EscapeString(s: string)
    ensures EscapeLineSeparators(PrintString(s, Python)) == PrintString(s, Go)
  {
    EscapeChars(s);
    EscapeConcat("\"" + PrintChars(s, Python), "\"");
    EscapeConcat("\"", PrintChars(s, Python));
    EscapePlain("\"");
  }

  lemma NumbersArePlain(literal: string)
    requires IsNumber(literal)
    ensures EscapeLineSeparators(literal) == literal
  {
    JsonText.NumberIsNumberChars(literal);
    PrefixIsPlain(literal);
    EscapePlain(literal);
  }

  lemma {:induction false} PrefixIsPlain(s: string)
    requires NumberPrefix(s) == |s|
    ensures forall i :: 0 <= i < |s| ==> !IsLineSeparator(s[i])
  {
    if s != [] {
      PrefixIsPlain(s[1..]);
      assert s == [s[0]] + s[1..];
    }
  }

  lemma EscapeBetween(open: string, middle: string, close: string)
    requires |open| == 1 && |close| == 1 && !IsLineSeparator(open[0]) && !IsLineSeparator(close[0])
    ensures EscapeLineSeparators(open + middle + close) == open + EscapeLineSeparators(middle) + close
  {
    EscapeConcat(open + middle, close);
    EscapeConcat(open, middle);
    EscapePlain(open);
    EscapePlain(close);
  }

  /** json.dumps followed by the two replacements is Go's encoder. */
  lemma {:induction false} ServerPrintsTheSameBytes(v: Value)
    requires Printable(v)
    ensures EscapeLineSeparators(Print(v, Python)) == Print(v, Go)
    decreases v, 1
  {
    match v {
      case Null => EscapePlain("null");
      case Bool(b) => EscapePlain(Print(v, Python));
      case Number(literal) => NumbersArePlain(literal);
      case String(s) => EscapeString(s);
      case Array(items) =>
        EscapeItems(items);
        EscapeBetween("[", PrintItems(items, Python), "]");
      case Object(members) =>
        assert forall k :: k in Keys(v) ==> k in Elems(Keys(v));
        EscapeMembers(v, Keys(v));
        EscapeBetween("{", PrintMembers(v, Keys(v), Python), "}");
    }
  }

  lemma {:induction false} EscapeItems(items: seq<Value>)
    requires forall i :: 0 <= i < |items| ==> Printable(items[i])
    ensures EscapeLineSeparators(PrintItems(items, Python)) == PrintItems(items, Go)
    decreases items, 0
  {
    if items != [] {
      ServerPrintsTheSameBytes(items[0]);
      if |items| > 1 {
        EscapeItems(items[1..]);
        EscapeConcat(Print(items[0], Python) + ",", PrintItems(items[1..], Python));
        EscapeConcat(Print(items[0], Python), ",");
        EscapePlain(",");
      }
    }
  }

  lemma {:induction false} EscapeMembers(v: Value, keys: seq<string>)
    requires v.Object? && Printable(v) && forall k :: k in keys ==> k in v.members
    ensures EscapeLineSeparators(PrintMembers(v, keys, Python)) == PrintMembers(v, keys, Go)
    decreases v, 0, |keys|
  {
    if keys != [] {
      var key, value := PrintString(keys[0], Python), Print(v.members[keys[0]], Python);
      ServerPrintsTheSameBytes(v.members[keys[0]]);
      EscapeString(keys[0]);
      EscapeConcat(key + ":", value);
      EscapeConcat(key, ":");
      EscapePlain(":");
      if |keys| > 1 {
        EscapeMembers(v, keys[1..]);
        EscapeConcat(key + ":" + value + ",", PrintMembers(v, keys[1..], Python));
        EscapeConcat(key + ":" + value, ",");
        EscapePlain(",");
      }
    }
  }

  predicate HoldsMinusZero(v: Value) {
    match v
    case Number(literal) => literal == "-0"
    case Array(items) => exists i :: 0 <= i < |items| && HoldsMinusZero(items[i])
    case Object(members) => exists k :: k in members && HoldsMinusZero(members[k])
    case _ => false
  }

  predicate AllIntegers(v: Value) {
    match v
    case Number(literal) => IsIntegerText(literal)
    case Array(items) => forall i :: 0 <= i < |items| ==> AllIntegers(items[i])
    case Object(members) => forall k :: k in members ==> AllIntegers(members[k])
    case _ => true
  }

  lemma {:induction false} PythonViewChangesOnlyMinusZero(v: Value)
    requires AllIntegers(v)
    ensures PythonView(v) == v <==> !HoldsMinusZero(v)
    decreases v
  {
    match v {
      case Null =>
      case Bool(_) =>
      case String(_) =>
      case Number(literal) => ReprintChangesOnlyMinusZero(literal);
      case Array(items) =>
        forall i | 0 <= i < |items|
          ensures PythonView(items[i]) == items[i] <==> !HoldsMinusZero(items[i])
        {
          PythonViewChangesOnlyMinusZero(items[i]);
        }
        var view := PythonView(v).items;
        assert |view| == |items| && forall i :: 0 <= i < |items| ==> view[i] == PythonView(items[i]);
        if !HoldsMinusZero(v) {
          assert view == items;
        }
      case Object(members) =>
        forall k | k in members
          ensures PythonView(members[k]) == members[k] <==> !HoldsMinusZero(members[k])
        {
          PythonViewChangesOnlyMinusZero(members[k]);
        }
        var view := PythonView(v).members;
        assert view.Keys == members.Keys && forall k :: k in members ==> view[k] == PythonView(members[k]);
        if !HoldsMinusZero(v) {
          assert view == members;
        }
    }
  }

  lemma {:induction false} DropDigitsStops(s: string)
    ensures AllDigits(s[..|s| - |DropDigits(s)|]) && s[|s| - |DropDigits(s)|..] == DropDigits(s)
  {
    if s != [] && IsDigit(s[0]) {
      DropDigitsStops(s[1..]);
      var n := |s[1..]| - |DropDigits(s[1..])|;
      assert s[..n + 1] == [s[0]] + s[1..][..n];
      assert s[n + 1..] == s[1..][n..];
    }
  }

  lemma NumbersWithoutPointOrExponent(s: string)
    requires IsNumber(s) && !('.' in s || 'e' in s || 'E' in s)
    ensures IsIntegerText(s)
  {
    var r := if s[0] == '-' then s[1..] else s;
    forall c | c in r
      ensures c in s
    {
    }
    DropDigitsStops(r);
    var rest := if r[0] == '0' then r[1..] else DropDigits(r);
    assert forall c :: c in rest ==> c in r;
    assert r[0] != '0' ==> r == r[..|r|];
  }

  lemma {:induction false} ValidPayloadsHoldIntegers(v: Value, depth: nat)
    requires ValidPayloadValue(v, depth) && Printable(v)
    ensures AllIntegers(v)
    decreases v
  {
    match v {
      case Null =>
      case Bool(_) =>
      case String(_) =>
      case Number(literal) => NumbersWithoutPointOrExponent(literal);
      case Array(items) =>
        forall i | 0 <= i < |items|
          ensures AllIntegers(items[i])
        {
          ValidPayloadsHoldIntegers(items[i], depth + 1);
        }
      case Object(members) =>
        forall k | k in members
          ensures AllIntegers(members[k])
        {
          ValidPayloadsHoldIntegers(members[k], depth + 1);
        }
    }
  }

  /** canonical_command_bytes of the server, from the document on. */
  function ServerBytes(e: Envelope, payload: Value): string {
    EscapeLineSeparators(Print(Document(e, payload), Python))
  }

  /**
   For every command the agent accepts, the server that loads the same payload text signs the same
   bytes, unless the payload spells an integer "-0": the agent keeps that spelling, Python does not.
   */
  lemma ServerSignsTheSameBytesUnlessMinusZero(e: Envelope, parseTime: string -> Option<int>)
    requires CanonicalCommandBytes(e, parseTime).Ok?
    ensures ReadPayload(e.payload).Ok?
    ensures ServerBytes(e, PythonView(ReadPayload(e.payload).value)) == CanonicalCommandBytes(e, parseTime).value
       <==> !HoldsMinusZero(ReadPayload(e.payload).value)
  {
    AcceptedEnvelope(e, parseTime);
    PayloadIsPrintable(e.payload);
    PayloadHoldsIntegers(e.payload);
    ServerAgrees(e, ReadPayload(e.payload).value);
  }

  lemma PayloadHoldsIntegers(text: string)
    requires ReadPayload(text).Ok? && Printable(ReadPayload(text).value)
    ensures AllIntegers(ReadPayload(text).value)
  {
    ValidPayloadsHoldIntegers(ReadPayload(text).value, 0);
  }

  lemma ServerAgrees(e: Envelope, p: Value)
    requires AllIntegers(p) && Printable(p) && e.schema == SCHEMA_1 && (e.version != VERSION_3 ==> e.keyID == "")
    ensures ServerBytes(e, PythonView(p)) == Print(Document(e, p), Go) <==> !HoldsMinusZero(p)
  {
    PythonViewIsPrintable(p);
    PythonViewChangesOnlyMinusZero(p);
    DocumentIsPrintable(e, p);
    DocumentIsPrintable(e, PythonView(p));
    ServerPrintsTheSameBytes(Document(e, PythonView(p)));
    if Print(Document(e, PythonView(p)), Go) == Print(Document(e, p), Go) {
      JsonText.PrintInjective(Document(e, PythonView(p)), Document(e, p), Go);
      EqualDocuments(e, e, PythonView(p), p);
    }
  }
}
