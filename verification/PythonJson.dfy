/**
 Python's json module as the server and the evidence tools use it: json.loads, and json.dumps with
 sorted keys, the short separators and ensure_ascii off.  An integer has a value, not a spelling; other
 numbers keep their literal here.
 */
module PythonJson {
  import opened Basics
  import opened Numerals
  import opened Json
  import JsonText

  /** The value json.loads builds where the Go decoder keeps literals. */
  function PythonView(v: Value): Value {
    match v
    case Number(literal) => if IntValue(literal).Some? then Number(IntText(IntValue(literal).value)) else v
    case Array(items) => Array(seq(|items|, i requires 0 <= i < |items| => PythonView(items[i])))
    case Object(members) => Object(map k | k in members :: PythonView(members[k]))
    case _ => v
  }

  function Loads(text: string): Option<Value> {
    match Decode(text)
    case None => None
    case Some(v) => Some(PythonView(v))
  }

  function Dumps(v: Value): string {
    Print(v, Python)
  }

  /** The values json.loads can return. */
  predicate Loadable(v: Value) {
    Printable(v) && PythonView(v) == v
  }

  lemma {:induction false} DigitsDrop(s: string)
    requires AllDigits(s)
    ensures DropDigits(s) == ""
  {
    if s != [] {
      DigitsDrop(s[1..]);
    }
  }

  lemma IntTextIsNumber(n: int)
    ensures IsIntegerText(IntText(n)) && IsNumber(IntText(n))
  {
    var s := IntText(n);
    if n < 0 {
      NatTextReadsBack(-n);
      assert s[1..] == NatText(-n);
      DigitsDrop(s[1..]);
    } else {
      NatTextReadsBack(n);
      DigitsDrop(s);
    }
  }

  lemma {:induction false} PythonViewIsPrintable(v: Value)
    requires Printable(v)
    ensures Printable(PythonView(v))
    decreases v
  {
    match v {
      case Null =>
      case Bool(_) =>
      case String(_) =>
      case Number(literal) =>
        if IntValue(literal).Some? {
          IntTextIsNumber(IntValue(literal).value);
        }
      case Array(items) =>
        forall i | 0 <= i < |items|
          ensures Printable(PythonView(items[i]))
        {
          PythonViewIsPrintable(items[i]);
        }
      case Object(members) =>
        forall k | k in members
          ensures Printable(PythonView(members[k]))
        {
          PythonViewIsPrintable(members[k]);
        }
    }
  }

  lemma {:induction false} PythonViewIsIdempotent(v: Value)
    ensures PythonView(PythonView(v)) == PythonView(v)
    decreases v
  {
    match v {
      case Null =>
      case Bool(_) =>
      case String(_) =>
      case Number(literal) =>
        if IntValue(literal).Some? {
          IntTextReadsBack(IntValue(literal).value);
        }
      case Array(items) =>
        forall i | 0 <= i < |items|
          ensures PythonView(PythonView(items[i])) == PythonView(items[i])
        {
          PythonViewIsIdempotent(items[i]);
        }
        var once := PythonView(v).items;
        assert PythonView(Array(once)).items == once;
      case Object(members) =>
        forall k | k in members
          ensures PythonView(PythonView(members[k])) == PythonView(members[k])
        {
          PythonViewIsIdempotent(members[k]);
        }
        var once := PythonView(v).members;
        assert PythonView(Object(once)).members == once;
    }
  }

  /** loads undoes dumps. */
  lemma LoadsDumps(v: Value)
    requires Loadable(v)
    ensures Loads(Dumps(v)) == Some(v)
  {
    JsonText.RoundTrip(v, Python);
  }

  lemma DumpsInjective(v: Value, w: Value)
    requires Printable(v) && Printable(w) && Dumps(v) == Dumps(w)
    ensures v == w
  {
    JsonText.PrintInjective(v, w, Python);
  }

  lemma {:induction false} DecodedIsPrintable(s: string)
    ensures ParseValue(s).Some? ==> Printable(ParseValue(s).value.0)
    decreases |s|, 1
  {
    if s != [] && s[0] == '[' {
      var body := SkipWs(s[1..]);
      DecodedElemsArePrintable(body);
    } else if s != [] && s[0] == '{' {
      var body := SkipWs(s[1..]);
      DecodedMembersArePrintable(body);
    }
  }

  lemma {:induction false} DecodedElemsArePrintable(s: string)
    ensures ParseElems(s).Some? ==> forall i :: 0 <= i < |ParseElems(s).value.0| ==> Printable(ParseElems(s).value.0[i])
    decreases |s|, 2
  {
    DecodedIsPrintable(s);
    if ParseValue(s).Some? {
      var r := SkipWs(ParseValue(s).value.1);
      if r != [] && r[0] == ',' {
        DecodedElemsArePrintable(SkipWs(r[1..]));
      }
    }
  }

  lemma {:induction false} DecodedMembersArePrintable(s: string)
    ensures ParseMembers(s).Some? ==>
      forall k :: k in ParseMembers(s).value.0 ==> Printable(ParseMembers(s).value.0[k])
    decreases |s|, 2
  {
    if s != [] && s[0] == '"' && ParseString(s[1..]).Some? {
      var colon := SkipWs(ParseString(s[1..]).value.1);
      if colon != [] && colon[0] == ':' {
        var value := SkipWs(colon[1..]);
        DecodedIsPrintable(value);
        if ParseValue(value).Some? {
          var r := SkipWs(ParseValue(value).value.1);
          if r != [] && r[0] == ',' {
            DecodedMembersArePrintable(SkipWs(r[1..]));
          }
        }
      }
    }
  }

  lemma LoadsIsLoadable(text: string)
    requires Loads(text).Some?
    ensures Loadable(Loads(text).value)
  {
    var v := Decode(text).value;
    DecodedIsPrintable(SkipWs(text));
    PythonViewIsPrintable(v);
    PythonViewIsIdempotent(v);
  }
}
