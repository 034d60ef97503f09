/**
 The decoder reads nothing else: every text it accepts is whitespace, one concrete text, and whitespace.  Together with
 `JsonText.DecodeReadsEveryText` this says exactly which texts decode, and to what.
 */
module JsonReader {
  import opened Basics
  import opened Json
  import opened JsonText

  /** The whitespace a text starts with. */
  lemma {:induction false} Leading(s: string) returns (ws: string)
    ensures AllWs(ws) && s == ws + SkipWs(s)
  {
    if s != [] && IsWs(s[0]) {
      var more := Leading(s[1..]);
      ws := [s[0]] + more;
      assert s == [s[0]] + s[1..];
    } else {
      ws := [];
    }
  }

  // ---------------------------------------------------------------------------------------------
  // Strings
  // ---------------------------------------------------------------------------------------------

  /** These letters write this text, up to the closing quote. */
  ghost predicate WritesString(s: string, ls: seq<Letter>, text: string, rest: string) {
    ValidLetters(ls) && s == LettersText(ls) + "\"" + rest && LettersMeaning(ls) == text
  }

  lemma OneMoreLetter(l: Letter, s: string, ls: seq<Letter>, text: string, rest: string)
    requires ValidLetter(l) && WritesString(s, ls, text, rest)
    requires l.Lone? && IsHigh(CodeUnit(l.h)) ==> !StartsWithLow(s)
    ensures WritesString(LetterText(l) + s, [l] + ls, [LetterMeaning(l)] + text, rest)
  {
    var all := [l] + ls;
    assert all[1..] == ls;
    FirstLetter(all, rest);
    if ls != [] && Joins(l, ls[0]) {
      FirstLetter(ls, rest);
      LowStartsWithLow(ls[0], LettersText(ls[1..]) + "\"" + rest);
    }
    NewFirstLetterIsValid(l, ls);
  }

  lemma LowStartsWithLow(l: Letter, after: string)
    requires l.Lone? && IsHex4(l.h) && IsLow(CodeUnit(l.h))
    ensures StartsWithLow(LetterText(l) + after)
  {
    assert (LetterText(l) + after)[2..6] == l.h;
  }

  lemma NewFirstLetterIsValid(l: Letter, ls: seq<Letter>)
    requires ValidLetter(l) && ValidLetters(ls) && (ls != [] ==> !Joins(l, ls[0]))
    ensures ValidLetters([l] + ls)
  {
    var all := [l] + ls;
    forall i | 0 < i < |all|
      ensures !Joins(all[i - 1], all[i])
    {
      if i > 1 {
        assert all[i - 1] == ls[i - 2] && all[i] == ls[i - 1];
      }
    }
  }

  /** The first letter of a text that the decoder reads as a string, and what follows it. */
  lemma FirstOfString(s: string) returns (l: Letter, n: nat)
    requires ParseString(s).Some? && s[0] != '"'
    ensures ValidLetter(l) && 0 < n <= |s| && s == LetterText(l) + s[n..]
    ensures l.Lone? && IsHigh(CodeUnit(l.h)) ==> !StartsWithLow(s[n..])
    ensures ParseString(s) == Prepend(LetterMeaning(l), ParseString(s[n..]))
  {
    if s[0] != '\\' {
      l, n := Raw(s[0]), 1;
      assert s == [s[0]] + s[1..];
    } else if |s| >= 2 && IsShortEscape(s[1]) {
      l, n := Short(s[1]), 2;
      assert s == ['\\', s[1]] + s[2..];
    } else {
      l, n := EscapeOfString(s);
    }
  }

  lemma EscapeOfString(s: string) returns (l: Letter, n: nat)
    requires ParseString(s).Some? && |s| >= 2 && s[0] == '\\' && !IsShortEscape(s[1])
    ensures ValidLetter(l) && 0 < n <= |s| && s == LetterText(l) + s[n..]
    ensures l.Lone? && IsHigh(CodeUnit(l.h)) ==> !StartsWithLow(s[n..])
    ensures ParseString(s) == Prepend(LetterMeaning(l), ParseString(s[n..]))
  {
    var h := s[2..6];
    var u := CodeUnit(h);
    assert s == ("\\u" + h) + s[6..];
    if !IsHigh(u) && !IsLow(u) {
      l, n := Unit(h), 6;
    } else if IsHigh(u) && StartsWithLow(s[6..]) {
      var lo := s[8..12];
      assert s[6..][2..6] == lo;
      l, n := Pair(h, lo), 12;
      assert s == ("\\u" + h + "\\u" + lo) + s[12..];
    } else {
      l, n := Lone(h), 6;
      if IsHigh(u) && |s| >= 12 {
        assert s[6..][2..6] == s[8..12] && s[6..][0] == s[6] && s[6..][1] == s[7];
      }
    }
  }

  lemma {:induction false} LettersOf(s: string) returns (ls: seq<Letter>)
    requires ParseString(s).Some?
    ensures var (text, rest) := ParseString(s).value;
      WritesString(s, ls, text, rest)
    decreases |s|
  {
    if s[0] == '"' {
      ls := [];
      assert s == "" + "\"" + s[1..];
    } else {
      var l, n := FirstOfString(s);
      var more := LettersOf(s[n..]);
      var (text, rest) := ParseString(s[n..]).value;
      OneMoreLetter(l, s[n..], more, text, rest);
      ls := [l] + more;
    }
  }

  // ---------------------------------------------------------------------------------------------
  // Values
  // ---------------------------------------------------------------------------------------------

  /** This tree writes this value, and `rest` is left. */
  ghost predicate Writes(s: string, t: Tree, v: Value, rest: string) {
    Valid(t) && s == TextOf(t) + rest && MeaningOf(t) == v
  }

  ghost predicate WritesElements(s: string, e: Elements, items: seq<Value>, rest: string) {
    ValidElements(e) && e.pre == "" && s == ElementsText(e) + "]" + rest && ElementsMeaning(e) == items
  }

  ghost predicate WritesMembers(s: string, m: Members, members: map<string, Value>, rest: string) {
    ValidMembers(m) && m.key.pre == "" && s == MembersText(m) + "}" + rest && MembersMeaning(m) == members
  }

  function SetPre(e: Elements, pre: string): Elements {
    e.(pre := pre)
  }

  lemma PreText(e: Elements, pre: string)
    requires ValidElements(e) && e.pre == "" && AllWs(pre)
    ensures var f := SetPre(e, pre);
      ValidElements(f) && ElementsText(f) == pre + ElementsText(e) && ElementsMeaning(f) == ElementsMeaning(e)
  {
    var text := TextOf(e.value);
    assert "" + text == text;
    assert pre + text + e.post == pre + (text + e.post);
    if e.Element? {
      assert pre + (text + e.post) + "," + ElementsText(e.next) == pre + ((text + e.post) + "," + ElementsText(e.next));
    }
  }

  function SetKeyPre(m: Members, pre: string): Members {
    m.(key := m.key.(pre := pre))
  }

  lemma KeyPreText(k: KeyText, pre: string)
    requires k.pre == ""
    ensures KeyTextOf(k.(pre := pre)) == pre + KeyTextOf(k)
  {
    var letters := LettersText(k.key);
    assert "" + "\"" == "\"";
    assert pre + "\"" + letters + "\"" + k.beforeColon + ":" + k.afterColon
        == pre + ("\"" + letters + "\"" + k.beforeColon + ":" + k.afterColon);
  }

  lemma MembersPreText(m: Members, pre: string)
    requires ValidMembers(m) && m.key.pre == "" && AllWs(pre)
    ensures var n := SetKeyPre(m, pre);
      ValidMembers(n) && MembersText(n) == pre + MembersText(m) && MembersMeaning(n) == MembersMeaning(m)
  {
    KeyPreText(m.key, pre);
    var key, value, post := KeyTextOf(m.key), TextOf(m.value), m.post;
    InFront(pre, key, value, post);
    if m.Member? {
      InFront(pre, key + value + post, ",", MembersText(m.next));
    }
  }

  lemma InFront(pre: string, a: string, b: string, c: string)
    ensures (pre + a) + b + c == pre + (a + b + c)
  {
  }

  lemma {:induction false} TreeOf(s: string) returns (t: Tree)
    requires ParseValue(s).Some?
    ensures var (v, rest) := ParseValue(s).value;
      Writes(s, t, v, rest)
    decreases |s|, 1
  {
    if "null" <= s {
      t := TNull;
      assert s == "null" + s[4..];
    } else if "true" <= s {
      t := TBool(true);
      assert s == "true" + s[4..];
    } else if "false" <= s {
      t := TBool(false);
      assert s == "false" + s[5..];
    } else if s[0] == '"' {
      t := StringTree(s);
    } else if s[0] == '[' {
      t := ArrayTree(s);
    } else if s[0] == '{' {
      t := ObjectTree(s);
    } else {
      var n := NumberPrefix(s);
      t := TNumber(s[..n]);
      assert s == s[..n] + s[n..];
    }
  }

  lemma StringTree(s: string) returns (t: Tree)
    requires ParseValue(s).Some? && s[0] == '"'
    ensures var (v, rest) := ParseValue(s).value;
      Writes(s, t, v, rest)
  {
    ParseQuotedValue(s);
    var letters := LettersOf(s[1..]);
    t := TString(letters);
    var (text, rest) := ParseString(s[1..]).value;
    assert s == "\"" + (LettersText(letters) + "\"" + rest);
    assert "\"" + (LettersText(letters) + "\"" + rest) == ("\"" + (LettersText(letters) + "\"")) + rest;
  }

  lemma ParseQuotedValue(s: string)
    requires ParseValue(s).Some? && s[0] == '"'
    ensures ParseString(s[1..]).Some?
    ensures ParseValue(s).value == (String(ParseString(s[1..]).value.0), ParseString(s[1..]).value.1)
  {
  }

  lemma {:induction false} ArrayTree(s: string) returns (t: Tree)
    requires ParseValue(s).Some? && s[0] == '['
    ensures var (v, rest) := ParseValue(s).value;
      Writes(s, t, v, rest)
    decreases |s|, 0
  {
    var inner := s[1..];
    assert s == "[" + inner;
    ParseBracket(inner);
    var ws := Leading(inner);
    var body := SkipWs(inner);
    if body != [] && body[0] == ']' {
      t := TEmptyArray(ws);
      EmptyArrayIsWritten(s, ws, body);
    } else {
      var e := ElementsOf(body);
      var (items, rest) := ParseElems(body).value;
      t := TArray(SetPre(e, ws));
      ArrayIsWritten(s, ws, body, e, items, rest);
    }
  }

  lemma EmptyArrayIsWritten(s: string, ws: string, body: string)
    requires AllWs(ws) && s == "[" + (ws + body) && body != [] && body[0] == ']'
    ensures Writes(s, TEmptyArray(ws), Array([]), body[1..])
  {
    assert body == "]" + body[1..];
    Assoc(ws, "]", body[1..]);
    Enclosed("[", ws, "]", body[1..], s, ws + body);
  }

  lemma ArrayIsWritten(s: string, ws: string, body: string, e: Elements, items: seq<Value>, rest: string)
    requires AllWs(ws) && s == "[" + (ws + body) && WritesElements(body, e, items, rest)
    ensures Writes(s, TArray(SetPre(e, ws)), Array(items), rest)
  {
    PreText(e, ws);
    WithLeading(ws, ElementsText(e), "]", rest);
    Enclosed("[", ws + ElementsText(e), "]", rest, s, ws + body);
  }

  lemma EmptyObjectIsWritten(s: string, ws: string, body: string)
    requires AllWs(ws) && s == "{" + (ws + body) && body != [] && body[0] == '}'
    ensures Writes(s, TEmptyObject(ws), Object(map[]), body[1..])
  {
    assert body == "}" + body[1..];
    Assoc(ws, "}", body[1..]);
    Enclosed("{", ws, "}", body[1..], s, ws + body);
  }

  lemma ObjectIsWritten(s: string, ws: string, body: string, m: Members, members: map<string, Value>, rest: string)
    requires AllWs(ws) && s == "{" + (ws + body) && WritesMembers(body, m, members, rest)
    ensures Writes(s, TObject(SetKeyPre(m, ws)), Object(members), rest)
  {
    MembersPreText(m, ws);
    WithLeading(ws, MembersText(m), "}", rest);
    Enclosed("{", ws + MembersText(m), "}", rest, s, ws + body);
  }

  /** An opening bracket, a text, a closing bracket and the rest. */
  lemma Enclosed(open: string, text: string, close: string, rest: string, s: string, inner: string)
    requires s == open + inner && inner == text + close + rest
    ensures s == (open + (text + close)) + rest
  {
    assert open + ((text + close) + rest) == (open + (text + close)) + rest;
  }

  lemma WithLeading(ws: string, text: string, close: string, rest: string)
    ensures ws + (text + close + rest) == (ws + text) + close + rest
  {
  }

  /** What the decoder saw after an element. */
  lemma AfterElement(s: string)
    requires ParseElems(s).Some?
    ensures ParseValue(s).Some?
    ensures var (v, after) := ParseValue(s).value;
      var r := SkipWs(after);
      && r != [] && (r[0] == ']' || r[0] == ',')
      && (r[0] == ']' ==> ParseElems(s).value == ([v], r[1..]))
      && (r[0] == ',' ==>
            && ParseElems(SkipWs(r[1..])).Some?
            && ParseElems(s).value == ([v] + ParseElems(SkipWs(r[1..])).value.0, ParseElems(SkipWs(r[1..])).value.1))
  {
  }

  lemma LastElementIsWritten(s: string, t: Tree, v: Value, post: string, r: string)
    requires Writes(s, t, v, post + r) && AllWs(post) && r != [] && r[0] == ']'
    ensures WritesElements(s, LastElement("", t, post), [v], r[1..])
  {
    var text := TextOf(t);
    assert r == "]" + r[1..];
    assert "" + text == text;
    assert text + (post + ("]" + r[1..])) == text + post + "]" + r[1..];
  }

  lemma ElementIsWritten(s: string, t: Tree, v: Value, post: string, r: string, ws: string, more: string,
        next: Elements, items: seq<Value>, rest: string)
    requires Writes(s, t, v, post + r) && AllWs(post) && r != [] && r[0] == ',' && r[1..] == ws + more && AllWs(ws)
    requires WritesElements(more, next, items, rest)
    ensures WritesElements(s, Element("", t, post, SetPre(next, ws)), [v] + items, rest)
  {
    PreText(next, ws);
    var text := TextOf(t);
    assert "" + text == text;
    assert r == "," + (ws + more);
    Assoc(text, post, r);
    Listed(text + post, ws, ElementsText(next), "]", rest);
  }

  lemma {:induction false} ElementsOf(s: string) returns (e: Elements)
    requires ParseElems(s).Some?
    ensures var (items, rest) := ParseElems(s).value;
      WritesElements(s, e, items, rest)
    decreases |s|, 2
  {
    AfterElement(s);
    var t := TreeOf(s);
    var (v, after) := ParseValue(s).value;
    var post := Leading(after);
    var r := SkipWs(after);
    if r[0] == ']' {
      e := LastElement("", t, post);
      LastElementIsWritten(s, t, v, post, r);
    } else {
      var ws := Leading(r[1..]);
      var more := SkipWs(r[1..]);
      var next := ElementsOf(more);
      var (items, rest) := ParseElems(more).value;
      e := Element("", t, post, SetPre(next, ws));
      ElementIsWritten(s, t, v, post, r, ws, more, next, items, rest);
    }
  }

  lemma Listed(first: string, ws: string, next: string, close: string, rest: string)
    ensures first + ("," + (ws + (next + close + rest))) == first + "," + (ws + next) + close + rest
  {
    assert ws + (next + close + rest) == (ws + next) + close + rest;
    assert "," + ((ws + next) + close + rest) == "," + (ws + next) + close + rest;
    assert first + ("," + (ws + next) + close + rest) == first + "," + (ws + next) + close + rest;
  }

  lemma {:induction false} ObjectTree(s: string) returns (t: Tree)
    requires ParseValue(s).Some? && s[0] == '{'
    ensures var (v, rest) := ParseValue(s).value;
      Writes(s, t, v, rest)
    decreases |s|, 0
  {
    var inner := s[1..];
    assert s == "{" + inner;
    ParseBrace(inner);
    var ws := Leading(inner);
    var body := SkipWs(inner);
    if body != [] && body[0] == '}' {
      t := TEmptyObject(ws);
      EmptyObjectIsWritten(s, ws, body);
    } else {
      var m := MembersOf(body);
      var (members, rest) := ParseMembers(body).value;
      t := TObject(SetKeyPre(m, ws));
      ObjectIsWritten(s, ws, body, m, members, rest);
    }
  }

  /** A member's name, up to the text of its value. */
  ghost predicate WritesKey(s: string, k: KeyText, key: string, value: string) {
    ValidKey(k) && k.pre == "" && s == KeyTextOf(k) + value && LettersMeaning(k.key) == key
  }

  /** What the decoder saw before a member's value. */
  lemma BeforeValue(s: string)
    requires ParseMembers(s).Some?
    ensures s != [] && s[0] == '"' && ParseString(s[1..]).Some?
    ensures var colon := SkipWs(ParseString(s[1..]).value.1);
      colon != [] && colon[0] == ':' && ParseValue(SkipWs(colon[1..])).Some?
  {
  }

  /** The text of a member's value. */
  function ValueText(s: string): string
    requires ParseMembers(s).Some?
  {
    BeforeValue(s);
    SkipWs(SkipWs(ParseString(s[1..]).value.1)[1..])
  }

  /** What the decoder saw after a member. */
  lemma AfterMember(s: string)
    requires ParseMembers(s).Some?
    ensures ParseValue(ValueText(s)).Some? && ParseString(s[1..]).Some?
    ensures var key := ParseString(s[1..]).value.0;
      var (v, after) := ParseValue(ValueText(s)).value;
      var r := SkipWs(after);
      && r != [] && (r[0] == '}' || r[0] == ',')
      && (r[0] == '}' ==> ParseMembers(s).value == (map[key := v], r[1..]))
      && (r[0] == ',' ==>
            && ParseMembers(SkipWs(r[1..])).Some?
            && ParseMembers(s).value
              == (map[key := v] + ParseMembers(SkipWs(r[1..])).value.0, ParseMembers(SkipWs(r[1..])).value.1))
  {
    BeforeValue(s);
  }

  lemma ValueIsShorter(s: string)
    requires ParseMembers(s).Some?
    ensures |ValueText(s)| < |s|
  {
    BeforeValue(s);
  }

  lemma KeyOf(s: string) returns (k: KeyText)
    requires ParseMembers(s).Some?
    ensures ParseString(s[1..]).Some? && WritesKey(s, k, ParseString(s[1..]).value.0, ValueText(s))
  {
    BeforeValue(s);
    var letters := LettersOf(s[1..]);
    var (key, afterKey) := ParseString(s[1..]).value;
    var before := Leading(afterKey);
    var colon := SkipWs(afterKey);
    var after := Leading(colon[1..]);
    k := KeyText("", letters, before, after);
    KeyIsWritten(s, letters, key, before, colon, after, ValueText(s));
  }

  lemma KeyIsWritten(s: string, letters: seq<Letter>, key: string, before: string, colon: string, after: string,
        value: string)
    requires s != [] && s[0] == '"' && WritesString(s[1..], letters, key, before + colon) && AllWs(before) && AllWs(after)
    requires colon != [] && colon[0] == ':' && colon[1..] == after + value
    ensures WritesKey(s, KeyText("", letters, before, after), key, value)
  {
    var text := LettersText(letters);
    assert s == "\"" + s[1..];
    assert colon == ":" + (after + value);
    Named(text, before, after, value);
  }

  lemma Named(text: string, before: string, after: string, value: string)
    ensures "\"" + (text + "\"" + (before + (":" + (after + value)))) == "" + "\"" + text + "\"" + before + ":" + after + value
  {
    assert "" + "\"" == "\"";
  }

  lemma LastMemberIsWritten(s: string, k: KeyText, key: string, value: string, t: Tree, v: Value, post: string,
        r: string)
    requires WritesKey(s, k, key, value) && Writes(value, t, v, post + r) && AllWs(post) && r != [] && r[0] == '}'
    ensures WritesMembers(s, LastMember(k, t, post), map[key := v], r[1..])
  {
    var name, text := KeyTextOf(k), TextOf(t);
    assert r == "}" + r[1..];
    assert name + (text + (post + ("}" + r[1..]))) == name + text + post + "}" + r[1..];
  }

  lemma MemberIsWritten(s: string, k: KeyText, key: string, value: string, t: Tree, v: Value, post: string, r: string,
        ws: string, more: string, next: Members, members: map<string, Value>, rest: string)
    requires WritesKey(s, k, key, value) && Writes(value, t, v, post + r) && AllWs(post)
    requires r != [] && r[0] == ',' && r[1..] == ws + more && AllWs(ws) && WritesMembers(more, next, members, rest)
    ensures WritesMembers(s, Member(k, t, post, SetKeyPre(next, ws)), map[key := v] + members, rest)
  {
    MembersPreText(next, ws);
    var name, text := KeyTextOf(k), TextOf(t);
    assert r == "," + (ws + more);
    MemberString(name, text, post, ws, MembersText(next), rest);
    ShapeOfMember(k, t, post, SetKeyPre(next, ws));
  }

  lemma MemberString(name: string, text: string, post: string, ws: string, next: string, rest: string)
    ensures name + (text + (post + ("," + (ws + (next + "}" + rest)))))
      == name + text + post + "," + (ws + next) + "}" + rest
  {
    Regroup4(name, text, post, "," + (ws + (next + "}" + rest)));
    Listed(name + text + post, ws, next, "}", rest);
  }

  lemma ShapeOfMember(k: KeyText, t: Tree, post: string, next: Members)
    ensures MembersText(Member(k, t, post, next)) == KeyTextOf(k) + TextOf(t) + post + "," + MembersText(next)
  {
  }

  lemma {:induction false} MembersOf(s: string) returns (m: Members)
    requires ParseMembers(s).Some?
    ensures var (members, rest) := ParseMembers(s).value;
      WritesMembers(s, m, members, rest)
    decreases |s|, 2
  {
    AfterMember(s);
    ValueIsShorter(s);
    var k := KeyOf(s);
    var key, value := ParseString(s[1..]).value.0, ValueText(s);
    var t := TreeOf(value);
    var (v, after) := ParseValue(value).value;
    var post := Leading(after);
    var r := SkipWs(after);
    if r[0] == '}' {
      m := LastMember(k, t, post);
      LastMemberIsWritten(s, k, key, value, t, v, post, r);
    } else {
      var ws := Leading(r[1..]);
      var more := SkipWs(r[1..]);
      var next := MembersOf(more);
      var (members, rest) := ParseMembers(more).value;
      m := Member(k, t, post, SetKeyPre(next, ws));
      MemberIsWritten(s, k, key, value, t, v, post, r, ws, more, next, members, rest);
    }
  }

  // ---------------------------------------------------------------------------------------------
  // The theorem
  // ---------------------------------------------------------------------------------------------

  /** A JSON text of this value: whitespace, a concrete text of it, whitespace. */
  ghost predicate IsTextOf(s: string, v: Value, before: string, t: Tree, after: string) {
    AllWs(before) && Valid(t) && AllWs(after) && s == before + TextOf(t) + after && MeaningOf(t) == v
  }

  lemma DecodeReadsNothingElse(s: string) returns (before: string, t: Tree, after: string)
    requires Decode(s).Some?
    ensures IsTextOf(s, Decode(s).value, before, t, after)
  {
    before := Leading(s);
    t := TreeOf(SkipWs(s));
    var rest := ParseValue(SkipWs(s)).value.1;
    after := Leading(rest);
    assert rest == after + [];
    assert before + (TextOf(t) + rest) == before + TextOf(t) + rest;
  }

  /** Exactly the texts of a value decode to it. */
  lemma DecodesExactlyTheTexts(s: string, v: Value)
    ensures Decode(s) == Some(v) <==> exists before, t, after :: IsTextOf(s, v, before, t, after)
  {
    if Decode(s) == Some(v) {
      var before, t, after := DecodeReadsNothingElse(s);
    }
    forall before, t, after | IsTextOf(s, v, before, t, after)
      ensures Decode(s) == Some(v)
    {
      DecodeReadsEveryText(before, t, after);
    }
  }
}
