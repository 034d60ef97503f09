/**
 Every way of writing a JSON value, and the theorem that the decoder reads each of them back.

 A `Tree` is a concrete text: it fixes the whitespace, the order (and repetition) of object members
 and how each character of a string is written.  `TextOf` is the text, `MeaningOf` the value.  The
 canonical printers are two particular ways of writing, so their round trip is a special case.
 */
module JsonText {
  import opened Basics
  import opened Numerals
  import opened Json
  import Lex

  // ---------------------------------------------------------------------------------------------
  // Concrete texts
  // ---------------------------------------------------------------------------------------------

  datatype Letter =
    | Raw(c: char)
    | Short(e: char)                 // backslash and one letter
    | Unit(h: string)                // a four-digit escape
    | Pair(hi: string, lo: string)   // two four-digit escapes: a surrogate pair
    | Lone(h: string)                // a four-digit escape that is half of one

  predicate ValidLetter(l: Letter) {
    match l
    case Raw(c) => c >= ' ' && c != '"' && c != '\\'
    case Short(e) => IsShortEscape(e)
    case Unit(h) => IsHex4(h) && !IsHigh(CodeUnit(h)) && !IsLow(CodeUnit(h))
    case Pair(hi, lo) => IsHex4(hi) && IsHex4(lo) && IsHigh(CodeUnit(hi)) && IsLow(CodeUnit(lo))
    case Lone(h) => IsHex4(h) && (IsHigh(CodeUnit(h)) || IsLow(CodeUnit(h)))
  }

  /** Two halves that would be read as one pair. */
  predicate Joins(a: Letter, b: Letter) {
    && a.Lone? && IsHex4(a.h) && IsHigh(CodeUnit(a.h))
    && b.Lone? && IsHex4(b.h) && IsLow(CodeUnit(b.h))
  }

  function LetterText(l: Letter): string {
    match l
    case Raw(c) => [c]
    case Short(e) => ['\\', e]
    case Unit(h) => "\\u" + h
    case Pair(hi, lo) => "\\u" + hi + "\\u" + lo
    case Lone(h) => "\\u" + h
  }

  function LetterMeaning(l: Letter): char
    requires ValidLetter(l)
  {
    match l
    case Raw(c) => c
    case Short(e) => ShortMeaning(e)
    case Unit(h) => CodeUnit(h) as char
    case Pair(hi, lo) => Combine(CodeUnit(hi), CodeUnit(lo))
    case Lone(_) => REPLACEMENT
  }

  predicate ValidLetters(ls: seq<Letter>) {
    && (forall i :: 0 <= i < |ls| ==> ValidLetter(ls[i]))
    && forall i :: 0 < i < |ls| ==> !Joins(ls[i - 1], ls[i])
  }

  function LettersText(ls: seq<Letter>): string {
    if ls == [] then "" else LetterText(ls[0]) + LettersText(ls[1..])
  }

  function LettersMeaning(ls: seq<Letter>): string
    requires ValidLetters(ls)
  {
    if ls == [] then "" else [LetterMeaning(ls[0])] + LettersMeaning(ls[1..])
  }

  datatype Tree =
    | TNull
    | TBool(b: bool)
    | TNumber(literal: string)
    | TString(letters: seq<Letter>)
    | TEmptyArray(inner: string)                   // `inner` is whitespace
    | TArray(elems: Elements)
    | TEmptyObject(inner: string)
    | TObject(members: Members)

  /** One or more elements, each with the whitespace around it. */
  datatype Elements =
    | LastElement(pre: string, value: Tree, post: string)
    | Element(pre: string, value: Tree, post: string, next: Elements)

  datatype KeyText = KeyText(pre: string, key: seq<Letter>, beforeColon: string, afterColon: string)

  datatype Members =
    | LastMember(key: KeyText, value: Tree, post: string)
    | Member(key: KeyText, value: Tree, post: string, next: Members)

  predicate Valid(t: Tree) {
    match t
    case TNumber(literal) => IsNumber(literal)
    case TString(letters) => ValidLetters(letters)
    case TEmptyArray(inner) => AllWs(inner)
    case TArray(elems) => ValidElements(elems)
    case TEmptyObject(inner) => AllWs(inner)
    case TObject(members) => ValidMembers(members)
    case _ => true
  }

  predicate ValidElements(e: Elements) {
    AllWs(e.pre) && AllWs(e.post) && Valid(e.value) && (e.Element? ==> ValidElements(e.next))
  }

  predicate ValidKey(k: KeyText) {
    AllWs(k.pre) && ValidLetters(k.key) && AllWs(k.beforeColon) && AllWs(k.afterColon)
  }

  predicate ValidMembers(m: Members) {
    ValidKey(m.key) && AllWs(m.post) && Valid(m.value) && (m.Member? ==> ValidMembers(m.next))
  }

  function TextOf(t: Tree): string {
    match t
    case TNull => "null"
    case TBool(b) => if b then "true" else "false"
    case TNumber(literal) => literal
    case TString(letters) => "\"" + (LettersText(letters) + "\"")
    case TEmptyArray(inner) => "[" + (inner + "]")
    case TArray(elems) => "[" + (ElementsText(elems) + "]")
    case TEmptyObject(inner) => "{" + (inner + "}")
    case TObject(members) => "{" + (MembersText(members) + "}")
  }

  function ElementsText(e: Elements): string {
    var first := e.pre + TextOf(e.value) + e.post;
    if e.LastElement? then first else first + "," + ElementsText(e.next)
  }

  function KeyTextOf(k: KeyText): string {
    k.pre + "\"" + LettersText(k.key) + "\"" + k.beforeColon + ":" + k.afterColon
  }

  function MembersText(m: Members): string {
    var first := KeyTextOf(m.key) + TextOf(m.value) + m.post;
    if m.LastMember? then first else first + "," + MembersText(m.next)
  }

  function MeaningOf(t: Tree): Value
    requires Valid(t)
  {
    match t
    case TNull => Null
    case TBool(b) => Bool(b)
    case TNumber(literal) => Number(literal)
    case TString(letters) => String(LettersMeaning(letters))
    case TEmptyArray(_) => Array([])
    case TArray(elems) => Array(ElementsMeaning(elems))
    case TEmptyObject(_) => Object(map[])
    case TObject(members) => Object(MembersMeaning(members))
  }

  function ElementsMeaning(e: Elements): seq<Value>
    requires ValidElements(e)
  {
    if e.LastElement? then [MeaningOf(e.value)] else [MeaningOf(e.value)] + ElementsMeaning(e.next)
  }

  /** A repeated key takes its last value. */
  function MembersMeaning(m: Members): map<string, Value>
    requires ValidMembers(m)
  {
    var first := map[LettersMeaning(m.key.key) := MeaningOf(m.value)];
    if m.LastMember? then first else first + MembersMeaning(m.next)
  }

  // ---------------------------------------------------------------------------------------------
  // The decoder reads every text
  // ---------------------------------------------------------------------------------------------

  lemma {:induction false} SkipAll(ws: string, rest: string)
    requires AllWs(ws) && (rest == [] || !IsWs(rest[0]))
    ensures SkipWs(ws + rest) == rest
  {
    if ws == [] {
      assert ws + rest == rest;
    } else {
      assert (ws + rest)[1..] == ws[1..] + rest;
      SkipAll(ws[1..], rest);
    }
  }

  lemma ParseUnit(h: string, after: string)
    requires ValidLetter(Unit(h))
    ensures ParseString("\\u" + h + after) == Prepend(CodeUnit(h) as char, ParseString(after))
  {
    var s := "\\u" + h + after;
    assert s[2..6] == h && s[6..] == after && s[0] == '\\' && s[1] == 'u';
    assert !IsShortEscape('u');
  }

  lemma ParsePair(hi: string, lo: string, after: string)
    requires ValidLetter(Pair(hi, lo))
    ensures ParseString("\\u" + hi + "\\u" + lo + after)
         == Prepend(Combine(CodeUnit(hi), CodeUnit(lo)), ParseString(after))
  {
    var s := "\\u" + hi + "\\u" + lo + after;
    assert s[0] == '\\' && s[1] == 'u' && s[6] == '\\' && s[7] == 'u';
    assert s[2..6] == hi && s[8..12] == lo && s[12..] == after;
    assert !IsShortEscape('u');
  }

  /** The escape of the second half of a surrogate pair. */
  predicate StartsWithLow(s: string) {
    |s| >= 6 && s[0] == '\\' && s[1] == 'u' && IsHex4(s[2..6]) && IsLow(CodeUnit(s[2..6]))
  }

  lemma ParseLone(h: string, after: string)
    requires ValidLetter(Lone(h)) && (IsHigh(CodeUnit(h)) ==> !StartsWithLow(after))
    ensures ParseString("\\u" + h + after) == Prepend(REPLACEMENT, ParseString(after))
  {
    var s := "\\u" + h + after;
    assert s[0] == '\\' && s[1] == 'u' && s[2..6] == h && s[6..] == after;
    assert !IsShortEscape('u');
    if |s| >= 12 {
      assert s[8..12] == after[2..6] && s[6] == after[0] && s[7] == after[1];
    }
  }

  lemma ParseLetter(l: Letter, after: string)
    requires ValidLetter(l) && (l.Lone? && IsHigh(CodeUnit(l.h)) ==> !StartsWithLow(after))
    ensures ParseString(LetterText(l) + after) == Prepend(LetterMeaning(l), ParseString(after))
  {
    var s := LetterText(l) + after;
    match l {
      case Raw(c) => assert s[0] == c && s[1..] == after;
      case Short(e) => assert s[0] == '\\' && s[1] == e && s[2..] == after;
      case Unit(h) => ParseUnit(h, after);
      case Pair(hi, lo) => ParsePair(hi, lo, after);
      case Lone(h) => ParseLone(h, after);
    }
  }

  /** Only the escape of a second half starts like one. */
  lemma OnlyLowStartsWithLow(l: Letter, after: string)
    requires ValidLetter(l)
    ensures StartsWithLow(LetterText(l) + after) ==> l.Lone? && IsLow(CodeUnit(l.h))
  {
    var s := LetterText(l) + after;
    match l {
      case Raw(c) => assert s[0] == c;
      case Short(e) =>
        assert s[1] == e;
        assert !IsShortEscape('u');
      case Unit(h) => assert s[2..6] == h;
      case Pair(hi, lo) => assert s[2..6] == hi;
      case Lone(h) => assert s[2..6] == h;
    }
  }

  lemma {:induction false} ParseLetters(ls: seq<Letter>, rest: string)
    requires ValidLetters(ls)
    ensures ParseString(LettersText(ls) + "\"" + rest) == Some((LettersMeaning(ls), rest))
  {
    if ls == [] {
      assert ("" + "\"" + rest)[1..] == rest;
    } else {
      ParseLetters(ls[1..], rest);
      var after := LettersText(ls[1..]) + "\"" + rest;
      FirstLetter(ls, rest);
      if ls[0].Lone? && StartsWithLow(after) {
        NextLetterIsLow(ls, rest);
      }
      ParseLetter(ls[0], after);
    }
  }

  lemma FirstLetter(ls: seq<Letter>, rest: string)
    requires ls != []
    ensures LettersText(ls) + "\"" + rest == LetterText(ls[0]) + (LettersText(ls[1..]) + "\"" + rest)
  {
    var first, more := LetterText(ls[0]), LettersText(ls[1..]);
    Assoc(first, more, "\"");
    Assoc(first, more + "\"", rest);
  }

  lemma NextLetterIsLow(ls: seq<Letter>, rest: string)
    requires ls != [] && ValidLetters(ls) && StartsWithLow(LettersText(ls[1..]) + "\"" + rest)
    ensures |ls| > 1 && ls[1].Lone? && IsLow(CodeUnit(ls[1].h))
  {
    var tail := ls[1..];
    if tail == [] {
      QuoteIsNotLow(rest);
    } else {
      FirstLetter(tail, rest);
      OnlyLowStartsWithLow(tail[0], LettersText(tail[1..]) + "\"" + rest);
    }
  }

  lemma QuoteIsNotLow(rest: string)
    ensures !StartsWithLow("" + "\"" + rest)
  {
    assert ("" + "\"" + rest)[0] == '"';
  }

  predicate EndsNumber(rest: string) {
    rest == [] || !IsNumberChar(rest[0])
  }

  lemma {:induction false} DigitsAreNumberChars(s: string)
    requires IsExponent(s)
    ensures NumberPrefix(s) == |s|
  {
    if s != [] {
      var r := if |s| > 1 && s[1] in "+-" then s[2..] else s[1..];
      AllDigitsPrefix(r);
      if |s| > 1 && s[1] in "+-" {
        assert s[1..][1..] == s[2..];
        assert NumberPrefix(s[1..]) == 1 + NumberPrefix(s[2..]);
      }
    }
  }

  lemma {:induction false} AllDigitsPrefix(s: string)
    ensures NumberPrefix(s) == |s| - |DropDigits(s)| + NumberPrefix(DropDigits(s))
  {
    if s != [] && IsDigit(s[0]) {
      AllDigitsPrefix(s[1..]);
    }
  }

  lemma FractionIsNumberChars(s: string)
    requires IsFraction(s)
    ensures NumberPrefix(s) == |s|
  {
    if s != [] && s[0] == '.' {
      AllDigitsPrefix(s[1..]);
      DigitsAreNumberChars(DropDigits(s[1..]));
    } else {
      DigitsAreNumberChars(s);
    }
  }

  lemma NumberIsNumberChars(s: string)
    requires IsNumber(s)
    ensures NumberPrefix(s) == |s| && s != [] && (s[0] == '-' || IsDigit(s[0]))
  {
    var r := if s[0] == '-' then s[1..] else s;
    if r[0] == '0' {
      FractionIsNumberChars(r[1..]);
    } else {
      AllDigitsPrefix(r);
      FractionIsNumberChars(DropDigits(r));
    }
  }

  lemma {:induction false} NumberPrefixStops(s: string, rest: string)
    requires NumberPrefix(s) == |s| && EndsNumber(rest)
    ensures NumberPrefix(s + rest) == |s|
  {
    if s == [] {
      assert s + rest == rest;
    } else {
      assert (s + rest)[1..] == s[1..] + rest;
      NumberPrefixStops(s[1..], rest);
    }
  }

  lemma TextStart(t: Tree)
    requires Valid(t)
    ensures TextOf(t) != [] && !IsWs(TextOf(t)[0]) && TextOf(t)[0] != ']'
  {
    if t.TNumber? {
      NumberIsNumberChars(t.literal);
    }
  }

  lemma ParseNumber(literal: string, rest: string)
    requires IsNumber(literal) && EndsNumber(rest)
    ensures ParseValue(literal + rest) == Some((Number(literal), rest))
  {
    NumberIsNumberChars(literal);
    NumberPrefixStops(literal, rest);
    var s := literal + rest;
    assert s[0] == literal[0];
    assert s[..|literal|] == literal && s[|literal|..] == rest;
    assert "null"[0] == 'n' && "true"[0] == 't' && "false"[0] == 'f';
  }

  lemma ParseWord(t: Tree, rest: string)
    requires t.TNull? || t.TBool?
    ensures ParseValue(TextOf(t) + rest) == Some((MeaningOf(t), rest))
  {
    var s := TextOf(t) + rest;
    assert "null"[0] == 'n' && "true"[0] == 't' && "false"[0] == 'f';
    assert s[0] == TextOf(t)[0] && s[|TextOf(t)|..] == rest;
  }

  lemma ParseQuoted(s: string, text: string, rest: string)
    requires ParseString(s) == Some((text, rest))
    ensures ParseValue("\"" + s) == Some((String(text), rest))
  {
    var q := "\"" + s;
    assert q[0] == '"' && q[1..] == s;
    assert "null"[0] == 'n' && "true"[0] == 't' && "false"[0] == 'f';
  }

  lemma ParseBracket(s: string)
    ensures var body := SkipWs(s);
      ParseValue("[" + s) ==
        if body != [] && body[0] == ']' then Some((Array([]), body[1..]))
        else match ParseElems(body)
             case None => None
             case Some((items, rest)) => Some((Array(items), rest))
  {
    var q := "[" + s;
    assert q[0] == '[' && q[1..] == s;
    assert "null"[0] == 'n' && "true"[0] == 't' && "false"[0] == 'f';
  }

  lemma ParseBrace(s: string)
    ensures var body := SkipWs(s);
      ParseValue("{" + s) ==
        if body != [] && body[0] == '}' then Some((Object(map[]), body[1..]))
        else match ParseMembers(body)
             case None => None
             case Some((members, rest)) => Some((Object(members), rest))
  {
    var q := "{" + s;
    assert q[0] == '{' && q[1..] == s;
    assert "null"[0] == 'n' && "true"[0] == 't' && "false"[0] == 'f';
  }

  lemma Regroup(a: string, b: string, c: string, d: string, e: string)
    ensures a + b + c + d + e == a + (b + (c + (d + e)))
  {
  }

  lemma KeyTextShape(k: KeyText, value: string)
    ensures KeyTextOf(k) + value
         == k.pre + ("\"" + (LettersText(k.key) + "\"" + (k.beforeColon + (":" + (k.afterColon + value)))))
  {
    var text := LettersText(k.key);
    Regroup(k.pre + "\"" + text + "\"", k.beforeColon, ":", k.afterColon, value);
    Regroup(k.pre, "\"", text, "\"", k.beforeColon + (":" + (k.afterColon + value)));
    Regroup("", "", text, "\"", k.beforeColon + (":" + (k.afterColon + value)));
  }

  /** Where the decoder stands after a key: at the value. */
  ghost predicate ReadsKey(s: string, key: string, value: string) {
    && s != [] && s[0] == '"'
    && ParseString(s[1..]).Some?
    && var afterKey := ParseString(s[1..]).value.1;
    && ParseString(s[1..]).value.0 == key
    && SkipWs(afterKey) != [] && SkipWs(afterKey)[0] == ':'
    && SkipWs(SkipWs(afterKey)[1..]) == value
  }

  lemma ReadsKeyWhen(letters: string, beforeColon: string, colon: string, key: string, value: string)
    requires ParseString(letters + "\"" + (beforeColon + colon)) == Some((key, beforeColon + colon))
    requires SkipWs(beforeColon + colon) == colon && colon != [] && colon[0] == ':' && SkipWs(colon[1..]) == value
    ensures ReadsKey("\"" + (letters + "\"" + (beforeColon + colon)), key, value)
  {
    var s := "\"" + (letters + "\"" + (beforeColon + colon));
    assert s[1..] == letters + "\"" + (beforeColon + colon);
  }

  lemma ParseKey(k: KeyText, value: string)
    requires ValidKey(k) && value != [] && !IsWs(value[0])
    ensures ReadsKey(SkipWs(KeyTextOf(k) + value), LettersMeaning(k.key), value)
  {
    var colon := ":" + (k.afterColon + value);
    var body := "\"" + (LettersText(k.key) + "\"" + (k.beforeColon + colon));
    KeyTextShape(k, value);
    SkipAll(k.pre, body);
    ParseLetters(k.key, k.beforeColon + colon);
    SkipAll(k.beforeColon, colon);
    assert colon[1..] == k.afterColon + value;
    SkipAll(k.afterColon, value);
    ReadsKeyWhen(LettersText(k.key), k.beforeColon, colon, LettersMeaning(k.key), value);
  }

  /** What follows a value inside an array or an object: whitespace and then a separator. */
  lemma AfterValue(post: string, close: string)
    requires AllWs(post) && close != [] && (close[0] == ',' || close[0] == ']' || close[0] == '}')
    ensures EndsNumber(post + close) && SkipWs(post + close) == close
  {
    SkipAll(post, close);
  }

  lemma LastElementStep(body: string, v: Value, after: string, rest: string)
    requires ParseValue(body) == Some((v, after)) && SkipWs(after) == "]" + rest
    ensures ParseElems(body) == Some(([v], rest))
  {
    assert ("]" + rest)[1..] == rest;
  }

  lemma ElementStep(body: string, v: Value, after: string, s: string, items: seq<Value>, rest: string)
    requires ParseValue(body) == Some((v, after)) && SkipWs(after) == "," + s
    requires ParseElems(SkipWs(s)) == Some((items, rest))
    ensures ParseElems(body) == Some(([v] + items, rest))
  {
    assert ("," + s)[1..] == s;
  }

  lemma LastMemberStep(body: string, key: string, value: string, v: Value, after: string, rest: string)
    requires ReadsKey(body, key, value)
    requires ParseValue(value) == Some((v, after)) && SkipWs(after) == "}" + rest
    ensures ParseMembers(body) == Some((map[key := v], rest))
  {
    assert ("}" + rest)[1..] == rest;
  }

  lemma MemberStep(body: string, key: string, value: string, v: Value, after: string, s: string,
                   members: map<string, Value>, rest: string)
    requires ReadsKey(body, key, value)
    requires ParseValue(value) == Some((v, after)) && SkipWs(after) == "," + s
    requires ParseMembers(SkipWs(s)) == Some((members, rest))
    ensures ParseMembers(body) == Some((map[key := v] + members, rest))
  {
    assert ("," + s)[1..] == s;
  }

  function CloseElements(e: Elements, rest: string): string {
    if e.LastElement? then "]" + rest else "," + (ElementsText(e.next) + "]" + rest)
  }

  function CloseMembers(m: Members, rest: string): string {
    if m.LastMember? then "}" + rest else "," + (MembersText(m.next) + "}" + rest)
  }

  lemma Regroup4(a: string, b: string, c: string, d: string)
    ensures a + b + c + d == a + (b + (c + d))
  {
    Assoc(a + b, c, d);
    Assoc(a, b, c + d);
  }

  lemma ElementsShape(e: Elements, rest: string)
    ensures ElementsText(e) + "]" + rest == e.pre + (TextOf(e.value) + (e.post + CloseElements(e, rest)))
  {
    var first := e.pre + TextOf(e.value) + e.post;
    if e.LastElement? {
      Assoc(first, "]", rest);
    } else {
      var next := ElementsText(e.next);
      Regroup(first, ",", next, "]", rest);
      Assoc(next, "]", rest);
    }
    Regroup4(e.pre, TextOf(e.value), e.post, CloseElements(e, rest));
  }

  lemma MembersShape(m: Members, rest: string)
    ensures MembersText(m) + "}" + rest == KeyTextOf(m.key) + (TextOf(m.value) + (m.post + CloseMembers(m, rest)))
  {
    var first := KeyTextOf(m.key) + TextOf(m.value) + m.post;
    if m.LastMember? {
      Assoc(first, "}", rest);
    } else {
      var next := MembersText(m.next);
      Regroup(first, ",", next, "}", rest);
      Assoc(next, "}", rest);
    }
    Regroup4(KeyTextOf(m.key), TextOf(m.value), m.post, CloseMembers(m, rest));
  }

  lemma RegroupEmpty(open: string, inner: string, close: string, rest: string)
    ensures open + (inner + close) + rest == open + (inner + (close + rest))
  {
  }

  lemma ParseEmptyArray(inner: string, rest: string)
    requires AllWs(inner)
    ensures ParseValue("[" + (inner + "]") + rest) == Some((Array([]), rest))
  {
    var close := "]" + rest;
    SkipAll(inner, close);
    ParseBracket(inner + close);
    RegroupEmpty("[", inner, "]", rest);
    assert close[0] == ']' && close[1..] == rest;
  }

  lemma ParseEmptyObject(inner: string, rest: string)
    requires AllWs(inner)
    ensures ParseValue("{" + (inner + "}") + rest) == Some((Object(map[]), rest))
  {
    var close := "}" + rest;
    SkipAll(inner, close);
    ParseBrace(inner + close);
    RegroupEmpty("{", inner, "}", rest);
    assert close[0] == '}' && close[1..] == rest;
  }

  lemma ParseStringTree(letters: seq<Letter>, rest: string)
    requires ValidLetters(letters)
    ensures ParseValue(TextOf(TString(letters)) + rest) == Some((String(LettersMeaning(letters)), rest))
  {
    var text := LettersText(letters);
    ParseLetters(letters, rest);
    ParseQuoted(text + "\"" + rest, LettersMeaning(letters), rest);
    Regroup("", "\"", text, "\"", rest);
    assert "\"" + (text + "\"") + rest == "\"" + (text + "\"" + rest);
  }

  lemma ParseArrayTree(text: string, items: seq<Value>, rest: string)
    requires var body := SkipWs(text + "]" + rest);
      body != [] && body[0] != ']' && ParseElems(body) == Some((items, rest))
    ensures ParseValue("[" + (text + "]") + rest) == Some((Array(items), rest))
  {
    ParseBracket(text + "]" + rest);
    assert "[" + (text + "]") + rest == "[" + (text + "]" + rest);
  }

  lemma ParseObjectTree(text: string, members: map<string, Value>, rest: string)
    requires var body := SkipWs(text + "}" + rest);
      body != [] && body[0] != '}' && ParseMembers(body) == Some((members, rest))
    ensures ParseValue("{" + (text + "}") + rest) == Some((Object(members), rest))
  {
    ParseBrace(text + "}" + rest);
    assert "{" + (text + "}") + rest == "{" + (text + "}" + rest);
  }

  lemma {:induction false} ParseTree(t: Tree, rest: string)
    requires Valid(t) && EndsNumber(rest)
    ensures ParseValue(TextOf(t) + rest) == Some((MeaningOf(t), rest))
    decreases t
  {
    match t {
      case TNull => ParseWord(t, rest);
      case TBool(_) => ParseWord(t, rest);
      case TNumber(literal) => ParseNumber(literal, rest);
      case TString(letters) => ParseStringTree(letters, rest);
      case TEmptyArray(inner) => ParseEmptyArray(inner, rest);
      case TArray(elems) =>
        ParseElementsText(elems, rest);
        ParseArrayTree(ElementsText(elems), ElementsMeaning(elems), rest);
      case TEmptyObject(inner) => ParseEmptyObject(inner, rest);
      case TObject(members) =>
        ParseMembersText(members, rest);
        ParseObjectTree(MembersText(members), MembersMeaning(members), rest);
    }
  }

  lemma {:induction false} ParseElementsText(e: Elements, rest: string)
    requires ValidElements(e)
    ensures var body := SkipWs(ElementsText(e) + "]" + rest);
      body != [] && body[0] != ']' && ParseElems(body) == Some((ElementsMeaning(e), rest))
    decreases e
  {
    var close := CloseElements(e, rest);
    AfterValue(e.post, close);
    ParseTree(e.value, e.post + close);
    TextStart(e.value);
    var body := TextOf(e.value) + (e.post + close);
    SkipAll(e.pre, body);
    ElementsShape(e, rest);
    if e.LastElement? {
      LastElementStep(body, MeaningOf(e.value), e.post + close, rest);
    } else {
      ParseElementsText(e.next, rest);
      ElementStep(body, MeaningOf(e.value), e.post + close, ElementsText(e.next) + "]" + rest, ElementsMeaning(e.next), rest);
    }
  }

  lemma {:induction false} ParseMembersText(m: Members, rest: string)
    requires ValidMembers(m)
    ensures var body := SkipWs(MembersText(m) + "}" + rest);
      body != [] && body[0] != '}' && ParseMembers(body) == Some((MembersMeaning(m), rest))
    decreases m
  {
    var close := CloseMembers(m, rest);
    AfterValue(m.post, close);
    ParseTree(m.value, m.post + close);
    TextStart(m.value);
    var value := TextOf(m.value) + (m.post + close);
    ParseKey(m.key, value);
    MembersShape(m, rest);
    var body := SkipWs(MembersText(m) + "}" + rest);
    var key := LettersMeaning(m.key.key);
    if m.LastMember? {
      LastMemberStep(body, key, value, MeaningOf(m.value), m.post + close, rest);
    } else {
      ParseMembersText(m.next, rest);
      MemberStep(body, key, value, MeaningOf(m.value), m.post + close, MembersText(m.next) + "}" + rest, MembersMeaning(m.next), rest);
    }
  }

  /** Whatever the layout, the member order and the escapes, the decoder returns the meaning. */
  lemma DecodeReadsEveryText(before: string, t: Tree, after: string)
    requires AllWs(before) && Valid(t) && AllWs(after)
    ensures Decode(before + TextOf(t) + after) == Some(MeaningOf(t))
  {
    TextStart(t);
    assert before + TextOf(t) + after == before + (TextOf(t) + after);
    assert (TextOf(t) + after)[0] == TextOf(t)[0];
    SkipAll(before, TextOf(t) + after);
    ParseTree(t, after);
    SkipAll(after, []);
    assert after + [] == after;
  }

  // ---------------------------------------------------------------------------------------------
  // The canonical text of a value
  // ---------------------------------------------------------------------------------------------

  function CanonicalLetter(c: char, style: Style): Letter {
    if c == '"' then Short('"')
    else if c == '\\' then Short('\\')
    else if c as int == 8 then Short('b')
    else if c as int == 12 then Short('f')
    else if c == '\n' then Short('n')
    else if c == '\r' then Short('r')
    else if c == '\t' then Short('t')
    else if c < ' ' then Unit(['0', '0', HexDigit(c as int / 16), HexDigit(c as int % 16)])
    else if style == Go && c as int == 0x2028 then Unit("2028")
    else if style == Go && c as int == 0x2029 then Unit("2029")
    else Raw(c)
  }

  lemma ControlLetterPrints(c: char)
    requires c < ' '
    ensures var h := ['0', '0', HexDigit(c as int / 16), HexDigit(c as int % 16)];
      IsHex4(h) && CodeUnit(h) == c as int && "\\u00" + [HexDigit(c as int / 16), HexDigit(c as int % 16)] == "\\u" + h
  {
    var hi, lo := HexDigit(c as int / 16), HexDigit(c as int % 16);
    assert HexValue(hi) == c as int / 16 && HexValue(lo) == c as int % 16;
  }

  lemma CanonicalLetterPrints(c: char, style: Style)
    ensures var l := CanonicalLetter(c, style);
      ValidLetter(l) && LetterText(l) == PrintChar(c, style) && LetterMeaning(l) == c
  {
    if c < ' ' {
      ControlLetterPrints(c);
    }
  }

  function CanonicalLetters(s: string, style: Style): seq<Letter> {
    if s == [] then [] else [CanonicalLetter(s[0], style)] + CanonicalLetters(s[1..], style)
  }

  lemma {:induction false} CanonicalLettersPrint(s: string, style: Style)
    ensures var ls := CanonicalLetters(s, style);
      ValidLetters(ls) && LettersText(ls) == PrintChars(s, style) && LettersMeaning(ls) == s
  {
    if s != [] {
      CanonicalLetterPrints(s[0], style);
      CanonicalLettersPrint(s[1..], style);
      assert CanonicalLetters(s, style)[1..] == CanonicalLetters(s[1..], style);
      assert s == [s[0]] + s[1..];
    }
  }

  function CanonicalTree(v: Value, style: Style): Tree
    decreases v, 1
  {
    match v
    case Null => TNull
    case Bool(b) => TBool(b)
    case Number(literal) => TNumber(literal)
    case String(s) => TString(CanonicalLetters(s, style))
    case Array(items) => if items == [] then TEmptyArray("") else TArray(CanonicalElements(items, style))
    case Object(members) =>
      assert forall k :: k in Keys(v) ==> k in Elems(Keys(v));
      if Keys(v) == [] then TEmptyObject("") else TObject(CanonicalMembers(v, Keys(v), style))
  }

  function CanonicalElements(items: seq<Value>, style: Style): Elements
    requires items != []
    decreases items, 0
  {
    if |items| == 1 then LastElement("", CanonicalTree(items[0], style), "")
    else Element("", CanonicalTree(items[0], style), "", CanonicalElements(items[1..], style))
  }

  function CanonicalMembers(v: Value, keys: seq<string>, style: Style): Members
    requires v.Object? && keys != [] && forall k :: k in keys ==> k in v.members
    decreases v, 0, |keys|
  {
    var key := KeyText("", CanonicalLetters(keys[0], style), "", "");
    var value := CanonicalTree(v.members[keys[0]], style);
    if |keys| == 1 then LastMember(key, value, "") else Member(key, value, "", CanonicalMembers(v, keys[1..], style))
  }

  /** The printers write the canonical tree, and the canonical tree means the value. */
  lemma {:induction false} PrintIsCanonicalText(v: Value, style: Style)
    requires Printable(v)
    ensures Valid(CanonicalTree(v, style))
    ensures TextOf(CanonicalTree(v, style)) == Print(v, style)
    ensures MeaningOf(CanonicalTree(v, style)) == v
    decreases v, 1
  {
    match v {
      case Null =>
      case Bool(_) =>
      case Number(_) =>
      case String(s) =>
        CanonicalLettersPrint(s, style);
      case Array(items) =>
        if items != [] {
          ItemsPrint(items, style);
        }
      case Object(members) => ObjectPrints(v, style);
    }
  }

  lemma {:induction false} ObjectPrints(v: Value, style: Style)
    requires Printable(v) && v.Object?
    ensures Valid(CanonicalTree(v, style))
    ensures TextOf(CanonicalTree(v, style)) == Print(v, style)
    ensures MeaningOf(CanonicalTree(v, style)) == v
    decreases v, 0
  {
    var keys := Keys(v);
    assert forall k :: k in keys <==> k in Elems(keys);
    if keys == [] {
      assert v.members.Keys == {};
      assert v.members == map[];
    } else {
      Lex.SortedSeqIsSorted(v.members.Keys);
      MembersPrint(v, keys, style);
      FilledObjectPrints(v, keys, style);
    }
  }

  lemma FilledObjectPrints(v: Value, keys: seq<string>, style: Style)
    requires Printable(v) && v.Object? && keys == Keys(v) != []
    requires forall k :: k in keys <==> k in v.members
    requires ValidMembers(CanonicalMembers(v, keys, style))
    requires MembersText(CanonicalMembers(v, keys, style)) == PrintMembers(v, keys, style)
    requires MembersMeaning(CanonicalMembers(v, keys, style)) == v.members
    ensures Valid(CanonicalTree(v, style))
    ensures TextOf(CanonicalTree(v, style)) == Print(v, style)
    ensures MeaningOf(CanonicalTree(v, style)) == v
  {
  }

  lemma {:induction false} ItemsPrint(items: seq<Value>, style: Style)
    requires items != [] && forall i :: 0 <= i < |items| ==> Printable(items[i])
    ensures var e := CanonicalElements(items, style);
      ValidElements(e) && ElementsText(e) == PrintItems(items, style) && ElementsMeaning(e) == items
    decreases items, 0
  {
    PrintIsCanonicalText(items[0], style);
    var e := CanonicalElements(items, style);
    var tree := CanonicalTree(items[0], style);
    assert "" + TextOf(tree) + "" == TextOf(tree);
    if |items| == 1 {
      assert e == LastElement("", tree, "");
    } else {
      ItemsPrint(items[1..], style);
      assert e == Element("", tree, "", CanonicalElements(items[1..], style));
      assert items == [items[0]] + items[1..];
    }
  }

  lemma SortedKeysAreDistinct(keys: seq<string>)
    requires keys != [] && Lex.StrictlySorted(keys)
    ensures Lex.StrictlySorted(keys[1..]) && keys[0] !in keys[1..]
    ensures forall k :: k in keys <==> k == keys[0] || k in keys[1..]
  {
    if keys[0] in keys[1..] {
      var i :| 0 <= i < |keys[1..]| && keys[1..][i] == keys[0];
      assert Lex.Less(keys[0], keys[i + 1]);
      Lex.LessTrichotomy(keys[0], keys[0]);
    }
    assert keys == [keys[0]] + keys[1..];
  }

  lemma KeyPrints(key: string, style: Style)
    ensures var k := KeyText("", CanonicalLetters(key, style), "", "");
      ValidKey(k) && KeyTextOf(k) == PrintString(key, style) + ":" && LettersMeaning(k.key) == key
  {
    CanonicalLettersPrint(key, style);
    PlainKey(PrintChars(key, style));
  }

  lemma PlainKey(text: string)
    ensures "" + "\"" + text + "\"" + "" + ":" + "" == "\"" + text + "\"" + ":"
  {
  }

  lemma Restrict(members: map<string, Value>, keys: seq<string>)
    requires keys != [] && (forall k :: k in keys ==> k in members) && keys[0] !in keys[1..]
    requires forall k :: k in keys <==> k == keys[0] || k in keys[1..]
    ensures (map k | k in members && k in keys :: members[k])
         == map[keys[0] := members[keys[0]]] + (map k | k in members && k in keys[1..] :: members[k])
  {
  }

  lemma LastMemberPrints(v: Value, keys: seq<string>, style: Style)
    requires v.Object? && |keys| == 1 && keys[0] in v.members
    requires var t := CanonicalTree(v.members[keys[0]], style);
      Valid(t) && TextOf(t) == Print(v.members[keys[0]], style) && MeaningOf(t) == v.members[keys[0]]
    ensures var m := CanonicalMembers(v, keys, style);
      && ValidMembers(m) && MembersText(m) == PrintMembers(v, keys, style)
      && MembersMeaning(m) == map[keys[0] := v.members[keys[0]]]
  {
    KeyPrints(keys[0], style);
    var text := Print(v.members[keys[0]], style);
    assert PrintString(keys[0], style) + ":" + text + "" == PrintString(keys[0], style) + ":" + text;
  }

  lemma MemberPrints(v: Value, keys: seq<string>, style: Style)
    requires v.Object? && |keys| > 1 && forall k :: k in keys ==> k in v.members
    requires var t := CanonicalTree(v.members[keys[0]], style);
      Valid(t) && TextOf(t) == Print(v.members[keys[0]], style) && MeaningOf(t) == v.members[keys[0]]
    requires var next := CanonicalMembers(v, keys[1..], style);
      ValidMembers(next) && MembersText(next) == PrintMembers(v, keys[1..], style)
    ensures var m := CanonicalMembers(v, keys, style);
      && ValidMembers(m) && MembersText(m) == PrintMembers(v, keys, style)
      && MembersMeaning(m)
         == map[keys[0] := v.members[keys[0]]] + MembersMeaning(CanonicalMembers(v, keys[1..], style))
  {
    KeyPrints(keys[0], style);
    var text := Print(v.members[keys[0]], style);
    assert PrintString(keys[0], style) + ":" + text + "" == PrintString(keys[0], style) + ":" + text;
    var m := CanonicalMembers(v, keys, style);
    assert m.Member? && m.next == CanonicalMembers(v, keys[1..], style);
  }

  lemma {:induction false} MembersPrint(v: Value, keys: seq<string>, style: Style)
    requires v.Object? && Printable(v) && keys != []
    requires (forall k :: k in keys ==> k in v.members) && Lex.StrictlySorted(keys)
    ensures var m := CanonicalMembers(v, keys, style);
      && ValidMembers(m) && MembersText(m) == PrintMembers(v, keys, style)
      && MembersMeaning(m) == map k | k in v.members && k in keys :: v.members[k]
    decreases v, 0, |keys|
  {
    SortedKeysAreDistinct(keys);
    PrintIsCanonicalText(v.members[keys[0]], style);
    Restrict(v.members, keys);
    if |keys| == 1 {
      LastMemberPrints(v, keys, style);
    } else {
      MembersPrint(v, keys[1..], style);
      MemberPrints(v, keys, style);
    }
  }

  /** Decoding a canonical text gives back the value. */
  lemma RoundTrip(v: Value, style: Style)
    requires Printable(v)
    ensures Decode(Print(v, style)) == Some(v)
  {
    PrintIsCanonicalText(v, style);
    DecodeReadsEveryText("", CanonicalTree(v, style), "");
    assert "" + Print(v, style) + "" == Print(v, style);
  }

  /** Equal canonical bytes mean equal values. */
  lemma PrintInjective(v: Value, w: Value, style: Style)
    requires Printable(v) && Printable(w)
    requires Print(v, style) == Print(w, style)
    ensures v == w
  {
    RoundTrip(v, style);
    RoundTrip(w, style);
  }
}
