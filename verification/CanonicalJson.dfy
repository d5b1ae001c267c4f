/**
 `verified_canonical_json_bytes` of app/jobs_v22/digest.py: the canonical text of a JSON value, up to its final
 UTF-8 encoding. Numbers are taken as the binary64 value `float(item)` gives; `NotFinite` is a number without
 one, `Foreign` everything that is not plain JSON (other types, and dictionaries with a key that is not a string).
 */
module CanonicalJson {
  import opened Base
  import opened DecimalText
  import opened Magnitudes
  import opened NumberLayout
  import opened NumberReading
  import opened Utf16
  import opened JsonStrings

  datatype Member = Member(key: string, value: Json)

  /** An object keeps its members in insertion order, as a Python dictionary does. */
  datatype Json =
    | Null
    | Bool(truth: bool)
    | Number(number: Num)
    | NotFinite
    | Str(text: string)
    | Arr(items: seq<Json>)
    | Obj(members: seq<Member>)
    | Foreign

  // ---------------------------------------------------------------- encode

  function Keys(members: seq<Member>): (keys: seq<string>)
    ensures |keys| == |members| && forall i | 0 <= i < |keys| :: keys[i] == members[i].key
  {
    seq(|members|, i requires 0 <= i < |members| => members[i].key)
  }

  /** Where a key's member is; `|members|` when there is none. */
  function IndexOf(members: seq<Member>, key: string): (i: nat)
    ensures i <= |members| && (i < |members| ==> members[i].key == key)
    ensures i == |members| ==> key !in Keys(members)
  {
    if members == [] then 0
    else if members[0].key == key then 0
    else
      assert Keys(members) == [members[0].key] + Keys(members[1..]);
      1 + IndexOf(members[1..], key)
  }

  /** `",".join(parts)`. */
  function Join(parts: seq<string>): string {
    if parts == [] then "" else parts[0] + Commas(parts[1..])
  }

  function Commas(parts: seq<string>): string {
    if parts == [] then "" else "," + parts[0] + Commas(parts[1..])
  }

  /** `encode(key) + ":" + encode(item[key])`. */
  function MemberText(key: string, text: string): (s: string)
    ensures s != "" && s[0] == '"'
  {
    Quoted(key) + ":" + text
  }

  /** The text of a value, or `None` where the encoder raises. */
  function Encode(v: Json): Option<string>
    decreases v, 0
  {
    match v
    case Null => Some("null")
    case Bool(truth) => Some(if truth then "true" else "false")
    case Number(n) => if IsNum(n) then Some(VerifiedNumber(n)) else None
    case NotFinite => None
    case Str(s) => Some(Quoted(s))
    case Arr(items) =>
      var parts := EncodeItems(items);
      if parts.None? then None else Some(['['] + Join(parts.value) + [']'])
    case Obj(members) =>
      var parts := EncodeKeys(SortKeys(Keys(members)), members);
      if parts.None? then None else Some(['{'] + Join(parts.value) + ['}'])
    case Foreign => None
  }

  function EncodeItems(items: seq<Json>): (parts: Option<seq<string>>)
    ensures parts.Some? ==> |parts.value| == |items|
    decreases items, 1
  {
    if items == [] then Some([])
    else
      match Encode(items[0])
      case None => None
      case Some(first) =>
        match EncodeItems(items[1..])
        case None => None
        case Some(others) => Some([first] + others)
  }

  /** The members' texts, for each key in turn. */
  function EncodeKeys(keys: seq<string>, members: seq<Member>): (parts: Option<seq<string>>)
    ensures parts.Some? ==> |parts.value| == |keys|
    decreases members, 1, keys
  {
    if keys == [] then Some([])
    else
      var i := IndexOf(members, keys[0]);
      if i == |members| then None
      else
        match Encode(members[i].value)
        case None => None
        case Some(text) =>
          match EncodeKeys(keys[1..], members)
          case None => None
          case Some(others) => Some([MemberText(keys[0], text)] + others)
  }

  // ---------------------------------------------------------------- plain values

  /** The values the encoder is for; a dictionary never repeats a key. */
  ghost predicate WellFormed(v: Json) {
    match v
    case Number(n) => IsNum(n)
    case Arr(items) => forall i | 0 <= i < |items| :: WellFormed(items[i])
    case Obj(members) => Distinct(Keys(members)) && forall i | 0 <= i < |members| :: WellFormed(members[i].value)
    case _ => true
  }

  /** No part of the value is refused. */
  ghost predicate Plain(v: Json) {
    match v
    case NotFinite => false
    case Foreign => false
    case Arr(items) => forall i | 0 <= i < |items| :: Plain(items[i])
    case Obj(members) => forall i | 0 <= i < |members| :: Plain(members[i].value)
    case _ => true
  }

  /** The encoder succeeds on exactly the plain values: one refused part refuses the whole. */
  lemma {:induction false} EncodeSucceeds(v: Json)
    requires WellFormed(v)
    ensures Encode(v).Some? <==> Plain(v)
    decreases v, 0
  {
    match v
    case Arr(items) => EncodeItemsSucceeds(items);
    case Obj(members) =>
      EncodeKeysSucceeds(SortKeys(Keys(members)), members);
      AllMembersPlain(members);
      hide EncodeKeys, SortKeys, Join, PlainMember;
    case _ =>
  }

  /** A plain member for every sorted key is a plain value in every member. */
  lemma AllMembersPlain(members: seq<Member>)
    requires Distinct(Keys(members))
    ensures (forall k | k in SortKeys(Keys(members)) :: PlainMember(members, k)) <==>
            (forall i | 0 <= i < |members| :: Plain(members[i].value))
  {
    hide Plain, SortKeys;
    if forall k | k in SortKeys(Keys(members)) :: PlainMember(members, k) {
      forall i | 0 <= i < |members| ensures Plain(members[i].value) {
        assert Keys(members)[i] in Keys(members);
        SortKeysMembers(Keys(members), members[i].key);
        OnlyMember(members, i);
      }
    }
    if forall i | 0 <= i < |members| :: Plain(members[i].value) {
      forall k | k in SortKeys(Keys(members)) ensures PlainMember(members, k) {
        SortKeysMembers(Keys(members), k);
        var i :| 0 <= i < |members| && Keys(members)[i] == k;
        OnlyMember(members, i);
      }
    }
  }

  lemma {:induction false} EncodeItemsSucceeds(items: seq<Json>)
    requires forall i | 0 <= i < |items| :: WellFormed(items[i])
    ensures EncodeItems(items).Some? <==> forall i | 0 <= i < |items| :: Plain(items[i])
    decreases items, 1
  {
    if items != [] {
      EncodeSucceeds(items[0]);
      EncodeItemsSucceeds(items[1..]);
      assert items == [items[0]] + items[1..];
    }
  }

  ghost predicate PlainMember(members: seq<Member>, key: string) {
    exists i :: 0 <= i < |members| && members[i].key == key && Plain(members[i].value)
  }

  lemma {:induction false} EncodeKeysSucceeds(keys: seq<string>, members: seq<Member>)
    requires Distinct(Keys(members)) && forall i | 0 <= i < |members| :: WellFormed(members[i].value)
    ensures EncodeKeys(keys, members).Some? <==> forall k | k in keys :: PlainMember(members, k)
    decreases members, 1, keys
  {
    if keys != [] {
      var i := IndexOf(members, keys[0]);
      EncodeKeysSucceeds(keys[1..], members);
      assert keys == [keys[0]] + keys[1..];
      if i < |members| {
        EncodeSucceeds(members[i].value);
        OnlyMember(members, i);
      } else {
        assert !PlainMember(members, keys[0]);
      }
    }
  }

  lemma OnlyMember(members: seq<Member>, i: nat)
    requires Distinct(Keys(members)) && i < |members|
    ensures PlainMember(members, members[i].key) <==> Plain(members[i].value)
  {
    if PlainMember(members, members[i].key) {
      var j :| 0 <= j < |members| && members[j].key == members[i].key && Plain(members[j].value);
      assert Keys(members)[i] == Keys(members)[j];
    }
  }

  // ---------------------------------------------------------------- a reader

  /** `text` at the front of `s`. */
  predicate StartsWith(s: string, text: string) {
    |text| <= |s| && s[..|text|] == text
  }

  /** The longest prefix made of number characters. */
  function NumberLength(s: string): (k: nat)
    ensures k <= |s|
  {
    if s != "" && IsNumberChar(s[0]) then 1 + NumberLength(s[1..]) else 0
  }

  function Parse(s: string): (r: Option<Read<Json>>)
    ensures r.Some? ==> |r.value.rest| < |s|
    decreases |s|, 1
  {
    if s == "" then None
    else if s[0] == '"' then ParseText(s[1..])
    else if s[0] == '[' then ParseArray(s[1..])
    else if s[0] == '{' then ParseObject(s[1..])
    else if IsNumberChar(s[0]) then ParseNumber(s)
    else ParseLiteral(s)
  }

  function ParseLiteral(s: string): (r: Option<Read<Json>>)
    ensures r.Some? ==> |r.value.rest| < |s|
  {
    if StartsWith(s, "null") then Some(Read(Null, s[4..]))
    else if StartsWith(s, "true") then Some(Read(Bool(true), s[4..]))
    else if StartsWith(s, "false") then Some(Read(Bool(false), s[5..]))
    else None
  }

  function ParseText(s: string): (r: Option<Read<Json>>)
    ensures r.Some? ==> |r.value.rest| < |s|
  {
    match ReadChars(s)
    case None => None
    case Some(r) => Some(Read(Str(r.value), r.rest))
  }

  function ParseNumber(s: string): (r: Option<Read<Json>>)
    ensures r.Some? ==> |r.value.rest| < |s|
  {
    var k := NumberLength(s);
    if k == 0 then None else Some(Read(Number(ReadToken(s[..k])), s[k..]))
  }

  /** What follows an opening bracket. */
  function ParseArray(s: string): (r: Option<Read<Json>>)
    ensures r.Some? ==> |r.value.rest| < |s|
    decreases |s|, 2
  {
    if s != "" && s[0] == ']' then Some(Read(Arr([]), s[1..]))
    else
      match Parse(s)
      case None => None
      case Some(first) =>
        match ParseItems(first.rest)
        case None => None
        case Some(others) => Some(Read(Arr([first.value] + others.value), others.rest))
  }

  /** What follows an opening brace. */
  function ParseObject(s: string): (r: Option<Read<Json>>)
    ensures r.Some? ==> |r.value.rest| < |s|
    decreases |s|, 3
  {
    if s != "" && s[0] == '}' then Some(Read(Obj([]), s[1..]))
    else
      match ParseMember(s)
      case None => None
      case Some(first) =>
        match ParseMembers(first.rest)
        case None => None
        case Some(others) => Some(Read(Obj([first.value] + others.value), others.rest))
  }

  /** The elements behind the first one, up to and including the bracket. */
  function ParseItems(s: string): (r: Option<Read<seq<Json>>>)
    ensures r.Some? ==> |r.value.rest| < |s|
    decreases |s|, 1
  {
    if s == "" then None
    else if s[0] == ']' then Some(Read([], s[1..]))
    else if s[0] != ',' then None
    else
      match Parse(s[1..])
      case None => None
      case Some(first) =>
        match ParseItems(first.rest)
        case None => None
        case Some(others) => Some(Read([first.value] + others.value, others.rest))
  }

  function ParseMember(s: string): (r: Option<Read<Member>>)
    ensures r.Some? ==> |r.value.rest| < |s|
    decreases |s|, 1
  {
    if s == "" || s[0] != '"' then None
    else
      match ReadChars(s[1..])
      case None => None
      case Some(key) =>
        if key.rest == "" || key.rest[0] != ':' then None
        else
          match Parse(key.rest[1..])
          case None => None
          case Some(v) => Some(Read(Member(key.value, v.value), v.rest))
  }

  function ParseMembers(s: string): (r: Option<Read<seq<Member>>>)
    ensures r.Some? ==> |r.value.rest| < |s|
    decreases |s|, 2
  {
    if s == "" then None
    else if s[0] == '}' then Some(Read([], s[1..]))
    else if s[0] != ',' then None
    else
      match ParseMember(s[1..])
      case None => None
      case Some(first) =>
        match ParseMembers(first.rest)
        case None => None
        case Some(others) => Some(Read([first.value] + others.value, others.rest))
  }

  // ---------------------------------------------------------------- what reading back gives

  /** The same value with every object's members in key order. */
  function Canonical(v: Json): Json
    decreases v, 0
  {
    match v
    case Arr(items) => Arr(CanonicalItems(items))
    case Obj(members) => Obj(CanonicalMembers(SortKeys(Keys(members)), members))
    case _ => v
  }

  function CanonicalItems(items: seq<Json>): (c: seq<Json>)
    ensures |c| == |items|
    decreases items, 1
  {
    if items == [] then [] else [Canonical(items[0])] + CanonicalItems(items[1..])
  }

  function CanonicalMembers(keys: seq<string>, members: seq<Member>): seq<Member>
    decreases members, 1, keys
  {
    if keys == [] then []
    else
      var i := IndexOf(members, keys[0]);
      (if i < |members| then [Member(keys[0], Canonical(members[i].value))] else []) +
          CanonicalMembers(keys[1..], members)
  }

  /** Text after a number must not prolong it. */
  predicate Ends(rest: string) {
    rest == "" || !IsNumberChar(rest[0])
  }

  lemma {:induction false} NumberLengthIs(token: string, rest: string)
    requires AllNumberChars(token) && Ends(rest)
    ensures NumberLength(token + rest) == |token|
  {
    if token != "" {
      assert (token + rest)[1..] == token[1..] + rest;
      NumberLengthIs(token[1..], rest);
    } else {
      assert token + rest == rest;
    }
  }

  lemma NumberParses(n: Num, rest: string)
    requires IsNum(n) && Ends(rest)
    ensures Parse(VerifiedNumber(n) + rest) == Some(Read(Number(n), rest))
  {
    var token := VerifiedNumber(n);
    VerifiedNumberIsEcmaLayout(n);
    EcmaChars(n);
    NumberReadsBack(n);
    hide VerifiedNumber, EcmaLayout, ReadToken, ParseText, ParseArray, ParseObject, ParseLiteral, NumberLength;
    hide ParseNumber, Ends, EcmaMagnitude, Parse;
    NumberLengthIs(token, rest);
    ParseNumberStep(token, rest);
  }

  lemma ParseNumberStep(token: string, rest: string)
    requires token != "" && IsNumberChar(token[0]) && NumberLength(token + rest) == |token|
    ensures Parse(token + rest) == Some(Read(Number(ReadToken(token)), rest))
  {
    hide ReadToken, ParseText, ParseArray, ParseObject, ParseLiteral, NumberLength;
    var s := token + rest;
    assert s[0] == token[0];
    assert s[..|token|] == token && s[|token|..] == rest;
    assert Parse(s) == ParseNumber(s);
  }

  lemma StringParses(text: string, rest: string)
    ensures Parse(Quoted(text) + rest) == Some(Read(Str(text), rest))
  {
    var s := Quoted(text) + rest;
    assert s[0] == '"' && s[1..] == Escaped(text) + ['"'] + rest;
    StringReadsBack(text, rest);
    hide Quoted, Escaped, ReadChars, ParseArray, ParseObject, ParseLiteral, ParseNumber;
    assert Parse(s) == ParseText(s[1..]);
  }

  lemma LiteralParses(v: Json, rest: string)
    requires v.Null? || v.Bool?
    ensures Parse(Encode(v).value + rest) == Some(Read(v, rest))
  {
    hide ReadChars, ParseArray, ParseObject, ParseText, ParseNumber;
    match v
    case Null => LiteralAtFront("null", rest);
    case Bool(truth) => LiteralAtFront(if truth then "true" else "false", rest);
  }

  lemma LiteralAtFront(text: string, rest: string)
    ensures StartsWith(text + rest, text) && (text + rest)[|text|..] == rest
  {
  }

  /** No value starts like the end of a list or object. */
  lemma EncodeStarts(v: Json)
    requires Encode(v).Some?
    ensures Encode(v).value != "" && Encode(v).value[0] != ']' && Encode(v).value[0] != '}'
  {
    match v
    case Number(n) => VerifiedNumberIsEcmaLayout(n); EcmaChars(n);
    case _ =>
  }

  /** Reading the canonical text back gives the value, members in key order, and stops right behind it. */
  lemma {:induction false} ReadsBack(v: Json, rest: string)
    requires Encode(v).Some? && Ends(rest)
    ensures Parse(Encode(v).value + rest) == Some(Read(Canonical(v), rest))
    decreases v, 1
  {
    hide Parse, ParseArray, ParseObject, EncodeItems, EncodeKeys, Join, Close, CanonicalItems, CanonicalMembers,
          SortKeys, Keys, Ends;
    match v
    case Number(n) => NumberParses(n, rest);
    case Str(text) => StringParses(text, rest);
    case Arr(items) =>
      var parts := EncodeItems(items).value;
      BracketShape('[', ']', parts, rest);
      ParseBrackets(Join(parts) + Close(']', rest));
      ArrayReadsBack(items, rest);
    case Obj(members) =>
      var keys := SortKeys(Keys(members));
      var parts := EncodeKeys(keys, members).value;
      BracketShape('{', '}', parts, rest);
      ParseBrackets(Join(parts) + Close('}', rest));
      ObjectReadsBack(keys, members, rest);
    case Null => LiteralParses(v, rest);
    case Bool(_) => LiteralParses(v, rest);
    case _ =>
  }

  // -------- shapes of the texts that are read

  /** A closing bracket and what follows it. */
  function Close(bracket: char, rest: string): (s: string)
    ensures s != "" && s[0] == bracket && s[1..] == rest
  {
    [bracket] + rest
  }

  lemma CommasShape(parts: seq<string>, end: string)
    ensures parts == [] ==> Commas(parts) + end == end
    ensures parts != [] ==> var s := Commas(parts) + end;
      s != "" && s[0] == ',' && s[1..] == parts[0] + (Commas(parts[1..]) + end)
  {
    if parts != [] {
      CommaShape(parts[0], Commas(parts[1..]), end);
    }
  }

  lemma CommaShape(first: string, others: string, end: string)
    ensures var s := "," + first + others + end; s[0] == ',' && s[1..] == first + (others + end)
  {
  }

  lemma JoinShape(parts: seq<string>, end: string)
    ensures parts == [] ==> Join(parts) + end == end
    ensures parts != [] ==> Join(parts) + end == parts[0] + (Commas(parts[1..]) + end)
  {
    hide Commas;
  }

  lemma TailEnds(parts: seq<string>, end: string)
    requires end != "" && !IsNumberChar(end[0])
    ensures Ends(Commas(parts) + end)
  {
    CommasShape(parts, end);
  }

  /** The text of a list or object between its brackets, as the reader meets it. */
  lemma BracketShape(open: char, bracket: char, parts: seq<string>, rest: string)
    ensures [open] + Join(parts) + [bracket] + rest == [open] + (Join(parts) + Close(bracket, rest))
  {
    hide Join;
  }

  // -------- steps of the reader

  lemma ParseArrayStep(s: string, first: Json, tail: string, others: seq<Json>, rest: string)
    requires s != "" && s[0] != ']' && Parse(s) == Some(Read(first, tail)) &&
             ParseItems(tail) == Some(Read(others, rest))
    ensures ParseArray(s) == Some(Read(Arr([first] + others), rest))
  {
    hide Parse, ParseItems;
  }

  lemma ParseItemsStep(s: string, first: Json, tail: string, others: seq<Json>, rest: string)
    requires s != "" && s[0] == ',' && Parse(s[1..]) == Some(Read(first, tail)) &&
             ParseItems(tail) == Some(Read(others, rest))
    ensures ParseItems(s) == Some(Read([first] + others, rest))
  {
    hide Parse;
  }

  /** A key literal, a colon, a value. */
  lemma ParseMemberStep(s: string, key: string, body: string, v: Json, rest: string)
    requires s != "" && s[0] == '"' && ReadChars(s[1..]) == Some(Read(key, [':'] + body))
    requires Parse(body) == Some(Read(v, rest))
    ensures ParseMember(s) == Some(Read(Member(key, v), rest))
  {
    assert ([':'] + body)[1..] == body;
    hide Parse, ReadChars;
  }

  lemma ParseObjectStep(s: string, first: Member, tail: string, others: seq<Member>, rest: string)
    requires s != "" && s[0] != '}' && ParseMember(s) == Some(Read(first, tail)) &&
             ParseMembers(tail) == Some(Read(others, rest))
    ensures ParseObject(s) == Some(Read(Obj([first] + others), rest))
  {
    hide ParseMember, ParseMembers;
  }

  lemma ParseMembersStep(s: string, first: Member, tail: string, others: seq<Member>, rest: string)
    requires s != "" && s[0] == ',' && ParseMember(s[1..]) == Some(Read(first, tail)) && ParseMembers(tail) ==
          Some(Read(others, rest))
    ensures ParseMembers(s) == Some(Read([first] + others, rest))
  {
    hide ParseMember;
  }

  lemma ParseBrackets(s: string)
    ensures Parse(['['] + s) == ParseArray(s) && Parse(['{'] + s) == ParseObject(s)
  {
    hide ParseArray, ParseObject;
    assert (['['] + s)[1..] == s && (['{'] + s)[1..] == s;
  }

  // -------- lists

  /** The parts of a list are its first element's text and the other elements' parts. */
  lemma ItemsSplit(items: seq<Json>)
    requires items != [] && EncodeItems(items).Some?
    ensures Encode(items[0]).Some? && EncodeItems(items[1..]).Some?
    ensures EncodeItems(items).value[0] == Encode(items[0]).value
    ensures EncodeItems(items).value[1..] == EncodeItems(items[1..]).value
    ensures CanonicalItems(items) == [Canonical(items[0])] + CanonicalItems(items[1..])
  {
    hide Encode, Canonical;
  }

  lemma {:induction false} ItemsReadBack(items: seq<Json>, rest: string)
    requires EncodeItems(items).Some?
    ensures ParseItems(Commas(EncodeItems(items).value) + Close(']', rest)) == Some(Read(CanonicalItems(items), rest))
    decreases items, 3
  {
    hide Parse, ParseItems, Encode, EncodeItems, Commas, Close, Canonical, CanonicalItems, Ends;
    var parts, end := EncodeItems(items).value, Close(']', rest);
    CommasShape(parts, end);
    if items == [] {
      ItemsEnd(rest);
    } else {
      ItemsSplit(items);
      var tail := Commas(parts[1..]) + end;
      TailEnds(parts[1..], end);
      ReadsBack(items[0], tail);
      ItemsReadBack(items[1..], rest);
      ParseItemsStep(Commas(parts) + end, Canonical(items[0]), tail, CanonicalItems(items[1..]), rest);
    }
  }

  lemma ItemsEnd(rest: string)
    ensures EncodeItems([]) == Some([]) && CanonicalItems([]) == [] && CanonicalMembers([], []) == []
    ensures ParseItems(Close(']', rest)) == Some(Read([], rest))
    ensures ParseMembers(Close('}', rest)) == Some(Read([], rest))
  {
    hide Close;
  }

  lemma {:induction false} ArrayReadsBack(items: seq<Json>, rest: string)
    requires EncodeItems(items).Some?
    ensures ParseArray(Join(EncodeItems(items).value) + Close(']', rest)) ==
            Some(Read(Arr(CanonicalItems(items)), rest))
    decreases items, 4
  {
    hide Parse, ParseItems, ParseArray, Encode, EncodeItems, Commas, Join, Close, Canonical, CanonicalItems, Ends;
    var parts, end := EncodeItems(items).value, Close(']', rest);
    JoinShape(parts, end);
    if items == [] {
      ItemsEnd(rest);
      EmptyBrackets(rest);
    } else {
      ItemsSplit(items);
      var tail := Commas(parts[1..]) + end;
      TailEnds(parts[1..], end);
      EncodeStarts(items[0]);
      ReadsBack(items[0], tail);
      ItemsReadBack(items[1..], rest);
      ParseArrayStep(Join(parts) + end, Canonical(items[0]), tail, CanonicalItems(items[1..]), rest);
    }
  }

  lemma EmptyBrackets(rest: string)
    ensures ParseArray(Close(']', rest)) == Some(Read(Arr([]), rest))
    ensures ParseObject(Close('}', rest)) == Some(Read(Obj([]), rest))
  {
    hide Close;
  }

  // -------- objects

  lemma QuotedShape(key: string, behind: string)
    ensures var s := Quoted(key) + behind; s != "" && s[0] == '"' && s[1..] == Escaped(key) + ['"'] + behind
  {
    hide Escaped;
  }

  lemma {:induction false} MemberReadsBack(key: string, v: Json, rest: string)
    requires Encode(v).Some? && Ends(rest)
    ensures ParseMember(MemberText(key, Encode(v).value) + rest) == Some(Read(Member(key, Canonical(v)), rest))
    decreases v, 2
  {
    hide Parse, ParseMember, Encode, ReadChars, Escaped, Quoted, Canonical, Ends;
    var body := Encode(v).value + rest;
    var s := Quoted(key) + ([':'] + body);
    assert MemberText(key, Encode(v).value) + rest == s;
    QuotedShape(key, [':'] + body);
    StringReadsBack(key, [':'] + body);
    ReadsBack(v, rest);
    ParseMemberStep(s, key, body, Canonical(v), rest);
  }

  /** The parts of an object are its first member's text and the other members' parts. */
  lemma KeysSplit(keys: seq<string>, members: seq<Member>) returns (i: nat)
    requires keys != [] && EncodeKeys(keys, members).Some?
    ensures i == IndexOf(members, keys[0]) < |members|
    ensures Encode(members[i].value).Some? && EncodeKeys(keys[1..], members).Some?
    ensures EncodeKeys(keys, members).value[0] == MemberText(keys[0], Encode(members[i].value).value)
    ensures EncodeKeys(keys, members).value[1..] == EncodeKeys(keys[1..], members).value
    ensures CanonicalMembers(keys, members) == [Member(keys[0], Canonical(members[i].value))] +
          CanonicalMembers(keys[1..], members)
  {
    hide Encode, Canonical, Quoted;
    i := IndexOf(members, keys[0]);
  }

  lemma {:induction false} MembersReadBack(keys: seq<string>, members: seq<Member>, rest: string)
    requires EncodeKeys(keys, members).Some?
    ensures ParseMembers(Commas(EncodeKeys(keys, members).value) + Close('}', rest)) ==
          Some(Read(CanonicalMembers(keys, members), rest))
    decreases members, 3, keys
  {
    hide ParseMember, ParseMembers, Encode, EncodeKeys, Commas, Close;
    hide Canonical, CanonicalMembers, IndexOf, MemberText, Ends;
    var parts, end := EncodeKeys(keys, members).value, Close('}', rest);
    CommasShape(parts, end);
    if keys == [] {
      ItemsEnd(rest);
      NoMembers(members);
    } else {
      var i := KeysSplit(keys, members);
      var tail := Commas(parts[1..]) + end;
      TailEnds(parts[1..], end);
      MemberReadsBack(keys[0], members[i].value, tail);
      MembersReadBack(keys[1..], members, rest);
      ParseMembersStep(Commas(parts) + end, Member(keys[0], Canonical(members[i].value)), tail,
            CanonicalMembers(keys[1..], members), rest);
    }
  }

  lemma NoMembers(members: seq<Member>)
    ensures EncodeKeys([], members) == Some([]) && CanonicalMembers([], members) == []
  {
  }

  lemma {:induction false} ObjectReadsBack(keys: seq<string>, members: seq<Member>, rest: string)
    requires EncodeKeys(keys, members).Some?
    ensures ParseObject(Join(EncodeKeys(keys, members).value) + Close('}', rest)) ==
          Some(Read(Obj(CanonicalMembers(keys, members)), rest))
    decreases members, 4
  {
    hide ParseMember, ParseMembers, ParseObject, Encode, EncodeKeys, Commas, Join, Close, Canonical, CanonicalMembers,
          IndexOf, MemberText, Ends;
    var parts, end := EncodeKeys(keys, members).value, Close('}', rest);
    JoinShape(parts, end);
    if keys == [] {
      NoMembers(members);
      EmptyBrackets(rest);
    } else {
      var i := KeysSplit(keys, members);
      var tail := Commas(parts[1..]) + end;
      TailEnds(parts[1..], end);
      MemberReadsBack(keys[0], members[i].value, tail);
      MembersReadBack(keys[1..], members, rest);
      ParseObjectStep(Join(parts) + end, Member(keys[0], Canonical(members[i].value)), tail,
            CanonicalMembers(keys[1..], members), rest);
    }
  }
}
