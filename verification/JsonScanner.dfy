/** What a cursor over raw JSON text meets: facts about strings, primitives, blanks and repeated names. */
module JsonScanner {
  import opened JsonText
  import opened Options

  // ----- what stands where -----

  lemma {:induction false} AtConcat(raw: Text, i: nat, a: Text, b: Text)
    ensures At(raw, i, a + b) <==> At(raw, i, a) && At(raw, i + |a|, b)
    decreases |a|
  {
    if a == [] {
      assert a + b == b;
      AtFits(raw, i, b);
    } else {
      assert (a + b)[1..] == a[1..] + b;
      AtConcat(raw, i + 1, a[1..], b);
    }
  }

  lemma {:induction false} AtFits(raw: Text, i: nat, text: Text)
    ensures At(raw, i, text) ==> i + |text| <= |raw|
    decreases |text|
  {
    if text != [] && i < |raw| {
      AtFits(raw, i + 1, text[1..]);
    }
  }

  lemma {:induction false} AtMeans(raw: Text, i: nat, text: Text)
    ensures At(raw, i, text) <==> i + |text| <= |raw| && raw[i..i + |text|] == text
    decreases |text|
  {
    AtFits(raw, i, text);
    if text != [] && i + |text| <= |raw| {
      AtMeans(raw, i + 1, text[1..]);
      assert raw[i..i + |text|] == [raw[i]] + raw[i + 1..i + |text|];
      assert text == [text[0]] + text[1..];
    }
  }

  predicate SpaceAt(raw: Text, i: nat) {
    i < |raw| && IsSpace(raw[i])
  }

  /** A primitive ends at the end of the text, before a blank or before one of `,`, `]` and `}`. */
  predicate Stops(raw: Text, i: nat) {
    i >= |raw| || IsSpace(raw[i]) || raw[i] == COMMA || raw[i] == CLOSE_ARRAY || raw[i] == CLOSE_OBJECT
  }

  // ----- strings -----

  /** Where the string body that starts at `i` ends, its closing quote included. */
  function EndOfString(raw: Text, i: nat): Option<nat>
    decreases |raw| - i
  {
    if i >= |raw| then None
    else if raw[i] == BACKSLASH then (if i + 2 > |raw| then None else EndOfString(raw, i + 2))
    else if raw[i] == QUOTE then Some(i + 1)
    else EndOfString(raw, i + 1)
  }

  lemma CharAt(raw: Text, i: nat, text: Text, k: nat)
    requires At(raw, i, text) && k < |text|
    ensures i + |text| <= |raw| && raw[i + k] == text[k]
  {
    AtMeans(raw, i, text);
    assert raw[i..i + |text|][k] == raw[i + k];
  }

  lemma OrdinarySkips(raw: Text, i: nat)
    requires i < |raw| && raw[i] != QUOTE && raw[i] != BACKSLASH
    ensures EndOfString(raw, i) == EndOfString(raw, i + 1)
  {
  }

  lemma UnitSkips(raw: Text, i: nat, u: Unit)
    requires ValidUnit(u) && At(raw, i, PrintUnit(u))
    ensures EndOfString(raw, i) == EndOfString(raw, i + |PrintUnit(u)|)
  {
    CharAt(raw, i, PrintUnit(u), 0);
    match u
    case Plain(c) =>
    case Short(c) =>
    case Unicode(a, b, c, d) =>
      CharAt(raw, i, PrintUnit(u), 2);
      CharAt(raw, i, PrintUnit(u), 3);
      CharAt(raw, i, PrintUnit(u), 4);
      CharAt(raw, i, PrintUnit(u), 5);
      OrdinarySkips(raw, i + 2);
      OrdinarySkips(raw, i + 3);
      OrdinarySkips(raw, i + 4);
      OrdinarySkips(raw, i + 5);
  }

  lemma {:induction false} UnitsEnd(raw: Text, i: nat, units: seq<Unit>)
    requires ValidUnits(units) && At(raw, i, PrintUnits(units) + [QUOTE])
    ensures EndOfString(raw, i) == Some(i + |PrintUnits(units)| + 1)
    decreases |units|
  {
    if units == [] {
      CharAt(raw, i, PrintUnits(units) + [QUOTE], 0);
    } else {
      var u, rest := PrintUnit(units[0]), PrintUnits(units[1..]) + [QUOTE];
      assert PrintUnits(units) + [QUOTE] == u + rest;
      AtConcat(raw, i, u, rest);
      UnitSkips(raw, i, units[0]);
      UnitsEnd(raw, i + |u|, units[1..]);
    }
  }

  /** The value of a string token, as a JSON parser reads it: its body between the quotes, decoded. */
  function ParseBody(text: Text): Text {
    if text == [] then []
    else if text[0] != BACKSLASH then [text[0]] + ParseBody(text[1..])
    else if |text| >= 2 && ShortValue(text[1]).Some? then [ShortValue(text[1]).value] + ParseBody(text[2..])
    else if |text| >= 6 && text[1] == LETTER_U && IsHex(text[2]) && IsHex(text[3]) && IsHex(text[4]) && IsHex(text[5]) then
      [UnitValue(Unicode(text[2], text[3], text[4], text[5]))] + ParseBody(text[6..])
    else []
  }

  function ParseString(token: Text): Text {
    if |token| < 2 then [] else ParseBody(token[1..|token| - 1])
  }

  /** Reading a printed string back gives its decoded value. */
  lemma {:induction false} ParseIsDecode(units: seq<Unit>)
    requires ValidUnits(units)
    ensures ParseBody(PrintUnits(units)) == Decoded(units)
    decreases |units|
  {
    if units != [] {
      ParseIsDecode(units[1..]);
    }
  }

  lemma StringIsDecoded(units: seq<Unit>)
    requires ValidUnits(units)
    ensures ParseString(PrintString(units)) == Decoded(units)
  {
    var token := PrintString(units);
    assert token[1..|token| - 1] == PrintUnits(units);
    ParseIsDecode(units);
  }

  // ----- first and last characters -----

  predicate IsStop(c: Code) {
    IsSpace(c) || c == COMMA || c == CLOSE_ARRAY || c == CLOSE_OBJECT
  }

  predicate NoStops(text: Text) {
    forall i :: 0 <= i < |text| ==> !IsStop(text[i])
  }

  lemma PrimitiveText(p: Primitive)
    requires ValidPrimitive(p)
    ensures var text := PrintPrimitive(p);
      text != [] && NoStops(text) && text[0] != QUOTE && text[0] != OPEN_ARRAY && text[0] != OPEN_OBJECT
  {
    if p.Number? {
      NumberText(p);
    }
  }

  lemma NumberText(p: Primitive)
    requires ValidPrimitive(p) && p.Number?
    ensures var text := PrintPrimitive(p);
      text != [] && NoStops(text) && text[0] != QUOTE && text[0] != OPEN_ARRAY && text[0] != OPEN_OBJECT
  {
    var sign := if p.minus then [MINUS] else [];
    var fraction := if p.fraction.Some? then [DOT] + p.fraction.value else [];
    var exponent := if p.exponent.Some? then [p.exponent.value.letter] + p.exponent.value.sign + p.exponent.value.digits
                    else [];
    assert NoStops(sign) && NoStops(p.whole) && NoStops(fraction) && NoStops(exponent);
    assert PrintPrimitive(p) == sign + p.whole + fraction + exponent;
  }

  /** What follows a value inside an array or object, or at the end, lets a primitive end there. */
  lemma BlankStops(raw: Text, i: nat, n: nat)
    requires BlankAt(raw, i, n) && (i + n >= |raw| || IsStop(raw[i + n]))
    ensures Stops(raw, i)
  {
  }

  /** No value starts with a blank or a closing bracket, and its first character tells its kind. */
  lemma ValueStart(raw: Text, i: nat, v: Json)
    requires Spans(raw, i, v)
    ensures i < |raw| && !IsStop(raw[i])
    ensures raw[i] == OPEN_OBJECT <==> v.Obj?
    ensures raw[i] == OPEN_ARRAY <==> v.Arr?
    ensures raw[i] == QUOTE <==> v.Str?
  {
  }

  // ----- duplicates from one member on -----

  /** A member repeats an earlier name, or a later part of the object does, or a value holds one. */
  ghost predicate DuplicateFrom(seen: set<Text>, members: Members)
    decreases members
  {
    members.Member? &&
    (Decoded(members.name) in seen || HasDuplicate(members.value)
     || DuplicateFrom(seen + {Decoded(members.name)}, members.rest))
  }

  ghost predicate Meets(seen: set<Text>, names: seq<Text>) {
    exists i :: 0 <= i < |names| && names[i] in seen
  }

  lemma {:induction false} DuplicateFromMeans(seen: set<Text>, members: Members)
    decreases members
    ensures DuplicateFrom(seen, members) <==>
      Meets(seen, Names(members)) || Repeats(Names(members)) || MembersHaveDuplicate(members)
  {
    if members.Member? {
      var name, rest := Decoded(members.name), Names(members.rest);
      var names := Names(members);
      DuplicateFromMeans(seen + {name}, members.rest);
      ConsMeets(seen, name, rest);
      assert names == [name] + rest;
    }
  }

  lemma ConsMeets(seen: set<Text>, name: Text, rest: seq<Text>)
    ensures Meets(seen, [name] + rest) || Repeats([name] + rest) <==>
      name in seen || Meets(seen + {name}, rest) || Repeats(rest)
  {
    MeetsCons(seen, name, rest);
    RepeatsCons(name, rest);
  }

  lemma MeetsCons(seen: set<Text>, name: Text, rest: seq<Text>)
    ensures Meets(seen, [name] + rest) <==> name in seen || Meets(seen, rest)
  {
    var names := [name] + rest;
    assert names[0] == name && forall i :: 0 <= i < |rest| ==> names[i + 1] == rest[i];
    if Meets(seen, names) {
      var i :| 0 <= i < |names| && names[i] in seen;
      if i > 0 { assert rest[i - 1] in seen; }
    }
  }

  lemma RepeatsCons(name: Text, rest: seq<Text>)
    ensures Repeats([name] + rest) <==> name in rest || Repeats(rest)
  {
    var names := [name] + rest;
    assert names[0] == name && forall i :: 0 <= i < |rest| ==> names[i + 1] == rest[i];
    if Repeats(names) {
      var i, j :| 0 <= i < j < |names| && names[i] == names[j];
      assert rest[j - 1] == names[j];
      if i > 0 { assert rest[i - 1] == rest[j - 1]; }
    }
    if name in rest {
      var i :| 0 <= i < |rest| && rest[i] == name;
      assert names[0] == names[i + 1];
    }
  }
}
