/**
 The grammar of RFC 8259 as a relation between raw text and concrete syntax
 trees: a tree records every escape and digit and how many blanks stand
 between its parts. Text is a sequence of UTF-16 code units.
 */
module JsonText {
  import opened Options

  type Code = nat

  type Text = seq<Code>

  const TAB: Code := 9
  const LINE_FEED: Code := 10
  const RETURN: Code := 13
  const SPACE: Code := 32
  const QUOTE: Code := 34
  const PLUS: Code := 43
  const COMMA: Code := 44
  const MINUS: Code := 45
  const DOT: Code := 46
  const SLASH: Code := 47
  const ZERO: Code := 48
  const NINE: Code := 57
  const COLON: Code := 58
  const OPEN_ARRAY: Code := 91
  const BACKSLASH: Code := 92
  const CLOSE_ARRAY: Code := 93
  const LETTER_U: Code := 117
  const OPEN_OBJECT: Code := 123
  const CLOSE_OBJECT: Code := 125
  const MAX_UNIT: Code := 0xFFFF

  predicate IsSpace(c: Code) {
    c == SPACE || c == TAB || c == LINE_FEED || c == RETURN
  }

  /** The text stands at position `i`. */
  ghost predicate At(raw: Text, i: nat, text: Text)
    decreases |text|
  {
    if text == [] then i <= |raw|
    else i < |raw| && raw[i] == text[0] && At(raw, i + 1, text[1..])
  }

  predicate CharIs(raw: Text, i: nat, c: Code) {
    i < |raw| && raw[i] == c
  }

  /** Section 2: `n` characters of insignificant whitespace stand at position `i`. */
  ghost predicate BlankAt(raw: Text, i: nat, n: nat)
    decreases n
  {
    if n == 0 then i <= |raw| else i < |raw| && IsSpace(raw[i]) && BlankAt(raw, i + 1, n - 1)
  }

  // ----- section 7: strings -----

  datatype Unit = Plain(c: Code) | Short(c: Code) | Unicode(h0: Code, h1: Code, h2: Code, h3: Code)

  predicate IsDigit(c: Code) {
    ZERO <= c <= NINE
  }

  predicate IsHex(c: Code) {
    IsDigit(c) || 65 <= c <= 70 || 97 <= c <= 102
  }

  function HexValue(c: Code): nat {
    if IsDigit(c) then c - ZERO
    else if 65 <= c <= 70 then c - 55
    else if 97 <= c <= 102 then c - 87
    else 0
  }

  /** The escapes `"`, `\`, `/`, b, f, n, r and t, and what each stands for. */
  function ShortValue(c: Code): Option<Code> {
    if c == QUOTE || c == BACKSLASH || c == SLASH then Some(c)
    else if c == 98 then Some(8)
    else if c == 102 then Some(12)
    else if c == 110 then Some(LINE_FEED)
    else if c == 114 then Some(RETURN)
    else if c == 116 then Some(TAB)
    else None
  }

  predicate ValidUnit(u: Unit) {
    match u
    case Plain(c) => 32 <= c <= MAX_UNIT && c != QUOTE && c != BACKSLASH
    case Short(c) => ShortValue(c).Some?
    case Unicode(a, b, c, d) => IsHex(a) && IsHex(b) && IsHex(c) && IsHex(d)
  }

  predicate ValidUnits(units: seq<Unit>) {
    forall i :: 0 <= i < |units| ==> ValidUnit(units[i])
  }

  function PrintUnit(u: Unit): Text {
    match u
    case Plain(c) => [c]
    case Short(c) => [BACKSLASH, c]
    case Unicode(a, b, c, d) => [BACKSLASH, LETTER_U, a, b, c, d]
  }

  function PrintUnits(units: seq<Unit>): Text {
    if units == [] then [] else PrintUnit(units[0]) + PrintUnits(units[1..])
  }

  function PrintString(units: seq<Unit>): Text {
    [QUOTE] + PrintUnits(units) + [QUOTE]
  }

  function UnitValue(u: Unit): Code {
    match u
    case Plain(c) => c
    case Short(c) => if ShortValue(c).Some? then ShortValue(c).value else c
    case Unicode(a, b, c, d) => 4096 * HexValue(a) + 256 * HexValue(b) + 16 * HexValue(c) + HexValue(d)
  }

  /** The name a string stands for. */
  function Decoded(units: seq<Unit>): Text {
    if units == [] then [] else [UnitValue(units[0])] + Decoded(units[1..])
  }

  // ----- sections 3 and 6: literal names and numbers -----

  datatype Exponent = Exponent(letter: Code, sign: Text, digits: Text)

  datatype Primitive =
    | Literal(word: Text)
    | Number(minus: bool, whole: Text, fraction: Option<Text>, exponent: Option<Exponent>)

  const TRUE_TEXT: Text := [116, 114, 117, 101]
  const FALSE_TEXT: Text := [102, 97, 108, 115, 101]
  const NULL_TEXT: Text := [110, 117, 108, 108]

  predicate AllDigits(text: Text) {
    text != [] && forall i :: 0 <= i < |text| ==> IsDigit(text[i])
  }

  predicate ValidPrimitive(p: Primitive) {
    match p
    case Literal(word) => word == TRUE_TEXT || word == FALSE_TEXT || word == NULL_TEXT
    case Number(_, whole, fraction, exponent) =>
      && AllDigits(whole) && (whole[0] == ZERO ==> |whole| == 1)
      && (fraction.Some? ==> AllDigits(fraction.value))
      && (exponent.Some? ==>
            && (exponent.value.letter == 69 || exponent.value.letter == 101)
            && (exponent.value.sign == [] || exponent.value.sign == [PLUS] || exponent.value.sign == [MINUS])
            && AllDigits(exponent.value.digits))
  }

  function PrintPrimitive(p: Primitive): Text {
    match p
    case Literal(word) => word
    case Number(minus, whole, fraction, exponent) =>
      (if minus then [MINUS] else []) + whole
      + (if fraction.Some? then [DOT] + fraction.value else [])
      + (if exponent.Some? then [exponent.value.letter] + exponent.value.sign + exponent.value.digits else [])
  }

  // ----- sections 4 and 5: objects and arrays -----

  /** Numbers count the blanks before, between and after the tokens; `gap` is that of an empty array or object. */
  datatype Json =
    | Str(units: seq<Unit>)
    | Prim(primitive: Primitive)
    | Arr(gap: nat, items: Items)
    | Obj(gap: nat, members: Members)

  datatype Items = NoItems | Item(before: nat, value: Json, after: nat, rest: Items)

  datatype Members =
    | NoMembers
    | Member(before: nat, name: seq<Unit>, beforeColon: nat, afterColon: nat, value: Json, after: nat, rest: Members)

  ghost function Len(v: Json): nat {
    match v
    case Str(units) => |PrintString(units)|
    case Prim(p) => |PrintPrimitive(p)|
    case Arr(gap, items) => 1 + (if items.NoItems? then gap + 1 else ItemsLen(items))
    case Obj(gap, members) => 1 + (if members.NoMembers? then gap + 1 else MembersLen(members))
  }

  /** From the blank before the first element to just past the closing bracket. */
  ghost function ItemsLen(items: Items): nat {
    if items.NoItems? then 0 else items.before + Len(items.value) + items.after + 1 + ItemsLen(items.rest)
  }

  /** From a name to its colon, the colon included. */
  ghost function NameLen(members: Members): nat
    requires members.Member?
  {
    |PrintString(members.name)| + members.beforeColon + 1
  }

  ghost function MembersLen(members: Members): nat {
    if members.NoMembers? then 0
    else
      var value := members.afterColon + Len(members.value) + members.after + 1;
      members.before + NameLen(members) + value + MembersLen(members.rest)
  }

  /** The text from position `i` on derives the value. */
  ghost predicate Spans(raw: Text, i: nat, v: Json)
    decreases v
  {
    match v
    case Str(units) => ValidUnits(units) && At(raw, i, PrintString(units))
    case Prim(p) => ValidPrimitive(p) && At(raw, i, PrintPrimitive(p))
    case Arr(gap, items) =>
      && CharIs(raw, i, OPEN_ARRAY)
      && (if items.NoItems? then BlankAt(raw, i + 1, gap) && CharIs(raw, i + 1 + gap, CLOSE_ARRAY)
          else BlankAt(raw, i + 1, items.before) && ItemsSpan(raw, i + 1 + items.before, items))
    case Obj(gap, members) =>
      && CharIs(raw, i, OPEN_OBJECT)
      && (if members.NoMembers? then BlankAt(raw, i + 1, gap) && CharIs(raw, i + 1 + gap, CLOSE_OBJECT)
          else BlankAt(raw, i + 1, members.before) && MembersSpan(raw, i + 1 + members.before, members))
  }

  /** An element's value stands at position `i`, and what follows it behind its end. */
  ghost predicate ItemsSpan(raw: Text, i: nat, items: Items)
    decreases items, 1
  {
    items.Item? && Spans(raw, i, items.value) && ItemEnds(raw, i + Len(items.value), items)
  }

  /** Blanks at position `i`, and then a comma and a further element or the closing bracket. */
  ghost predicate ItemEnds(raw: Text, i: nat, items: Items)
    decreases items, 0
  {
    items.Item? && BlankAt(raw, i, items.after) &&
    var k := i + items.after;
    (if items.rest.NoItems? then CharIs(raw, k, CLOSE_ARRAY)
     else CharIs(raw, k, COMMA) && BlankAt(raw, k + 1, items.rest.before)
          && ItemsSpan(raw, k + 1 + items.rest.before, items.rest))
  }

  /** A member's name, its colon and the blanks around that stand at position `i`. */
  ghost predicate NameSpans(raw: Text, i: nat, members: Members) {
    members.Member? &&
    var end := i + |PrintString(members.name)|;
    && ValidUnits(members.name) && At(raw, i, PrintString(members.name))
    && BlankAt(raw, end, members.beforeColon) && CharIs(raw, end + members.beforeColon, COLON)
    && BlankAt(raw, i + NameLen(members), members.afterColon)
  }

  /** A member stands at position `i`, and what follows it behind its end. */
  ghost predicate MembersSpan(raw: Text, i: nat, members: Members)
    decreases members, 2
  {
    NameSpans(raw, i, members) && MemberSpans(raw, i + NameLen(members) + members.afterColon, members)
  }

  /** The member's value stands at position `i`. */
  ghost predicate MemberSpans(raw: Text, i: nat, members: Members)
    decreases members, 1
  {
    members.Member? && Spans(raw, i, members.value) && MemberEnds(raw, i + Len(members.value), members)
  }

  /** Blanks at position `i`, and then a comma and a further member or the closing brace. */
  ghost predicate MemberEnds(raw: Text, i: nat, members: Members)
    decreases members, 0
  {
    members.Member? && BlankAt(raw, i, members.after) &&
    var k := i + members.after;
    (if members.rest.NoMembers? then CharIs(raw, k, CLOSE_OBJECT)
     else CharIs(raw, k, COMMA) && BlankAt(raw, k + 1, members.rest.before)
          && MembersSpan(raw, k + 1 + members.rest.before, members.rest))
  }

  /** A JSON text: one value between blanks. */
  ghost predicate Parses(raw: Text, before: nat, v: Json) {
    && BlankAt(raw, 0, before) && Spans(raw, before, v)
    && before + Len(v) <= |raw| && BlankAt(raw, before + Len(v), |raw| - before - Len(v))
  }

  // ----- duplicate names -----

  function Names(members: Members): seq<Text> {
    if members.NoMembers? then [] else [Decoded(members.name)] + Names(members.rest)
  }

  ghost predicate Repeats(names: seq<Text>) {
    exists i, j :: 0 <= i < j < |names| && names[i] == names[j]
  }

  /** Some object in the value has two members whose decoded names are equal. */
  ghost predicate HasDuplicate(v: Json) {
    match v
    case Str(_) => false
    case Prim(_) => false
    case Arr(_, items) => ItemsHaveDuplicate(items)
    case Obj(_, members) => Repeats(Names(members)) || MembersHaveDuplicate(members)
  }

  ghost predicate ItemsHaveDuplicate(items: Items) {
    items.Item? && (HasDuplicate(items.value) || ItemsHaveDuplicate(items.rest))
  }

  ghost predicate MembersHaveDuplicate(members: Members) {
    members.Member? && (HasDuplicate(members.value) || MembersHaveDuplicate(members.rest))
  }
}
