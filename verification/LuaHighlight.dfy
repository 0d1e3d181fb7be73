/**
 The linear Lua lexer behind code highlighting. Each turn of its loop consumes
 one lexeme; the text between recognized tokens is escaped together.
 */
module LuaHighlight {
  import opened HighlightedHtml
  import opened Options

  const MAX_SOURCE_LENGTH := 20000

  const KEYWORDS: set<string> := {
    "and", "break", "do", "else", "elseif", "end", "for", "function", "goto", "if", "in",
    "local", "not", "or", "repeat", "return", "then", "until", "while"
  }

  const LITERALS: set<string> := {"true", "false", "nil"}

  const BUILT_INS: set<string> := {
    "_G", "_VERSION", "assert", "collectgarbage", "dofile", "error", "getmetatable", "ipairs", "load",
    "loadfile", "next", "pairs", "pcall", "print", "rawequal", "rawget", "rawlen", "rawset", "require",
    "select", "setmetatable", "tonumber", "tostring", "type", "warn", "xpcall", "coroutine", "debug", "io",
    "math", "os", "package", "string", "table", "utf8"
  }

  predicate IsDigit(c: char) {
    '0' <= c <= '9'
  }

  predicate IsHex(c: char) {
    IsDigit(c) || 'a' <= c <= 'f' || 'A' <= c <= 'F'
  }

  predicate StartsName(c: char) {
    'A' <= c <= 'Z' || 'a' <= c <= 'z' || c == '_'
  }

  predicate ContinuesName(c: char) {
    StartsName(c) || IsDigit(c)
  }

  predicate Has(source: string, i: nat, c: char) {
    i < |source| && source[i] == c
  }

  // ----- where lexemes end -----

  function EqualsEnd(source: string, i: nat): (end: nat)
    requires i <= |source|
    ensures i <= end <= |source| && !Has(source, end, '=')
    ensures forall j :: i <= j < end ==> source[j] == '='
    decreases |source| - i
  {
    if Has(source, i, '=') then EqualsEnd(source, i + 1) else i
  }

  predicate OccursAt(source: string, pattern: string, i: nat) {
    i + |pattern| <= |source| && source[i..i + |pattern|] == pattern
  }

  /** `indexOf`: the first occurrence at or after `i`. */
  function IndexOf(source: string, pattern: string, i: nat): (r: Option<nat>)
    ensures r.Some? ==> i <= r.value && OccursAt(source, pattern, r.value)
    ensures forall j: nat :: i <= j && (r.Some? ==> j < r.value) ==> !OccursAt(source, pattern, j)
    decreases |source| - i
  {
    if i + |pattern| > |source| then None
    else if OccursAt(source, pattern, i) then Some(i)
    else if i == |source| then None
    else IndexOf(source, pattern, i + 1)
  }

  /** A long bracket of this level opens at `start`. */
  predicate OpensLong(source: string, start: nat, level: nat) {
    && Has(source, start, '[') && Has(source, start + 1 + level, '[')
    && forall i :: start + 1 <= i < start + 1 + level ==> source[i] == '='
  }

  /** A long bracket of this level closes at `i`. */
  predicate ClosesLong(source: string, level: nat, i: nat) {
    && Has(source, i, ']') && Has(source, i + 1 + level, ']')
    && forall j :: i + 1 <= j < i + 1 + level ==> source[j] == '='
  }

  /** Just past the first bracket of this level that closes at or after `from`, or the end of the source. */
  ghost predicate EndsLong(source: string, level: nat, from: nat, end: nat) {
    && end <= |source|
    && (forall i :: from <= i && i + level + 2 < end ==> !ClosesLong(source, level, i))
    && (end == |source| || (from + level + 2 <= end && ClosesLong(source, level, end - level - 2)))
  }

  /** The end of the long bracket that opens at `start`; it begins to look for its end just past the opening one. */
  ghost predicate IsLongBracketEnd(source: string, start: nat, end: nat) {
    exists level: nat :: OpensLong(source, start, level) && EndsLong(source, level, start + level + 2, end)
  }

  ghost predicate OpensSome(source: string, start: nat) {
    exists level: nat :: OpensLong(source, start, level)
  }

  function LongBracketEnd(source: string, start: nat): (r: Option<nat>)
    ensures r.Some? ==> start < r.value <= |source|
  {
    if !Has(source, start, '[') then None
    else
      var cursor := EqualsEnd(source, start + 1);
      if !Has(source, cursor, '[') then None
      else
        var closing := "]" + source[start + 1..cursor] + "]";
        var closingIndex := IndexOf(source, closing, cursor + 1);
        if closingIndex.None? then Some(|source|) else Some(closingIndex.value + |closing|)
  }

  /** A bracket opens with the equals signs that stand there, or not at all. */
  lemma LevelIsRun(source: string, start: nat, level: nat)
    requires OpensLong(source, start, level)
    ensures EqualsEnd(source, start + 1) == start + 1 + level
  {
  }

  lemma ClosingOccurs(source: string, closing: string, level: nat, i: nat)
    requires |closing| == level + 2 && closing[0] == ']' && closing[level + 1] == ']'
    requires forall j :: 1 <= j <= level ==> closing[j] == '='
    ensures OccursAt(source, closing, i) <==> ClosesLong(source, level, i)
  {
    if OccursAt(source, closing, i) {
      forall j | 0 <= j < |closing| ensures source[i + j] == closing[j] {
        assert source[i..i + |closing|][j] == closing[j];
      }
      assert forall j :: i + 1 <= j < i + 1 + level ==> source[j] == closing[j - i];
    }
    if ClosesLong(source, level, i) {
      assert source[i..i + |closing|] == closing;
    }
  }

  /** What the search for the closing text finds is the end as the levels define it. */
  lemma LongBracketEndIs(source: string, start: nat)
    ensures LongBracketEnd(source, start).Some? <==> OpensSome(source, start)
    ensures LongBracketEnd(source, start).Some? ==> IsLongBracketEnd(source, start, LongBracketEnd(source, start).value)
  {
    if OpensSome(source, start) {
      var level: nat :| OpensLong(source, start, level);
      LevelIsRun(source, start, level);
    }
    if LongBracketEnd(source, start).Some? {
      LongBracketEndFits(source, start);
    }
  }

  lemma LongBracketEndFits(source: string, start: nat)
    requires LongBracketEnd(source, start).Some?
    ensures OpensSome(source, start) && IsLongBracketEnd(source, start, LongBracketEnd(source, start).value)
  {
    var cursor := EqualsEnd(source, start + 1);
    var level := cursor - start - 1;
    assert OpensLong(source, start, level);
    var closing := "]" + source[start + 1..cursor] + "]";
    assert forall j :: 1 <= j <= level ==> closing[j] == source[start + j];
    forall i: nat ensures OccursAt(source, closing, i) <==> ClosesLong(source, level, i) {
      ClosingOccurs(source, closing, level, i);
    }
    assert EndsLong(source, level, start + level + 2, LongBracketEnd(source, start).value);
  }

  /** How many backslashes stand right before `i`, back to `from`. */
  function Backslashes(source: string, from: nat, i: nat): (n: nat)
    requires i <= |source|
  {
    if i > from && source[i - 1] == '\\' then 1 + Backslashes(source, from, i - 1) else 0
  }

  /** The quote that opens at `start` occurs again at `i`, not escaped: an even run of backslashes stands before it. */
  predicate ClosesQuote(source: string, start: nat, i: nat) {
    start < i < |source| && source[i] == source[start] && Backslashes(source, start + 1, i) % 2 == 0
  }

  /** Just past the first quote that closes, or the end of the source. Nothing else ends a string, a line break neither. */
  ghost predicate IsQuotedEnd(source: string, start: nat, end: nat) {
    && start < end <= |source|
    && (forall i :: start < i < end - 1 ==> !ClosesQuote(source, start, i))
    && (end == |source| || ClosesQuote(source, start, end - 1))
  }

  /** The first closing quote, looked for place by place from `i` on. */
  function QuoteEnd(source: string, start: nat, i: nat): (end: nat)
    requires start < i <= |source|
    ensures i <= end <= |source| && (i < |source| ==> i < end)
    ensures forall j :: i <= j < end - 1 ==> !ClosesQuote(source, start, j)
    ensures end == |source| || (i < end && ClosesQuote(source, start, end - 1))
    decreases |source| - i
  {
    if i == |source| then |source|
    else if ClosesQuote(source, start, i) then i + 1
    else QuoteEnd(source, start, i + 1)
  }

  function QuotedEnd(source: string, start: nat): (end: nat)
    requires start < |source|
    ensures IsQuotedEnd(source, start, end)
  {
    QuoteEnd(source, start, start + 1)
  }

  lemma QuotedEndIsUnique(source: string, start: nat, a: nat, b: nat)
    requires IsQuotedEnd(source, start, a) && IsQuotedEnd(source, start, b)
    ensures a == b
  {
  }

  // ----- numbers -----

  function RunEnd(source: string, digit: char -> bool, i: nat): (end: nat)
    requires i <= |source|
    ensures i <= end <= |source| && (end < |source| ==> !digit(source[end]))
    ensures forall j :: i <= j < end ==> digit(source[j])
    decreases |source| - i
  {
    if i < |source| && digit(source[i]) then RunEnd(source, digit, i + 1) else i
  }

  /** A point that belongs to a number is not followed by another point. */
  predicate TakesPoint(source: string, i: nat) {
    Has(source, i, '.') && !Has(source, i + 1, '.')
  }

  /** Greedy: digits with an optional point and more digits, or a point and digits. */
  function MantissaEnd(source: string, digit: char -> bool, start: nat): (r: Option<nat>)
    requires start <= |source|
    ensures r.Some? ==> start < r.value <= |source|
  {
    var whole := RunEnd(source, digit, start);
    if whole > start then Some(if TakesPoint(source, whole) then RunEnd(source, digit, whole + 1) else whole)
    else if Has(source, start, '.') && RunEnd(source, digit, start + 1) > start + 1 then
      Some(RunEnd(source, digit, start + 1))
    else None
  }

  /** Greedy: an optional exponent with its letter, an optional sign and at least one digit. */
  function ExponentEnd(source: string, i: nat, lower: char, upper: char): (end: nat)
    requires i <= |source|
    ensures i <= end <= |source|
  {
    if !Has(source, i, lower) && !Has(source, i, upper) then i
    else
      var digits := if Has(source, i + 1, '+') || Has(source, i + 1, '-') then i + 2 else i + 1;
      var end := RunEnd(source, IsDigit, digits);
      if end > digits then end else i
  }

  predicate HasHexPrefix(source: string, start: nat) {
    Has(source, start, '0') && (Has(source, start + 1, 'x') || Has(source, start + 1, 'X'))
  }

  function HexNumberLength(source: string, start: nat): (length: nat)
    ensures length > 0 ==> start + length <= |source|
  {
    if !HasHexPrefix(source, start) then 0
    else match MantissaEnd(source, IsHex, start + 2)
      case None => 0
      case Some(mantissa) => ExponentEnd(source, mantissa, 'p', 'P') - start
  }

  function DecimalNumberLength(source: string, start: nat): (length: nat)
    ensures length > 0 ==> start + length <= |source|
  {
    if start >= |source| then 0
    else match MantissaEnd(source, IsDigit, start)
      case None => 0
      case Some(mantissa) => ExponentEnd(source, mantissa, 'e', 'E') - start
  }

  function NumberLength(source: string, start: nat): (length: nat)
    ensures length > 0 ==> start + length <= |source|
  {
    var hex := HexNumberLength(source, start);
    if hex > 0 then hex else DecimalNumberLength(source, start)
  }

  predicate IsRun(source: string, digit: char -> bool, i: nat, end: nat) {
    i <= end <= |source| && forall j :: i <= j < end ==> digit(source[j])
  }

  /** The language of the first part of the patterns, however many digits it takes. */
  ghost predicate MatchesMantissa(source: string, digit: char -> bool, start: nat, end: nat) {
    || (exists whole: nat :: start < whole && IsRun(source, digit, start, whole)
          && (end == whole || (TakesPoint(source, whole) && IsRun(source, digit, whole + 1, end))))
    || (Has(source, start, '.') && start + 1 < end && IsRun(source, digit, start + 1, end))
  }

  ghost predicate MatchesExponent(source: string, lower: char, upper: char, i: nat, end: nat) {
    || end == i
    || ((Has(source, i, lower) || Has(source, i, upper))
        && exists digits: nat ::
             (digits == i + 1 || (digits == i + 2 && (Has(source, i + 1, '+') || Has(source, i + 1, '-'))))
             && digits < end && IsRun(source, IsDigit, digits, end))
  }

  ghost predicate MatchesHex(source: string, start: nat, end: nat) {
    HasHexPrefix(source, start)
    && exists m: nat :: MatchesMantissa(source, IsHex, start + 2, m) && MatchesExponent(source, 'p', 'P', m, end)
  }

  ghost predicate MatchesDecimal(source: string, start: nat, end: nat) {
    exists m: nat :: MatchesMantissa(source, IsDigit, start, m) && MatchesExponent(source, 'e', 'E', m, end)
  }

  /** The longest match of the hexadecimal pattern, or of the decimal one where the first has none. */
  ghost predicate IsNumberEnd(source: string, start: nat, end: nat) {
    if exists e: nat :: MatchesHex(source, start, e)
    then MatchesHex(source, start, end) && forall e: nat :: MatchesHex(source, start, e) ==> e <= end
    else MatchesDecimal(source, start, end) && forall e: nat :: MatchesDecimal(source, start, e) ==> e <= end
  }

  /** A shorter first part stops before a digit or a point, where no exponent starts. */
  lemma MantissaIsLongest(source: string, digit: char -> bool, start: nat, end: nat)
    requires start <= |source| && MatchesMantissa(source, digit, start, end)
    ensures var r := MantissaEnd(source, digit, start);
            r.Some? && end <= r.value && (end < r.value ==> digit(source[end]) || source[end] == '.')
  {
  }

  lemma MantissaMatches(source: string, digit: char -> bool, start: nat)
    requires start <= |source| && MantissaEnd(source, digit, start).Some?
    ensures MatchesMantissa(source, digit, start, MantissaEnd(source, digit, start).value)
  {
    assert IsRun(source, digit, start, RunEnd(source, digit, start));
  }

  lemma ExponentIsLongest(source: string, lower: char, upper: char, i: nat, end: nat)
    requires i <= |source| && !IsDigit(lower) && !IsDigit(upper) && MatchesExponent(source, lower, upper, i, end)
    ensures end <= ExponentEnd(source, i, lower, upper)
  {
  }

  lemma ExponentMatches(source: string, lower: char, upper: char, i: nat)
    requires i <= |source|
    ensures MatchesExponent(source, lower, upper, i, ExponentEnd(source, i, lower, upper))
  {
    var digits := if Has(source, i + 1, '+') || Has(source, i + 1, '-') then i + 2 else i + 1;
    if ExponentEnd(source, i, lower, upper) > i {
      assert IsRun(source, IsDigit, digits, ExponentEnd(source, i, lower, upper));
    }
  }

  lemma HexBounds(source: string, start: nat, e: nat)
    requires MatchesHex(source, start, e)
    ensures HexNumberLength(source, start) > 0 && e <= start + HexNumberLength(source, start)
  {
    var m: nat :| MatchesMantissa(source, IsHex, start + 2, m) && MatchesExponent(source, 'p', 'P', m, e);
    HexBoundsVia(source, start, m, e);
  }

  lemma HexBoundsVia(source: string, start: nat, m: nat, e: nat)
    requires HasHexPrefix(source, start)
    requires MatchesMantissa(source, IsHex, start + 2, m) && MatchesExponent(source, 'p', 'P', m, e)
    ensures HexNumberLength(source, start) > 0 && e <= start + HexNumberLength(source, start)
  {
    MantissaIsLongest(source, IsHex, start + 2, m);
    ExponentIsLongest(source, 'p', 'P', m, e);
  }

  lemma HexMatches(source: string, start: nat)
    requires HexNumberLength(source, start) > 0
    ensures MatchesHex(source, start, start + HexNumberLength(source, start))
  {
    MantissaMatches(source, IsHex, start + 2);
    ExponentMatches(source, 'p', 'P', MantissaEnd(source, IsHex, start + 2).value);
  }

  lemma DecimalBounds(source: string, start: nat, e: nat)
    requires MatchesDecimal(source, start, e)
    ensures DecimalNumberLength(source, start) > 0 && e <= start + DecimalNumberLength(source, start)
  {
    var m: nat :| MatchesMantissa(source, IsDigit, start, m) && MatchesExponent(source, 'e', 'E', m, e);
    MantissaIsLongest(source, IsDigit, start, m);
    ExponentIsLongest(source, 'e', 'E', m, e);
  }

  lemma DecimalMatches(source: string, start: nat)
    requires DecimalNumberLength(source, start) > 0
    ensures MatchesDecimal(source, start, start + DecimalNumberLength(source, start))
  {
    MantissaMatches(source, IsDigit, start);
    ExponentMatches(source, 'e', 'E', MantissaEnd(source, IsDigit, start).value);
  }

  /** The greedy match of either pattern is its longest one. */
  lemma NumberIsLongest(source: string, start: nat, end: nat)
    requires NumberLength(source, start) > 0 && end == start + NumberLength(source, start)
    ensures IsNumberEnd(source, start, end)
  {
    if HexNumberLength(source, start) > 0 {
      HexIsLongest(source, start);
    } else {
      HexIsLongest(source, start);
      DecimalIsLongest(source, start);
    }
  }

  lemma HexIsLongest(source: string, start: nat)
    ensures forall e: nat :: MatchesHex(source, start, e) ==>
              HexNumberLength(source, start) > 0 && e <= start + HexNumberLength(source, start)
    ensures HexNumberLength(source, start) > 0 ==> MatchesHex(source, start, start + HexNumberLength(source, start))
  {
    forall e: nat | MatchesHex(source, start, e)
      ensures HexNumberLength(source, start) > 0 && e <= start + HexNumberLength(source, start)
    {
      HexBounds(source, start, e);
    }
    if HexNumberLength(source, start) > 0 {
      HexMatches(source, start);
    }
  }

  lemma DecimalIsLongest(source: string, start: nat)
    requires DecimalNumberLength(source, start) > 0
    ensures forall e: nat :: MatchesDecimal(source, start, e) ==> e <= start + DecimalNumberLength(source, start)
    ensures MatchesDecimal(source, start, start + DecimalNumberLength(source, start))
  {
    forall e: nat | MatchesDecimal(source, start, e) ensures e <= start + DecimalNumberLength(source, start) {
      DecimalBounds(source, start, e);
    }
    DecimalMatches(source, start);
  }

  /** Without a length neither pattern matches at all. */
  lemma NoLengthNoNumber(source: string, start: nat, e: nat)
    requires NumberLength(source, start) == 0
    ensures !MatchesHex(source, start, e) && !MatchesDecimal(source, start, e)
  {
    if MatchesHex(source, start, e) {
      HexBounds(source, start, e);
    } else if MatchesDecimal(source, start, e) {
      DecimalBounds(source, start, e);
    }
  }

  predicate StartsNumber(source: string, i: nat)
    requires i < |source|
  {
    IsDigit(source[i])
    || (source[i] == '.' && !(i > 0 && source[i - 1] == '.') && i + 1 < |source| && IsDigit(source[i + 1]))
  }

  function NameEnd(source: string, i: nat): (end: nat)
    requires i <= |source|
    ensures i <= end <= |source|
    ensures forall j :: i <= j < end ==> ContinuesName(source[j])
    ensures end < |source| ==> !ContinuesName(source[end])
    decreases |source| - i
  {
    if i < |source| && ContinuesName(source[i]) then NameEnd(source, i + 1) else i
  }

  function NameScope(name: string): Option<Scope> {
    if name in KEYWORDS then Some(Keyword)
    else if name in LITERALS then Some(Literal)
    else if name in BUILT_INS then Some(BuiltIn)
    else None
  }

  function LineEnd(source: string, i: nat): (end: nat)
    requires i <= |source|
    ensures i <= end <= |source|
  {
    var newline := IndexOf(source, "\n", i);
    if newline.Some? then newline.value else |source|
  }

  /** One lexeme: how it is styled, if at all, and where it ends. */
  datatype Lexeme = Lexeme(scope: Option<Scope>, end: nat)

  /** The lexeme at the cursor; it is never empty. */
  function Lex(source: string, cursor: nat): (lexeme: Lexeme)
    requires cursor < |source|
    ensures cursor < lexeme.end <= |source|
  {
    var c := source[cursor];
    if c == '-' && Has(source, cursor + 1, '-') then
      (var long := LongBracketEnd(source, cursor + 2);
       Lexeme(Some(Comment), if long.Some? then long.value else LineEnd(source, cursor + 2)))
    else if c == '"' || c == '\'' then Lexeme(Some(Str), QuotedEnd(source, cursor))
    else if c == '[' && LongBracketEnd(source, cursor).Some? then
      Lexeme(Some(Str), LongBracketEnd(source, cursor).value)
    else if StartsNumber(source, cursor) && NumberLength(source, cursor) > 0 then
      Lexeme(Some(Num), cursor + NumberLength(source, cursor))
    else if StartsName(c) then
      (var end := NameEnd(source, cursor + 1);
       Lexeme(NameScope(source[cursor..end]), end))
    else Lexeme(None, cursor + 1)
  }

  /** The token a lexeme makes, if it is styled. */
  function Styled(lexeme: Lexeme, cursor: nat): seq<Token> {
    if lexeme.scope.Some? then [Token(lexeme.scope.value, cursor, lexeme.end)] else []
  }

  /** The styled lexemes from the cursor on. */
  function TokensFrom(source: string, cursor: nat): seq<Token>
    requires cursor <= |source|
    decreases |source| - cursor
  {
    if cursor == |source| then []
    else
      var lexeme := Lex(source, cursor);
      Styled(lexeme, cursor) + TokensFrom(source, lexeme.end)
  }

  // ----- the loops -----

  method FindLongBracketEnd(source: string, start: nat) returns (r: Option<nat>)
    ensures r == LongBracketEnd(source, start)
    ensures r.Some? <==> OpensSome(source, start)
    ensures r.Some? ==> IsLongBracketEnd(source, start, r.value)
  {
    LongBracketEndIs(source, start);
    if !Has(source, start, '[') {
      return None;
    }
    var cursor := start + 1;
    while Has(source, cursor, '=')
      invariant cursor <= |source| && EqualsEnd(source, cursor) == EqualsEnd(source, start + 1)
      decreases |source| - cursor
    {
      cursor := cursor + 1;
    }
    if !Has(source, cursor, '[') {
      return None;
    }
    var closing := "]" + source[start + 1..cursor] + "]";
    var closingIndex := IndexOf(source, closing, cursor + 1);
    r := if closingIndex.None? then Some(|source|) else Some(closingIndex.value + |closing|);
  }

  /** The walk that skips each escaped character finds the first quote that is not escaped. */
  method FindQuotedEnd(source: string, start: nat) returns (end: nat)
    requires start < |source| && source[start] in ['"', '\'']
    ensures IsQuotedEnd(source, start, end)
  {
    var quote := source[start];
    var cursor := start + 1;
    while cursor < |source|
      invariant start < cursor
      invariant cursor < |source| ==> Backslashes(source, start + 1, cursor) % 2 == 0
      invariant forall i :: start < i < cursor ==> !ClosesQuote(source, start, i)
      decreases |source| - cursor
    {
      if source[cursor] == '\\' {
        assert Backslashes(source, start + 1, cursor + 1) == Backslashes(source, start + 1, cursor) + 1;
        cursor := cursor + 2;
      } else if source[cursor] == quote {
        return cursor + 1;
      } else {
        cursor := cursor + 1;
      }
    }
    end := |source|;
  }

  method FindNameEnd(source: string, start: nat) returns (end: nat)
    requires start < |source|
    ensures end == NameEnd(source, start + 1)
  {
    end := start + 1;
    while end < |source| && ContinuesName(source[end])
      invariant end <= |source| && NameEnd(source, end) == NameEnd(source, start + 1)
      decreases |source| - end
    {
      end := end + 1;
    }
  }

  /** The branches of the lexer's loop body. */
  method NextLexeme(source: string, cursor: nat) returns (lexeme: Lexeme)
    requires cursor < |source|
    ensures lexeme == Lex(source, cursor)
  {
    var current := source[cursor];
    if current == '-' && Has(source, cursor + 1, '-') {
      var longCommentEnd := FindLongBracketEnd(source, cursor + 2);
      return Lexeme(Some(Comment), if longCommentEnd.Some? then longCommentEnd.value else LineEnd(source, cursor + 2));
    }
    if current == '"' || current == '\'' {
      var end := FindQuotedEnd(source, cursor);
      QuotedEndIsUnique(source, cursor, end, QuotedEnd(source, cursor));
      return Lexeme(Some(Str), end);
    }
    if current == '[' {
      var longStringEnd := FindLongBracketEnd(source, cursor);
      if longStringEnd.Some? {
        return Lexeme(Some(Str), longStringEnd.value);
      }
    }
    var numberLength := if StartsNumber(source, cursor) then NumberLength(source, cursor) else 0;
    if numberLength > 0 {
      return Lexeme(Some(Num), cursor + numberLength);
    }
    if StartsName(current) {
      var end := FindNameEnd(source, cursor);
      return Lexeme(NameScope(source[cursor..end]), end);
    }
    lexeme := Lexeme(None, cursor + 1);
  }

  lemma ExtendsOrder(source: string, tokens: seq<Token>, t: Token)
    requires InOrder(tokens, |source|) && PlainStart(tokens) <= t.start < t.end <= |source|
    ensures InOrder(tokens + [t], |source|)
    ensures Render(source, tokens + [t])
         == Render(source, tokens) + Escape(source[PlainStart(tokens)..t.start]) + Wrap(t.scope, source[t.start..t.end])
  {
  }

  /** Appends the plain text since the last token, and the token. */
  method AppendToken(source: string, output: string, tokens: seq<Token>, t: Token) returns (html: string)
    requires InOrder(tokens, |source|) && PlainStart(tokens) <= t.start < t.end <= |source|
    requires output == Render(source, tokens)
    ensures InOrder(tokens + [t], |source|) && html == Render(source, tokens + [t])
  {
    var plainStart := PlainStart(tokens);
    html := output;
    ExtendsOrder(source, tokens, t);
    if t.start > plainStart {
      html := html + Escape(source[plainStart..t.start]);
    } else {
      SafeTextStays("", 0);
      assert source[plainStart..t.start] == "" && html + "" == html;
    }
    html := html + Wrap(t.scope, source[t.start..t.end]);
  }

  method TakeLexeme(source: string, cursor: nat) returns (lexeme: Lexeme)
    requires cursor < |source|
    ensures cursor < lexeme.end <= |source|
    ensures TokensFrom(source, cursor) == Styled(lexeme, cursor) + TokensFrom(source, lexeme.end)
  {
    lexeme := NextLexeme(source, cursor);
  }

  method Emit(source: string, cursor: nat, lexeme: Lexeme, output: string, tokens: seq<Token>)
    returns (html: string, more: seq<Token>)
    requires cursor < lexeme.end <= |source| && InOrder(tokens, |source|) && PlainStart(tokens) <= cursor
    requires output == Render(source, tokens)
    ensures more == tokens + Styled(lexeme, cursor)
    ensures InOrder(more, |source|) && PlainStart(more) <= lexeme.end && html == Render(source, more)
  {
    html, more := output, tokens;
    if lexeme.scope.Some? {
      var token := Token(lexeme.scope.value, cursor, lexeme.end);
      html := AppendToken(source, output, tokens, token);
      more := tokens + [token];
    }
  }

  method HighlightTokens(source: string) returns (output: string, tokens: seq<Token>)
    ensures tokens == TokensFrom(source, 0) && InOrder(tokens, |source|) && output == Render(source, tokens)
  {
    output, tokens := "", [];
    var cursor := 0;
    while cursor < |source|
      invariant cursor <= |source| && InOrder(tokens, |source|) && PlainStart(tokens) <= cursor
      invariant output == Render(source, tokens)
      invariant tokens + TokensFrom(source, cursor) == TokensFrom(source, 0)
      decreases |source| - cursor
    {
      var lexeme := TakeLexeme(source, cursor);
      Regroup(tokens, Styled(lexeme, cursor), TokensFrom(source, lexeme.end));
      output, tokens := Emit(source, cursor, lexeme, output, tokens);
      cursor := lexeme.end;
    }
  }

  lemma Regroup(a: seq<Token>, b: seq<Token>, c: seq<Token>)
    ensures a + (b + c) == a + b + c
  {
  }

  /**
   Nothing within the limit is lost or added: the tokens are exactly the styled lexemes, in order and apart,
   and the HTML shows the source's characters, each in the style of the token that covers it.
   */
  method HighlightLuaSource(source: string) returns (html: Option<string>, tokens: seq<Token>)
    ensures html.None? <==> |source| > MAX_SOURCE_LENGTH
    ensures html.Some? ==> tokens == TokensFrom(source, 0) && InOrder(tokens, |source|)
    ensures html.Some? ==> |Read(html.value, "")| == |source| && ShowsTokens(source, tokens, Read(html.value, ""))
  {
    if |source| > MAX_SOURCE_LENGTH {
      return None, [];
    }
    var output;
    output, tokens := HighlightTokens(source);
    var plain := source[PlainStart(tokens)..];
    html := Some(if plain != "" then output + Escape(plain) else output);
    FinishedShows(source, tokens, plain, output, html.value);
  }

  lemma FinishedShows(source: string, tokens: seq<Token>, plain: string, output: string, html: string)
    requires InOrder(tokens, |source|) && plain == source[PlainStart(tokens)..] && output == Render(source, tokens)
    requires html == if plain != "" then output + Escape(plain) else output
    ensures |Read(html, "")| == |source| && ShowsTokens(source, tokens, Read(html, ""))
  {
    RenderedShows(source, tokens);
    StyledTextShowsTokens(source, tokens);
    if plain != "" {
      PlainFollows(source, tokens, plain, output, StyledText(source, tokens));
    } else {
      AloneShows(output, StyledText(source, tokens));
    }
  }

  lemma PlainFollows(source: string, tokens: seq<Token>, plain: string, output: string, shown: seq<Shown>)
    requires InOrder(tokens, |source|) && plain == source[PlainStart(tokens)..]
    requires Shows(output, "", shown, "") && StyledIs(source, tokens, shown)
    ensures var all := Read(output + Escape(plain), ""); |all| == |source| && ShowsTokens(source, tokens, all)
  {
    EscapedShows(plain, "");
    ShowsConcat(output, "", shown, "", Escape(plain), InStyle(plain, ""), "");
    PlainIsAdded(source, tokens, shown, |source|);
    AloneShows(output + Escape(plain), shown + InStyle(plain, ""));
  }

  lemma AloneShows(html: string, shown: seq<Shown>)
    requires Shows(html, "", shown, "")
    ensures Read(html, "") == shown
  {
    assert html + "" == html && shown + Read("", "") == shown;
    assert Read(html + "", "") == shown + Read("", "");
  }

  // ----- what the tokens are -----

  /** A line comment ends before the first line break, or with the source. */
  ghost predicate IsLineEnd(source: string, from: nat, end: nat) {
    from <= end <= |source| && '\n' !in source[from..end] && (end == |source| || source[end] == '\n')
  }

  /** Each token is what its scope says from its first character to its end. */
  ghost predicate Fits(source: string, t: Token)
    requires t.start < t.end <= |source|
  {
    var text := source[t.start..t.end];
    match t.scope
    case Comment =>
      && OccursAt(source, "--", t.start)
      && (if OpensSome(source, t.start + 2) then IsLongBracketEnd(source, t.start + 2, t.end)
          else IsLineEnd(source, t.start + 2, t.end))
    case Str =>
      if source[t.start] == '[' then IsLongBracketEnd(source, t.start, t.end)
      else source[t.start] in ['"', '\''] && IsQuotedEnd(source, t.start, t.end)
    case Num => StartsNumber(source, t.start) && IsNumberEnd(source, t.start, t.end)
    case Keyword => text in KEYWORDS && IsWholeName(source, t.start, t.end)
    case Literal => text in LITERALS && IsWholeName(source, t.start, t.end)
    case BuiltIn => text in BUILT_INS && IsWholeName(source, t.start, t.end)
  }

  ghost predicate IsWholeName(source: string, start: nat, end: nat)
    requires start < end <= |source|
  {
    && StartsName(source[start]) && (forall j :: start <= j < end ==> ContinuesName(source[j]))
    && (end < |source| ==> !ContinuesName(source[end]))
  }

  ghost predicate AllFit(source: string, tokens: seq<Token>) {
    forall i :: 0 <= i < |tokens| ==> tokens[i].start < tokens[i].end <= |source| && Fits(source, tokens[i])
  }

  lemma CommentFits(source: string, start: nat)
    requires start + 2 <= |source| && OccursAt(source, "--", start)
    ensures var long := LongBracketEnd(source, start + 2);
            var end := if long.Some? then long.value else LineEnd(source, start + 2);
            Fits(source, Token(Comment, start, end))
  {
    LongBracketEndIs(source, start + 2);
    LineEndIs(source, start + 2);
  }

  lemma LongStringFits(source: string, start: nat)
    requires Has(source, start, '[') && LongBracketEnd(source, start).Some?
    ensures Fits(source, Token(Str, start, LongBracketEnd(source, start).value))
  {
    LongBracketEndIs(source, start);
  }

  lemma NameFits(source: string, start: nat)
    requires start < |source| && StartsName(source[start])
    ensures var end := NameEnd(source, start + 1);
            NameScope(source[start..end]).Some? ==> Fits(source, Token(NameScope(source[start..end]).value, start, end))
  {
  }

  lemma LexemeFits(source: string, cursor: nat)
    requires cursor < |source| && Lex(source, cursor).scope.Some?
    ensures Fits(source, Token(Lex(source, cursor).scope.value, cursor, Lex(source, cursor).end))
  {
    var t := Token(Lex(source, cursor).scope.value, cursor, Lex(source, cursor).end);
    match t.scope
    case Comment =>
      assert source[cursor..cursor + 2] == "--";
      CommentFits(source, cursor);
    case Str => if source[cursor] == '[' { LongStringFits(source, cursor); }
    case Num => NumberIsLongest(source, cursor, t.end);
    case _ => NameFits(source, cursor);
  }

  lemma LineEndIs(source: string, i: nat)
    requires i <= |source|
    ensures IsLineEnd(source, i, LineEnd(source, i))
  {
    var end := LineEnd(source, i);
    forall j | i <= j < end ensures source[j] != '\n' {
      assert !OccursAt(source, "\n", j);
      assert source[j..j + 1] == [source[j]];
    }
    if end < |source| {
      assert source[end] == source[end..end + 1][0];
    }
  }

  lemma {:induction false} TokensFit(source: string, cursor: nat)
    requires cursor <= |source|
    ensures AllFit(source, TokensFrom(source, cursor))
    decreases |source| - cursor
  {
    if cursor < |source| {
      var lexeme := Lex(source, cursor);
      TokensFit(source, lexeme.end);
      if lexeme.scope.Some? {
        LexemeFits(source, cursor);
        ConsFits(source, Token(lexeme.scope.value, cursor, lexeme.end), TokensFrom(source, lexeme.end));
      }
    }
  }

  lemma ConsFits(source: string, t: Token, rest: seq<Token>)
    requires t.start < t.end <= |source| && Fits(source, t) && AllFit(source, rest)
    ensures AllFit(source, [t] + rest)
  {
  }
}
