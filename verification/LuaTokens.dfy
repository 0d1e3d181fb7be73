/**
 What the lexer's tokens are, said without the lexer: a list of tokens that fit,
 such that nothing left plain asks for a token. Every source has exactly one.
 */
module LuaTokens {
  import opened HighlightedHtml
  import opened LuaHighlight
  import opened Options

  ghost predicate Covered(tokens: seq<Token>, i: nat) {
    exists n :: 0 <= n < |tokens| && Covers(tokens[n], i)
  }

  /** The place continues a name that is left plain. */
  ghost predicate GoesOn(source: string, tokens: seq<Token>, i: nat) {
    && 0 < i < |source| && ContinuesName(source[i - 1]) && ContinuesName(source[i])
    && !Covered(tokens, i - 1)
  }

  /** Nothing starts here that has a style: no comment, string or number, and no name with a meaning. */
  ghost predicate PlainAt(source: string, tokens: seq<Token>, i: nat)
    requires i < |source|
  {
    && source[i] != '"' && source[i] != '\'' && !OccursAt(source, "--", i) && !OpensSome(source, i)
    && (!GoesOn(source, tokens, i) ==>
          && !StartsNumber(source, i)
          && forall end :: i < end <= |source| && IsWholeName(source, i, end) ==>
               source[i..end] !in KEYWORDS && source[i..end] !in LITERALS && source[i..end] !in BUILT_INS)
  }

  /** Tokens in order that fit and start no plain name's middle; what they leave is plain. */
  ghost predicate Highlights(source: string, tokens: seq<Token>) {
    && InOrder(tokens, |source|) && AllFit(source, tokens)
    && (forall n :: 0 <= n < |tokens| ==> !GoesOn(source, tokens, tokens[n].start))
    && (forall i :: 0 <= i < |source| && !Covered(tokens, i) ==> PlainAt(source, tokens, i))
  }

  // ----- the lexeme at a place -----

  lemma WordsDiffer(text: string)
    ensures text in KEYWORDS ==> text !in LITERALS && text !in BUILT_INS
    ensures text in LITERALS ==> text !in BUILT_INS
  {
  }

  lemma NumberIsThere(source: string, i: nat)
    requires i < |source| && StartsNumber(source, i)
    ensures NumberLength(source, i) > 0
  {
  }

  lemma NumberEndIsUnique(source: string, start: nat, end: nat)
    requires IsNumberEnd(source, start, end)
    ensures NumberLength(source, start) > 0 && end == start + NumberLength(source, start)
  {
    if NumberLength(source, start) == 0 {
      NoLengthNoNumber(source, start, end);
    }
    NumberIsLongest(source, start, start + NumberLength(source, start));
  }

  lemma LongEndIsUnique(source: string, start: nat, end: nat)
    requires IsLongBracketEnd(source, start, end)
    ensures LongBracketEnd(source, start) == Some(end)
  {
    var level: nat :| OpensLong(source, start, level) && EndsLong(source, level, start + level + 2, end);
    LongBracketEndIs(source, start);
    LongEndsAgree(source, start, level, end, LongBracketEnd(source, start).value);
  }

  lemma LongEndsAgree(source: string, start: nat, level: nat, a: nat, b: nat)
    requires OpensLong(source, start, level) && EndsLong(source, level, start + level + 2, a)
    requires IsLongBracketEnd(source, start, b)
    ensures a == b
  {
    var other: nat :| OpensLong(source, start, other) && EndsLong(source, other, start + other + 2, b);
    LevelIsRun(source, start, level);
    LevelIsRun(source, start, other);
    FirstEnds(source, level, start + level + 2, a, b);
    FirstEnds(source, level, start + level + 2, b, a);
  }

  lemma FirstEnds(source: string, level: nat, from: nat, a: nat, b: nat)
    requires EndsLong(source, level, from, a) && EndsLong(source, level, from, b)
    ensures a <= b
  {
    if b < |source| {
      assert ClosesLong(source, level, b - level - 2);
    }
  }

  lemma LineEndIsUnique(source: string, from: nat, end: nat)
    requires IsLineEnd(source, from, end)
    ensures LineEnd(source, from) == end
  {
    LineEndIs(source, from);
    NoBreakBefore(source, from, end);
    NoBreakBefore(source, from, LineEnd(source, from));
  }

  lemma NoBreakBefore(source: string, from: nat, end: nat)
    requires IsLineEnd(source, from, end)
    ensures forall j :: from <= j < end ==> source[j] != '\n'
  {
    assert forall j :: from <= j < end ==> source[j] == source[from..end][j - from];
  }

  lemma NameEndIsUnique(source: string, start: nat, end: nat)
    requires start < end <= |source| && IsWholeName(source, start, end)
    ensures NameEnd(source, start + 1) == end
  {
  }

  /** A token that fits is the one the lexer makes of that place. */
  lemma FittingIsLexed(source: string, t: Token)
    requires t.start < t.end <= |source| && Fits(source, t)
    ensures Lex(source, t.start) == Lexeme(Some(t.scope), t.end)
  {
    match t.scope
    case Comment => CommentIsLexed(source, t);
    case Str => StringIsLexed(source, t);
    case Num => NumberEndIsUnique(source, t.start, t.end);
    case _ =>
      NameEndIsUnique(source, t.start, t.end);
      WordsDiffer(source[t.start..t.end]);
  }

  lemma CommentIsLexed(source: string, t: Token)
    requires t.start < t.end <= |source| && t.scope == Comment && Fits(source, t)
    ensures Lex(source, t.start) == Lexeme(Some(Comment), t.end)
  {
    assert source[t.start] == source[t.start..t.start + 2][0] && source[t.start + 1] == source[t.start..t.start + 2][1];
    LongBracketEndIs(source, t.start + 2);
    if OpensSome(source, t.start + 2) {
      LongEndIsUnique(source, t.start + 2, t.end);
    } else {
      LineEndIsUnique(source, t.start + 2, t.end);
    }
  }

  lemma StringIsLexed(source: string, t: Token)
    requires t.start < t.end <= |source| && t.scope == Str && Fits(source, t)
    ensures Lex(source, t.start) == Lexeme(Some(Str), t.end)
  {
    if source[t.start] == '[' {
      LongEndIsUnique(source, t.start, t.end);
    } else {
      QuotedEndIsUnique(source, t.start, t.end, QuotedEnd(source, t.start));
    }
  }

  /** What is styled at the start of a lexeme cannot be left plain. */
  lemma StyledIsNotPlain(source: string, tokens: seq<Token>, i: nat)
    requires i < |source| && Lex(source, i).scope.Some? && !GoesOn(source, tokens, i)
    ensures !PlainAt(source, tokens, i)
  {
    LongBracketEndIs(source, i);
    var end := Lex(source, i).end;
    match Lex(source, i).scope.value
    case Comment => assert source[i..i + 2] == "--";
    case Str =>
    case Num =>
    case _ => assert IsWholeName(source, i, end);
  }

  /** And what is not styled there is plain. */
  lemma UnstyledIsPlain(source: string, tokens: seq<Token>, i: nat)
    requires i < |source| && Lex(source, i).scope.None?
    ensures PlainAt(source, tokens, i)
  {
    LongBracketEndIs(source, i);
    if OccursAt(source, "--", i) {
      CommentFits(source, i);
    }
    if StartsNumber(source, i) {
      NumberIsThere(source, i);
    }
    forall end | i < end <= |source| && IsWholeName(source, i, end)
      ensures source[i..end] !in KEYWORDS && source[i..end] !in LITERALS && source[i..end] !in BUILT_INS
    {
      NameEndIsUnique(source, i, end);
    }
  }

  // ----- from place to place -----

  /** The lexer is at `cursor`, with `n` of the tokens behind it. */
  ghost predicate Reached(source: string, tokens: seq<Token>, cursor: nat, n: nat) {
    && n <= |tokens| && cursor <= |source| && InOrder(tokens, |source|)
    && (forall m :: 0 <= m < n ==> tokens[m].end <= cursor)
    && (forall m :: n <= m < |tokens| ==> cursor <= tokens[m].start)
    && !GoesOn(source, tokens, cursor)
  }

  /** Before the next token nothing is covered. */
  lemma NotYetCovered(source: string, tokens: seq<Token>, cursor: nat, n: nat, i: nat)
    requires Reached(source, tokens, cursor, n) && cursor <= i && (n < |tokens| ==> i < tokens[n].start)
    ensures !Covered(tokens, i)
  {
    forall k | 0 <= k < |tokens| ensures !Covers(tokens[k], i) {
      assert k > n ==> tokens[n].end <= tokens[k].start;
    }
  }

  /** Past a styled lexeme the next one starts a new name, if it starts one. */
  lemma PastToken(source: string, tokens: seq<Token>, cursor: nat, n: nat)
    requires Reached(source, tokens, cursor, n) && n < |tokens| && tokens[n].start == cursor
    ensures Reached(source, tokens, tokens[n].end, n + 1)
  {
    assert Covers(tokens[n], tokens[n].end - 1);
  }

  /** So does what follows a lexeme that is left plain: a name is read whole, and nothing else can go on. */
  lemma PastPlain(source: string, tokens: seq<Token>, cursor: nat, n: nat)
    requires cursor < |source| && Lex(source, cursor).scope.None? && Reached(source, tokens, cursor, n)
    requires forall m :: n <= m < |tokens| ==> Lex(source, cursor).end <= tokens[m].start
    ensures Reached(source, tokens, Lex(source, cursor).end, n)
  {
    if IsDigit(source[cursor]) {
      NumberIsThere(source, cursor);
    }
  }

  // ----- the tokens are these -----

  lemma {:induction false} TokensInOrder(source: string, cursor: nat)
    requires cursor <= |source|
    ensures InOrder(TokensFrom(source, cursor), |source|)
    ensures forall m :: 0 <= m < |TokensFrom(source, cursor)| ==> cursor <= TokensFrom(source, cursor)[m].start
    decreases |source| - cursor
  {
    if cursor < |source| {
      TokensInOrder(source, Lex(source, cursor).end);
    }
  }

  /** Of what the lexer still makes, nothing starts inside a plain name and nothing is missed. */
  lemma {:induction false} NothingIsMissed(source: string, tokens: seq<Token>, cursor: nat, n: nat)
    requires Reached(source, tokens, cursor, n) && tokens[n..] == TokensFrom(source, cursor)
    ensures forall m :: n <= m < |tokens| ==> !GoesOn(source, tokens, tokens[m].start)
    ensures forall i :: cursor <= i < |source| && !Covered(tokens, i) ==> PlainAt(source, tokens, i)
    decreases |source| - cursor
  {
    if cursor < |source| {
      var lexeme := Lex(source, cursor);
      var rest := TokensFrom(source, lexeme.end);
      TokensInOrder(source, lexeme.end);
      if lexeme.scope.Some? {
        assert tokens[n] == tokens[n..][0] && tokens[n + 1..] == tokens[n..][1..] == rest;
        PastToken(source, tokens, cursor, n);
        NothingIsMissed(source, tokens, lexeme.end, n + 1);
      } else {
        assert forall m :: n <= m < |tokens| ==> tokens[m] == tokens[n..][m - n];
        PastPlain(source, tokens, cursor, n);
        NothingIsMissed(source, tokens, lexeme.end, n);
        forall i | cursor <= i < lexeme.end ensures PlainAt(source, tokens, i) {
          PlainWithin(source, tokens, cursor, n, i);
        }
      }
    }
  }

  lemma PlainWithin(source: string, tokens: seq<Token>, cursor: nat, n: nat, i: nat)
    requires cursor < |source| && Lex(source, cursor).scope.None? && Reached(source, tokens, cursor, n)
    requires forall m :: n <= m < |tokens| ==> Lex(source, cursor).end <= tokens[m].start
    requires cursor <= i < Lex(source, cursor).end
    ensures PlainAt(source, tokens, i)
  {
    if i == cursor {
      UnstyledIsPlain(source, tokens, i);
    } else {
      NotYetCovered(source, tokens, cursor, n, i - 1);
      DashesStart(source, i);
    }
  }

  lemma DashesStart(source: string, i: nat)
    ensures OccursAt(source, "--", i) ==> source[i] == '-'
  {
    if OccursAt(source, "--", i) {
      assert source[i] == source[i..i + 2][0];
    }
  }

  /** Whoever highlights the source makes the lexer's tokens. */
  lemma {:induction false} OnlyTheseHighlight(source: string, tokens: seq<Token>, cursor: nat, n: nat)
    requires Highlights(source, tokens) && Reached(source, tokens, cursor, n)
    ensures tokens[n..] == TokensFrom(source, cursor)
    decreases |source| - cursor
  {
    if cursor < |source| {
      var lexeme := Lex(source, cursor);
      if n < |tokens| && tokens[n].start == cursor {
        FittingIsLexed(source, tokens[n]);
        PastToken(source, tokens, cursor, n);
        OnlyTheseHighlight(source, tokens, lexeme.end, n + 1);
        assert tokens[n..] == [tokens[n]] + tokens[n + 1..];
      } else {
        PlainHere(source, tokens, cursor, n);
        PastPlain(source, tokens, cursor, n);
        OnlyTheseHighlight(source, tokens, lexeme.end, n);
      }
    }
  }

  /** Where no token starts there is nothing to style, and none starts before the end of that lexeme. */
  lemma PlainHere(source: string, tokens: seq<Token>, cursor: nat, n: nat)
    requires Highlights(source, tokens) && Reached(source, tokens, cursor, n) && cursor < |source|
    requires n < |tokens| ==> tokens[n].start != cursor
    ensures Lex(source, cursor).scope.None?
    ensures forall m :: n <= m < |tokens| ==> Lex(source, cursor).end <= tokens[m].start
  {
    NotYetCovered(source, tokens, cursor, n, cursor);
    if Lex(source, cursor).scope.Some? {
      StyledIsNotPlain(source, tokens, cursor);
    }
    if n < |tokens| {
      NameIsLeftWhole(source, tokens, cursor, n);
    }
  }

  lemma NameIsLeftWhole(source: string, tokens: seq<Token>, cursor: nat, n: nat)
    requires Highlights(source, tokens) && Reached(source, tokens, cursor, n) && cursor < |source|
    requires n < |tokens| && tokens[n].start != cursor && Lex(source, cursor).scope.None?
    ensures Lex(source, cursor).end <= tokens[n].start
  {
    var start := tokens[n].start;
    NotYetCovered(source, tokens, cursor, n, start - 1);
    UnstyledGoesOn(source, cursor, start);
  }

  lemma UnstyledGoesOn(source: string, cursor: nat, i: nat)
    requires cursor < |source| && Lex(source, cursor).scope.None? && cursor < i
    ensures i < Lex(source, cursor).end ==> ContinuesName(source[i - 1]) && ContinuesName(source[i])
  {
  }

  /** The highlighter's tokens are the ones that fit and leave nothing to style: there is exactly one such list. */
  lemma TokensAreThese(source: string, tokens: seq<Token>)
    ensures Highlights(source, tokens) <==> tokens == TokensFrom(source, 0)
  {
    var lexed := TokensFrom(source, 0);
    TokensInOrder(source, 0);
    TokensFit(source, 0);
    NothingIsMissed(source, lexed, 0, 0);
    if Highlights(source, tokens) {
      OnlyTheseHighlight(source, tokens, 0, 0);
    }
  }
}
