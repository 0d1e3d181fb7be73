/**
 The HTML of highlighted code, and what a browser shows of it: the characters
 that are left when tags are dropped and the five entities decoded, each in
 the style of the tag it stands under.
 */
module HighlightedHtml {

  // ----- escaping -----

  const ENTITY_COUNT: nat := 5

  /** The characters escaped, in the order the replacements are made. */
  function Special(k: nat): char
    requires k < ENTITY_COUNT
  {
    if k == 0 then '&' else if k == 1 then '<' else if k == 2 then '>' else if k == 3 then '"' else '\''
  }

  function Entity(k: nat): string
    requires k < ENTITY_COUNT
  {
    if k == 0 then "&amp;"
    else if k == 1 then "&lt;"
    else if k == 2 then "&gt;"
    else if k == 3 then "&quot;"
    else "&#039;"
  }

  /** `replace` with a global one-character pattern. */
  function ReplaceAll(s: string, c: char, entity: string): string {
    if s == "" then "" else (if s[0] == c then entity else [s[0]]) + ReplaceAll(s[1..], c, entity)
  }

  /** The replacements from the k-th on, one after the other over the whole text. */
  function EscapeFrom(s: string, k: nat): string
    decreases ENTITY_COUNT - k
  {
    if k >= ENTITY_COUNT then s else EscapeFrom(ReplaceAll(s, Special(k), Entity(k)), k + 1)
  }

  function Escape(s: string): string {
    EscapeFrom(s, 0)
  }

  /** What one character becomes. */
  function EscapedChar(c: char, k: nat): string
    decreases ENTITY_COUNT - k
  {
    if k >= ENTITY_COUNT then [c] else if c == Special(k) then Entity(k) else EscapedChar(c, k + 1)
  }

  lemma {:induction false} ReplaceConcat(a: string, b: string, c: char, entity: string)
    ensures ReplaceAll(a + b, c, entity) == ReplaceAll(a, c, entity) + ReplaceAll(b, c, entity)
  {
    if a == "" {
      assert a + b == b;
    } else {
      assert (a + b)[1..] == a[1..] + b;
      ReplaceConcat(a[1..], b, c, entity);
    }
  }

  lemma {:induction false} ReplaceNone(s: string, c: char, entity: string)
    requires c !in s
    ensures ReplaceAll(s, c, entity) == s
  {
    if s != "" { ReplaceNone(s[1..], c, entity); }
  }

  lemma ReplaceOne(c: char, entity: string)
    ensures ReplaceAll([c], c, entity) == entity
  {
  }

  lemma {:induction false} EscapeConcat(a: string, b: string, k: nat)
    ensures EscapeFrom(a + b, k) == EscapeFrom(a, k) + EscapeFrom(b, k)
    decreases ENTITY_COUNT - k
  {
    if k < ENTITY_COUNT {
      ReplaceConcat(a, b, Special(k), Entity(k));
      EscapeConcat(ReplaceAll(a, Special(k), Entity(k)), ReplaceAll(b, Special(k), Entity(k)), k + 1);
    }
  }

  lemma {:induction false} SafeTextStays(s: string, k: nat)
    requires forall j :: k <= j < ENTITY_COUNT ==> Special(j) !in s
    ensures EscapeFrom(s, k) == s
    decreases ENTITY_COUNT - k
  {
    if k < ENTITY_COUNT {
      ReplaceNone(s, Special(k), Entity(k));
      SafeTextStays(s, k + 1);
    }
  }

  /** The replacements one after the other act on each character once. */
  lemma {:induction false} EscapeOne(c: char, k: nat)
    ensures EscapeFrom([c], k) == EscapedChar(c, k)
    decreases ENTITY_COUNT - k
  {
    if k < ENTITY_COUNT {
      if c == Special(k) {
        ReplaceOne(c, Entity(k));
        assert forall j :: k + 1 <= j < ENTITY_COUNT ==> Special(j) !in Entity(k);
        SafeTextStays(Entity(k), k + 1);
      } else {
        ReplaceNone([c], Special(k), Entity(k));
        EscapeOne(c, k + 1);
      }
    }
  }

  // ----- reading the HTML back -----

  predicate StartsWith(s: string, prefix: string) {
    |prefix| <= |s| && s[..|prefix|] == prefix
  }

  /** What is left after the tag that starts the text. */
  function AfterTag(html: string): (rest: string)
    ensures |rest| <= |html| && (html != "" ==> |rest| < |html|)
  {
    if html == "" then "" else if html[0] == '>' then html[1..] else AfterTag(html[1..])
  }

  /** The number of the entity that starts the text, or the count of entities. */
  function EntityAt(html: string, k: nat): (r: nat)
    ensures r < ENTITY_COUNT ==> StartsWith(html, Entity(r))
    decreases ENTITY_COUNT - k
  {
    if k >= ENTITY_COUNT then ENTITY_COUNT else if StartsWith(html, Entity(k)) then k else EntityAt(html, k + 1)
  }

  /** A character as it is shown: under no tag the style is empty, and else it is the tag. */
  datatype Shown = Shown(c: char, style: string)

  const CLOSE_TAG: string := "</span>"

  /** The tag that starts the text. */
  function FirstTag(html: string): string {
    html[..|html| - |AfterTag(html)|]
  }

  /** What is shown: a tag sets the style of what follows, the five entities stand for their characters. */
  function Read(html: string, style: string): seq<Shown>
    decreases |html|
  {
    if html == "" then []
    else if html[0] == '<' then Read(AfterTag(html), if FirstTag(html) == CLOSE_TAG then "" else FirstTag(html))
    else
      var k := EntityAt(html, 0);
      if k < ENTITY_COUNT then [Shown(Special(k), style)] + Read(html[|Entity(k)|..], style)
      else [Shown(html[0], style)] + Read(html[1..], style)
  }

  /** A text in one style. */
  function InStyle(s: string, style: string): (shown: seq<Shown>)
    ensures |shown| == |s| && forall i :: 0 <= i < |s| ==> shown[i] == Shown(s[i], style)
  {
    if s == "" then [] else [Shown(s[0], style)] + InStyle(s[1..], style)
  }

  /** The entities differ in their second character, so each is recognized as itself. */
  lemma {:induction false} EntityIsFound(k: nat, rest: string, from: nat)
    requires from <= k < ENTITY_COUNT
    ensures EntityAt(Entity(k) + rest, from) == k
    decreases k - from
  {
    var html := Entity(k) + rest;
    if from < k {
      assert html[1] == Entity(k)[1];
      if StartsWith(html, Entity(from)) { assert html[..|Entity(from)|][1] == Entity(from)[1]; }
      EntityIsFound(k, rest, from + 1);
    }
  }

  lemma {:induction false} NoEntityWithoutAmp(html: string, k: nat)
    requires html != "" && html[0] != '&'
    ensures EntityAt(html, k) == ENTITY_COUNT
    decreases ENTITY_COUNT - k
  {
  }

  /** Read under the style `from` the HTML shows this, whatever follows, and what follows has the style `to`. */
  ghost predicate Shows(html: string, from: string, shown: seq<Shown>, to: string) {
    forall rest :: Read(html + rest, from) == shown + Read(rest, to)
  }

  lemma ShowsConcat(a: string, from: string, s: seq<Shown>, mid: string, b: string, t: seq<Shown>, to: string)
    requires Shows(a, from, s, mid) && Shows(b, mid, t, to)
    ensures Shows(a + b, from, s + t, to)
  {
    forall rest ensures Read((a + b) + rest, from) == (s + t) + Read(rest, to) {
      Associates(a, b, rest);
      Associates(s, t, Read(rest, to));
      assert Read(a + (b + rest), from) == s + Read(b + rest, mid);
    }
  }

  lemma Associates<T>(a: seq<T>, b: seq<T>, c: seq<T>)
    ensures (a + b) + c == a + (b + c)
  {
  }

  lemma ShowsNothing(style: string)
    ensures Shows("", style, [], style)
  {
    forall rest: string ensures Read("" + rest, style) == [] + Read(rest, style) {
      assert "" + rest == rest;
    }
  }

  lemma EntityShows(k: nat, style: string)
    requires k < ENTITY_COUNT
    ensures Shows(Entity(k), style, [Shown(Special(k), style)], style)
  {
    forall rest ensures Read(Entity(k) + rest, style) == [Shown(Special(k), style)] + Read(rest, style) {
      EntityIsFound(k, rest, 0);
      assert (Entity(k) + rest)[|Entity(k)|..] == rest;
    }
  }

  lemma PlainShows(c: char, style: string)
    requires c != '<' && c != '&'
    ensures Shows([c], style, [Shown(c, style)], style)
  {
    forall rest ensures Read([c] + rest, style) == [Shown(c, style)] + Read(rest, style) {
      NoEntityWithoutAmp([c] + rest, 0);
      assert ([c] + rest)[1..] == rest;
    }
  }

  lemma {:induction false} EscapedCharShows(c: char, k: nat, style: string)
    requires k <= ENTITY_COUNT && forall j :: 0 <= j < k ==> c != Special(j)
    ensures Shows(EscapedChar(c, k), style, [Shown(c, style)], style)
    decreases ENTITY_COUNT - k
  {
    if k == ENTITY_COUNT {
      assert c != Special(0) && c != Special(1);
      PlainShows(c, style);
    } else if c == Special(k) {
      EntityShows(k, style);
    } else {
      EscapedCharShows(c, k + 1, style);
    }
  }

  /** Escaped text shows the text, in the style it stands under. */
  lemma {:induction false} EscapedShows(s: string, style: string)
    ensures Shows(Escape(s), style, InStyle(s, style), style)
  {
    if s == "" {
      SafeTextStays("", 0);
      ShowsNothing(style);
    } else {
      EscapeConcat([s[0]], s[1..], 0);
      EscapeOne(s[0], 0);
      EscapedCharShows(s[0], 0, style);
      EscapedShows(s[1..], style);
      var first, others := Shown(s[0], style), InStyle(s[1..], style);
      ShowsConcat(EscapedChar(s[0], 0), style, [first], style, Escape(s[1..]), others, style);
      assert [s[0]] + s[1..] == s;
    }
  }

  lemma {:induction false} AfterTagConcat(tag: string, rest: string)
    requires tag != "" && tag[|tag| - 1] == '>' && '>' !in tag[..|tag| - 1]
    ensures AfterTag(tag + rest) == rest
    decreases |tag|
  {
    assert (tag + rest)[1..] == tag[1..] + rest;
    if |tag| > 1 {
      assert tag[0] == tag[..|tag| - 1][0];
      assert tag[1..][..|tag| - 2] == tag[..|tag| - 1][1..];
      AfterTagConcat(tag[1..], rest);
    }
  }

  /** A tag shows nothing itself. */
  lemma TagShows(tag: string, style: string)
    requires tag != "" && tag[0] == '<' && tag[|tag| - 1] == '>' && '>' !in tag[..|tag| - 1]
    ensures Shows(tag, style, [], if tag == CLOSE_TAG then "" else tag)
  {
    var to := if tag == CLOSE_TAG then "" else tag;
    forall rest ensures Read(tag + rest, style) == [] + Read(rest, to) {
      AfterTagConcat(tag, rest);
      assert FirstTag(tag + rest) == tag;
      assert [] + Read(rest, to) == Read(rest, to);
    }
  }

  // ----- tokens -----

  datatype Scope = Comment | Str | Num | Keyword | Literal | BuiltIn

  function ScopeName(scope: Scope): string {
    match scope
    case Comment => "comment"
    case Str => "string"
    case Num => "number"
    case Keyword => "keyword"
    case Literal => "literal"
    case BuiltIn => "built_in"
  }

  function OpenTag(scope: Scope): string {
    "<span class=\"hljs-" + ScopeName(scope) + "\">"
  }

  function Wrap(scope: Scope, s: string): string {
    OpenTag(scope) + Escape(s) + CLOSE_TAG
  }

  /** The style tells the scope. */
  lemma ScopesDiffer(a: Scope, b: Scope)
    requires OpenTag(a) == OpenTag(b)
    ensures a == b
  {
    var head, tail := "<span class=\"hljs-", "\">";
    assert OpenTag(a) == head + (ScopeName(a) + tail) && OpenTag(b) == head + (ScopeName(b) + tail);
    assert (head + (ScopeName(a) + tail))[|head|..] == ScopeName(a) + tail;
    assert (head + (ScopeName(b) + tail))[|head|..] == ScopeName(b) + tail;
    assert (ScopeName(a) + tail)[0] == ScopeName(a)[0] && (ScopeName(b) + tail)[0] == ScopeName(b)[0];
  }

  lemma OpenTagShows(scope: Scope)
    ensures OpenTag(scope) != "" && Shows(OpenTag(scope), "", [], OpenTag(scope))
  {
    var head, name := "<span class=\"hljs-", ScopeName(scope);
    assert OpenTag(scope) == head + name + "\">";
    assert '>' !in head && '>' !in name;
    var front := OpenTag(scope)[..|OpenTag(scope)| - 1];
    assert front == head + name + "\"";
    assert OpenTag(scope)[1] == head[1] && CLOSE_TAG[1] == '/';
    TagShows(OpenTag(scope), "");
  }

  /** A wrapped token shows its text in the style of its scope, and what follows has none. */
  lemma WrappedShows(scope: Scope, s: string)
    ensures Shows(Wrap(scope, s), "", InStyle(s, OpenTag(scope)), "")
  {
    OpenTagShows(scope);
    EscapedShows(s, OpenTag(scope));
    CloseTagShows(OpenTag(scope));
    BetweenTags(OpenTag(scope), Escape(s), CLOSE_TAG, InStyle(s, OpenTag(scope)), OpenTag(scope));
  }

  lemma CloseTagShows(style: string)
    ensures Shows(CLOSE_TAG, style, [], "")
  {
    assert '>' !in CLOSE_TAG[..|CLOSE_TAG| - 1];
    TagShows(CLOSE_TAG, style);
  }

  lemma BetweenTags(open: string, html: string, close: string, shown: seq<Shown>, style: string)
    requires Shows(open, "", [], style) && Shows(html, style, shown, style) && Shows(close, style, [], "")
    ensures Shows(open + html + close, "", shown, "")
  {
    ShowsConcat(open, "", [], style, html, shown, style);
    assert [] + shown == shown;
    ShowsConcat(open + html, "", shown, style, close, [], "");
    assert shown + [] == shown;
  }

  datatype Token = Token(scope: Scope, start: nat, end: nat)

  /** Tokens are not empty, lie in the source, and come in order without overlap. */
  ghost predicate InOrder(tokens: seq<Token>, length: nat) {
    && (forall i :: 0 <= i < |tokens| ==> tokens[i].start < tokens[i].end <= length)
    && (forall i, j :: 0 <= i < j < |tokens| ==> tokens[i].end <= tokens[j].start)
  }

  function PlainStart(tokens: seq<Token>): nat {
    if tokens == [] then 0 else tokens[|tokens| - 1].end
  }

  /** The HTML up to the end of the last token: its tokens wrapped, the text between them plain. */
  ghost function Render(source: string, tokens: seq<Token>): string
    requires InOrder(tokens, |source|)
  {
    if tokens == [] then ""
    else
      var front, last := tokens[..|tokens| - 1], tokens[|tokens| - 1];
      Render(source, front) + Escape(source[PlainStart(front)..last.start])
      + Wrap(last.scope, source[last.start..last.end])
  }

  ghost predicate Covers(t: Token, i: nat) {
    t.start <= i < t.end
  }

  /** The style of the token that covers the place, or none. */
  ghost predicate IsStyle(tokens: seq<Token>, i: nat, style: string) {
    && (forall n :: 0 <= n < |tokens| && Covers(tokens[n], i) ==> style == OpenTag(tokens[n].scope))
    && ((forall n :: 0 <= n < |tokens| ==> !Covers(tokens[n], i)) ==> style == "")
  }

  /** The source's characters in order, each in the style of the token that covers it, or in none. */
  ghost predicate ShowsTokens(source: string, tokens: seq<Token>, shown: seq<Shown>) {
    && |shown| <= |source|
    && forall i :: 0 <= i < |shown| ==> shown[i].c == source[i] && IsStyle(tokens, i, shown[i].style)
  }

  /** What the rendered tokens show. */
  ghost function StyledText(source: string, tokens: seq<Token>): (shown: seq<Shown>)
    requires InOrder(tokens, |source|)
  {
    if tokens == [] then []
    else
      var front, last := tokens[..|tokens| - 1], tokens[|tokens| - 1];
      StyledText(source, front) + InStyle(source[PlainStart(front)..last.start], "")
      + InStyle(source[last.start..last.end], OpenTag(last.scope))
  }

  lemma {:induction false} StyledTextShowsTokens(source: string, tokens: seq<Token>)
    requires InOrder(tokens, |source|)
    ensures StyledIs(source, tokens, StyledText(source, tokens))
    decreases |tokens|
  {
    if tokens == [] {
    } else {
      var front, last := tokens[..|tokens| - 1], tokens[|tokens| - 1];
      StyledTextGrows(source, tokens, front, last);
      StyledTextShowsTokens(source, front);
      PartIsAdded(source, tokens, front, last, StyledText(source, front), StyledText(source, tokens));
    }
  }

  /** This much of the source, up to the end of the last token. */
  ghost predicate StyledIs(source: string, tokens: seq<Token>, shown: seq<Shown>) {
    |shown| == PlainStart(tokens) && ShowsTokens(source, tokens, shown)
  }

  lemma StyledTextGrows(source: string, tokens: seq<Token>, front: seq<Token>, last: Token)
    requires InOrder(tokens, |source|) && tokens == front + [last]
    ensures InOrder(front, |source|) && PlainStart(front) <= last.start <= last.end <= |source|
    ensures StyledText(source, tokens)
         == StyledText(source, front) + InStyle(source[PlainStart(front)..last.start], "")
            + InStyle(source[last.start..last.end], OpenTag(last.scope))
  {
    assert tokens[..|tokens| - 1] == front && tokens[|front|] == last;
    assert forall n :: 0 <= n < |front| ==> tokens[n] == front[n];
  }

  lemma PartIsAdded(source: string, tokens: seq<Token>, front: seq<Token>, last: Token, shown: seq<Shown>, more: seq<Shown>)
    requires InOrder(front, |source|) && PlainStart(front) <= last.start <= last.end <= |source|
    requires tokens == front + [last] && StyledIs(source, front, shown)
    requires more == shown + InStyle(source[PlainStart(front)..last.start], "")
                     + InStyle(source[last.start..last.end], OpenTag(last.scope))
    ensures StyledIs(source, tokens, more)
  {
    EndsInOrder(front, |source|);
    PlainIsAdded(source, front, shown, last.start);
    TokenIsAdded(source, front, shown + InStyle(source[PlainStart(front)..last.start], ""), last);
  }

  lemma EndsInOrder(tokens: seq<Token>, length: nat)
    requires InOrder(tokens, length)
    ensures forall n :: 0 <= n < |tokens| ==> tokens[n].end <= PlainStart(tokens)
  {
  }

  /** Past the last token everything is plain. */
  lemma PlainIsAdded(source: string, tokens: seq<Token>, shown: seq<Shown>, end: nat)
    requires InOrder(tokens, |source|) && |shown| == PlainStart(tokens) <= end <= |source|
    requires ShowsTokens(source, tokens, shown)
    ensures ShowsTokens(source, tokens, shown + InStyle(source[PlainStart(tokens)..end], ""))
  {
    EndsInOrder(tokens, |source|);
    forall i | PlainStart(tokens) <= i < end ensures IsStyle(tokens, i, "") {
    }
  }

  lemma TokenIsAdded(source: string, tokens: seq<Token>, shown: seq<Shown>, last: Token)
    requires forall n :: 0 <= n < |tokens| ==> tokens[n].end <= last.start
    requires |shown| == last.start <= last.end <= |source| && ShowsTokens(source, tokens, shown)
    ensures ShowsTokens(source, tokens + [last], shown + InStyle(source[last.start..last.end], OpenTag(last.scope)))
  {
    var styled := InStyle(source[last.start..last.end], OpenTag(last.scope));
    forall i | 0 <= i < last.end
      ensures var c := (shown + styled)[i]; c.c == source[i] && IsStyle(tokens + [last], i, c.style)
    {
      if i < last.start {
        StyleStays(tokens, last, i, shown[i].style);
      } else {
        StyleIsNew(tokens, last, i);
      }
    }
  }

  lemma StyleStays(tokens: seq<Token>, last: Token, i: nat, style: string)
    requires IsStyle(tokens, i, style) && i < last.start
    ensures IsStyle(tokens + [last], i, style)
  {
    var more := tokens + [last];
    assert forall n :: 0 <= n < |tokens| ==> more[n] == tokens[n];
    assert more[|tokens|] == last;
  }

  lemma StyleIsNew(tokens: seq<Token>, last: Token, i: nat)
    requires (forall n :: 0 <= n < |tokens| ==> tokens[n].end <= last.start) && Covers(last, i)
    ensures IsStyle(tokens + [last], i, OpenTag(last.scope))
  {
    assert (tokens + [last])[|tokens|] == last;
  }

  /** Read as HTML the rendered tokens show the source up to the last one's end, each character in its token's style. */
  lemma {:induction false} RenderedShows(source: string, tokens: seq<Token>)
    requires InOrder(tokens, |source|)
    ensures Shows(Render(source, tokens), "", StyledText(source, tokens), "")
    decreases |tokens|
  {
    if tokens == [] {
      ShowsNothing("");
    } else {
      var front, last := tokens[..|tokens| - 1], tokens[|tokens| - 1];
      RenderedShows(source, front);
      var plain := source[PlainStart(front)..last.start];
      EscapedShows(plain, "");
      ShowsConcat(Render(source, front), "", StyledText(source, front), "", Escape(plain), InStyle(plain, ""), "");
      var token, style := source[last.start..last.end], OpenTag(last.scope);
      WrappedShows(last.scope, token);
      ShowsConcat(Render(source, front) + Escape(plain), "", StyledText(source, front) + InStyle(plain, ""), "",
                  Wrap(last.scope, token), InStyle(token, style), "");
    }
  }
}
