/**
 Replacing the content of a shared text. `replaceYText` cuts the longest ends that old and new text share off and
 replaces what is between them, so a peer who types elsewhere keeps the characters around the caret.
 */
module SharedText {

  /** A character of a shared text is an item of its own: a character typed again has another stamp. */
  datatype Stamped = Stamped(letter: char, stamp: nat)

  function Chars(text: seq<Stamped>): (r: string)
    ensures |r| == |text| && forall i :: 0 <= i < |r| ==> r[i] == text[i].letter
  {
    if text == [] then [] else Chars(text[..|text| - 1]) + [text[|text| - 1].letter]
  }

  /** The items of newly typed characters. */
  function Typed(value: string, clock: nat): (r: seq<Stamped>)
    ensures |r| == |value| && Chars(r) == value
  {
    if value == [] then []
    else Typed(value[..|value| - 1], clock) + [Stamped(value[|value| - 1], clock + |value| - 1)]
  }

  /** New characters are new items: each has a stamp of its own, from the clock on. */
  lemma {:induction false} TypedIsNew(value: string, clock: nat, i: nat)
    requires i < |value|
    ensures Typed(value, clock)[i] == Stamped(value[i], clock + i)
    decreases |value|
  {
    if i < |value| - 1 { TypedIsNew(value[..|value| - 1], clock, i); }
  }

  /** A prefix and a suffix the two strings share; the suffix does not reach into the prefix. */
  predicate SharedEnds(a: string, b: string, prefix: nat, suffix: nat) {
    && prefix + suffix <= |a| && prefix + suffix <= |b|
    && a[..prefix] == b[..prefix]
    && a[|a| - suffix..] == b[|b| - suffix..]
  }

  /** Neither end can be made longer where it stands. */
  predicate WidestEnds(a: string, b: string, prefix: nat, suffix: nat) {
    && SharedEnds(a, b, prefix, suffix)
    && (prefix < |a| && prefix < |b| ==> a[prefix] != b[prefix])
    && (prefix + suffix < |a| && prefix + suffix < |b| ==> a[|a| - 1 - suffix] != b[|b| - 1 - suffix])
  }

  /** So no single replacement inside the text removes, or inserts, fewer characters. */
  lemma WidestEndsAreLargest(a: string, b: string, prefix: nat, suffix: nat, p: nat, s: nat)
    requires WidestEnds(a, b, prefix, suffix) && SharedEnds(a, b, p, s)
    ensures p + s <= prefix + suffix
  {
    forall k | 0 <= k < p ensures a[k] == b[k] {
      assert a[k] == a[..p][k] == b[..p][k] == b[k];
    }
    forall k | |a| - s <= k < |a| ensures a[k] == b[k - |a| + |b|] {
      assert a[k] == a[|a| - s..][k - |a| + s] == b[|b| - s..][k - |a| + s] == b[k - |a| + |b|];
    }
  }

  /** The text was edited in one place only, the smallest there is; the characters around it are the same items. */
  ghost predicate EditedOnce(before: seq<Stamped>, after: seq<Stamped>, text: string) {
    exists prefix: nat, suffix: nat :: EditedBetween(before, after, text, prefix, suffix)
  }

  predicate EditedBetween(before: seq<Stamped>, after: seq<Stamped>, text: string, prefix: nat, suffix: nat) {
    && WidestEnds(Chars(before), text, prefix, suffix)
    && |after| == |text|
    && after[..prefix] == before[..prefix]
    && after[|after| - suffix..] == before[|before| - suffix..]
  }

  /** The two loops of `replaceYText`. */
  method SharedLengths(current: string, next: string) returns (prefix: nat, suffix: nat)
    ensures WidestEnds(current, next, prefix, suffix)
  {
    prefix := 0;
    while prefix < |current| && prefix < |next| && current[prefix] == next[prefix]
      invariant prefix <= |current| && prefix <= |next| && current[..prefix] == next[..prefix]
    {
      prefix := prefix + 1;
    }
    suffix := 0;
    while suffix < |current| - prefix && suffix < |next| - prefix
          && current[|current| - 1 - suffix] == next[|next| - 1 - suffix]
      invariant prefix + suffix <= |current| && prefix + suffix <= |next|
      invariant current[|current| - suffix..] == next[|next| - suffix..]
    {
      assert current[|current| - 1 - suffix..] == [current[|current| - 1 - suffix]] + current[|current| - suffix..];
      assert next[|next| - 1 - suffix..] == [next[|next| - 1 - suffix]] + next[|next| - suffix..];
      suffix := suffix + 1;
    }
  }

  function Replaced(before: seq<Stamped>, prefix: nat, suffix: nat, typed: seq<Stamped>): seq<Stamped>
    requires prefix + suffix <= |before|
  {
    before[..prefix] + typed + before[|before| - suffix..]
  }

  /** Deleting between the ends and then typing there is one replacement. */
  lemma CutAndTyped(before: seq<Stamped>, prefix: nat, suffix: nat, typed: seq<Stamped>)
    requires prefix + suffix <= |before|
    ensures var cut := before[..prefix] + before[|before| - suffix..];
            && cut[..prefix] + typed + cut[prefix..] == Replaced(before, prefix, suffix, typed)
            && (prefix + suffix == |before| ==> cut == before)
            && (typed == [] ==> cut == Replaced(before, prefix, suffix, typed))
  {
    var cut := before[..prefix] + before[|before| - suffix..];
    assert cut[..prefix] == before[..prefix] && cut[prefix..] == before[|before| - suffix..];
  }

  lemma SplitIntoThree<T>(s: seq<T>, prefix: nat, suffix: nat)
    requires prefix + suffix <= |s|
    ensures s == s[..prefix] + s[prefix..|s| - suffix] + s[|s| - suffix..]
  {
  }

  lemma CharsConcatenate(a: seq<Stamped>, b: seq<Stamped>)
    ensures Chars(a + b) == Chars(a) + Chars(b)
  {
  }

  lemma CharsOfPrefix(text: seq<Stamped>, n: nat)
    requires n <= |text|
    ensures Chars(text[..n]) == Chars(text)[..n]
  {
  }

  lemma CharsOfSuffix(text: seq<Stamped>, n: nat)
    requires n <= |text|
    ensures Chars(text[n..]) == Chars(text)[n..]
  {
  }

  lemma ReplacedChars(before: seq<Stamped>, prefix: nat, suffix: nat, typed: seq<Stamped>)
    requires prefix + suffix <= |before|
    ensures Chars(Replaced(before, prefix, suffix, typed))
         == Chars(before)[..prefix] + Chars(typed) + Chars(before)[|before| - suffix..]
  {
    CharsConcatenate(before[..prefix], typed);
    CharsConcatenate(before[..prefix] + typed, before[|before| - suffix..]);
    CharsOfPrefix(before, prefix);
    CharsOfSuffix(before, |before| - suffix);
  }

  lemma ReplacedSpells(before: seq<Stamped>, value: string, prefix: nat, suffix: nat, typed: seq<Stamped>)
    requires WidestEnds(Chars(before), value, prefix, suffix) && Chars(typed) == value[prefix..|value| - suffix]
    ensures Chars(Replaced(before, prefix, suffix, typed)) == value
  {
    ReplacedChars(before, prefix, suffix, typed);
    SplitIntoThree(value, prefix, suffix);
  }

  lemma ReplacedBetween(before: seq<Stamped>, value: string, prefix: nat, suffix: nat, typed: seq<Stamped>)
    requires WidestEnds(Chars(before), value, prefix, suffix) && |typed| == |value| - prefix - suffix
    ensures EditedBetween(before, Replaced(before, prefix, suffix, typed), value, prefix, suffix)
  {
    var after := Replaced(before, prefix, suffix, typed);
    assert after[..prefix] == before[..prefix];
    assert after[|after| - suffix..] == before[|before| - suffix..];
  }

  lemma ReplacedOnce(before: seq<Stamped>, value: string, prefix: nat, suffix: nat, typed: seq<Stamped>)
    requires WidestEnds(Chars(before), value, prefix, suffix) && Chars(typed) == value[prefix..|value| - suffix]
    ensures Chars(Replaced(before, prefix, suffix, typed)) == value
    ensures EditedOnce(before, Replaced(before, prefix, suffix, typed), value)
  {
    ReplacedSpells(before, value, prefix, suffix, typed);
    ReplacedBetween(before, value, prefix, suffix, typed);
  }

  // ----- what an edit keeps -----

  /** However a text is edited once, the start it shares with the new text stays: the same items, not new ones. */
  lemma CommonStartIsKept(before: seq<Stamped>, after: seq<Stamped>, text: string, k: nat)
    requires EditedOnce(before, after, text) && k <= |before| && k <= |text| && Chars(before)[..k] == text[..k]
    ensures |after| == |text| && after[..k] == before[..k]
  {
    var prefix: nat, suffix: nat :| EditedBetween(before, after, text, prefix, suffix);
    StartIsWithin(Chars(before), text, prefix, suffix, k);
    PrefixesAgree(before, after, prefix, k);
  }

  lemma StartIsWithin(a: string, b: string, prefix: nat, suffix: nat, k: nat)
    requires WidestEnds(a, b, prefix, suffix) && k <= |a| && k <= |b| && a[..k] == b[..k]
    ensures k <= prefix
  {
    SamePrefixAgrees(a, b, k);
  }

  lemma SamePrefixAgrees(a: string, b: string, k: nat)
    requires k <= |a| && k <= |b| && a[..k] == b[..k]
    ensures forall j | 0 <= j < k :: a[j] == b[j]
  {
    forall j | 0 <= j < k ensures a[j] == b[j] {
      assert a[j] == a[..k][j] && b[j] == b[..k][j];
    }
  }

  lemma PrefixesAgree<T>(a: seq<T>, b: seq<T>, n: nat, k: nat)
    requires k <= n <= |a| && n <= |b| && a[..n] == b[..n]
    ensures a[..k] == b[..k]
  {
    assert a[..k] == a[..n][..k] && b[..k] == b[..n][..k];
  }

  /** And so does the end it shares behind the longest such start. */
  lemma CommonEndIsKept(before: seq<Stamped>, after: seq<Stamped>, text: string, start: nat, k: nat)
    requires EditedOnce(before, after, text) && SharedEnds(Chars(before), text, start, k)
    requires start < |before| && start < |text| ==> Chars(before)[start] != text[start]
    ensures |after| == |text| && after[|after| - k..] == before[|before| - k..]
  {
    var prefix: nat, suffix: nat :| EditedBetween(before, after, text, prefix, suffix);
    WidestEndsAreLargest(Chars(before), text, prefix, suffix, start, k);
    SameStart(Chars(before), text, prefix, suffix, start, k);
    SuffixesAgree(before, after, suffix, k);
  }

  lemma SameStart(a: string, b: string, prefix: nat, suffix: nat, start: nat, k: nat)
    requires WidestEnds(a, b, prefix, suffix) && SharedEnds(a, b, start, k)
    requires start < |a| && start < |b| ==> a[start] != b[start]
    ensures start == prefix
  {
    StartIsWithin(a, b, prefix, suffix, start);
    SamePrefixAgrees(a, b, prefix);
  }

  lemma SuffixesAgree<T>(a: seq<T>, b: seq<T>, n: nat, k: nat)
    requires k <= n <= |a| && n <= |b| && a[|a| - n..] == b[|b| - n..]
    ensures a[|a| - k..] == b[|b| - k..]
  {
    assert a[|a| - k..] == a[|a| - n..][n - k..] && b[|b| - k..] == b[|b| - n..][n - k..];
  }
}
