/**
 Identifiers of a database block: trimming and cutting, making them unique
 despite the cut, and the alias tables that say which canonical id an id of
 the stored document means.
 */
module DatabaseIds {
  import opened Options

  type Id = string

  const ID_LENGTH: nat := 64

  const UNSAFE_IDS: set<Id> := {"__proto__", "constructor", "prototype"}

  // ----- safe ids -----

  /** The characters that `trim` removes. */
  predicate IsSpace(c: char) {
    var n := c as int;
    9 <= n <= 13 || n == 32 || n == 160 || n == 5760 || 8192 <= n <= 8202 || n == 8232 || n == 8233
    || n == 8239 || n == 8287 || n == 12288 || n == 65279
  }

  function TrimStart(s: string): (r: string)
    ensures r == "" || !IsSpace(r[0])
    ensures |r| <= |s| && r == s[|s| - |r|..]
  {
    if s != "" && IsSpace(s[0]) then TrimStart(s[1..]) else s
  }

  function TrimEnd(s: string): (r: string)
    ensures r == "" || !IsSpace(r[|r| - 1])
    ensures |r| <= |s| && r == s[..|r|]
  {
    if s != "" && IsSpace(s[|s| - 1]) then TrimEnd(s[..|s| - 1]) else s
  }

  function Trim(s: string): string {
    TrimEnd(TrimStart(s))
  }

  function Cut(s: string): (r: string)
    ensures |r| <= ID_LENGTH && r <= s
  {
    if |s| <= ID_LENGTH then s else s[..ID_LENGTH]
  }

  /** `value` is absent when the stored value is not a string. */
  function SafeId(value: Option<string>, fallback: string): (id: Id)
    ensures |id| <= ID_LENGTH && id !in UNSAFE_IDS
  {
    var id := if value.Some? then Cut(Trim(value.value)) else "";
    if id != "" && id !in UNSAFE_IDS then id
    else
      var fallbackId := Cut(fallback);
      if fallbackId !in UNSAFE_IDS then fallbackId else ""
  }

  predicate UsesFallbackId(value: Option<string>) {
    var id := if value.Some? then Cut(Trim(value.value)) else "";
    id == "" || id in UNSAFE_IDS
  }

  /** An id that normalization leaves as it is. */
  predicate IsStable(id: Id) {
    id != "" && |id| <= ID_LENGTH && id !in UNSAFE_IDS && !IsSpace(id[0]) && !IsSpace(id[|id| - 1])
  }

  lemma TrimKeepsStable(id: Id)
    requires id != "" && !IsSpace(id[0]) && !IsSpace(id[|id| - 1])
    ensures Trim(id) == id
  {
  }

  /**
   Trimming comes before cutting, so the cut itself may end in whitespace. A
   second normalization changes the id exactly then.
   */
  lemma SafeIdTwice(value: string, fallback: string)
    requires Trim(value) != "" && Cut(Trim(value)) !in UNSAFE_IDS && Cut(fallback) != Cut(Trim(value))
    ensures SafeId(Some(SafeId(Some(value), fallback)), fallback) == SafeId(Some(value), fallback) <==>
      |Trim(value)| <= ID_LENGTH || !IsSpace(Trim(value)[ID_LENGTH - 1])
  {
    var id := Cut(Trim(value));
    CutOfTrimmed(value);
    if !IsSpace(id[|id| - 1]) {
      TrimKeepsStable(id);
    }
  }

  /** A cut trimmed text starts without whitespace, and trimming it again changes it if it ends in some. */
  lemma CutOfTrimmed(value: string)
    requires Trim(value) != ""
    ensures var id := Cut(Trim(value));
      && id != "" && !IsSpace(id[0])
      && (IsSpace(id[|id| - 1]) <==> |Trim(value)| > ID_LENGTH && IsSpace(Trim(value)[ID_LENGTH - 1]))
      && (IsSpace(id[|id| - 1]) ==> |Trim(id)| < |id|)
  {
  }

  // ----- unique ids -----

  function Digit(n: nat): char
    requires n < 10
  {
    ('0' as int + n) as char
  }

  function Decimal(n: nat): (s: string)
    ensures s != "" && '-' !in s
    decreases n
  {
    if n < 10 then [Digit(n)] else Decimal(n / 10) + [Digit(n % 10)]
  }

  lemma {:induction false} DecimalIsInjective(a: nat, b: nat)
    requires Decimal(a) == Decimal(b)
    ensures a == b
    decreases a
  {
    var s := Decimal(a);
    assert s[|s| - 1] == Digit(a % 10) && s[|s| - 1] == Digit(b % 10);
    if a >= 10 && b >= 10 {
      assert s[..|s| - 1] == Decimal(a / 10) && s[..|s| - 1] == Decimal(b / 10);
      DecimalIsInjective(a / 10, b / 10);
    }
  }

  /** The k-th candidate: the prefix, cut so that the suffix still fits. */
  function Candidate(prefix: string, k: nat): (id: Id) {
    var suffix := "-" + Decimal(k);
    var room := if |suffix| <= ID_LENGTH then ID_LENGTH - |suffix| else 0;
    (if |prefix| <= room then prefix else prefix[..room]) + suffix
  }

  lemma CandidateShape(prefix: string, k: nat)
    ensures var c := Candidate(prefix, k);
      && |c| > |Decimal(k)| && c[|c| - |Decimal(k)|..] == Decimal(k) && c[|c| - |Decimal(k)| - 1] == '-'
  {
  }

  /** Cutting the prefix never makes two candidates equal: the digits behind the last dash differ. */
  lemma CandidatesDiffer(prefix: string, j: nat, k: nat)
    requires Candidate(prefix, j) == Candidate(prefix, k)
    ensures j == k
  {
    var c, a, b := Candidate(prefix, j), Decimal(j), Decimal(k);
    CandidateShape(prefix, j);
    CandidateShape(prefix, k);
    assert |a| < |b| ==> '-' in b;
    assert |b| < |a| ==> '-' in a;
    DecimalIsInjective(j, k);
  }

  /** The first candidate from the k-th on that is not taken; `left` are the taken ids not tried yet. */
  function FirstFree(prefix: string, left: set<Id>, k: nat): Id
    decreases |left|
  {
    var c := Candidate(prefix, k);
    if c !in left then c else FirstFree(prefix, left - {c}, k + 1)
  }

  function UniqueId(value: string, seen: set<Id>, prefix: string): Id {
    if Cut(value) !in seen then Cut(value) else FirstFree(prefix, seen, 1)
  }

  /** One of the candidates before the k-th. */
  ghost predicate Tried(prefix: string, id: Id, k: nat) {
    exists j: nat :: j < k && id == Candidate(prefix, j)
  }

  lemma NotTriedYet(prefix: string, k: nat)
    ensures !Tried(prefix, Candidate(prefix, k), k)
  {
    forall j: nat | j < k ensures Candidate(prefix, j) != Candidate(prefix, k) {
      if Candidate(prefix, j) == Candidate(prefix, k) { CandidatesDiffer(prefix, j, k); }
    }
  }

  lemma {:induction false} FirstFreeIsFree(prefix: string, seen: set<Id>, left: set<Id>, k: nat)
    requires left <= seen && forall id :: id in seen && id !in left ==> Tried(prefix, id, k)
    ensures FirstFree(prefix, left, k) !in seen
    ensures exists j: nat :: FirstFree(prefix, left, k) == Candidate(prefix, j)
    decreases |left|
  {
    var c := Candidate(prefix, k);
    NotTriedYet(prefix, k);
    if c in left {
      FirstFreeIsFree(prefix, seen, left - {c}, k + 1);
    }
  }

  lemma UniqueIdIsFresh(value: string, seen: set<Id>, prefix: string)
    ensures UniqueId(value, seen, prefix) !in seen
    ensures UniqueId(value, seen, prefix) == Cut(value)
      || exists k: nat :: UniqueId(value, seen, prefix) == Candidate(prefix, k)
  {
    if Cut(value) in seen { FirstFreeIsFree(prefix, seen, seen, 1); }
  }

  /** The loop ends because every failed attempt used up one of finitely many taken ids. */
  method MakeUniqueId(value: string, seen: set<Id>, prefix: string) returns (id: Id, taken: set<Id>)
    ensures id == UniqueId(value, seen, prefix) && id !in seen && taken == seen + {id}
  {
    id := Cut(value);
    var attempt: nat := 1;
    ghost var left := seen;
    while id in seen
      invariant attempt >= 1 && left <= seen
      invariant attempt == 1 ==> id == Cut(value) && left == seen
      invariant attempt > 1 ==> Cut(value) in seen && id == Candidate(prefix, attempt - 1)
      invariant attempt > 1 ==> FirstFree(prefix, left, attempt - 1) == FirstFree(prefix, seen, 1)
      invariant attempt > 1 ==> forall x :: x in seen && x !in left ==> Tried(prefix, x, attempt - 1)
      decreases |left|, if attempt == 1 then 1 else 0
    {
      if attempt > 1 {
        NotTriedYet(prefix, attempt - 1);
        left := left - {id};
      }
      id := Candidate(prefix, attempt);
      attempt := attempt + 1;
    }
    UniqueIdIsFresh(value, seen, prefix);
    taken := seen + {id};
  }

  // ----- lengths -----

  lemma {:induction false} FirstFreeIsEarly(prefix: string, left: set<Id>, k: nat) returns (j: nat)
    ensures k <= j <= k + |left| && FirstFree(prefix, left, k) == Candidate(prefix, j)
    decreases |left|
  {
    var c := Candidate(prefix, k);
    j := k;
    if c in left { j := FirstFreeIsEarly(prefix, left - {c}, k + 1); }
  }

  lemma SmallDecimals(k: nat)
    requires k <= 1000
    ensures |Decimal(k)| <= 4
  {
    if k >= 10 {
      assert |Decimal(k)| == |Decimal(k / 10)| + 1;
      if k / 10 >= 10 {
        assert |Decimal(k / 10)| == |Decimal(k / 100)| + 1;
        if k / 100 >= 10 { assert |Decimal(k / 100)| == |Decimal(k / 1000)| + 1; }
      }
    }
  }

  /** Within the capacity of a database block no id outgrows the cut. */
  lemma UniqueIdIsShort(value: string, seen: set<Id>, prefix: string)
    requires |seen| < 1000
    ensures |UniqueId(value, seen, prefix)| <= ID_LENGTH
  {
    if Cut(value) in seen {
      var j := FirstFreeIsEarly(prefix, seen, 1);
      SmallDecimals(j);
    }
  }

  // ----- a list of ids -----

  function SetOf(ids: seq<Id>): set<Id> {
    set id | id in ids
  }

  ghost predicate Distinct(ids: seq<Id>) {
    forall i, j :: 0 <= i < j < |ids| ==> ids[i] != ids[j]
  }

  /** The fallback id of the i-th item. */
  type Fallback = nat -> string

  /** The ids asked for, before they are made unique. */
  function Requests(sources: seq<Option<string>>, fallback: Fallback): (requests: seq<Id>)
    ensures |requests| == |sources|
    decreases |sources|
  {
    if sources == [] then []
    else
      var n := |sources| - 1;
      Requests(sources[..n], fallback) + [SafeId(sources[n], fallback(n))]
  }

  lemma {:induction false} RequestAt(sources: seq<Option<string>>, fallback: Fallback, i: nat)
    requires i < |sources|
    ensures Requests(sources, fallback)[i] == SafeId(sources[i], fallback(i))
    decreases |sources|
  {
    if i < |sources| - 1 { RequestAt(sources[..|sources| - 1], fallback, i); }
  }

  /** The canonical ids of a list of items, in order. */
  function Canonical(sources: seq<Option<string>>, fallback: Fallback): (ids: seq<Id>)
    ensures |ids| == |sources|
    decreases |sources|
  {
    if sources == [] then []
    else
      var n := |sources| - 1;
      var ids := Canonical(sources[..n], fallback);
      ids + [UniqueId(SafeId(sources[n], fallback(n)), SetOf(ids), fallback(n))]
  }

  method NormalizeIds(sources: seq<Option<string>>, fallback: Fallback) returns (ids: seq<Id>)
    ensures ids == Canonical(sources, fallback) && Distinct(ids)
  {
    ids := [];
    var seen: set<Id> := {};
    for i := 0 to |sources|
      invariant ids == Canonical(sources[..i], fallback) && seen == SetOf(ids) && Distinct(ids)
    {
      assert sources[..i + 1][..i] == sources[..i];
      var requested := SafeId(sources[i], fallback(i));
      var id;
      id, seen := MakeUniqueId(requested, seen, fallback(i));
      ids := ids + [id];
    }
    assert sources[..|sources|] == sources;
  }

  lemma {:induction false} CanonicalIsDistinct(sources: seq<Option<string>>, fallback: Fallback)
    ensures Distinct(Canonical(sources, fallback))
    decreases |sources|
  {
    if sources != [] {
      var n := |sources| - 1;
      var ids := Canonical(sources[..n], fallback);
      CanonicalIsDistinct(sources[..n], fallback);
      UniqueIdIsFresh(SafeId(sources[n], fallback(n)), SetOf(ids), fallback(n));
    }
  }

  function AsSources(ids: seq<Id>): (r: seq<Option<string>>)
    ensures |r| == |ids| && forall i :: 0 <= i < |ids| ==> r[i] == Some(ids[i])
  {
    if ids == [] then [] else AsSources(ids[..|ids| - 1]) + [Some(ids[|ids| - 1])]
  }

  ghost predicate AllStable(ids: seq<Id>) {
    forall i :: 0 <= i < |ids| ==> IsStable(ids[i])
  }

  /** Canonical ids are their own canonical ids, whatever the fallbacks are. */
  lemma {:induction false} CanonicalIsIdempotent(ids: seq<Id>, fallback: Fallback)
    requires Distinct(ids) && AllStable(ids)
    ensures Canonical(AsSources(ids), fallback) == ids
    decreases |ids|
  {
    if ids != [] {
      var n := |ids| - 1;
      CanonicalIsIdempotent(ids[..n], fallback);
      assert AsSources(ids)[..n] == AsSources(ids[..n]);
      assert ids[n] !in ids[..n];
    }
  }

  // ----- when ids are stable -----

  predicate NoSpaces(s: string) {
    forall i :: 0 <= i < |s| ==> !IsSpace(s[i])
  }

  /** An id without any whitespace that normalization leaves as it is. */
  ghost predicate IsClean(id: Id) {
    IsStable(id) && NoSpaces(id)
  }

  ghost predicate AllClean(ids: seq<Id>) {
    forall i :: 0 <= i < |ids| ==> IsClean(ids[i])
  }

  ghost predicate PlainText(fallback: string) {
    fallback != "" && NoSpaces(fallback) && Cut(fallback) !in UNSAFE_IDS
  }

  ghost predicate PlainFallback(fallback: Fallback) {
    forall i :: PlainText(fallback(i))
  }

  lemma UnsafeHasNoDash(id: Id)
    requires id in UNSAFE_IDS
    ensures '-' !in id
  {
  }

  lemma CandidateIsClean(prefix: string, k: nat)
    requires NoSpaces(prefix) && |Candidate(prefix, k)| <= ID_LENGTH
    ensures IsClean(Candidate(prefix, k))
  {
    var c := Candidate(prefix, k);
    CandidateShape(prefix, k);
    DecimalHasNoSpaces(k);
    assert '-' in c;
    if c in UNSAFE_IDS { UnsafeHasNoDash(c); }
  }

  lemma {:induction false} DecimalHasNoSpaces(n: nat)
    ensures NoSpaces(Decimal(n))
    decreases n
  {
    if n >= 10 { DecimalHasNoSpaces(n / 10); }
  }

  ghost predicate SpaceFree(sources: seq<Option<string>>) {
    forall i :: 0 <= i < |sources| && sources[i].Some? ==> NoSpaces(sources[i].value)
  }

  /** Without whitespace in the stored ids every canonical id is clean. */
  lemma {:induction false} CanonicalIsClean(sources: seq<Option<string>>, fallback: Fallback)
    requires |sources| < 1000 && PlainFallback(fallback) && SpaceFree(sources)
    ensures AllClean(Canonical(sources, fallback))
    decreases |sources|
  {
    if sources != [] {
      var n := |sources| - 1;
      var ids := Canonical(sources[..n], fallback);
      CanonicalIsClean(sources[..n], fallback);
      assert PlainText(fallback(n));
      SetOfIsSmall(ids);
      UniqueIdIsClean(SafeId(sources[n], fallback(n)), SetOf(ids), fallback(n));
    }
  }

  lemma UniqueIdIsClean(requested: Id, seen: set<Id>, prefix: string)
    requires IsClean(requested) && |seen| < 1000 && NoSpaces(prefix)
    ensures IsClean(UniqueId(requested, seen, prefix))
  {
    UniqueIdIsShort(requested, seen, prefix);
    UniqueIdIsFresh(requested, seen, prefix);
    var id := UniqueId(requested, seen, prefix);
    if id != requested {
      var k: nat :| id == Candidate(prefix, k);
      CandidateIsClean(prefix, k);
    }
  }

  lemma {:induction false} SetOfIsSmall(ids: seq<Id>)
    ensures |SetOf(ids)| <= |ids|
    decreases |ids|
  {
    if ids != [] {
      SetOfIsSmall(ids[1..]);
      assert SetOf(ids) == {ids[0]} + SetOf(ids[1..]);
    }
  }
}
