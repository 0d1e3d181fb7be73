/**
 Plain values and the shared types of a Yjs document that hold them. A shape is the abstract value of a shared type:
 what it contains, and which objects and which characters it is made of. The predicates say what it means for a shape
 to hold a plain value, to need no edit, and to have kept what a peer may be holding on to.
 */
module SharedShapes {
  import opened Options
  import opened SharedText

  /** A JavaScript primitive that is not a string; `Other` numbers booleans and numbers up to `Object.is`. */
  datatype Scalar = Undefined | Null | Other(code: int)

  datatype Plain =
    | Primitive(scalar: Scalar)
    | Text(text: string)
    | List(items: seq<Plain>)
    | Object(entries: map<string, Plain>)

  datatype Shape =
    | Atom(scalar: Scalar)
    | TextShape(node: object, chars: seq<Stamped>)
    | ListShape(node: object, items: seq<Shape>)
    | MapShape(node: object, entries: map<string, Shape>)

  /** `value === undefined ? null : value`, in `createYValue`, and `value ?? null`, in `readYValue`. */
  function Settled(scalar: Scalar): (r: Scalar)
    ensures r != Undefined && (scalar != Undefined ==> r == scalar)
  {
    if scalar == Undefined then Null else scalar
  }

  /** `isCompatibleYValue`: the shared type there can be edited into the value. */
  predicate Compatible(s: Shape, v: Plain) {
    match v
    case Primitive(_) => s.Atom?
    case Text(_) => s.TextShape?
    case List(_) => s.ListShape?
    case Object(_) => s.MapShape?
  }

  // ----- reading -----

  /** `readYValue`, for a shape without unsafe keys. */
  function Content(s: Shape): Plain {
    match s
    case Atom(scalar) => Primitive(Settled(scalar))
    case TextShape(_, chars) => Text(Chars(chars))
    case ListShape(_, items) => List(Contents(items))
    case MapShape(_, entries) => Object(map key | key in entries :: Content(entries[key]))
  }

  function Contents(items: seq<Shape>): (r: seq<Plain>)
    ensures |r| == |items| && forall i :: 0 <= i < |r| ==> r[i] == Content(items[i])
  {
    if items == [] then [] else Contents(items[..|items| - 1]) + [Content(items[|items| - 1])]
  }

  const UNSAFE_KEYS: set<string> := {"__proto__", "prototype", "constructor"}

  predicate Readable(s: Shape) {
    match s
    case Atom(_) => true
    case TextShape(_, _) => true
    case ListShape(_, items) => forall i :: 0 <= i < |items| ==> Readable(items[i])
    case MapShape(_, entries) => forall key :: key in entries ==> key !in UNSAFE_KEYS && Readable(entries[key])
  }

  /** `readYValue`; it throws on an unsafe key. */
  function Read(s: Shape): Option<Plain> {
    if Readable(s) then Some(Content(s)) else None
  }

  /** What is left of a plain value once it was stored: nothing in it is undefined. */
  function SettledValue(v: Plain): Plain {
    match v
    case Primitive(scalar) => Primitive(Settled(scalar))
    case Text(_) => v
    case List(items) => List(SettledValues(items))
    case Object(entries) => Object(map key | key in entries :: SettledValue(entries[key]))
  }

  function SettledValues(items: seq<Plain>): (r: seq<Plain>)
    ensures |r| == |items| && forall i :: 0 <= i < |r| ==> r[i] == SettledValue(items[i])
  {
    if items == [] then [] else SettledValues(items[..|items| - 1]) + [SettledValue(items[|items| - 1])]
  }

  predicate SafeKeys(v: Plain) {
    match v
    case Primitive(_) => true
    case Text(_) => true
    case List(items) => forall i :: 0 <= i < |items| ==> SafeKeys(items[i])
    case Object(entries) => forall key :: key in entries ==> key !in UNSAFE_KEYS && SafeKeys(entries[key])
  }

  /** Undefined is stored and read as null, and nothing else is changed. */
  lemma OnlyUndefinedSettles(scalar: Scalar)
    ensures Settled(scalar) == if scalar == Undefined then Null else scalar
  {
  }

  /** A shared type can be edited into a value exactly if what it holds is a value of the same kind. */
  lemma CompatibleExactly(s: Shape, v: Plain)
    ensures Compatible(s, v) <==>
      match Content(s)
      case Primitive(_) => v.Primitive?
      case Text(_) => v.Text?
      case List(_) => v.List?
      case Object(_) => v.Object?
  {
  }

  // ----- holding a value -----

  /** The shape holds the value, up to an undefined that was stored as null. */
  predicate Holds(s: Shape, v: Plain)
    decreases v
  {
    match v
    case Primitive(scalar) => s.Atom? && (s.scalar == scalar || s.scalar == Settled(scalar))
    case Text(text) => s.TextShape? && Chars(s.chars) == text
    case List(items) => s.ListShape? && |s.items| == |items| && forall i :: 0 <= i < |items| ==> Holds(s.items[i], items[i])
    case Object(entries) =>
      && s.MapShape?
      && s.entries.Keys == entries.Keys
      && forall key :: key in entries && key in s.entries ==> Holds(s.entries[key], entries[key])
  }

  /**
   The shape needs no edit to hold the value. A scalar is compared with `Object.is`; in a map an undefined one reads
   like a missing key.
   */
  predicate Matches(s: Shape, v: Plain)
    decreases v
  {
    match v
    case Primitive(scalar) => s == Atom(scalar)
    case Text(text) => s.TextShape? && Chars(s.chars) == text
    case List(items) =>
      s.ListShape? && |s.items| == |items| && forall i :: 0 <= i < |items| ==> Matches(s.items[i], items[i])
    case Object(entries) =>
      && s.MapShape?
      && s.entries.Keys == entries.Keys
      && forall key :: key in entries && key in s.entries ==>
        s.entries[key] != Atom(Undefined) && Matches(s.entries[key], entries[key])
  }

  predicate Definite(v: Plain) {
    match v
    case Primitive(scalar) => scalar != Undefined
    case Text(_) => true
    case List(items) => forall i :: 0 <= i < |items| ==> Definite(items[i])
    case Object(entries) => forall key :: key in entries ==> Definite(entries[key])
  }

  predicate AllStored(s: Shape) {
    match s
    case Atom(scalar) => scalar != Undefined
    case TextShape(_, _) => true
    case ListShape(_, items) => forall i :: 0 <= i < |items| ==> AllStored(items[i])
    case MapShape(_, entries) => forall key :: key in entries ==> AllStored(entries[key])
  }

  /** Whoever reads a shape that holds a value reads that value, and is refused exactly for its unsafe keys. */
  lemma {:induction false} HeldValueIsRead(s: Shape, v: Plain)
    requires Holds(s, v)
    ensures Read(s) == if SafeKeys(v) then Some(SettledValue(v)) else None
    decreases v
  {
    match v
    case Primitive(_) =>
    case Text(_) =>
    case List(items) =>
      forall i | 0 <= i < |items|
        ensures Read(s.items[i]) == if SafeKeys(items[i]) then Some(SettledValue(items[i])) else None
      {
        HeldValueIsRead(s.items[i], items[i]);
      }
      if SafeKeys(v) {
        assert Contents(s.items) == SettledValues(items);
      }
    case Object(entries) =>
      forall key | key in entries
        ensures Read(s.entries[key]) == if SafeKeys(entries[key]) then Some(SettledValue(entries[key])) else None
      {
        HeldValueIsRead(s.entries[key], entries[key]);
        assert key in s.entries;
      }
      assert Readable(s) <==> SafeKeys(v) by {
        assert forall key :: key in s.entries <==> key in entries;
      }
      if SafeKeys(v) {
        assert Content(s).entries == SettledValue(v).entries;
      }
  }

  /** Writing back what was read needs no edit, exactly when nothing undefined is stored. */
  lemma {:induction false} ReadValueMatches(s: Shape)
    ensures Matches(s, Content(s)) <==> AllStored(s)
    decreases s
  {
    match s
    case Atom(_) =>
    case TextShape(_, _) =>
    case ListShape(_, items) =>
      forall i | 0 <= i < |items| ensures Matches(items[i], Content(items[i])) <==> AllStored(items[i]) {
        ReadValueMatches(items[i]);
      }
    case MapShape(_, entries) =>
      forall key | key in entries ensures Matches(entries[key], Content(entries[key])) <==> AllStored(entries[key]) {
        ReadValueMatches(entries[key]);
      }
      assert Content(s).entries.Keys == entries.Keys;
  }

  /** A shape that holds a value without anything undefined needs no further edit. */
  lemma {:induction false} HeldValueMatches(s: Shape, v: Plain)
    requires Holds(s, v) && Definite(v)
    ensures Matches(s, v)
    decreases v
  {
    match v
    case Primitive(_) =>
    case Text(_) =>
    case List(items) =>
      forall i | 0 <= i < |items| ensures Matches(s.items[i], items[i]) {
        HeldValueMatches(s.items[i], items[i]);
      }
    case Object(entries) =>
      forall key | key in entries ensures s.entries[key] != Atom(Undefined) && Matches(s.entries[key], entries[key]) {
        HeldValueMatches(s.entries[key], entries[key]);
      }
  }

  /** With something undefined in the value, it does: undefined is stored as null and compared as undefined. */
  lemma {:induction false} UndefinedIsWrittenAgain(s: Shape, v: Plain)
    requires Holds(s, v) && AllStored(s)
    ensures Matches(s, v) <==> Definite(v)
    decreases v
  {
    match v
    case Primitive(_) =>
    case Text(_) =>
    case List(items) =>
      forall i | 0 <= i < |items| ensures Matches(s.items[i], items[i]) <==> Definite(items[i]) {
        UndefinedIsWrittenAgain(s.items[i], items[i]);
      }
    case Object(entries) =>
      assert s.entries.Keys == entries.Keys;
      forall key | key in entries
        ensures s.entries[key] != Atom(Undefined) && (Matches(s.entries[key], entries[key]) <==> Definite(entries[key]))
      {
        assert key in s.entries.Keys;
        UndefinedIsWrittenAgain(s.entries[key], entries[key]);
      }
  }

  // ----- keeping what was there -----

  /**
   Every shared type of the old shape that is compatible with the value at its place, and that no incompatible one
   above it took along, is still there as the same object.
   */
  ghost predicate Keeps(before: Shape, after: Shape, v: Plain)
    decreases v
  {
    Compatible(before, v) ==>
      match v
      case Primitive(_) => true
      case Text(text) => after.TextShape? && after.node == before.node && EditedOnce(before.chars, after.chars, text)
      case List(items) =>
        && after.ListShape? && after.node == before.node
        && forall i :: 0 <= i < |items| && i < |before.items| && i < |after.items| ==>
          Keeps(before.items[i], after.items[i], items[i])
      case Object(entries) =>
        && after.MapShape? && after.node == before.node
        && forall key :: key in entries && key in before.entries && key in after.entries ==>
          Keeps(before.entries[key], after.entries[key], entries[key])
  }

  datatype Step = Index(index: nat) | Key(key: string)

  function ShapeAt(s: Shape, path: seq<Step>): Option<Shape>
    decreases |path|
  {
    if path == [] then Some(s)
    else match path[0]
      case Index(i) => if s.ListShape? && i < |s.items| then ShapeAt(s.items[i], path[1..]) else None
      case Key(k) => if s.MapShape? && k in s.entries then ShapeAt(s.entries[k], path[1..]) else None
  }

  /** The value takes the path, and old and new kind agree at every place on the way. */
  predicate CompatibleAlong(s: Shape, v: Plain, path: seq<Step>)
    decreases |path|
  {
    && Compatible(s, v)
    && (path != [] ==>
          match path[0]
          case Index(i) => v.List? && i < |s.items| && i < |v.items| && CompatibleAlong(s.items[i], v.items[i], path[1..])
          case Key(k) =>
            v.Object? && k in s.entries && k in v.entries && CompatibleAlong(s.entries[k], v.entries[k], path[1..]))
  }

  function NodeOf(s: Shape): Option<object> {
    if s.Atom? then None else Some(s.node)
  }

  /** A path along which the kinds agree leads to the same object before and after. */
  lemma {:induction false} KeptAlongPath(before: Shape, after: Shape, v: Plain, path: seq<Step>)
    requires Keeps(before, after, v) && Holds(after, v) && CompatibleAlong(before, v, path)
    ensures ShapeAt(before, path).Some? && ShapeAt(after, path).Some?
    ensures NodeOf(ShapeAt(before, path).value) == NodeOf(ShapeAt(after, path).value)
    decreases |path|
  {
    if path != [] {
      match path[0]
      case Index(i) => KeptAlongPath(before.items[i], after.items[i], v.items[i], path[1..]);
      case Key(k) => KeptAlongPath(before.entries[k], after.entries[k], v.entries[k], path[1..]);
    }
  }

  /** And where it leads to a text, the start that the old and the new text share is still made of the same characters. */
  lemma {:induction false} TextKeptAlongPath(
      before: Shape, after: Shape, v: Plain, path: seq<Step>, b: Shape, a: Shape, n: nat)
    requires Keeps(before, after, v) && Holds(after, v) && CompatibleAlong(before, v, path)
    requires ShapeAt(before, path) == Some(b) && ShapeAt(after, path) == Some(a) && b.TextShape? && a.TextShape?
    requires n <= |b.chars| && n <= |a.chars| && Chars(b.chars)[..n] == Chars(a.chars)[..n]
    ensures a.chars[..n] == b.chars[..n]
    decreases |path|
  {
    if path == [] {
      CommonStartIsKept(b.chars, a.chars, v.text, n);
    } else {
      match path[0]
      case Index(i) => TextKeptAlongPath(before.items[i], after.items[i], v.items[i], path[1..], b, a, n);
      case Key(k) => TextKeptAlongPath(before.entries[k], after.entries[k], v.entries[k], path[1..], b, a, n);
    }
  }

  // ----- what reading refuses -----

  predicate IsUnsafe(key: string) {
    key == "__proto__" || key == "prototype" || key == "constructor"
  }

  lemma UnsafeKeysAre(key: string)
    ensures key in UNSAFE_KEYS <==> IsUnsafe(key)
  {
  }

  /** Somewhere in the shape, at the end of this path, a map has an unsafe key. */
  predicate UnsafeAt(s: Shape, path: seq<Step>, key: string) {
    && key in UNSAFE_KEYS
    && var found := ShapeAt(s, path);
       found.Some? && found.value.MapShape? && key in found.value.entries
  }

  lemma {:induction false} UnreadableHasPath(s: Shape) returns (path: seq<Step>, key: string)
    requires !Readable(s)
    ensures UnsafeAt(s, path, key)
    decreases s
  {
    match s
    case ListShape(_, items) =>
      var i :| 0 <= i < |items| && !Readable(items[i]);
      var rest;
      rest, key := UnreadableHasPath(items[i]);
      path := [Index(i)] + rest;
      assert path[1..] == rest;
    case MapShape(_, entries) =>
      var k :| k in entries && (k in UNSAFE_KEYS || !Readable(entries[k]));
      if k in UNSAFE_KEYS {
        path, key := [], k;
      } else {
        var rest;
        rest, key := UnreadableHasPath(entries[k]);
        path := [Key(k)] + rest;
        assert path[1..] == rest;
      }
  }

  lemma {:induction false} UnsafePathIsUnreadable(s: Shape, path: seq<Step>, key: string)
    requires UnsafeAt(s, path, key)
    ensures !Readable(s)
    decreases |path|
  {
    if path != [] {
      match path[0]
      case Index(i) => UnsafePathIsUnreadable(s.items[i], path[1..], key);
      case Key(k) => UnsafePathIsUnreadable(s.entries[k], path[1..], key);
    }
  }

  /** Reading is refused exactly if some map at any depth has an unsafe key. */
  lemma ReadingIsRefusedExactly(s: Shape)
    ensures Read(s) == None <==> exists path, key :: UnsafeAt(s, path, key)
  {
    if !Readable(s) {
      var path, key := UnreadableHasPath(s);
    }
    if path, key :| UnsafeAt(s, path, key) {
      UnsafePathIsUnreadable(s, path, key);
    }
  }
}
