/**
 The shared types of a Yjs document, edited in place until they hold a given plain value. Every editing operation of
 a shared type is logged, so "no edit" can be told from "edited back".
 */
module SharedTypes {
  import opened SharedShapes
  import opened SharedText

  class Document {
    var edits: nat
    var clock: nat

    constructor ()
      ensures edits == 0 && clock == 0
    {
      edits, clock := 0, 0;
    }
  }

  datatype Kind = TextKind | ArrayKind | MapKind

  datatype Item = Value(scalar: Scalar) | Child(node: SharedType)

  /** A `Y.Text`, `Y.Array` or `Y.Map`. */
  class SharedType {
    const kind: Kind
    var text: seq<Stamped>
    var items: seq<Item>
    var entries: map<string, Item>
    ghost var repr: set<SharedType>
    ghost var shape: Shape

    /** Every object below belongs to one place: the children share no object with each other or with this one. */
    ghost predicate Valid()
      reads this, repr
      decreases repr
    {
      && this in repr
      && match kind
         case TextKind => shape == TextShape(this, text)
         case ArrayKind =>
           && shape.ListShape? && shape.node == this && |shape.items| == |items|
           && (forall i :: 0 <= i < |items| ==>
                 match items[i]
                 case Value(scalar) => shape.items[i] == Atom(scalar)
                 case Child(c) => c in repr && c.repr <= repr && this !in c.repr && c.Valid() && shape.items[i] == c.shape)
           && (forall i, j :: 0 <= i < j < |items| && items[i].Child? && items[j].Child? ==>
                 items[i].node.repr !! items[j].node.repr)
         case MapKind =>
           && shape.MapShape? && shape.node == this && shape.entries.Keys == entries.Keys
           && (forall k :: k in entries ==>
                 k in shape.entries
                 && match entries[k]
                    case Value(scalar) => shape.entries[k] == Atom(scalar)
                    case Child(c) => c in repr && c.repr <= repr && this !in c.repr && c.Valid() && shape.entries[k] == c.shape)
           && (forall k, l :: k in entries && l in entries && k != l && entries[k].Child? && entries[l].Child? ==>
                 entries[k].node.repr !! entries[l].node.repr)
    }

    /** Can be attached: a scalar, or a shared type that has no object in common with this one. */
    ghost predicate Attachable(item: Item)
      reads this, if item.Child? then {item.node} + item.node.repr else {}
    {
      item.Child? ==> item.node.Valid() && item.node.repr !! repr
    }

    constructor (kind: Kind)
      ensures Valid() && fresh(repr) && this.kind == kind
      ensures shape == match kind
                       case TextKind => TextShape(this, [])
                       case ArrayKind => ListShape(this, [])
                       case MapKind => MapShape(this, map[])
    {
      this.kind := kind;
      text, items, entries, repr := [], [], map[], {this};
      shape := Atom(Undefined);
      new;
      shape := match kind
               case TextKind => TextShape(this, [])
               case ArrayKind => ListShape(this, [])
               case MapKind => MapShape(this, map[]);
    }

    // ----- the editing operations of the shared types -----

    /** `text.delete(index, length)` */
    method DeleteText(doc: Document, index: nat, length: nat)
      requires Valid() && kind == TextKind && index + length <= |text|
      modifies this, doc
      ensures Valid() && repr == old(repr)
      ensures text == old(text)[..index] + old(text)[index + length..]
      ensures doc.edits == old(doc.edits) + 1 && doc.clock == old(doc.clock)
    {
      text := text[..index] + text[index + length..];
      doc.edits := doc.edits + 1;
      shape := TextShape(this, text);
    }

    /** `text.insert(index, value)` */
    method InsertText(doc: Document, index: nat, value: string)
      requires Valid() && kind == TextKind && index <= |text|
      modifies this, doc
      ensures Valid() && repr == old(repr)
      ensures text == old(text)[..index] + Typed(value, old(doc.clock)) + old(text)[index..]
      ensures doc.edits == old(doc.edits) + 1
    {
      text := text[..index] + Typed(value, doc.clock) + text[index..];
      doc.clock := doc.clock + |value|;
      doc.edits := doc.edits + 1;
      shape := TextShape(this, text);
    }

    /** `array.delete(index, length)` */
    method DeleteItems(doc: Document, index: nat, length: nat)
      requires Valid() && kind == ArrayKind && index + length <= |items|
      modifies this, doc
      ensures Valid() && repr == old(repr)
      ensures shape.items == old(shape.items)[..index] + old(shape.items)[index + length..]
      ensures doc.edits == old(doc.edits) + 1
    {
      items := items[..index] + items[index + length..];
      doc.edits := doc.edits + 1;
      shape := ListShape(this, shape.items[..index] + shape.items[index + length..]);
    }

    lemma InsertedApart(next: seq<Item>, index: nat, item: Item)
      requires Valid() && kind == ArrayKind && index <= |items| && Attachable(item)
      requires next == items[..index] + [item] + items[index..]
      ensures forall i :: 0 <= i < |next| ==> next[i] == if i < index then items[i] else if i == index then item else items[i - 1]
      ensures forall i, j :: 0 <= i < j < |next| && next[i].Child? && next[j].Child? ==> next[i].node.repr !! next[j].node.repr
    {
    }

    /** `array.insert(index, [item])` */
    method InsertItem(doc: Document, index: nat, item: Item)
      requires Valid() && kind == ArrayKind && index <= |items| && Attachable(item)
      modifies this, doc
      ensures Valid() && repr == old(repr) + ReprOf(item)
      ensures shape.items == old(shape.items)[..index] + [old(ShapeOf(item))] + old(shape.items)[index..]
      ensures doc.edits == old(doc.edits) + 1
    {
      var next := items[..index] + [item] + items[index..];
      InsertedApart(next, index, item);
      ghost var grown := shape.items[..index] + [ShapeOf(item)] + shape.items[index..];
      ghost var all := repr + ReprOf(item);
      doc.edits := doc.edits + 1;
      items, repr, shape := next, all, ListShape(this, grown);
    }

    /** `map.delete(key)` */
    method DeleteEntry(doc: Document, key: string)
      requires Valid() && kind == MapKind
      modifies this, doc
      ensures Valid() && repr == old(repr)
      ensures shape.entries == old(shape.entries) - {key}
      ensures doc.edits == old(doc.edits) + 1
    {
      entries := entries - {key};
      doc.edits := doc.edits + 1;
      shape := MapShape(this, shape.entries - {key});
    }

    /** `map.set(key, item)` */
    method SetEntry(doc: Document, key: string, item: Item)
      requires Valid() && kind == MapKind && Attachable(item)
      modifies this, doc
      ensures Valid() && repr == old(repr) + ReprOf(item)
      ensures shape.entries == old(shape.entries)[key := old(ShapeOf(item))]
      ensures doc.edits == old(doc.edits) + 1
    {
      entries := entries[key := item];
      doc.edits := doc.edits + 1;
      repr := repr + ReprOf(item);
      shape := MapShape(this, shape.entries[key := ShapeOf(item)]);
    }

    // ----- reconciling -----

    /** Deletes what is between the ends and types there. */
    method ReplaceBetween(doc: Document, prefix: nat, suffix: nat, insertValue: string)
      requires Valid() && kind == TextKind && prefix + suffix <= |text|
      modifies this, doc
      ensures Valid() && repr == old(repr)
      ensures text == Replaced(old(text), prefix, suffix, Typed(insertValue, old(doc.clock)))
      ensures doc.edits >= old(doc.edits)
      ensures doc.edits == old(doc.edits) <==> prefix + suffix == old(|text|) && insertValue == []
    {
      CutAndTyped(text, prefix, suffix, Typed(insertValue, doc.clock));
      var deleteLength := |text| - prefix - suffix;
      if deleteLength > 0 {
        DeleteText(doc, prefix, deleteLength);
      }
      if insertValue != [] {
        InsertText(doc, prefix, insertValue);
      }
    }

    /** `replaceYText`: cut the shared ends off and replace what is between them. */
    method ReplaceText(doc: Document, value: string)
      requires Valid() && kind == TextKind
      modifies this, doc
      ensures Valid() && repr == old(repr)
      ensures Chars(text) == value && EditedOnce(old(text), text, value)
      ensures doc.edits >= old(doc.edits) && (doc.edits == old(doc.edits) <==> Chars(old(text)) == value)
    {
      var current := Chars(text);
      if current == value {
        assert EditedBetween(text, text, value, |value|, 0);
        return;
      }
      var prefix, suffix := SharedLengths(current, value);
      var insertValue := value[prefix..|value| - suffix];
      ReplacedOnce(text, value, prefix, suffix, Typed(insertValue, doc.clock));
      ReplaceBetween(doc, prefix, suffix, insertValue);
    }

    /** The kind shows in the shape. */
    lemma ShapeHasKind()
      requires Valid()
      ensures match kind
              case TextKind => shape == TextShape(this, text)
              case ArrayKind => shape.ListShape? && shape.node == this && |shape.items| == |items|
              case MapKind => shape.MapShape? && shape.node == this && shape.entries.Keys == entries.Keys
    {
    }

    /** `array.delete(index, 1); array.insert(index, [createYValue(Y, value)])` */
    method ReplaceItem(doc: Document, index: nat, v: Plain)
      requires Valid() && kind == ArrayKind && index < |items|
      modifies this, doc
      ensures Valid() && fresh(repr - old(repr))
      ensures |shape.items| == |old(shape.items)| == old(|items|)
      ensures shape.items == old(shape.items)[index := shape.items[index]]
      ensures Holds(shape.items[index], v)
      ensures doc.edits > old(doc.edits)
      decreases v, 2
    {
      DeleteItems(doc, index, 1);
      var item := CreateItem(doc, v);
      InsertItem(doc, index, item);
      ReplacedAt(old(shape.items), index, ShapeOf(item));
    }

    /** `reconcileYValue` on the shared type at an index. */
    method EditItem(doc: Document, index: nat, v: Plain)
      requires Valid() && kind == ArrayKind && index < |items|
      requires items[index].Child? && CompatibleItem(items[index], v)
      modifies repr, doc
      ensures Valid() && fresh(repr - old(repr))
      ensures |shape.items| == |old(shape.items)| == old(|items|)
      ensures shape.items == old(shape.items)[index := shape.items[index]]
      ensures Holds(shape.items[index], v) && Keeps(old(shape.items)[index], shape.items[index], v)
      ensures doc.edits >= old(doc.edits)
      ensures doc.edits == old(doc.edits) <==> Matches(old(shape.items)[index], v)
      decreases v, 2
    {
      var node := items[index].node;
      node.Reconcile(doc, v);
      repr := repr + node.repr;
      shape := ListShape(this, shape.items[index := node.shape]);
    }

    /** One turn of the loop of `reconcileYArray`. */
    method PutItem(doc: Document, index: nat, v: Plain)
      requires Valid() && kind == ArrayKind && index <= |items|
      modifies repr, doc
      ensures Valid() && fresh(repr - old(repr))
      ensures |shape.items| == if index < old(|items|) then old(|items|) else index + 1
      ensures Others(old(shape.items), shape.items, index)
      ensures Holds(shape.items[index], v)
      ensures index < old(|items|) ==> Keeps(old(shape.items)[index], shape.items[index], v)
      ensures doc.edits >= old(doc.edits)
      ensures doc.edits == old(doc.edits) <==> index < old(|items|) && Matches(old(shape.items)[index], v)
      decreases v, 3
    {
      if index >= |items| {
        var item := CreateItem(doc, v);
        InsertItem(doc, index, item);
        return;
      }
      CompatibleItemShape(index, v);
      if !CompatibleItem(items[index], v) {
        ReplaceItem(doc, index, v);
        return;
      }
      match items[index]
      case Value(scalar) =>
        if scalar != v.scalar {
          ReplaceItem(doc, index, v);
        }
      case Child(_) => EditItem(doc, index, v);
    }

    lemma CompatibleItemShape(index: nat, v: Plain)
      requires Valid() && kind == ArrayKind && index < |items|
      ensures |shape.items| == |items| && (CompatibleItem(items[index], v) <==> Compatible(shape.items[index], v))
      ensures items[index].Value? ==> shape.items[index] == Atom(items[index].scalar)
    {
      if items[index].Child? {
        items[index].node.ShapeHasKind();
      }
    }

    /** `reconcileYValue` on a shared type that is compatible with the value. */
    method Reconcile(doc: Document, v: Plain)
      requires Valid() && CompatibleItem(Child(this), v)
      modifies repr, doc
      ensures Valid() && fresh(repr - old(repr))
      ensures Holds(shape, v) && Keeps(old(shape), shape, v)
      ensures doc.edits >= old(doc.edits)
      ensures doc.edits == old(doc.edits) <==> Matches(old(shape), v)
      decreases v, 1
    {
      match kind
      case TextKind => ReplaceText(doc, v.text);
      case ArrayKind => ReconcileArray(doc, v.items);
      case MapKind => ReconcileMap(doc, v.entries);
    }

    method ReconcileArray(doc: Document, next: seq<Plain>)
      requires Valid() && kind == ArrayKind
      modifies repr, doc
      ensures Valid() && fresh(repr - old(repr))
      ensures Holds(shape, List(next)) && Keeps(old(shape), shape, List(next))
      ensures doc.edits >= old(doc.edits)
      ensures doc.edits == old(doc.edits) <==> Matches(old(shape), List(next))
      decreases List(next), 0
    {
      ghost var before := shape.items;
      while |items| > |next|
        invariant Valid() && repr == old(repr)
        invariant |items| <= |before| && shape.items == before[..|items|]
        invariant |items| == |before| || |items| == |next|
        invariant doc.edits >= old(doc.edits) && (doc.edits == old(doc.edits) <==> |items| == |before|)
        decreases |items|
      {
        DeleteItems(doc, |next|, |items| - |next|);
      }
      ghost var cut := |items|;
      var index := 0;
      while index < |next|
        invariant Valid() && fresh(repr - old(repr))
        invariant index <= |next| && |items| == |shape.items| == if index < cut then cut else index
        invariant ListDone(before[..cut], shape.items, next, index)
        invariant doc.edits >= old(doc.edits)
        invariant doc.edits == old(doc.edits) <==> index <= cut == |before| && MatchesUpTo(before[..cut], next, index)
      {
        ghost var middle := shape.items;
        PutItem(doc, index, next[index]);
        ListDoneStep(before[..cut], middle, shape.items, next, index);
        index := index + 1;
      }
    }

    method PutEntry(doc: Document, key: string, v: Plain)
      requires Valid() && kind == MapKind
      modifies repr, doc
      ensures Valid() && fresh(repr - old(repr))
      ensures shape.entries.Keys == old(shape.entries).Keys + {key}
      ensures shape.entries == old(shape.entries)[key := shape.entries[key]]
      ensures Holds(shape.entries[key], v)
      ensures key in old(shape.entries) ==> Keeps(old(shape.entries)[key], shape.entries[key], v)
      ensures doc.edits >= old(doc.edits)
      ensures doc.edits == old(doc.edits) <==>
              key in old(shape.entries) && old(shape.entries)[key] != Atom(Undefined) && Matches(old(shape.entries)[key], v)
      decreases v, 3
    {
      if key !in entries || entries[key] == Value(Undefined) || !CompatibleItem(entries[key], v) {
        if key in entries {
          CompatibleEntryShape(key, v);
        }
        var item := CreateItem(doc, v);
        SetEntry(doc, key, item);
        return;
      }
      CompatibleEntryShape(key, v);
      match entries[key]
      case Value(scalar) =>
        if scalar != v.scalar {
          var item := CreateItem(doc, v);
          SetEntry(doc, key, item);
        }
      case Child(_) => EditEntry(doc, key, v);
    }

    method EditEntry(doc: Document, key: string, v: Plain)
      requires Valid() && kind == MapKind && key in entries
      requires entries[key].Child? && CompatibleItem(entries[key], v)
      modifies repr, doc
      ensures Valid() && fresh(repr - old(repr))
      ensures key in shape.entries && key in old(shape.entries)
      ensures shape.entries == old(shape.entries)[key := shape.entries[key]]
      ensures Holds(shape.entries[key], v) && Keeps(old(shape.entries)[key], shape.entries[key], v)
      ensures doc.edits >= old(doc.edits)
      ensures doc.edits == old(doc.edits) <==> Matches(old(shape.entries)[key], v)
      decreases v, 2
    {
      var node := entries[key].node;
      node.Reconcile(doc, v);
      repr, shape := repr + node.repr, MapShape(this, shape.entries[key := node.shape]);
    }

    lemma CompatibleEntryShape(key: string, v: Plain)
      requires Valid() && kind == MapKind && key in entries
      ensures key in shape.entries && (CompatibleItem(entries[key], v) <==> Compatible(shape.entries[key], v))
      ensures entries[key].Value? ==> shape.entries[key] == Atom(entries[key].scalar)
      ensures entries[key].Child? ==> !shape.entries[key].Atom?
    {
      if entries[key].Child? {
        entries[key].node.ShapeHasKind();
      }
    }

    method ReconcileMap(doc: Document, source: map<string, Plain>)
      requires Valid() && kind == MapKind
      modifies repr, doc
      ensures Valid() && fresh(repr - old(repr))
      ensures Holds(shape, Object(source)) && Keeps(old(shape), shape, Object(source))
      ensures doc.edits >= old(doc.edits)
      ensures doc.edits == old(doc.edits) <==> Matches(old(shape), Object(source))
      decreases Object(source), 0
    {
      ghost var before := shape;
      DropEntries(doc, source);
      ghost var cut := shape.entries;
      var todo := source.Keys;
      while todo != {}
        invariant Valid() && fresh(repr - old(repr)) && todo <= source.Keys
        invariant shape.entries.Keys == cut.Keys + (source.Keys - todo)
        invariant MapDone(cut, shape.entries, source, todo)
        invariant doc.edits >= old(doc.edits)
        invariant doc.edits == old(doc.edits) <==> before.entries.Keys <= source.Keys && MatchesOutside(cut, source, todo)
        decreases todo
      {
        var key :| key in todo;
        ghost var middle := shape.entries;
        PutEntry(doc, key, source[key]);
        MapDoneStep(cut, middle, shape.entries, source, todo, key);
        todo := todo - {key};
      }
      MapFinished(before, cut, shape, source);
    }

    method DropEntries(doc: Document, source: map<string, Plain>)
      requires Valid() && kind == MapKind
      modifies this, doc
      ensures Valid() && repr == old(repr)
      ensures Dropped(old(shape.entries), shape.entries, source)
      ensures doc.edits >= old(doc.edits)
      ensures doc.edits == old(doc.edits) <==> old(shape.entries).Keys <= source.Keys
    {
      ghost var before := shape.entries;
      var todo := entries.Keys;
      while todo != {}
        invariant Valid() && repr == old(repr)
        invariant forall key :: key in shape.entries <==> key in before && (key in source || key in todo)
        invariant forall key :: key in shape.entries && key in before ==> shape.entries[key] == before[key]
        invariant doc.edits >= old(doc.edits)
        invariant doc.edits == old(doc.edits) <==> forall key :: key in before ==> key in source || key in todo
        decreases todo
      {
        var key :| key in todo;
        if key !in source {
          DeleteEntry(doc, key);
        }
        todo := todo - {key};
      }
    }
  }

  lemma ReplacedAt(s: seq<Shape>, index: nat, x: Shape)
    requires index < |s|
    ensures var cut := s[..index] + s[index + 1..];
            cut[..index] + [x] + cut[index..] == s[index := x]
  {
  }

  /** Only the place itself differs. */
  predicate Others(before: seq<Shape>, after: seq<Shape>, index: nat) {
    forall i :: 0 <= i < |before| && i < |after| && i != index ==> after[i] == before[i]
  }

  /** The loop of `reconcileYArray` has reached the index. */
  ghost predicate ListDone(before: seq<Shape>, now: seq<Shape>, next: seq<Plain>, index: nat) {
    && index <= |next| && index <= |now| && |before| <= |now|
    && (forall i :: 0 <= i < index ==> Holds(now[i], next[i]))
    && (forall i :: 0 <= i < index && i < |before| ==> Keeps(before[i], now[i], next[i]))
    && (forall i :: index <= i < |before| ==> now[i] == before[i])
  }

  predicate MatchesUpTo(before: seq<Shape>, next: seq<Plain>, index: nat)
    requires index <= |next|
  {
    forall i :: 0 <= i < index && i < |before| ==> Matches(before[i], next[i])
  }

  lemma ListDoneStep(before: seq<Shape>, now: seq<Shape>, after: seq<Shape>, next: seq<Plain>, index: nat)
    requires ListDone(before, now, next, index) && index < |next|
    requires |after| == (if index < |now| then |now| else index + 1) && Others(now, after, index)
    requires Holds(after[index], next[index])
    requires index < |now| ==> Keeps(now[index], after[index], next[index])
    ensures ListDone(before, after, next, index + 1)
    ensures MatchesUpTo(before, next, index + 1)
       <==> MatchesUpTo(before, next, index) && (index < |before| ==> Matches(now[index], next[index]))
  {
  }

  /** The second loop of `reconcileYMap` has these keys left. */
  ghost predicate MapDone(before: map<string, Shape>, now: map<string, Shape>, source: map<string, Plain>, todo: set<string>)
  {
    && (forall key :: key in source && key !in todo && key in now ==> Holds(now[key], source[key]))
    && (forall key :: key in source && key !in todo && key in now && key in before ==> Keeps(before[key], now[key], source[key]))
    && (forall key :: key in todo ==> (key in now <==> key in before))
    && (forall key :: key in todo && key in now && key in before ==> now[key] == before[key])
  }

  predicate MatchesOutside(before: map<string, Shape>, source: map<string, Plain>, todo: set<string>) {
    forall key :: key in source && key !in todo ==>
      key in before && before[key] != Atom(Undefined) && Matches(before[key], source[key])
  }

  lemma MapDoneStep(before: map<string, Shape>, now: map<string, Shape>, after: map<string, Shape>,
                    source: map<string, Plain>, todo: set<string>, key: string)
    requires MapDone(before, now, source, todo) && key in todo && todo <= source.Keys
    requires key in after && after == now[key := after[key]] && Holds(after[key], source[key])
    requires key in now ==> Keeps(now[key], after[key], source[key])
    ensures MapDone(before, after, source, todo - {key})
    ensures MatchesOutside(before, source, todo - {key})
       <==> MatchesOutside(before, source, todo)
            && key in before && before[key] != Atom(Undefined) && Matches(before[key], source[key])
  {
    assert forall k :: k in source && k !in todo - {key} <==> k in source && (k !in todo || k == key);
  }

  /** The first loop of `reconcileYMap` leaves the entries whose key the source has. */
  ghost predicate Dropped(before: map<string, Shape>, after: map<string, Shape>, source: map<string, Plain>) {
    && (forall key :: key in after <==> key in before && key in source)
    && (forall key :: key in after && key in before ==> after[key] == before[key])
  }

  lemma MapFinished(before: Shape, cut: map<string, Shape>, after: Shape, source: map<string, Plain>)
    requires before.MapShape? && after.MapShape? && before.node == after.node
    requires Dropped(before.entries, cut, source) && MapDone(cut, after.entries, source, {})
    requires after.entries.Keys == cut.Keys + source.Keys
    ensures Holds(after, Object(source)) && Keeps(before, after, Object(source))
    ensures Matches(before, Object(source)) <==> before.entries.Keys <= source.Keys && MatchesOutside(cut, source, {})
  {
    assert after.entries.Keys == source.Keys;
    if before.entries.Keys <= source.Keys && MatchesOutside(cut, source, {}) {
      assert before.entries.Keys == source.Keys;
    }
  }

  /** `isCompatibleYValue` */
  predicate CompatibleItem(item: Item, v: Plain) {
    match v
    case Primitive(_) => item.Value?
    case Text(_) => item.Child? && item.node.kind == TextKind
    case List(_) => item.Child? && item.node.kind == ArrayKind
    case Object(_) => item.Child? && item.node.kind == MapKind
  }

  /** `createYValue` */
  method CreateItem(doc: Document, v: Plain) returns (item: Item)
    modifies doc
    ensures item.Child? ==> item.node.Valid() && fresh(item.node.repr)
    ensures Holds(ShapeOf(item), v) && AllStored(ShapeOf(item))
    ensures doc.edits >= old(doc.edits)
    decreases v, 1
  {
    match v
    case Primitive(scalar) => item := Value(if scalar == Undefined then Null else scalar);
    case Text(text) =>
      var node := CreateText(doc, text);
      item := Child(node);
    case List(values) =>
      var node := CreateArray(doc, values);
      item := Child(node);
    case Object(source) =>
      var node := CreateMap(doc, source);
      item := Child(node);
  }

  method CreateText(doc: Document, text: string) returns (node: SharedType)
    modifies doc
    ensures node.Valid() && fresh(node.repr) && Holds(node.shape, Text(text)) && AllStored(node.shape)
    ensures doc.edits >= old(doc.edits)
  {
    node := new SharedType(TextKind);
    if text != [] {
      node.InsertText(doc, 0, text);
      assert node.text == Typed(text, old(doc.clock));
    }
  }

  method CreateArray(doc: Document, values: seq<Plain>) returns (node: SharedType)
    modifies doc
    ensures node.Valid() && fresh(node.repr) && Holds(node.shape, List(values)) && AllStored(node.shape)
    ensures doc.edits >= old(doc.edits)
    decreases List(values), 0
  {
    node := new SharedType(ArrayKind);
    var index := 0;
    while index < |values|
      invariant node.Valid() && fresh(node.repr) && node.kind == ArrayKind
      invariant index <= |values| && |node.items| == |node.shape.items| == index
      invariant forall i :: 0 <= i < index ==> Holds(node.shape.items[i], values[i]) && AllStored(node.shape.items[i])
      invariant doc.edits >= old(doc.edits)
    {
      var item := CreateItem(doc, values[index]);
      node.InsertItem(doc, index, item);
      index := index + 1;
    }
  }

  method CreateMap(doc: Document, source: map<string, Plain>) returns (node: SharedType)
    modifies doc
    ensures node.Valid() && fresh(node.repr) && Holds(node.shape, Object(source)) && AllStored(node.shape)
    ensures doc.edits >= old(doc.edits)
    decreases Object(source), 0
  {
    node := new SharedType(MapKind);
    var todo := source.Keys;
    while todo != {}
      invariant node.Valid() && fresh(node.repr) && node.kind == MapKind && todo <= source.Keys
      invariant node.shape.entries.Keys == source.Keys - todo
      invariant forall key :: key in source && key in node.shape.entries ==>
                  Holds(node.shape.entries[key], source[key]) && AllStored(node.shape.entries[key])
      invariant doc.edits >= old(doc.edits)
      decreases todo
    {
      var key :| key in todo;
      var item := CreateItem(doc, source[key]);
      node.SetEntry(doc, key, item);
      todo := todo - {key};
    }
  }

  ghost function ReprOf(item: Item): set<SharedType>
    reads if item.Child? then {item.node} else {}
  {
    if item.Child? then item.node.repr else {}
  }

  ghost function ShapeOf(item: Item): Shape
    reads if item.Child? then {item.node} else {}
  {
    match item
    case Value(scalar) => Atom(scalar)
    case Child(node) => node.shape
  }
}
