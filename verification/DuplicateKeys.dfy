/**
 The duplicate-name scanner: a mutable cursor over raw text that a full JSON
 parser has already accepted, and one method per kind of value. The ghost
 parameters are a parse of the text; they do not influence what is computed.
 */
module DuplicateKeys {
  import opened JsonScanner
  import opened JsonText
  import opened Options

  class Scanner {
    const raw: Text
    var index: nat

    constructor (raw: Text)
      ensures this.raw == raw && index == 0
    {
      this.raw := raw;
      index := 0;
    }

    method SkipWhitespace(ghost n: nat)
      requires BlankAt(raw, index, n) && !SpaceAt(raw, index + n)
      modifies this`index
      ensures index == old(index) + n
    {
      while SpaceAt(raw, index)
        invariant old(index) <= index <= old(index) + n
        invariant BlankAt(raw, index, old(index) + n - index)
        decreases |raw| - index
      {
        index := index + 1;
      }
    }

    /** Moves just past a string token and returns its decoded value. */
    method ScanString(ghost units: seq<Unit>) returns (name: Text)
      requires ValidUnits(units) && At(raw, index, PrintString(units))
      modifies this`index
      ensures index == old(index) + |PrintString(units)| && name == Decoded(units)
    {
      var start := index;
      StringEnds(raw, start, units);
      index := index + 1;
      while index < |raw| && raw[index] != QUOTE
        invariant EndOfString(raw, index) == EndOfString(raw, start + 1)
        decreases |raw| - index
      {
        index := if raw[index] == BACKSLASH then index + 2 else index + 1;
      }
      index := index + 1;
      name := ParseString(raw[start..index]);
    }

    method ScanPrimitive(ghost text: Text)
      requires At(raw, index, text) && NoStops(text) && Stops(raw, index + |text|)
      modifies this`index
      ensures index == old(index) + |text|
    {
      while !Stops(raw, index)
        invariant old(index) <= index <= old(index) + |text|
        decreases |raw| - index
      {
        index := index + 1;
      }
      if index < old(index) + |text| {
        CharAt(raw, old(index), text, index - old(index));
      }
    }

    /** The answer is exact, and without a duplicate the cursor ends just past the value. */
    method ScanValue(ghost blank: nat, ghost v: Json) returns (duplicate: bool)
      requires BlankAt(raw, index, blank) && Spans(raw, index + blank, v) && Stops(raw, index + blank + Len(v))
      modifies this`index
      ensures duplicate <==> HasDuplicate(v)
      ensures !duplicate ==> index == old(index) + blank + Len(v)
      decreases v, 0
    {
      ValueStart(raw, index + blank, v);
      SkipWhitespace(blank);
      if raw[index] == OPEN_OBJECT {
        duplicate := ScanObject(v.gap, v.members);
      } else if raw[index] == OPEN_ARRAY {
        duplicate := ScanArray(v.gap, v.items);
      } else if raw[index] == QUOTE {
        var _ := ScanString(v.units);
        duplicate := false;
      } else {
        PrimitiveText(v.primitive);
        ScanPrimitive(PrintPrimitive(v.primitive));
        duplicate := false;
      }
    }

    /** One value and the blank behind it. */
    method ScanValueAndBlank(ghost blank: nat, ghost v: Json, ghost after: nat) returns (duplicate: bool)
      requires BlankAt(raw, index, blank) && Spans(raw, index + blank, v)
      requires BlankAt(raw, index + blank + Len(v), after)
      requires var k := index + blank + Len(v) + after;
        k < |raw| && IsStop(raw[k]) && !IsSpace(raw[k])
      modifies this`index
      ensures duplicate <==> HasDuplicate(v)
      ensures !duplicate ==> index == old(index) + blank + Len(v) + after
      decreases v, 1
    {
      BlankStops(raw, index + blank + Len(v), after);
      duplicate := ScanValue(blank, v);
      if !duplicate {
        SkipWhitespace(after);
      }
    }

    method ScanArray(ghost gap: nat, ghost items: Items) returns (duplicate: bool)
      requires Spans(raw, index, Arr(gap, items))
      modifies this`index
      ensures duplicate <==> ItemsHaveDuplicate(items)
      ensures !duplicate ==> index == old(index) + Len(Arr(gap, items))
      decreases items, 4
    {
      if items.Item? { ValueStart(raw, index + 1 + items.before, items.value); }
      index := index + 1;
      SkipWhitespace(if items.NoItems? then gap else items.before);
      if raw[index] == CLOSE_ARRAY {
        index := index + 1;
        return false;
      }
      duplicate := ScanElements(items);
    }

    method ScanElements(ghost items: Items) returns (duplicate: bool)
      requires ItemsSpan(raw, index, items)
      modifies this`index
      ensures duplicate <==> ItemsHaveDuplicate(items)
      ensures !duplicate ==> items.before + index == old(index) + ItemsLen(items)
      decreases items, 3
    {
      ghost var stop := index + ItemsLen(items) - items.before;
      ghost var blank: nat, start: nat := 0, index;
      ghost var left := items;
      while index < |raw|
        invariant ItemsSpan(raw, start, left)
        invariant BlankAt(raw, index, blank) && start == index + blank
        invariant start + ItemsLen(left) - left.before == stop
        invariant left == items || left < items
        invariant ItemsHaveDuplicate(items) <==> ItemsHaveDuplicate(left)
        decreases left
      {
        ghost var end, next := ItemEndFacts(raw, start, left);
        var last;
        duplicate, last := ScanElement(blank, start, left, end);
        if duplicate || last {
          return duplicate;
        }
        blank, start, left := left.rest.before, next, left.rest;
      }
      assert false;
    }

    /** One element with the comma or bracket behind it. */
    method ScanElement(ghost blank: nat, ghost start: nat, ghost items: Items, ghost end: nat)
      returns (duplicate: bool, last: bool)
      requires BlankAt(raw, index, blank) && start == index + blank && ItemsSpan(raw, start, items)
      requires end == start + Len(items.value) + items.after + 1
      modifies this`index
      ensures duplicate <==> HasDuplicate(items.value)
      ensures !duplicate ==> index == end && (last <==> items.rest.NoItems?)
      decreases items, 2
    {
      ghost var _, _ := ItemEndFacts(raw, start, items);
      duplicate := ScanValueAndBlank(blank, items.value, items.after);
      if duplicate {
        return true, false;
      }
      last := raw[index] == CLOSE_ARRAY;
      index := index + 1;
    }

    method ScanObject(ghost gap: nat, ghost members: Members) returns (duplicate: bool)
      requires Spans(raw, index, Obj(gap, members))
      modifies this`index
      ensures duplicate <==> Repeats(Names(members)) || MembersHaveDuplicate(members)
      ensures !duplicate ==> index == old(index) + Len(Obj(gap, members))
      decreases members, 4
    {
      index := index + 1;
      SkipWhitespace(if members.NoMembers? then gap else members.before);
      DuplicateFromMeans({}, members);
      if raw[index] == CLOSE_OBJECT {
        index := index + 1;
        return false;
      }
      duplicate := ScanMembers(members);
    }

    method ScanMembers(ghost members: Members) returns (duplicate: bool)
      requires MembersSpan(raw, index, members)
      modifies this`index
      ensures duplicate <==> DuplicateFrom({}, members)
      ensures !duplicate ==> members.before + index == old(index) + MembersLen(members)
      decreases members, 3
    {
      ghost var stop := index + MembersLen(members) - members.before;
      var names: set<Text> := {};
      ghost var blank: nat, start: nat := 0, index;
      ghost var left := members;
      while index < |raw|
        invariant MembersSpan(raw, start, left)
        invariant BlankAt(raw, index, blank) && start == index + blank
        invariant start + MembersLen(left) - left.before == stop
        invariant left == members || left < members
        invariant DuplicateFrom({}, members) <==> DuplicateFrom(names, left)
        decreases left
      {
        ghost var end, next := MemberEndFacts(raw, start, left);
        var last;
        duplicate, last, names := ScanMember(blank, start, left, names, end);
        if duplicate || last {
          return duplicate;
        }
        blank, start, left := left.rest.before, next, left.rest;
      }
      assert false;
    }

    /** One member with the comma or brace behind it; `names` are the object's names so far. */
    method ScanMember(ghost blank: nat, ghost start: nat, ghost members: Members, names: set<Text>, ghost end: nat)
      returns (duplicate: bool, last: bool, known: set<Text>)
      requires BlankAt(raw, index, blank) && start == index + blank && MembersSpan(raw, start, members)
      requires end == start + NameLen(members) + members.afterColon + Len(members.value) + members.after + 1
      modifies this`index
      ensures duplicate <==> Decoded(members.name) in names || HasDuplicate(members.value)
      ensures known == names + {Decoded(members.name)}
      ensures !duplicate ==> index == end && (last <==> members.rest.NoMembers?)
      decreases members, 2
    {
      var name := ScanName(blank, members);
      known := names + {name};
      if name in names {
        return true, false, known;
      }
      duplicate, last := ScanMemberValue(members);
    }

    /** A member's name with the colon behind it. */
    method ScanName(ghost blank: nat, ghost members: Members) returns (name: Text)
      requires BlankAt(raw, index, blank) && MembersSpan(raw, index + blank, members)
      modifies this`index
      ensures name == Decoded(members.name) && index == old(index) + blank + NameLen(members)
      ensures BlankAt(raw, index, members.afterColon) && MemberSpans(raw, index + members.afterColon, members)
    {
      SkipWhitespace(blank);
      name := ScanString(members.name);
      SkipWhitespace(members.beforeColon);
      index := index + 1;
    }

    /** A member's value with the comma or brace behind it. */
    method ScanMemberValue(ghost members: Members) returns (duplicate: bool, last: bool)
      requires members.Member?
      requires BlankAt(raw, index, members.afterColon) && MemberSpans(raw, index + members.afterColon, members)
      modifies this`index
      ensures duplicate <==> HasDuplicate(members.value)
      ensures !duplicate ==>
        && (last <==> members.rest.NoMembers?)
        && index == old(index) + members.afterColon + Len(members.value) + members.after + 1
      decreases members, 1
    {
      MemberCloses(raw, index + members.afterColon + Len(members.value), members);
      duplicate := ScanValueAndBlank(members.afterColon, members.value, members.after);
      if duplicate {
        return true, false;
      }
      last := raw[index] == CLOSE_OBJECT;
      index := index + 1;
    }
  }

  /** Where an element ends, and where the next one starts. */
  lemma ItemEndFacts(raw: Text, i: nat, items: Items) returns (end: nat, next: nat)
    requires ItemsSpan(raw, i, items)
    ensures end == i + Len(items.value) + items.after + 1
    ensures BlankAt(raw, i + Len(items.value), items.after)
    ensures end <= |raw| && IsStop(raw[end - 1]) && !IsSpace(raw[end - 1])
    ensures raw[end - 1] == CLOSE_ARRAY <==> items.rest.NoItems?
    ensures items.rest.Item? ==>
      next == end + items.rest.before && BlankAt(raw, end, items.rest.before) && ItemsSpan(raw, next, items.rest)
  {
    end := i + Len(items.value) + items.after + 1;
    next := if items.rest.Item? then end + items.rest.before else 0;
  }

  /** Where a member ends, and where the next one starts. */
  lemma MemberEndFacts(raw: Text, i: nat, members: Members) returns (end: nat, next: nat)
    requires MembersSpan(raw, i, members)
    ensures end == i + NameLen(members) + members.afterColon + Len(members.value) + members.after + 1
    ensures members.rest.Member? ==>
      next == end + members.rest.before && BlankAt(raw, end, members.rest.before)
      && MembersSpan(raw, next, members.rest)
  {
    var value := i + NameLen(members) + members.afterColon;
    assert MemberSpans(raw, value, members);
    assert MemberEnds(raw, value + Len(members.value), members);
    end := value + Len(members.value) + members.after + 1;
    next := if members.rest.Member? then end + members.rest.before else 0;
  }

  lemma MemberCloses(raw: Text, i: nat, members: Members)
    requires MemberEnds(raw, i, members)
    ensures var k := i + members.after;
      && BlankAt(raw, i, members.after) && k < |raw| && IsStop(raw[k]) && !IsSpace(raw[k])
      && (raw[k] == CLOSE_OBJECT <==> members.rest.NoMembers?)
  {
  }

  lemma StringEnds(raw: Text, i: nat, units: seq<Unit>)
    requires ValidUnits(units) && At(raw, i, PrintString(units))
    ensures i < |raw| && EndOfString(raw, i + 1) == Some(i + |PrintString(units)|)
    ensures i + |PrintString(units)| <= |raw|
    ensures ParseString(raw[i..i + |PrintString(units)|]) == Decoded(units)
  {
    var body := PrintUnits(units) + [QUOTE];
    assert PrintString(units) == [QUOTE] + body;
    AtConcat(raw, i, [QUOTE], body);
    UnitsEnd(raw, i + 1, units);
    AtMeans(raw, i, PrintString(units));
    StringIsDecoded(units);
  }

  /** For every JSON text the answer is exact, and no two parses of a text differ on it. */
  method HasDuplicateJsonObjectKeys(raw: Text, ghost before: nat, ghost v: Json) returns (duplicate: bool)
    requires Parses(raw, before, v)
    ensures duplicate <==> HasDuplicate(v)
  {
    var scanner := new Scanner(raw);
    BlankStops(raw, before + Len(v), |raw| - before - Len(v));
    duplicate := scanner.ScanValue(before, v);
  }
}
