/**
  Arrays, objects and whole texts of RFC 8259, sections 2, 4 and 5, with white space wherever it is allowed: what the
  parser makes of them, and what it refuses.
*/
module JsonTexts {
  import opened Basics
  import opened Json
  import opened JsonSafe
  import opened JsonRoundTrip
  import opened JsonGrammar

  /** A text, taken apart. Blanks may stand around elements, names and values, and between empty brackets. */
  datatype Doc =
    | DNull | DFalse | DTrue | DNumber(n: Numeral) | DString(ps: seq<Piece>)
    | DArray(blank: Text, items: seq<Item>) | DObject(blank: Text, entries: seq<Entry>)
  datatype Item = Item(before: Text, doc: Doc, after: Text)
  datatype Entry = Entry(before: Text, name: seq<Piece>, mid: Text, between: Text, doc: Doc, after: Text)

  ghost predicate DocOk(d: Doc) {
    match d
    case DNumber(n) => NumeralOk(n)
    case DString(ps) => PiecesOk(ps)
    case DArray(blank, items) => IsSpace(blank) && forall i :: 0 <= i < |items| ==> ItemOk(items[i])
    case DObject(blank, entries) => IsSpace(blank) && forall i :: 0 <= i < |entries| ==> EntryOk(entries[i])
    case _ => true
  }

  ghost predicate ItemOk(it: Item) { IsSpace(it.before) && DocOk(it.doc) && IsSpace(it.after) }

  ghost predicate EntryOk(e: Entry) {
    && IsSpace(e.before) && PiecesOk(e.name) && IsSpace(e.mid)
    && IsSpace(e.between) && DocOk(e.doc) && IsSpace(e.after)
  }

  ghost predicate ItemsOk(items: seq<Item>) { forall i :: 0 <= i < |items| ==> ItemOk(items[i]) }

  ghost predicate EntriesOk(entries: seq<Entry>) { forall i :: 0 <= i < |entries| ==> EntryOk(entries[i]) }

  // ------------------------------------------------------------------------------- the text

  ghost function DocText(d: Doc): Text
    requires DocOk(d)
    decreases d, 1
  {
    match d
    case DNull => ['n' as int, 'u' as int, 'l' as int, 'l' as int]
    case DFalse => ['f' as int, 'a' as int, 'l' as int, 's' as int, 'e' as int]
    case DTrue => ['t' as int, 'r' as int, 'u' as int, 'e' as int]
    case DNumber(n) => NumeralText(n)
    case DString(ps) => StringText(ps)
    case DArray(blank, items) => ['[' as int] + (if items == [] then blank else ItemsText(items)) + [']' as int]
    case DObject(blank, entries) =>
      ['{' as int] + (if entries == [] then blank else EntriesText(entries)) + ['}' as int]
  }

  ghost function ItemText(it: Item): Text
    requires ItemOk(it)
    decreases it, 2
  {
    it.before + DocText(it.doc) + it.after
  }

  ghost function ItemsText(items: seq<Item>): Text
    requires ItemsOk(items)
    decreases items, 0
  {
    if items == [] then []
    else ItemText(items[0]) + if |items| == 1 then [] else [',' as int] + ItemsText(items[1..])
  }

  ghost function EntryText(e: Entry): Text
    requires EntryOk(e)
    decreases e, 2
  {
    e.before + StringText(e.name) + e.mid + [':' as int] + e.between + DocText(e.doc) + e.after
  }

  ghost function EntriesText(entries: seq<Entry>): Text
    requires EntriesOk(entries)
    decreases entries, 0
  {
    if entries == [] then []
    else EntryText(entries[0]) + if |entries| == 1 then [] else [',' as int] + EntriesText(entries[1..])
  }

  // ------------------------------------------------------------------------------ the value

  ghost function DocValue(d: Doc): Value
    requires DocOk(d)
    decreases d, 1
  {
    match d
    case DNull => Null
    case DFalse => False
    case DTrue => True
    case DNumber(n) => Number(NumeralValue(n))
    case DString(ps) => String(PiecesBytes(ps))
    case DArray(_, items) => Array(ItemValues(items))
    case DObject(_, entries) => Object(EntryMembers(entries))
  }

  ghost function ItemValues(items: seq<Item>): seq<Value>
    requires ItemsOk(items)
    decreases items, 0
  {
    if items == [] then [] else assert ItemOk(items[0]); [DocValue(items[0].doc)] + ItemValues(items[1..])
  }

  ghost function EntryMembers(entries: seq<Entry>): seq<Member>
    requires EntriesOk(entries)
    decreases entries, 0
  {
    if entries == [] then []
    else
      assert EntryOk(entries[0]);
      [Member(PiecesBytes(entries[0].name), DocValue(entries[0].doc))] + EntryMembers(entries[1..])
  }

  // ----------------------------------------------------------------------------- the proof

  lemma DocStarts(d: Doc, rest: Text)
    requires DocOk(d)
    ensures var c := At(DocText(d) + rest, 0); c > 32 && c != CLOSE_ARRAY && c != CLOSE_OBJECT && DocText(d) != []
  {
    hide ItemsText, EntriesText, NumeralText, StringText;
    match d
    case DNumber(n) =>
      NumeralStarts(n, rest);
      NumeralStarts(n, []);
      assert NumeralText(n) + [] == NumeralText(n);
    case DString(ps) =>
      StringReads(ps, rest);
      StringReads(ps, []);
      assert StringText(ps) + [] == StringText(ps);
    case _ =>
  }

  /** Space, and then something visible. */
  lemma Skips(blank: Text, s: Text)
    requires IsSpace(blank) && (At(s, 0) > 32 || s == [])
    ensures Skip(blank + s) == s && (blank != [] || EndsAny(s) ==> EndsNumber(blank + s))
  {
    SkipSpace(blank, s);
    if blank == [] {
      assert blank + s == s;
    }
  }

  /** The end of the text, or a character that ends any value. */
  predicate EndsAny(s: Text) { s == [] || (At(s, 0) > 32 && EndsNumber(s)) }

  lemma DocReads(d: Doc, rest: Text)
    requires DocOk(d) && (d.DNumber? ==> EndsNumber(rest))
    ensures ParseValue(DocText(d) + rest) == Some((DocValue(d), rest)) && SafeValue(DocText(d) + rest)
    decreases d, 1
  {
    hide ParseValue, SafeValue;
    match d
    case DArray(blank, items) => ArrayReads(blank, items, rest);
    case DObject(blank, entries) => ObjectReads(blank, entries, rest);
    case _ => LeafReads(d, rest);
  }

  lemma LeafReads(d: Doc, rest: Text)
    requires DocOk(d) && !d.DArray? && !d.DObject? && (d.DNumber? ==> EndsNumber(rest))
    ensures ParseValue(DocText(d) + rest) == Some((DocValue(d), rest)) && SafeValue(DocText(d) + rest)
  {
    hide ParseNumber, ParseString, StringText, NumeralText, StringSafe, SafeArray, SafeObject;
    var s := DocText(d) + rest;
    match d
    case DNull => WordStarts(NULL_TEXT, rest);
    case DFalse =>
      WordStarts(FALSE_TEXT, rest);
      OtherWord(FALSE_TEXT, NULL_TEXT, rest);
    case DTrue =>
      WordStarts(TRUE_TEXT, rest);
      OtherWord(TRUE_TEXT, NULL_TEXT, rest);
      OtherWord(TRUE_TEXT, FALSE_TEXT, rest);
    case DNumber(n) =>
      NumeralReads(n, rest);
      NotAWord(s);
    case DString(ps) =>
      StringReads(ps, rest);
      NotAWord(s);
  }

  lemma ArrayReads(blank: Text, items: seq<Item>, rest: Text)
    requires DocOk(DArray(blank, items))
    ensures var d := DArray(blank, items);
      ParseValue(DocText(d) + rest) == Some((DocValue(d), rest)) && SafeValue(DocText(d) + rest)
    decreases items, 1
  {
    hide ParseValue, SafeValue, ParseItems, ItemsText, SafeItems, ItemValues, Skip;
    var d := DArray(blank, items);
    var body, close := if items == [] then blank else ItemsText(items), [CLOSE_ARRAY] + rest;
    Bracketed([OPEN_ARRAY], body, [CLOSE_ARRAY], rest);
    if items == [] {
      Skips(blank, close);
      NoValues();
    } else {
      ItemsRead(items, close);
      ItemsBegin(items, close);
      SkippedItems(body + close);
    }
    ArrayIs(body + close, ItemValues(items), rest);
  }

  lemma Bracketed(open: Text, body: Text, close: Text, rest: Text)
    ensures open + body + close + rest == open + (body + (close + rest))
  {
  }

  lemma ArrayIs(inner: Text, items: seq<Value>, rest: Text)
    requires var s, close := Skip(inner), [CLOSE_ARRAY] + rest;
      || (s == close && items == [])
      || (At(s, 0) != CLOSE_ARRAY && ParseItems(s) == Some((items, close)) && SafeItems(s))
    ensures var s := [OPEN_ARRAY] + inner; ParseValue(s) == Some((Array(items), rest)) && SafeValue(s)
  {
    hide ParseNumber, ParseString, ParseItems, StringSafe, SafeItems, Skip;
    var s := [OPEN_ARRAY] + inner;
    assert s[1..] == inner && ([CLOSE_ARRAY] + rest)[1..] == rest;
    NotAWord(s);
  }

  lemma ObjectIs(inner: Text, members: seq<Member>, rest: Text)
    requires var s, close := Skip(inner), [CLOSE_OBJECT] + rest;
      || (s == close && members == [])
      || (At(s, 0) != CLOSE_OBJECT && ParseMembers(s) == Some((members, close)) && SafeMembers(s))
    ensures var s := [OPEN_OBJECT] + inner; ParseValue(s) == Some((Object(members), rest)) && SafeValue(s)
  {
    hide ParseNumber, ParseString, ParseMembers, StringSafe, SafeMembers, Skip;
    var s := [OPEN_OBJECT] + inner;
    assert s[1..] == inner && ([CLOSE_OBJECT] + rest)[1..] == rest;
    NotAWord(s);
  }

  lemma NoValues()
    ensures ItemValues([]) == [] && EntryMembers([]) == []
  {
  }

  lemma SkippedItems(s: Text)
    ensures ParseItems(Skip(s)) == ParseItems(s) && SafeItems(Skip(s)) == SafeItems(s)
  {
    hide ParseValue, SafeValue;
    SkipTwice(s);
  }

  lemma ItemsBegin(items: seq<Item>, close: Text)
    requires items != [] && ItemsOk(items)
    ensures At(Skip(ItemsText(items) + close), 0) != CLOSE_ARRAY
  {
    hide DocText;
    var it := items[0];
    assert ItemOk(it);
    var more := it.after + (if |items| == 1 then [] else [',' as int] + ItemsText(items[1..])) + close;
    assert ItemsText(items) + close == it.before + (DocText(it.doc) + more);
    DocStarts(it.doc, more);
    Skips(it.before, DocText(it.doc) + more);
  }

  /** One element, with the blanks around it. */
  lemma ItemReads(it: Item, tail: Text)
    requires ItemOk(it) && EndsAny(tail)
    ensures var s := ItemText(it) + tail;
      && SafeValue(Skip(s)) && ParseValue(Skip(s)).Some?
      && ParseValue(Skip(s)).value.0 == DocValue(it.doc) && Skip(ParseValue(Skip(s)).value.1) == tail
    decreases it, 0
  {
    hide ParseValue, SafeValue, DocText, DocValue;
    var more := it.after + tail;
    assert ItemText(it) + tail == it.before + (DocText(it.doc) + more);
    DocStarts(it.doc, more);
    Skips(it.before, DocText(it.doc) + more);
    Skips(it.after, tail);
    DocReads(it.doc, more);
  }

  lemma ItemsRead(items: seq<Item>, close: Text)
    requires items != [] && ItemsOk(items) && EndsAny(close) && At(close, 0) != COMMA
    ensures ParseItems(ItemsText(items) + close) == Some((ItemValues(items), close))
    ensures SafeItems(ItemsText(items) + close)
    decreases items, 0
  {
    hide ParseValue, SafeValue, ItemText, DocValue, Skip;
    assert ItemOk(items[0]);
    if |items| == 1 {
      assert ItemsText(items) + close == ItemText(items[0]) + close;
      ItemReads(items[0], close);
      NoValues();
      assert items[1..] == [] && [DocValue(items[0].doc)] + [] == [DocValue(items[0].doc)];
    } else {
      var more := ItemsText(items[1..]) + close;
      var tail := [',' as int] + more;
      assert ItemsText(items) + close == ItemText(items[0]) + tail;
      assert tail[1..] == more;
      ItemReads(items[0], tail);
      ItemsRead(items[1..], close);
    }
  }

  lemma ObjectReads(blank: Text, entries: seq<Entry>, rest: Text)
    requires DocOk(DObject(blank, entries))
    ensures var d := DObject(blank, entries);
      ParseValue(DocText(d) + rest) == Some((DocValue(d), rest)) && SafeValue(DocText(d) + rest)
    decreases entries, 1
  {
    hide ParseValue, SafeValue, ParseMembers, EntriesText, SafeMembers, EntryMembers, Skip;
    var d := DObject(blank, entries);
    var body, close := if entries == [] then blank else EntriesText(entries), [CLOSE_OBJECT] + rest;
    Bracketed([OPEN_OBJECT], body, [CLOSE_OBJECT], rest);
    if entries == [] {
      Skips(blank, close);
      NoValues();
    } else {
      EntriesRead(entries, close);
      EntriesBegin(entries, close);
      SkippedMembers(body + close);
    }
    ObjectIs(body + close, EntryMembers(entries), rest);
  }

  lemma EntriesBegin(entries: seq<Entry>, close: Text)
    requires entries != [] && EntriesOk(entries)
    ensures At(Skip(EntriesText(entries) + close), 0) == QUOTE
  {
    hide DocText, StringText, EntryText;
    var e := entries[0];
    assert EntryOk(e);
    var tail := (if |entries| == 1 then [] else [',' as int] + EntriesText(entries[1..])) + close;
    assert EntriesText(entries) + close == EntryText(e) + tail;
    EntryParts(e, tail);
    var more := e.mid + ([':' as int] + (e.between + (DocText(e.doc) + (e.after + tail))));
    StringReads(e.name, more);
    Skips(e.before, StringText(e.name) + more);
  }

  lemma EntryParts(e: Entry, tail: Text)
    requires EntryOk(e)
    ensures EntryText(e) + tail ==
      e.before + (StringText(e.name) + (e.mid + ([':' as int] + (e.between + (DocText(e.doc) + (e.after + tail))))))
  {
    hide DocText, StringText;
  }

  lemma EntryReads(e: Entry, tail: Text)
    requires EntryOk(e) && EndsAny(tail)
    ensures ParseMember(EntryText(e) + tail) == Some((Member(PiecesBytes(e.name), DocValue(e.doc)), tail))
    ensures SafeMember(EntryText(e) + tail)
    decreases e, 0
  {
    hide ParseValue, ParseString, SafeString, SafeValue, DocText, DocValue, StringText, PiecesBytes;
    var more := e.after + tail;
    var value := DocText(e.doc) + more;
    var colon := [COLON] + (e.between + value);
    var name := StringText(e.name) + (e.mid + colon);
    EntryParts(e, tail);
    Skips(e.after, tail);
    DocReads(e.doc, more);
    DocStarts(e.doc, more);
    Skips(e.between, value);
    assert colon[1..] == e.between + value;
    Skips(e.mid, colon);
    StringReads(e.name, e.mid + colon);
    Skips(e.before, name);
  }

  lemma EntriesRead(entries: seq<Entry>, close: Text)
    requires entries != [] && EntriesOk(entries) && EndsAny(close) && At(close, 0) != COMMA
    ensures ParseMembers(EntriesText(entries) + close) == Some((EntryMembers(entries), close))
    ensures SafeMembers(EntriesText(entries) + close)
    decreases entries, 0
  {
    hide ParseMember, SafeMember, EntryText, DocValue, PiecesBytes;
    assert EntryOk(entries[0]);
    if |entries| == 1 {
      assert EntriesText(entries) + close == EntryText(entries[0]) + close;
      EntryReads(entries[0], close);
      NoValues();
      var m := Member(PiecesBytes(entries[0].name), DocValue(entries[0].doc));
      assert entries[1..] == [] && [m] + [] == [m];
    } else {
      var more := EntriesText(entries[1..]) + close;
      var tail := [',' as int] + more;
      assert EntriesText(entries) + close == EntryText(entries[0]) + tail;
      assert tail[1..] == more;
      EntryReads(entries[0], tail);
      EntriesRead(entries[1..], close);
    }
  }

  /** Every text of the grammar parses to its value, is consumed whole, and keeps the parser inside it. */
  lemma TextReads(before: Text, d: Doc, after: Text, requireEnd: bool)
    requires IsSpace(before) && DocOk(d) && IsSpace(after)
    ensures var s := before + DocText(d) + after;
      SafeText(s) && Parse(s, requireEnd) == Some((DocValue(d), if requireEnd then [] else after))
  {
    hide ParseValue, SafeValue, DocText, DocValue;
    var s := before + DocText(d) + after;
    assert s == before + (DocText(d) + after);
    DocStarts(d, after);
    Skips(before, DocText(d) + after);
    if d.DNumber? && after != [] {
      assert after[0] <= 32;
    }
    DocReads(d, after);
    SkipSpace(after, []);
    assert after + [] == after;
  }

  // ------------------------------------------------------------------------- what is refused

  /** No value begins like this. */
  lemma NoValue(s: Text)
    requires var c := At(s, 0);
      && c != '"' as int && c != '[' as int && c != '{' as int && c != '-' as int && !('0' as int <= c <= '9' as int)
      && c != 'n' as int && c != 'f' as int && c != 't' as int
    ensures ParseValue(s) == None
  {
    NotAWord(s);
  }

  /** After the elements of an array there is a bracket, or the array is refused. */
  lemma ArrayRefused(items: seq<Item>, tail: Text)
    requires items != [] && ItemsOk(items) && EndsAny(tail) && At(tail, 0) != COMMA && At(tail, 0) != CLOSE_ARRAY
    ensures ParseValue([OPEN_ARRAY] + (ItemsText(items) + tail)) == None
  {
    hide ParseItems, SafeItems, ItemsText, ItemValues, Skip, ParseNumber, ParseString;
    var inner := ItemsText(items) + tail;
    ItemsRead(items, tail);
    ItemsBegin(items, tail);
    SkippedItems(inner);
    assert ([OPEN_ARRAY] + inner)[1..] == inner;
    NotAWord([OPEN_ARRAY] + inner);
  }

  /** After the members of an object there is a bracket, or the object is refused. */
  lemma ObjectRefused(entries: seq<Entry>, tail: Text)
    requires entries != [] && EntriesOk(entries) && EndsAny(tail) && At(tail, 0) != COMMA && At(tail, 0) != CLOSE_OBJECT
    ensures ParseValue([OPEN_OBJECT] + (EntriesText(entries) + tail)) == None
  {
    hide ParseMembers, SafeMembers, EntriesText, EntryMembers, Skip, ParseNumber, ParseString;
    var inner := EntriesText(entries) + tail;
    EntriesRead(entries, tail);
    EntriesBegin(entries, tail);
    SkippedMembers(inner);
    assert ([OPEN_OBJECT] + inner)[1..] == inner;
    NotAWord([OPEN_OBJECT] + inner);
  }

  /** A name is a string, and a colon follows it, or the member is refused. */
  lemma MemberRefused(before: Text, name: seq<Piece>, mid: Text, tail: Text)
    requires IsSpace(before) && PiecesOk(name) && IsSpace(mid) && (tail == [] || At(tail, 0) > 32)
    ensures At(tail, 0) != COLON ==> ParseMember(before + (StringText(name) + (mid + tail))) == None
    ensures At(tail, 0) != QUOTE ==> ParseMember(before + tail) == None
  {
    hide ParseValue, StringText;
    StringReads(name, mid + tail);
    Skips(before, StringText(name) + (mid + tail));
    Skips(mid, tail);
    Skips(before, tail);
  }

  /** A comma before the closing bracket is refused. */
  lemma TrailingComma(blank: Text, rest: Text)
    requires IsSpace(blank)
    ensures ParseItems(blank + ([CLOSE_ARRAY] + rest)) == None && ParseMembers(blank + ([CLOSE_OBJECT] + rest)) == None
  {
    hide ParseValue;
    Skips(blank, [CLOSE_ARRAY] + rest);
    NoValue([CLOSE_ARRAY] + rest);
    MemberRefused(blank, [], [], [CLOSE_OBJECT] + rest);
  }
}
