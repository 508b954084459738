/** The printer hides nothing: every renderable value can be read back from its text. */
module RenderLaws {
  import opened Shared
  import opened Text
  import opened Render

  /** What may follow a value: nothing, or a character no alias, symbol or numeral contains. */
  predicate Boundary(rest: string) {
    rest != "" ==> !IsAliasChar(rest[0])
  }

  // ----- leaves -----

  lemma {:induction false} NumeralBack(digits: string, rest: string)
    requires digits != "" && All(digits, IsDigit) && Boundary(rest)
    ensures ReadNat(digits + rest) == Parsed(DecimalValue(digits), rest)
    ensures ReadInt(digits + rest) == Parsed(DecimalValue(digits), rest)
  {
    SpanSplits(digits, rest, IsDigit);
    assert IsDigit((digits + rest)[0]);
  }

  lemma NegativeBack(s: string, i: int, rest: string)
    requires i < 0 && s != "" && ReadNat(s) == Parsed(-i, rest)
    ensures ReadInt("-" + s) == Parsed(i, rest)
  {
    assert ("-" + s)[1..] == s;
  }

  lemma {:induction false} NatBack(n: nat, rest: string)
    requires Boundary(rest)
    ensures ReadNat(Decimal(n) + rest) == Parsed(n, rest)
  {
    DecimalRoundTrip(n);
    NumeralBack(Decimal(n), rest);
  }

  lemma {:induction false} MinusBack(i: int, rest: string)
    requires i < 0 && Boundary(rest)
    ensures ReadInt("-" + (Decimal(-i) + rest)) == Parsed(i, rest)
  {
    NatBack(-i, rest);
    DecimalRoundTrip(-i);
    NegativeBack(Decimal(-i) + rest, i, rest);
  }

  lemma IntBack(i: int, rest: string)
    requires Boundary(rest)
    ensures ReadInt(Integer(i) + rest) == Parsed(i, rest)
  {
    if i < 0 {
      MinusBack(i, rest);
      assert Integer(i) + rest == "-" + (Decimal(-i) + rest);
    } else {
      DecimalRoundTrip(i);
      NumeralBack(Decimal(i), rest);
    }
  }

  lemma {:induction false} HexBack(bytes: seq<byte>)
    ensures Unhex(Hex(bytes)) == bytes && All(Hex(bytes), IsHexChar)
  {
    if bytes != [] {
      HexBack(bytes[1..]);
      assert Hex(bytes)[2..] == Hex(bytes[1..]);
    }
  }

  lemma LookupIsListed(table: AliasTable, a: Address) returns (i: nat)
    requires Lookup(table, a).Some?
    ensures i < |table| && table[i] == (a, Lookup(table, a).value)
  {
    if table[0].0 == a {
      i := 0;
    } else {
      i := LookupIsListed(table[1..], a);
      i := i + 1;
    }
  }

  lemma {:induction false} WhoIsFinds(table: AliasTable, a: Address, i: nat, at: nat)
    requires DistinctAliases(table) && Lookup(table, a).Some? && i <= at < |table| && table[at].0 == a
    ensures WhoIs(table, Lookup(table, a).value, i) == Some(a)
    decreases at - i
  {
    if Lookup(table, table[i].0) != Lookup(table, a) {
      WhoIsFinds(table, a, i + 1, at);
    }
  }

  lemma {:induction false} AliasBack(table: AliasTable, a: Address)
    requires CleanAliases(table) && DistinctAliases(table) && Lookup(table, a).Some?
    ensures WhoIs(table, Lookup(table, a).value, 0) == Some(a) && All(Lookup(table, a).value, IsAliasChar)
  {
    var at := LookupIsListed(table, a);
    WhoIsFinds(table, a, 0, at);
  }

  ghost predicate IsLeaf(v: ScVal) {
    !v.Vec? && !v.Map?
  }

  lemma TaggedUnsigned(table: AliasTable, t: string, n: nat, rest: string)
    requires ReadNat(t) == Parsed(n, rest)
    ensures ReadLeaf(table, "u32:" + t) == Parsed(U32(n), rest) && ReadLeaf(table, "u64:" + t) == Parsed(U64(n), rest)
  {
    DropPrefix("u32:", t);
    DropPrefix("u64:", t);
  }

  lemma TaggedSigned(table: AliasTable, t: string, i: int, rest: string)
    requires ReadInt(t) == Parsed(i, rest)
    ensures ReadLeaf(table, "i32:" + t) == Parsed(I32(i), rest) && ReadLeaf(table, "i64:" + t) == Parsed(I64(i), rest)
  {
    DropPrefix("i32:", t);
    DropPrefix("i64:", t);
  }

  lemma Regroup(tag: string, body: string, rest: string)
    ensures tag + body + rest == tag + (body + rest)
  {
  }

  lemma {:induction false} UnsignedBack(table: AliasTable, tag: string, n: nat, v: ScVal, rest: string)
    requires Boundary(rest) && ((tag == "u32:" && v == U32(n)) || (tag == "u64:" && v == U64(n)))
    ensures ReadLeaf(table, tag + Decimal(n) + rest) == Parsed(v, rest)
  {
    NatBack(n, rest);
    TaggedUnsigned(table, Decimal(n) + rest, n, rest);
    Regroup(tag, Decimal(n), rest);
  }

  lemma SignedBack(table: AliasTable, tag: string, i: int, v: ScVal, rest: string)
    requires Boundary(rest) && ((tag == "i32:" && v == I32(i)) || (tag == "i64:" && v == I64(i)))
    ensures ReadLeaf(table, tag + Integer(i) + rest) == Parsed(v, rest)
  {
    IntBack(i, rest);
    TaggedSigned(table, Integer(i) + rest, i, rest);
    Regroup(tag, Integer(i), rest);
  }

  lemma SymbolBack(table: AliasTable, name: string, rest: string)
    requires Boundary(rest) && All(name, IsSymbolChar)
    ensures ReadName(table, "sym:" + name + rest) == Parsed(Symbol(name), rest)
  {
    Regroup("sym:", name, rest);
    DropPrefix("sym:", name + rest);
    SpanSplits(name, rest, IsSymbolChar);
  }

  lemma {:induction false} TaggedBytes(table: AliasTable, t: string)
    ensures ReadName(table, "bytes:" + t) == Parsed(Bytes(Unhex(Span(t, IsHexChar).0)), Span(t, IsHexChar).1)
  {
    DropPrefix("bytes:", t);
    assert ("bytes:" + t)[..4][0] == 'b';
  }

  lemma {:induction false} BytesBack(table: AliasTable, bytes: seq<byte>, rest: string)
    requires Boundary(rest)
    ensures ReadName(table, "bytes:" + Hex(bytes) + rest) == Parsed(Bytes(bytes), rest)
  {
    Regroup("bytes:", Hex(bytes), rest);
    TaggedBytes(table, Hex(bytes) + rest);
    HexBack(bytes);
    SpanSplits(Hex(bytes), rest, IsHexChar);
  }

  lemma {:induction false} TaggedAddr(table: AliasTable, t: string, a: Address)
    requires WhoIs(table, Span(t, IsAliasChar).0, 0) == Some(a)
    ensures ReadName(table, "addr:" + t) == Parsed(Addr(a), Span(t, IsAliasChar).1)
  {
    var s := "addr:" + t;
    DropPrefix("addr:", t);
    assert s[..4][0] == 'a';
    assert |s| >= 6 ==> s[..6][0] == 'a';
  }

  lemma {:induction false} AddrBack(table: AliasTable, a: Address, rest: string)
    requires Boundary(rest) && CleanAliases(table) && DistinctAliases(table) && Lookup(table, a).Some?
    ensures ReadName(table, AddressText(table, a) + rest) == Parsed(Addr(a), rest)
  {
    var alias := Lookup(table, a).value;
    AliasBack(table, a);
    SpanSplits(alias, rest, IsAliasChar);
    Regroup("addr:", alias, rest);
    TaggedAddr(table, alias + rest, a);
  }

  lemma {:induction false} NoBracketMeansLeaf(table: AliasTable, s: string)
    requires s != "" && s[0] != '[' && s[0] != '{'
    ensures Read(table, s) == ReadLeaf(table, s)
  {
    assert s[..1] == [s[0]];
  }

  ghost predicate IsNumber(v: ScVal) {
    v.U32? || v.I32? || v.U64? || v.I64?
  }

  lemma {:induction false} NumberLeafBack(table: AliasTable, v: ScVal, rest: string)
    requires IsNumber(v) && Boundary(rest)
    ensures ReadLeaf(table, ValueText(table, v) + rest) == Parsed(v, rest)
  {
    match v
    case U32(n) => UnsignedBack(table, "u32:", n, v, rest);
    case U64(n) => UnsignedBack(table, "u64:", n, v, rest);
    case I32(i) => SignedBack(table, "i32:", i, v, rest);
    case I64(i) => SignedBack(table, "i64:", i, v, rest);
  }

  /** Any other leaf is read by its first letter. */
  lemma OtherLeaf(table: AliasTable, word: string, rest: string)
    requires word != ""
    ensures word[0] == 'v' || word[0] == 't' || word[0] == 'f' ==> ReadLeaf(table, word + rest) == ReadWord(word + rest)
    ensures word[0] == 's' || word[0] == 'b' || word[0] == 'a' ==> ReadLeaf(table, word + rest) == ReadName(table, word + rest)
  {
  }

  lemma {:induction false} NamedLeafBack(table: AliasTable, v: ScVal, rest: string)
    requires CleanAliases(table) && DistinctAliases(table) && Renderable(table, v) && IsLeaf(v) && Boundary(rest)
    requires !IsNumber(v)
    ensures ReadLeaf(table, ValueText(table, v) + rest) == Parsed(v, rest)
  {
    OtherLeaf(table, ValueText(table, v), rest);
    match v
    case Void => DropPrefix("void", rest);
    case Bool(b) => WordBack(b, rest);
    case Symbol(name) => SymbolBack(table, name, rest);
    case Bytes(bs) => BytesBack(table, bs, rest);
    case Addr(a) => AddrBack(table, a, rest);
  }

  lemma {:induction false} LeafStarts(table: AliasTable, v: ScVal, rest: string)
    requires IsLeaf(v)
    ensures
      var s := ValueText(table, v) + rest;
      s != "" && s[0] != '[' && s[0] != '{'
  {
  }

  lemma {:induction false} LeafBack(table: AliasTable, v: ScVal, rest: string)
    requires CleanAliases(table) && DistinctAliases(table) && Renderable(table, v) && IsLeaf(v) && Boundary(rest)
    ensures Read(table, ValueText(table, v) + rest) == Parsed(v, rest)
  {
    LeafStarts(table, v, rest);
    NoBracketMeansLeaf(table, ValueText(table, v) + rest);
    if IsNumber(v) {
      NumberLeafBack(table, v, rest);
    } else {
      NamedLeafBack(table, v, rest);
    }
  }

  lemma WordBack(b: bool, rest: string)
    ensures ReadWord((if b then "true" else "false") + rest) == Parsed(Bool(b), rest)
  {
    var word := if b then "true" else "false";
    DropPrefix(word, rest);
    assert (word + rest)[..4][0] == word[0];
  }

  // ----- values -----

  lemma {:induction false} FirstChar(table: AliasTable, v: ScVal)
    ensures ValueText(table, v) != "" && ValueText(table, v)[0] != ']' && ValueText(table, v)[0] != '}'
  {
  }

  lemma StartsWithChar(c: char, s: string)
    ensures StartsWith([c] + s, [c]) && Drop([c] + s, 1) == s
    ensures forall d: char | d != c :: !StartsWith([c] + s, [d])
  {
    assert ([c] + s)[..1] == [c];
  }

  lemma {:induction false} OpenVecBack(table: AliasTable, inner: string, items: seq<ScVal>, rest: string)
    requires inner != "" && inner[0] != ']' && ReadItems(table, inner) == Parsed(items, rest)
    ensures Read(table, ['['] + inner) == Parsed(Vec(items), rest)
  {
    StartsWithChar('[', inner);
    assert inner == [inner[0]] + inner[1..];
    StartsWithChar(inner[0], inner[1..]);
  }

  lemma {:induction false} EmptyVecBack(table: AliasTable, rest: string)
    ensures Read(table, ['['] + ([']'] + rest)) == Parsed(Vec([]), rest)
  {
    StartsWithChar('[', [']'] + rest);
    StartsWithChar(']', rest);
    assert Drop(['['] + ([']'] + rest), 2) == rest;
  }

  lemma {:induction false} ItemsTextStarts(table: AliasTable, items: seq<ScVal>, close: string)
    requires items != []
    ensures ItemsText(table, items) + close != "" && (ItemsText(table, items) + close)[0] != ']'
  {
    FirstChar(table, items[0]);
    assert (ItemsText(table, items) + close)[0] == ValueText(table, items[0])[0];
  }

  lemma {:induction false} VecBack(table: AliasTable, items: seq<ScVal>, rest: string)
    requires items != [] ==> ReadItems(table, ItemsText(table, items) + ("]" + rest)) == Parsed(items, rest)
    ensures Read(table, ValueText(table, Vec(items)) + rest) == Parsed(Vec(items), rest)
  {
    var inner := ItemsText(table, items) + ("]" + rest);
    assert ValueText(table, Vec(items)) + rest == ['['] + inner;
    if items == [] {
      assert inner == [']'] + rest;
      EmptyVecBack(table, rest);
    } else {
      ItemsTextStarts(table, items, "]" + rest);
      OpenVecBack(table, inner, items, rest);
    }
  }

  lemma {:induction false} OpenMapBack(table: AliasTable, inner: string, entries: seq<MapEntry>, rest: string)
    requires inner != "" && inner[0] != '}' && ReadEntries(table, inner) == Parsed(entries, rest)
    ensures Read(table, ['{'] + inner) == Parsed(Map(entries), rest)
  {
    StartsWithChar('{', inner);
    assert inner == [inner[0]] + inner[1..];
    StartsWithChar(inner[0], inner[1..]);
  }

  lemma {:induction false} EmptyMapBack(table: AliasTable, rest: string)
    ensures Read(table, ['{'] + (['}'] + rest)) == Parsed(Map([]), rest)
  {
    StartsWithChar('{', ['}'] + rest);
    StartsWithChar('}', rest);
    assert Drop(['{'] + (['}'] + rest), 2) == rest;
  }

  lemma {:induction false} EntriesTextStarts(table: AliasTable, entries: seq<MapEntry>, close: string)
    requires entries != []
    ensures EntriesText(table, entries) + close != "" && (EntriesText(table, entries) + close)[0] != '}'
  {
    FirstChar(table, entries[0].key);
    assert EntryText(table, entries[0])[0] == ValueText(table, entries[0].key)[0];
    assert (EntriesText(table, entries) + close)[0] == EntryText(table, entries[0])[0];
  }

  lemma {:induction false} MapBack(table: AliasTable, entries: seq<MapEntry>, rest: string)
    requires entries != [] ==> ReadEntries(table, EntriesText(table, entries) + ("}" + rest)) == Parsed(entries, rest)
    ensures Read(table, ValueText(table, Map(entries)) + rest) == Parsed(Map(entries), rest)
  {
    var inner := EntriesText(table, entries) + ("}" + rest);
    assert ValueText(table, Map(entries)) + rest == ['{'] + inner;
    if entries == [] {
      assert inner == ['}'] + rest;
      EmptyMapBack(table, rest);
    } else {
      EntriesTextStarts(table, entries, "}" + rest);
      OpenMapBack(table, inner, entries, rest);
    }
  }

  /** The round trip: reading the text of a value returns the value and leaves exactly what followed it. */
  lemma {:induction false} ValueBack(table: AliasTable, v: ScVal, rest: string)
    requires CleanAliases(table) && DistinctAliases(table) && Renderable(table, v) && Boundary(rest)
    ensures Read(table, ValueText(table, v) + rest) == Parsed(v, rest)
    decreases v, 1
  {
    match v
    case Vec(items) =>
      if items != [] {
        ItemsBack(table, items, rest);
      }
      VecBack(table, items, rest);
    case Map(entries) =>
      if entries != [] {
        EntriesBack(table, entries, rest);
      }
      MapBack(table, entries, rest);
    case _ => LeafBack(table, v, rest);
  }

  lemma CommaOpens(tail: string)
    ensures StartsWith(", " + tail, ", ") && Drop(", " + tail, 2) == tail
    ensures !StartsWith(", " + tail, "]") && !StartsWith(", " + tail, "}")
  {
    DropPrefix(", ", tail);
    assert ", " + tail == [','] + (" " + tail);
    StartsWithChar(',', " " + tail);
  }

  lemma {:induction false} LastItem(table: AliasTable, s: string, v: ScVal, rest: string)
    requires Read(table, s) == Parsed(v, [']'] + rest)
    ensures ReadItems(table, s) == Parsed([v], rest)
  {
    StartsWithChar(']', rest);
  }

  lemma {:induction false} NextItem(table: AliasTable, s: string, v: ScVal, tail: string, more: seq<ScVal>, rest: string)
    requires Read(table, s) == Parsed(v, ", " + tail) && ReadItems(table, tail) == Parsed(more, rest)
    ensures ReadItems(table, s) == Parsed([v] + more, rest)
  {
    CommaOpens(tail);
  }

  lemma {:induction false} ItemsBack(table: AliasTable, items: seq<ScVal>, rest: string)
    requires CleanAliases(table) && DistinctAliases(table)
    requires items != [] && forall i | 0 <= i < |items| :: Renderable(table, items[i])
    ensures ReadItems(table, ItemsText(table, items) + ("]" + rest)) == Parsed(items, rest)
    decreases items, 0
  {
    ItemsTextOpens(table, items, "]" + rest);
    if |items| == 1 {
      ValueBack(table, items[0], "]" + rest);
      LastItem(table, ItemsText(table, items) + ("]" + rest), items[0], rest);
    } else {
      var tail := ItemsText(table, items[1..]) + ("]" + rest);
      ValueBack(table, items[0], ", " + tail);
      ItemsBack(table, items[1..], rest);
      NextItem(table, ItemsText(table, items) + ("]" + rest), items[0], tail, items[1..], rest);
    }
  }

  lemma {:induction false} ItemsTextOpens(table: AliasTable, items: seq<ScVal>, close: string)
    requires items != []
    ensures items == [items[0]] + items[1..]
    ensures |items| == 1 ==> items == [items[0]] && ItemsText(table, items) + close == ValueText(table, items[0]) + close
    ensures |items| > 1 ==>
      ItemsText(table, items) + close == ValueText(table, items[0]) + (", " + (ItemsText(table, items[1..]) + close))
  {
  }

  lemma {:induction false} EntryBack(table: AliasTable, e: MapEntry, rest: string)
    requires CleanAliases(table) && DistinctAliases(table)
    requires Renderable(table, e.key) && Renderable(table, e.val) && Boundary(rest)
    ensures ReadsEntry(table, EntryText(table, e) + rest, e, rest)
    decreases e, 1
  {
    var tail := ValueText(table, e.val) + rest;
    assert EntryText(table, e) + rest == ValueText(table, e.key) + (": " + tail);
    ValueBack(table, e.key, ": " + tail);
    ValueBack(table, e.val, rest);
    KeyThenValue(table, EntryText(table, e) + rest, e, tail, rest);
  }

  lemma {:induction false} KeyThenValue(table: AliasTable, s: string, e: MapEntry, tail: string, rest: string)
    requires Read(table, s) == Parsed(e.key, ": " + tail) && Read(table, tail) == Parsed(e.val, rest)
    ensures ReadsEntry(table, s, e, rest)
  {
    DropPrefix(": ", tail);
  }

  /** `s` begins with the text of entry `e`, and `rest` follows it. */
  predicate ReadsEntry(table: AliasTable, s: string, e: MapEntry, rest: string) {
    var k := Read(table, s);
    k.Parsed? && k.value == e.key && StartsWith(k.rest, ": ") && Read(table, Drop(k.rest, 2)) == Parsed(e.val, rest)
  }

  lemma {:induction false} LastEntry(table: AliasTable, s: string, e: MapEntry, rest: string)
    requires ReadsEntry(table, s, e, ['}'] + rest)
    ensures ReadEntries(table, s) == Parsed([e], rest)
  {
    StartsWithChar('}', rest);
  }

  lemma {:induction false} NextEntry(table: AliasTable, s: string, e: MapEntry, tail: string, more: seq<MapEntry>, rest: string)
    requires ReadsEntry(table, s, e, ", " + tail) && ReadEntries(table, tail) == Parsed(more, rest)
    ensures ReadEntries(table, s) == Parsed([e] + more, rest)
  {
    CommaOpens(tail);
  }

  lemma {:induction false} EntriesBack(table: AliasTable, entries: seq<MapEntry>, rest: string)
    requires CleanAliases(table) && DistinctAliases(table) && entries != []
    requires forall i | 0 <= i < |entries| :: Renderable(table, entries[i].key) && Renderable(table, entries[i].val)
    ensures ReadEntries(table, EntriesText(table, entries) + ("}" + rest)) == Parsed(entries, rest)
    decreases entries, 0
  {
    EntriesTextOpens(table, entries, "}" + rest);
    if |entries| == 1 {
      EntryBack(table, entries[0], "}" + rest);
      LastEntry(table, EntriesText(table, entries) + ("}" + rest), entries[0], rest);
    } else {
      var tail := EntriesText(table, entries[1..]) + ("}" + rest);
      EntryBack(table, entries[0], ", " + tail);
      EntriesBack(table, entries[1..], rest);
      NextEntry(table, EntriesText(table, entries) + ("}" + rest), entries[0], tail, entries[1..], rest);
    }
  }

  lemma {:induction false} EntriesTextOpens(table: AliasTable, entries: seq<MapEntry>, close: string)
    requires entries != []
    ensures entries == [entries[0]] + entries[1..]
    ensures |entries| == 1 ==>
      entries == [entries[0]] && EntriesText(table, entries) + close == EntryText(table, entries[0]) + close
    ensures |entries| > 1 ==>
      EntriesText(table, entries) + close == EntryText(table, entries[0]) + (", " + (EntriesText(table, entries[1..]) + close))
  {
  }

  ghost predicate SameText(table: AliasTable, v: ScVal, v': ScVal) {
    Renderable(table, v) && Renderable(table, v') && ValueText(table, v) == ValueText(table, v')
  }

  /** With delimiter-free aliases, printing is injective on renderable values exactly when no two addresses share an
      alias. The table itself does not enforce that: `Insert` accepts any alias for any address. */
  lemma PrintingIsInjectiveIffAliasesAreDistinct(table: AliasTable)
    requires CleanAliases(table)
    ensures DistinctAliases(table) <==> forall v, v' | SameText(table, v, v') :: v == v'
  {
    if DistinctAliases(table) {
      forall v, v' | SameText(table, v, v') ensures v == v' {
        ValueBack(table, v, "");
        ValueBack(table, v', "");
        assert ValueText(table, v) + "" == ValueText(table, v') + "";
      }
    } else {
      var a, b :| Lookup(table, a).Some? && Lookup(table, a) == Lookup(table, b) && a != b;
      var v, v' := Addr(a), Addr(b);
      assert SameText(table, v, v');
      assert v.address != v'.address;
    }
  }
}
