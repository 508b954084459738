/** tests/ledger-snapshots/src/render.rs: the normalising printer of ledger values, and a reader that undoes it. */
module Render {
  import opened Shared
  import opened Text

  type byte = n: nat | n < 256

  datatype ScVal =
    | Void
    | Bool(flag: bool)
    | U32(u: nat)
    | I32(i: int)
    | U64(u: nat)
    | I64(i: int)
    | Symbol(name: string)
    | Bytes(bytes: seq<byte>)
    | Addr(address: Address)
    | Vec(items: seq<ScVal>)
    | Map(entries: seq<MapEntry>)

  datatype MapEntry = MapEntry(key: ScVal, val: ScVal)

  // ----- aliases -----

  type AliasTable = seq<(Address, string)>

  /** The alias of the first entry for the address. */
  function Lookup(table: AliasTable, a: Address): Option<string> {
    if table == [] then None
    else if table[0].0 == a then Some(table[0].1)
    else Lookup(table[1..], a)
  }

  class Aliases {
    var entries: AliasTable

    constructor ()
      ensures entries == []
    {
      entries := [];
    }

    method Insert(address: Address, alias: string)
      modifies this
      ensures entries == old(entries) + [(address, alias)]
      ensures forall a :: Lookup(entries, a) ==
                if old(Lookup(entries, a)).Some? then old(Lookup(entries, a)) else if a == address then Some(alias) else None
    {
      forall a {
        LookupInAppended(entries, address, alias, a);
      }
      entries := entries + [(address, alias)];
    }

    method Find(address: Address) returns (r: Option<string>)
      ensures r == Lookup(entries, address)
    {
      var i := 0;
      while i < |entries|
        invariant 0 <= i <= |entries|
        invariant Lookup(entries, address) == Lookup(entries[i..], address)
      {
        if entries[i].0 == address {
          return Some(entries[i].1);
        }
        i := i + 1;
      }
      return None;
    }
  }

  lemma {:induction false} LookupInAppended(table: AliasTable, address: Address, alias: string, a: Address)
    ensures Lookup(table + [(address, alias)], a) ==
              if Lookup(table, a).Some? then Lookup(table, a) else if a == address then Some(alias) else None
  {
    if table != [] {
      assert (table + [(address, alias)])[1..] == table[1..] + [(address, alias)];
      LookupInAppended(table[1..], address, alias, a);
    }
  }

  // ----- the printer -----

  function HexDigit(n: nat): char
    requires n < 16
  {
    if n < 10 then ('0' as int + n) as char else ('a' as int + n - 10) as char
  }

  function Hex(bytes: seq<byte>): string {
    if bytes == [] then "" else [HexDigit(bytes[0] / 16), HexDigit(bytes[0] % 16)] + Hex(bytes[1..])
  }

  lemma {:induction false} HexConcat(a: seq<byte>, b: seq<byte>)
    ensures Hex(a + b) == Hex(a) + Hex(b)
  {
    if a == [] {
      assert a + b == b;
    } else {
      assert (a + b)[1..] == a[1..] + b;
      HexConcat(a[1..], b);
    }
  }

  method HexText(bytes: seq<byte>) returns (out: string)
    ensures out == Hex(bytes)
  {
    out := "";
    for i := 0 to |bytes|
      invariant out == Hex(bytes[..i])
    {
      HexConcat(bytes[..i], [bytes[i]]);
      assert bytes[..i + 1] == bytes[..i] + [bytes[i]];
      out := out + [HexDigit(bytes[i] / 16), HexDigit(bytes[i] % 16)];
    }
    assert bytes[..|bytes|] == bytes;
  }

  function Integer(i: int): string {
    if i < 0 then "-" + Decimal(-i) else Decimal(i)
  }

  function AddressText(table: AliasTable, a: Address): string {
    var alias := Lookup(table, a);
    "addr:" + if alias.Some? then alias.value else "<UNALIASED>"
  }

  function ValueText(table: AliasTable, v: ScVal): string
    decreases v, 1
  {
    match v
    case Void => "void"
    case Bool(b) => if b then "true" else "false"
    case U32(n) => "u32:" + Decimal(n)
    case I32(n) => "i32:" + Integer(n)
    case U64(n) => "u64:" + Decimal(n)
    case I64(n) => "i64:" + Integer(n)
    case Symbol(s) => "sym:" + s
    case Bytes(bs) => "bytes:" + Hex(bs)
    case Addr(a) => AddressText(table, a)
    case Vec(items) => "[" + ItemsText(table, items) + "]"
    case Map(entries) => "{" + EntriesText(table, entries) + "}"
  }

  function ItemsText(table: AliasTable, items: seq<ScVal>): string
    decreases items, 0
  {
    if items == [] then ""
    else if |items| == 1 then ValueText(table, items[0])
    else ValueText(table, items[0]) + ", " + ItemsText(table, items[1..])
  }

  function EntriesText(table: AliasTable, entries: seq<MapEntry>): string
    decreases entries, 0
  {
    if entries == [] then ""
    else if |entries| == 1 then EntryText(table, entries[0])
    else EntryText(table, entries[0]) + ", " + EntriesText(table, entries[1..])
  }

  function EntryText(table: AliasTable, e: MapEntry): string
    decreases e, 1
  {
    ValueText(table, e.key) + ": " + ValueText(table, e.val)
  }

  // ----- what can be read back -----

  predicate IsSymbolChar(c: char) {
    'a' <= c <= 'z' || 'A' <= c <= 'Z' || '0' <= c <= '9' || c == '_'
  }

  /** A character that neither ends a rendered value nor opens a failure marker. */
  predicate IsAliasChar(c: char) {
    c != ',' && c != ' ' && c != ':' && c != ']' && c != '}' && c != '<' && c != '\n'
  }

  predicate IsHexChar(c: char) {
    '0' <= c <= '9' || 'a' <= c <= 'f'
  }

  predicate CleanAliases(table: AliasTable) {
    forall i | 0 <= i < |table| :: All(table[i].1, IsAliasChar)
  }

  /** No two addresses are printed under the same alias. */
  ghost predicate DistinctAliases(table: AliasTable) {
    forall a, b | Lookup(table, a).Some? && Lookup(table, a) == Lookup(table, b) :: a == b
  }

  /** Symbols keep to the symbol alphabet and every address has an alias. */
  predicate Renderable(table: AliasTable, v: ScVal) {
    match v
    case Symbol(s) => All(s, IsSymbolChar)
    case Addr(a) => Lookup(table, a).Some?
    case Vec(items) => forall i | 0 <= i < |items| :: Renderable(table, items[i])
    case Map(entries) =>
      forall i | 0 <= i < |entries| :: Renderable(table, entries[i].key) && Renderable(table, entries[i].val)
    case _ => true
  }

  // ----- the reader -----

  datatype Parsed<+T> = Fail | Parsed(value: T, rest: string)

  function ReadNat(s: string): (r: Parsed<nat>)
    ensures r.Parsed? ==> |r.rest| < |s|
  {
    var r := Span(s, IsDigit);
    if r.0 == "" then Fail else Parsed(DecimalValue(r.0), r.1)
  }

  function ReadInt(s: string): (r: Parsed<int>)
    ensures r.Parsed? ==> |r.rest| < |s|
  {
    if s != "" && s[0] == '-' then
      match ReadNat(s[1..])
      case Fail => Fail
      case Parsed(n, rest) => var i: int := n; Parsed(-i, rest)
    else
      match ReadNat(s)
      case Fail => Fail
      case Parsed(n, rest) => var i: int := n; Parsed(i, rest)
  }

  function HexValue(c: char): nat
    ensures HexValue(c) < 16
  {
    if '0' <= c <= '9' then c as int - '0' as int
    else if 'a' <= c <= 'f' then c as int - 'a' as int + 10
    else 0
  }

  function Unhex(s: string): seq<byte> {
    if |s| < 2 then [] else [16 * HexValue(s[0]) + HexValue(s[1])] + Unhex(s[2..])
  }

  /** The address that is printed as `alias`. */
  function WhoIs(table: AliasTable, alias: string, i: nat): Option<Address>
    requires i <= |table|
    decreases |table| - i
  {
    if i == |table| then None
    else if Lookup(table, table[i].0) == Some(alias) then Some(table[i].0)
    else WhoIs(table, alias, i + 1)
  }

  function ReadWord(s: string): (r: Parsed<ScVal>)
    ensures r.Parsed? ==> |r.rest| < |s|
  {
    if StartsWith(s, "void") then Parsed(Void, Drop(s, 4))
    else if StartsWith(s, "true") then Parsed(Bool(true), Drop(s, 4))
    else if StartsWith(s, "false") then Parsed(Bool(false), Drop(s, 5))
    else Fail
  }

  function ReadUnsigned(s: string): (r: Parsed<ScVal>)
    ensures r.Parsed? ==> |r.rest| < |s|
  {
    match ReadNat(Drop(s, 4))
    case Fail => Fail
    case Parsed(n, rest) =>
      if StartsWith(s, "u32:") then Parsed(U32(n), rest) else if StartsWith(s, "u64:") then Parsed(U64(n), rest) else Fail
  }

  function ReadSigned(s: string): (r: Parsed<ScVal>)
    ensures r.Parsed? ==> |r.rest| < |s|
  {
    match ReadInt(Drop(s, 4))
    case Fail => Fail
    case Parsed(n, rest) =>
      if StartsWith(s, "i32:") then Parsed(I32(n), rest) else if StartsWith(s, "i64:") then Parsed(I64(n), rest) else Fail
  }

  function ReadName(table: AliasTable, s: string): (r: Parsed<ScVal>)
    ensures r.Parsed? ==> |r.rest| < |s|
  {
    if StartsWith(s, "sym:") then
      var r := Span(Drop(s, 4), IsSymbolChar); Parsed(Symbol(r.0), r.1)
    else if StartsWith(s, "bytes:") then
      var r := Span(Drop(s, 6), IsHexChar); Parsed(Bytes(Unhex(r.0)), r.1)
    else if StartsWith(s, "addr:") then
      var r := Span(Drop(s, 5), IsAliasChar);
      var a := WhoIs(table, r.0, 0);
      if a.None? then Fail else Parsed(Addr(a.value), r.1)
    else Fail
  }

  function ReadLeaf(table: AliasTable, s: string): (r: Parsed<ScVal>)
    ensures r.Parsed? ==> |r.rest| < |s|
  {
    if s == "" then Fail
    else if s[0] == 'v' || s[0] == 't' || s[0] == 'f' then ReadWord(s)
    else if s[0] == 'u' then ReadUnsigned(s)
    else if s[0] == 'i' then ReadSigned(s)
    else ReadName(table, s)
  }

  function Read(table: AliasTable, s: string): (r: Parsed<ScVal>)
    ensures r.Parsed? ==> |r.rest| < |s|
    decreases |s|, 0
  {
    if StartsWith(s, "[") then
      if StartsWith(Drop(s, 1), "]") then Parsed(Vec([]), Drop(s, 2))
      else
        var r := ReadItems(table, Drop(s, 1));
        if r.Fail? then Fail else Parsed(Vec(r.value), r.rest)
    else if StartsWith(s, "{") then
      if StartsWith(Drop(s, 1), "}") then Parsed(Map([]), Drop(s, 2))
      else
        var r := ReadEntries(table, Drop(s, 1));
        if r.Fail? then Fail else Parsed(Map(r.value), r.rest)
    else ReadLeaf(table, s)
  }

  /** One or more comma-separated values and the closing bracket. */
  function ReadItems(table: AliasTable, s: string): (r: Parsed<seq<ScVal>>)
    ensures r.Parsed? ==> |r.rest| < |s|
    decreases |s|, 1
  {
    var v := Read(table, s);
    if v.Fail? then Fail
    else if StartsWith(v.rest, "]") then Parsed([v.value], Drop(v.rest, 1))
    else if StartsWith(v.rest, ", ") then
      var more := ReadItems(table, Drop(v.rest, 2));
      if more.Fail? then Fail else Parsed([v.value] + more.value, more.rest)
    else Fail
  }

  /** One or more comma-separated entries and the closing brace. */
  function ReadEntries(table: AliasTable, s: string): (r: Parsed<seq<MapEntry>>)
    ensures r.Parsed? ==> |r.rest| < |s|
    decreases |s|, 1
  {
    var k := Read(table, s);
    if k.Fail? || !StartsWith(k.rest, ": ") then Fail
    else
      var v := Read(table, Drop(k.rest, 2));
      if v.Fail? then Fail
      else
        var e := MapEntry(k.value, v.value);
        if StartsWith(v.rest, "}") then Parsed([e], Drop(v.rest, 1))
        else if StartsWith(v.rest, ", ") then
          var more := ReadEntries(table, Drop(v.rest, 2));
          if more.Fail? then Fail else Parsed([e] + more.value, more.rest)
        else Fail
  }
}
