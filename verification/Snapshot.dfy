/** tests/ledger-snapshots/src/snapshot.rs, `render`: the body of a snapshot, line by line. */
module Snapshot {
  import opened Shared
  import opened Text
  import opened Render
  import opened RenderLaws
  import opened Sorting

  datatype Durability = InstanceClass | PersistentClass | TemporaryClass

  datatype StorageEntry = StorageEntry(contract: string, durability: Durability, key: ScVal, val: ScVal)

  datatype ContractEvent = ContractEvent(contract: Option<Address>, topics: seq<ScVal>, data: ScVal)

  datatype Verdict = Verdict(call: string, holds: bool)

  /** `storage` lists the entries in the order in which the host happens to return them. */
  datatype Scenario = Scenario(
    sequence: nat, timestamp: nat, storage: seq<StorageEntry>, events: seq<ContractEvent>, verdicts: seq<Verdict>)

  // ----- lines -----

  function DurabilityText(d: Durability): string {
    match d
    case InstanceClass => "instance"
    case PersistentClass => "persistent"
    case TemporaryClass => "temporary"
  }

  function StorageLine(table: AliasTable, e: StorageEntry): string {
    e.contract + (" " + (DurabilityText(e.durability) + (" " +
      (ValueText(table, e.key) + (" = " + ValueText(table, e.val))))))
  }

  function ContractName(table: AliasTable, contract: Option<Address>): string {
    if contract.None? then "<no-contract>"
    else
      var alias := Lookup(table, contract.value);
      if alias.Some? then alias.value else "<UNALIASED>"
  }

  function EventLine(table: AliasTable, e: ContractEvent): string {
    ContractName(table, e.contract) + (" topics=" + (ValueText(table, Vec(e.topics)) + (" data=" + ValueText(table, e.data))))
  }

  function VerdictLine(v: Verdict): string {
    v.call + " = " + if v.holds then "true" else "false"
  }

  function StorageLines(table: AliasTable, storage: seq<StorageEntry>): seq<string> {
    Each((e: StorageEntry) => StorageLine(table, e), storage)
  }

  function EventLines(table: AliasTable, events: seq<ContractEvent>): seq<string> {
    Each((e: ContractEvent) => EventLine(table, e), events)
  }

  function VerdictLines(verdicts: seq<Verdict>): seq<string> {
    Each((v: Verdict) => VerdictLine(v), verdicts)
  }

  function HeaderLines(s: Scenario): seq<string> {
    ["[ledger]", "sequence = " + Decimal(s.sequence), "timestamp = " + Decimal(s.timestamp), "", "[storage]"]
  }

  function EventsHeading(): seq<string> {
    ["", "[events]"]
  }

  function VerdictsHeading(): seq<string> {
    ["", "[verdicts]"]
  }

  function BodyLines(table: AliasTable, s: Scenario): seq<string> {
    HeaderLines(s) + Sort(StorageLines(table, s.storage))
    + EventsHeading() + EventLines(table, s.events)
    + VerdictsHeading() + VerdictLines(s.verdicts)
  }

  function Body(table: AliasTable, s: Scenario): string {
    Unlines(BodyLines(table, s))
  }

  // ----- the renderer -----

  lemma {:induction false} UnlinesSnoc(lines: seq<string>, line: string)
    ensures Unlines(lines + [line]) == Unlines(lines) + line + "\n"
  {
    UnlinesConcat(lines, [line]);
    assert Unlines([line]) == line + "\n" + "";
  }

  /** Appends `lines` to a text that holds the lines `before`. */
  method PushLines(out: string, ghost before: seq<string>, lines: seq<string>) returns (out': string)
    requires out == Unlines(before)
    ensures out' == Unlines(before + lines)
  {
    out' := out;
    assert before + lines[..0] == before;
    for i := 0 to |lines|
      invariant out' == Unlines(before + lines[..i])
    {
      UnlinesSnoc(before + lines[..i], lines[i]);
      assert before + lines[..i + 1] == before + lines[..i] + [lines[i]];
      out' := out' + lines[i] + "\n";
    }
    assert lines[..|lines|] == lines;
  }

  method CollectStorage(table: AliasTable, storage: seq<StorageEntry>) returns (lines: seq<string>)
    ensures lines == StorageLines(table, storage)
  {
    lines := [];
    for i := 0 to |storage|
      invariant lines == StorageLines(table, storage[..i])
    {
      lines := lines + [StorageLine(table, storage[i])];
    }
    assert storage[..|storage|] == storage;
  }

  method CollectEvents(table: AliasTable, events: seq<ContractEvent>) returns (lines: seq<string>)
    ensures lines == EventLines(table, events)
  {
    lines := [];
    for i := 0 to |events|
      invariant lines == EventLines(table, events[..i])
    {
      lines := lines + [EventLine(table, events[i])];
    }
    assert events[..|events|] == events;
  }

  method CollectVerdicts(verdicts: seq<Verdict>) returns (lines: seq<string>)
    ensures lines == VerdictLines(verdicts)
  {
    lines := [];
    for i := 0 to |verdicts|
      invariant lines == VerdictLines(verdicts[..i])
    {
      lines := lines + [VerdictLine(verdicts[i])];
    }
    assert verdicts[..|verdicts|] == verdicts;
  }

  method RenderBody(table: AliasTable, s: Scenario) returns (out: string)
    ensures out == Body(table, s)
  {
    var head := HeaderLines(s);
    out := PushLines("", [], head);
    var storage := CollectStorage(table, s.storage);
    storage := Sort(storage);
    out := PushLines(out, [] + head, storage);
    out := PushLines(out, [] + head + storage, EventsHeading());
    var events := CollectEvents(table, s.events);
    out := PushLines(out, [] + head + storage + EventsHeading(), events);
    out := PushLines(out, [] + head + storage + EventsHeading() + events, VerdictsHeading());
    var verdicts := CollectVerdicts(s.verdicts);
    out := PushLines(out, [] + head + storage + EventsHeading() + events + VerdictsHeading(), verdicts);
    assert [] + head == head;
  }

  // ----- scenarios that can be told apart -----

  predicate CleanEntry(table: AliasTable, e: StorageEntry) {
    All(e.contract, IsAliasChar) && Renderable(table, e.key) && Renderable(table, e.val)
  }

  predicate CleanEvent(table: AliasTable, e: ContractEvent) {
    && (e.contract.Some? ==> Lookup(table, e.contract.value).Some?)
    && Renderable(table, Vec(e.topics)) && Renderable(table, e.data)
  }

  /** Contract names and aliases are delimiter-free, every address has an alias, symbols keep to their alphabet, and
      call descriptions are single lines. */
  ghost predicate Clean(table: AliasTable, s: Scenario) {
    && (forall i | 0 <= i < |s.storage| :: CleanEntry(table, s.storage[i]))
    && (forall i | 0 <= i < |s.events| :: CleanEvent(table, s.events[i]))
    && (forall i | 0 <= i < |s.verdicts| :: All(s.verdicts[i].call, NotNewline))
  }

  // ----- every line is one line -----

  lemma AllConcat(a: string, b: string, p: char -> bool)
    requires All(a, p) && All(b, p)
    ensures All(a + b, p)
  {
  }

  lemma {:induction false} LeafIsOneLine(table: AliasTable, v: ScVal)
    requires CleanAliases(table) && Renderable(table, v) && IsLeaf(v)
    ensures All(ValueText(table, v), NotNewline)
  {
    match v
    case U32(n) => NumberIsOneLine("u32:", n);
    case U64(n) => NumberIsOneLine("u64:", n);
    case I32(i) => NumberIsOneLine("i32:", i);
    case I64(i) => NumberIsOneLine("i64:", i);
    case Bytes(bs) => HexBack(bs); AllConcat("bytes:", Hex(bs), NotNewline);
    case Symbol(name) => AllConcat("sym:", name, NotNewline);
    case Addr(a) =>
      var at := LookupIsListed(table, a);
      assert All(table[at].1, IsAliasChar);
      AllConcat("addr:", table[at].1, NotNewline);
    case _ =>
  }

  lemma NumberIsOneLine(tag: string, i: int)
    requires All(tag, NotNewline)
    ensures All(tag + Integer(i), NotNewline)
  {
    DecimalRoundTrip(if i < 0 then -i else i);
  }

  lemma {:induction false} ValueIsOneLine(table: AliasTable, v: ScVal)
    requires CleanAliases(table) && Renderable(table, v)
    ensures All(ValueText(table, v), NotNewline)
    decreases v, 1
  {
    match v
    case Vec(items) => ItemsAreOneLine(table, items);
    case Map(entries) => EntriesAreOneLine(table, entries);
    case _ => LeafIsOneLine(table, v);
  }

  lemma {:induction false} ItemsAreOneLine(table: AliasTable, items: seq<ScVal>)
    requires CleanAliases(table) && forall i | 0 <= i < |items| :: Renderable(table, items[i])
    ensures All(ItemsText(table, items), NotNewline)
    decreases items, 0
  {
    if items != [] {
      ValueIsOneLine(table, items[0]);
      ItemsAreOneLine(table, items[1..]);
    }
  }

  lemma {:induction false} EntriesAreOneLine(table: AliasTable, entries: seq<MapEntry>)
    requires CleanAliases(table)
    requires forall i | 0 <= i < |entries| :: Renderable(table, entries[i].key) && Renderable(table, entries[i].val)
    ensures All(EntriesText(table, entries), NotNewline)
    decreases entries, 0
  {
    if entries != [] {
      EntryIsOneLine(table, entries[0]);
      EntriesAreOneLine(table, entries[1..]);
    }
  }

  lemma {:induction false} EntryIsOneLine(table: AliasTable, e: MapEntry)
    requires CleanAliases(table) && Renderable(table, e.key) && Renderable(table, e.val)
    ensures All(EntryText(table, e), NotNewline)
    decreases e, 1
  {
    ValueIsOneLine(table, e.key);
    ValueIsOneLine(table, e.val);
  }
}
