/** Reading a whole snapshot body back, section by section. */
module SnapshotReader {
  import opened Shared
  import opened Text
  import opened Render
  import opened RenderLaws
  import opened Sorting
  import opened Snapshot
  import opened SnapshotLaws

  // ----- verdict lines -----

  predicate EndsWith(s: string, suffix: string) {
    |suffix| <= |s| && s[|s| - |suffix|..] == suffix
  }

  function ReadVerdictLine(line: string): Option<Verdict> {
    if EndsWith(line, " = true") then Some(Verdict(line[..|line| - 7], true))
    else if EndsWith(line, " = false") then Some(Verdict(line[..|line| - 8], false))
    else None
  }

  /** A verdict line is the call followed by " = true" if the verdict holds and by " = false" if it does not. */
  lemma VerdictLineSays(v: Verdict)
    ensures StartsWith(VerdictLine(v), v.call)
    ensures EndsWith(VerdictLine(v), " = true") <==> v.holds
    ensures EndsWith(VerdictLine(v), " = false") <==> !v.holds
    ensures |VerdictLine(v)| == |v.call| + if v.holds then 7 else 8
  {
    var line, n := VerdictLine(v), |v.call|;
    if v.holds {
      assert line[n..] == " = true";
      assert line[|line| - 2] == 'u' && " = false"[6] == 's';
      assert |line| >= 8 ==> line[|line| - 8..][6] == line[|line| - 2];
    } else {
      assert line[n..] == " = false";
      assert line[|line| - 2] == 's' && " = true"[5] == 'u';
      assert line[|line| - 7..][5] == line[|line| - 2];
    }
  }

  lemma VerdictLineBack(v: Verdict)
    ensures ReadVerdictLine(VerdictLine(v)) == Some(v)
  {
    VerdictLineSays(v);
  }

  // ----- numbers under their labels -----

  function ReadLabelled(caption: string, line: string): Option<nat> {
    if !StartsWith(line, caption) then None
    else
      match ReadNat(Drop(line, |caption|))
      case Fail => None
      case Parsed(n, rest) => if rest == "" then Some(n) else None
  }

  lemma {:induction false} LabelledBack(caption: string, n: nat)
    ensures ReadLabelled(caption, caption + Decimal(n)) == Some(n)
  {
    DropPrefix(caption, Decimal(n));
    NatBack(n, "");
    assert Decimal(n) + "" == Decimal(n);
  }

  // ----- sections -----

  datatype Cut = Cut(section: seq<string>, rest: seq<string>)

  /** The lines before the first blank one, and those after it. */
  function CutAtBlank(lines: seq<string>): Cut {
    if lines == [] then Cut([], [])
    else if lines[0] == "" then Cut([], lines[1..])
    else
      var c := CutAtBlank(lines[1..]);
      Cut([lines[0]] + c.section, c.rest)
  }

  lemma {:induction false} CutBack(section: seq<string>, rest: seq<string>)
    requires NonBlank(section)
    ensures CutAtBlank(section + [""] + rest) == Cut(section, rest)
  {
    var all := section + [""] + rest;
    if section == [] {
      assert all == [""] + rest && all[1..] == rest;
    } else {
      assert all[0] == section[0] && all[1..] == section[1..] + [""] + rest;
      CutBack(section[1..], rest);
      assert section == [section[0]] + section[1..];
    }
  }

  function ReadAll<T>(read: string -> Option<T>, lines: seq<string>): Option<seq<T>> {
    if lines == [] then Some([])
    else
      var x, more := read(lines[0]), ReadAll(read, lines[1..]);
      if x.None? || more.None? then None else Some([x.value] + more.value)
  }

  lemma {:induction false} ReadAllBack<T>(read: string -> Option<T>, lines: seq<string>, items: seq<T>)
    requires |lines| == |items| && forall i | 0 <= i < |lines| :: read(lines[i]) == Some(items[i])
    ensures ReadAll(read, lines) == Some(items)
  {
    if lines != [] {
      ReadAllBack(read, lines[1..], items[1..]);
      assert items == [items[0]] + items[1..];
    }
  }

  // ----- the body -----

  function ReadSections(table: AliasTable, sequence: nat, timestamp: nat, storage: seq<string>, events: seq<string>,
                        verdicts: seq<string>): Option<Scenario> {
    var st := ReadAll((l: string) => ReadStorageLine(table, l), storage);
    var ev := ReadAll((l: string) => ReadEventLine(table, l), events);
    var vd := ReadAll(ReadVerdictLine, verdicts);
    if st.None? || ev.None? || vd.None? then None
    else Some(Scenario(sequence, timestamp, st.value, ev.value, vd.value))
  }

  /** The sections after the heading of the first one. */
  function ReadRest(table: AliasTable, sequence: nat, timestamp: nat, lines: seq<string>): Option<Scenario> {
    var st := CutAtBlank(lines);
    if st.rest == [] || st.rest[0] != "[events]" then None
    else
      var ev := CutAtBlank(st.rest[1..]);
      if ev.rest == [] || ev.rest[0] != "[verdicts]" then None
      else ReadSections(table, sequence, timestamp, st.section, ev.section, ev.rest[1..])
  }

  function ReadLines(table: AliasTable, lines: seq<string>): Option<Scenario> {
    if |lines| < 5 || lines[0] != "[ledger]" || lines[3] != "" || lines[4] != "[storage]" then None
    else
      var sequence, timestamp := ReadLabelled("sequence = ", lines[1]), ReadLabelled("timestamp = ", lines[2]);
      if sequence.None? || timestamp.None? then None
      else ReadRest(table, sequence.value, timestamp.value, lines[5..])
  }

  function ReadBody(table: AliasTable, text: string): Option<Scenario> {
    ReadLines(table, Lines(text))
  }

  lemma StorageBack(table: AliasTable, storage: seq<StorageEntry>) returns (sorted: seq<StorageEntry>)
    requires CleanAliases(table) && DistinctAliases(table)
    requires forall i | 0 <= i < |storage| :: CleanEntry(table, storage[i])
    ensures ReadAll((l: string) => ReadStorageLine(table, l), Sort(StorageLines(table, storage))) == Some(sorted)
    ensures multiset(sorted) == multiset(storage)
  {
    var lines := StorageLines(table, storage);
    var read := (l: string) => ReadStorageLine(table, l);
    var entry := (l: string) => EntryOf(table, l);
    sorted := Each(entry, Sort(lines));
    SortSorts(lines);
    EachRespectsBags(entry, Sort(lines), lines);
    LinesBack(table, storage);
    forall i | 0 <= i < |Sort(lines)| ensures read(Sort(lines)[i]) == Some(sorted[i]) {
      SameMembers(Sort(lines), lines, Sort(lines)[i]);
      var j :| 0 <= j < |lines| && lines[j] == Sort(lines)[i];
      StorageLineBack(table, storage[j]);
    }
    ReadAllBack(read, Sort(lines), sorted);
  }

  lemma EventsBack(table: AliasTable, events: seq<ContractEvent>)
    requires CleanAliases(table) && DistinctAliases(table)
    requires forall i | 0 <= i < |events| :: CleanEvent(table, events[i])
    ensures ReadAll((l: string) => ReadEventLine(table, l), EventLines(table, events)) == Some(events)
  {
    var read, lines := (l: string) => ReadEventLine(table, l), EventLines(table, events);
    forall i | 0 <= i < |lines| ensures read(lines[i]) == Some(events[i]) {
      EventLineBack(table, events[i]);
    }
    ReadAllBack(read, lines, events);
  }

  lemma VerdictsBack(verdicts: seq<Verdict>)
    ensures ReadAll(ReadVerdictLine, VerdictLines(verdicts)) == Some(verdicts)
  {
    var lines := VerdictLines(verdicts);
    forall i | 0 <= i < |lines| ensures ReadVerdictLine(lines[i]) == Some(verdicts[i]) {
      VerdictLineBack(verdicts[i]);
    }
    ReadAllBack(ReadVerdictLine, lines, verdicts);
  }

  lemma RestBack(table: AliasTable, sequence: nat, timestamp: nat, st: seq<string>, ev: seq<string>, vd: seq<string>)
    requires NonBlank(st) && NonBlank(ev)
    ensures ReadRest(table, sequence, timestamp, st + EventsHeading() + ev + VerdictsHeading() + vd)
         == ReadSections(table, sequence, timestamp, st, ev, vd)
  {
    var tail := ["[verdicts]"] + vd;
    var middle := ["[events]"] + (ev + [""] + tail);
    assert st + EventsHeading() + ev + VerdictsHeading() + vd == st + [""] + middle;
    CutBack(st, middle);
    assert middle[1..] == ev + [""] + tail;
    CutBack(ev, tail);
    assert tail[1..] == vd;
  }

  /** The first five lines of a body: the ledger position, each number under its own label. */
  lemma BodyOpens(table: AliasTable, s: Scenario)
    ensures
      var lines := BodyLines(table, s);
      && |lines| >= 5 && lines[0] == "[ledger]" && lines[3] == "" && lines[4] == "[storage]"
      && ReadLabelled("sequence = ", lines[1]) == Some(s.sequence)
      && ReadLabelled("timestamp = ", lines[2]) == Some(s.timestamp)
      && lines[5..] == Sort(StorageLines(table, s.storage)) + EventsHeading() + EventLines(table, s.events)
                       + VerdictsHeading() + VerdictLines(s.verdicts)
  {
    LabelledBack("sequence = ", s.sequence);
    LabelledBack("timestamp = ", s.timestamp);
    var rest := Sort(StorageLines(table, s.storage)) + EventsHeading() + EventLines(table, s.events)
                + VerdictsHeading() + VerdictLines(s.verdicts);
    assert BodyLines(table, s) == HeaderLines(s) + rest;
  }

  /** The round trip of a whole snapshot: reading the body of a clean scenario gives back the ledger position, the
      storage entries up to their order, and the events and verdicts exactly. */
  lemma BodyBack(table: AliasTable, s: Scenario) returns (r: Scenario)
    requires CleanAliases(table) && DistinctAliases(table) && Clean(table, s)
    ensures ReadBody(table, Body(table, s)) == Some(r)
    ensures r.sequence == s.sequence && r.timestamp == s.timestamp && multiset(r.storage) == multiset(s.storage)
    ensures r.events == s.events && r.verdicts == s.verdicts
  {
    BodyLinesAreSingle(table, s);
    LinesOfUnlines(BodyLines(table, s));
    BodyOpens(table, s);
    SortedStorageShape(table, s.storage);
    EventsShape(table, s.events);
    RestBack(table, s.sequence, s.timestamp, Sort(StorageLines(table, s.storage)), EventLines(table, s.events),
             VerdictLines(s.verdicts));
    var sorted := StorageBack(table, s.storage);
    EventsBack(table, s.events);
    VerdictsBack(s.verdicts);
    r := Scenario(s.sequence, s.timestamp, sorted, s.events, s.verdicts);
  }

  // ----- lines of the stored fixtures, character by character -----

  lemma {:induction false} OneItemText(table: AliasTable, v: ScVal)
    ensures ValueText(table, Vec([v])) == "[" + ValueText(table, v) + "]"
  {
  }

  lemma {:induction false} TwoItemsText(table: AliasTable, v: ScVal, v': ScVal)
    ensures ValueText(table, Vec([v, v'])) == "[" + (ValueText(table, v) + ", " + ValueText(table, v')) + "]"
  {
    var items := [v, v'];
    assert items[1..] == [v'];
    assert ItemsText(table, items) == ValueText(table, v) + ", " + ItemsText(table, [v']);
  }

  lemma {:induction false} OneEntryText(table: AliasTable, k: ScVal, v: ScVal)
    ensures ValueText(table, Map([MapEntry(k, v)])) == "{" + (ValueText(table, k) + ": " + ValueText(table, v)) + "}"
  {
    assert EntriesText(table, [MapEntry(k, v)]) == EntryText(table, MapEntry(k, v));
  }

  lemma {:induction false} FixtureKey(table: AliasTable)
    ensures ValueText(table, Vec([Symbol("Schema"), U32(1)])) == "[sym:Schema, u32:1]"
  {
    TwoItemsText(table, Symbol("Schema"), U32(1));
    assert ValueText(table, U32(1)) == "u32:1";
    assert ValueText(table, Symbol("Schema")) == "sym:Schema";
  }

  lemma {:induction false} StorageLineSays(table: AliasTable, contract: string, key: ScVal, val: ScVal)
    ensures
      var rest := ValueText(table, key) + (" = " + ValueText(table, val));
      && StorageLine(table, StorageEntry(contract, InstanceClass, key, val)) == contract + " instance " + rest
      && StorageLine(table, StorageEntry(contract, PersistentClass, key, val)) == contract + " persistent " + rest
      && StorageLine(table, StorageEntry(contract, TemporaryClass, key, val)) == contract + " temporary " + rest
  {
    var rest := ValueText(table, key) + (" = " + ValueText(table, val));
    Spaced(contract, "instance", rest);
    Spaced(contract, "persistent", rest);
    Spaced(contract, "temporary", rest);
    assert " " + "instance" + " " == " instance ";
    assert " " + "persistent" + " " == " persistent ";
    assert " " + "temporary" + " " == " temporary ";
  }

  lemma Spaced(contract: string, word: string, rest: string)
    ensures contract + (" " + (word + (" " + rest))) == contract + (" " + word + " ") + rest
  {
  }

  lemma {:induction false} EventLineSays(table: AliasTable, e: ContractEvent)
    ensures
      var name := if e.contract.None? then "<no-contract>"
                  else if Lookup(table, e.contract.value).Some? then Lookup(table, e.contract.value).value
                  else "<UNALIASED>";
      EventLine(table, e) == name + " topics=" + ValueText(table, Vec(e.topics)) + " data=" + ValueText(table, e.data)
  {
    Flattened(ContractName(table, e.contract), " topics=", ValueText(table, Vec(e.topics)), " data=", ValueText(table, e.data));
  }

  lemma Flattened(a: string, b: string, c: string, d: string, e: string)
    ensures a + (b + (c + (d + e))) == a + b + c + d + e
  {
  }

  lemma {:induction false} EventDataSays(table: AliasTable, name: string, a: Address)
    requires Lookup(table, a).Some?
    ensures ValueText(table, Map([MapEntry(Symbol(name), Addr(a))])) == "{sym:" + name + ": addr:" + Lookup(table, a).value + "}"
  {
    OneEntryText(table, Symbol(name), Addr(a));
    Braced(name, Lookup(table, a).value);
  }

  lemma Braced(name: string, alias: string)
    ensures "{" + (("sym:" + name) + ": " + ("addr:" + alias)) + "}" == "{sym:" + name + ": addr:" + alias + "}"
  {
    assert "{" + "sym:" == "{sym:" && ": " + "addr:" == ": addr:";
  }

  lemma FixtureVerdictLines()
    ensures VerdictLine(Verdict("protocol-config.is_paused", false)) == "protocol-config.is_paused = false"
    ensures VerdictLine(Verdict("proof-registry.is_revoked(proof)", true)) == "proof-registry.is_revoked(proof) = true"
  {
  }

  lemma {:induction false} FixtureLeaves(table: AliasTable)
    ensures ValueText(table, U64(1000)) == "u64:1000" && ValueText(table, Bool(false)) == "false"
    ensures ValueText(table, Bytes([0x11, 0xaf])) == "bytes:11af" && ValueText(table, Void) == "void"
    ensures ValueText(table, I32(-7)) == "i32:-7" && ValueText(table, I64(42)) == "i64:42"
  {
    assert Decimal(1000) == Decimal(100) + "0";
    assert Decimal(100) == Decimal(10) + "0";
    assert [0x11, 0xaf][1..] == [0xaf];
    assert Hex([0xaf]) == "af";
  }
}
