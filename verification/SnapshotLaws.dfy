/** A snapshot body determines the ledger position, the bag of storage entries, the events and the verdicts. */
module SnapshotLaws {
  import opened Shared
  import opened Text
  import opened Render
  import opened RenderLaws
  import opened Sorting
  import opened Snapshot

  // ----- reading a storage line back -----

  function ReadDurability(s: string): Parsed<Durability> {
    if StartsWith(s, "instance ") then Parsed(InstanceClass, Drop(s, 9))
    else if StartsWith(s, "persistent ") then Parsed(PersistentClass, Drop(s, 11))
    else if StartsWith(s, "temporary ") then Parsed(TemporaryClass, Drop(s, 10))
    else Fail
  }

  function ReadStorageLine(table: AliasTable, line: string): Option<StorageEntry> {
    var name := Span(line, IsAliasChar);
    var d := ReadDurability(Drop(name.1, 1));
    if d.Fail? then None
    else
      var key := Read(table, d.rest);
      if key.Fail? then None
      else
        var val := Read(table, Drop(key.rest, 3));
        if val.Fail? then None else Some(StorageEntry(name.0, d.value, key.value, val.value))
  }

  lemma DurabilityBack(d: Durability, rest: string)
    ensures ReadDurability(DurabilityText(d) + (" " + rest)) == Parsed(d, rest)
  {
    var s := DurabilityText(d) + (" " + rest);
    match d
    case InstanceClass => assert s == "instance " + rest; DropPrefix("instance ", rest);
    case PersistentClass => assert s == "persistent " + rest; DropPrefix("persistent ", rest); assert s[..9][0] == 'p';
    case TemporaryClass =>
      assert s == "temporary " + rest;
      DropPrefix("temporary ", rest);
      assert s[..9][0] == 't';
      assert |s| >= 11 ==> s[..11][0] == 't';
  }

  lemma StorageLineBack(table: AliasTable, e: StorageEntry)
    requires CleanAliases(table) && DistinctAliases(table) && CleanEntry(table, e)
    ensures ReadStorageLine(table, StorageLine(table, e)) == Some(e)
  {
    var valText := ValueText(table, e.val);
    var keyText := ValueText(table, e.key) + (" = " + valText);
    var rest := " " + (DurabilityText(e.durability) + (" " + keyText));
    SpanSplits(e.contract, rest, IsAliasChar);
    DropPrefix(" ", DurabilityText(e.durability) + (" " + keyText));
    DurabilityBack(e.durability, keyText);
    ValueBack(table, e.key, " = " + valText);
    DropPrefix(" = ", valText);
    ValueBack(table, e.val, "");
    assert valText + "" == valText;
  }

  /** The inverse used on bags of lines; what it does to text that is no storage line does not matter. */
  function EntryOf(table: AliasTable, line: string): StorageEntry {
    var e := ReadStorageLine(table, line);
    if e.Some? then e.value else StorageEntry("", InstanceClass, Void, Void)
  }

  lemma LinesBack(table: AliasTable, storage: seq<StorageEntry>)
    requires CleanAliases(table) && DistinctAliases(table)
    requires forall i | 0 <= i < |storage| :: CleanEntry(table, storage[i])
    ensures Each((l: string) => EntryOf(table, l), StorageLines(table, storage)) == storage
  {
    forall i | 0 <= i < |storage| ensures EntryOf(table, StorageLines(table, storage)[i]) == storage[i] {
      StorageLineBack(table, storage[i]);
    }
  }

  /** Two sets of storage entries have the same sorted section exactly when they are the same set, in whatever order
      the host listed them. */
  lemma StorageSectionIsFaithful(table: AliasTable, a: seq<StorageEntry>, b: seq<StorageEntry>)
    requires CleanAliases(table) && DistinctAliases(table)
    requires forall i | 0 <= i < |a| :: CleanEntry(table, a[i])
    requires forall i | 0 <= i < |b| :: CleanEntry(table, b[i])
    ensures Sort(StorageLines(table, a)) == Sort(StorageLines(table, b)) <==> multiset(a) == multiset(b)
  {
    SortIsCanonical(StorageLines(table, a), StorageLines(table, b));
    if multiset(a) == multiset(b) {
      EachRespectsBags((e: StorageEntry) => StorageLine(table, e), a, b);
    }
    if multiset(StorageLines(table, a)) == multiset(StorageLines(table, b)) {
      EachRespectsBags((l: string) => EntryOf(table, l), StorageLines(table, a), StorageLines(table, b));
      LinesBack(table, a);
      LinesBack(table, b);
    }
  }

  // ----- reading an event line back -----

  datatype EventTail = EventTail(topics: seq<ScVal>, data: ScVal)

  function ReadEventTail(table: AliasTable, rest: string): Option<EventTail> {
    var topics := Read(table, Drop(rest, 8));
    if topics.Fail? || !topics.value.Vec? then None
    else
      var data := Read(table, Drop(topics.rest, 6));
      if data.Fail? then None else Some(EventTail(topics.value.items, data.value))
  }

  function ReadEventLine(table: AliasTable, line: string): Option<ContractEvent> {
    var anonymous := line != "" && line[0] == '<';
    var name := Span(line, IsAliasChar);
    var tail := ReadEventTail(table, if anonymous then Drop(line, 13) else name.1);
    if tail.None? then None
    else Some(ContractEvent(if anonymous then None else WhoIs(table, name.0, 0), tail.value.topics, tail.value.data))
  }

  lemma {:induction false} EventTailBack(table: AliasTable, e: ContractEvent, rest: string)
    requires CleanAliases(table) && DistinctAliases(table) && CleanEvent(table, e)
    requires rest == " topics=" + (ValueText(table, Vec(e.topics)) + (" data=" + ValueText(table, e.data)))
    ensures ReadEventTail(table, rest) == Some(EventTail(e.topics, e.data))
  {
    var dataText := ValueText(table, e.data);
    var topicsText := ValueText(table, Vec(e.topics)) + (" data=" + dataText);
    DropPrefix(" topics=", topicsText);
    ValueBack(table, Vec(e.topics), " data=" + dataText);
    DropPrefix(" data=", dataText);
    ValueBack(table, e.data, "");
    assert dataText + "" == dataText;
  }

  lemma EventLineBack(table: AliasTable, e: ContractEvent)
    requires CleanAliases(table) && DistinctAliases(table) && CleanEvent(table, e)
    ensures ReadEventLine(table, EventLine(table, e)) == Some(e)
  {
    var rest := " topics=" + (ValueText(table, Vec(e.topics)) + (" data=" + ValueText(table, e.data)));
    EventTailBack(table, e, rest);
    if e.contract.None? {
      DropPrefix("<no-contract>", rest);
      assert EventLine(table, e)[0] == '<';
    } else {
      var alias := Lookup(table, e.contract.value).value;
      AliasBack(table, e.contract.value);
      SpanSplits(alias, rest, IsAliasChar);
      assert EventLine(table, e) == alias + rest;
      assert rest[0] == ' ' && (alias != "" ==> IsAliasChar(alias[0]));
    }
  }

  lemma EventLinesAreFaithful(table: AliasTable, a: seq<ContractEvent>, b: seq<ContractEvent>)
    requires CleanAliases(table) && DistinctAliases(table)
    requires forall i | 0 <= i < |a| :: CleanEvent(table, a[i])
    requires forall i | 0 <= i < |b| :: CleanEvent(table, b[i])
    ensures EventLines(table, a) == EventLines(table, b) <==> a == b
  {
    if EventLines(table, a) == EventLines(table, b) {
      assert |a| == |EventLines(table, a)| == |b|;
      forall i | 0 <= i < |a| ensures a[i] == b[i] {
        assert EventLines(table, a)[i] == EventLines(table, b)[i];
        EventLineBack(table, a[i]);
        EventLineBack(table, b[i]);
      }
    }
  }

  // ----- verdicts -----

  lemma VerdictLineIsFaithful(v: Verdict, v': Verdict)
    requires VerdictLine(v) == VerdictLine(v')
    ensures v == v'
  {
    var line, line' := VerdictLine(v), VerdictLine(v');
    var n := |line|;
    assert line[n - 4] == (if v.holds then 't' else 'a');
    assert line'[n - 4] == (if v'.holds then 't' else 'a');
    assert v.call == line[..|v.call|] && v'.call == line'[..|v'.call|];
  }

  lemma VerdictLinesAreFaithful(a: seq<Verdict>, b: seq<Verdict>)
    ensures VerdictLines(a) == VerdictLines(b) <==> a == b
  {
    if VerdictLines(a) == VerdictLines(b) {
      assert |a| == |VerdictLines(a)| == |b|;
      forall i | 0 <= i < |a| ensures a[i] == b[i] {
        assert VerdictLines(a)[i] == VerdictLines(b)[i];
        VerdictLineIsFaithful(a[i], b[i]);
      }
    }
  }

  // ----- the whole body -----

  ghost predicate NonBlank(lines: seq<string>) {
    forall i | 0 <= i < |lines| :: lines[i] != ""
  }

  /** A run of non-blank lines up to the first blank one can be cut off in one way only. */
  lemma BlankLineSplits(a: seq<string>, b: seq<string>, a': seq<string>, b': seq<string>)
    requires NonBlank(a) && NonBlank(a') && a + [""] + b == a' + [""] + b'
    ensures a == a' && b == b'
  {
    var all := a + [""] + b;
    assert all[|a|] == "" && all[|a'|] == "";
    assert a == all[..|a|] && a' == all[..|a|];
    assert b == all[|a| + 1..] && b' == all[|a| + 1..];
  }

  lemma StorageLineShape(table: AliasTable, e: StorageEntry)
    requires CleanAliases(table) && CleanEntry(table, e)
    ensures StorageLine(table, e) != "" && All(StorageLine(table, e), NotNewline)
  {
    ValueIsOneLine(table, e.key);
    ValueIsOneLine(table, e.val);
    var tail := ValueText(table, e.key) + (" = " + ValueText(table, e.val));
    assert All(tail, NotNewline);
    assert All(DurabilityText(e.durability), NotNewline);
  }

  lemma EventLineShape(table: AliasTable, e: ContractEvent)
    requires CleanAliases(table) && CleanEvent(table, e)
    ensures EventLine(table, e) != "" && All(EventLine(table, e), NotNewline)
  {
    ValueIsOneLine(table, Vec(e.topics));
    ValueIsOneLine(table, e.data);
    if e.contract.Some? {
      var at := LookupIsListed(table, e.contract.value);
      assert All(table[at].1, IsAliasChar);
    }
    var tail := " topics=" + (ValueText(table, Vec(e.topics)) + (" data=" + ValueText(table, e.data)));
    assert All(tail, NotNewline);
    assert All(ContractName(table, e.contract), NotNewline);
  }

  lemma SortedStorageShape(table: AliasTable, storage: seq<StorageEntry>)
    requires CleanAliases(table) && forall i | 0 <= i < |storage| :: CleanEntry(table, storage[i])
    ensures NonBlank(Sort(StorageLines(table, storage))) && SingleLines(Sort(StorageLines(table, storage)))
  {
    var lines := StorageLines(table, storage);
    SortSorts(lines);
    forall i | 0 <= i < |Sort(lines)| ensures Sort(lines)[i] != "" && All(Sort(lines)[i], NotNewline) {
      SameMembers(Sort(lines), lines, Sort(lines)[i]);
      var j :| 0 <= j < |lines| && lines[j] == Sort(lines)[i];
      StorageLineShape(table, storage[j]);
    }
  }

  lemma EventsShape(table: AliasTable, events: seq<ContractEvent>)
    requires CleanAliases(table) && forall i | 0 <= i < |events| :: CleanEvent(table, events[i])
    ensures NonBlank(EventLines(table, events)) && SingleLines(EventLines(table, events))
  {
    forall i | 0 <= i < |events| ensures EventLines(table, events)[i] != "" && All(EventLines(table, events)[i], NotNewline) {
      EventLineShape(table, events[i]);
    }
  }

  lemma HeaderShape(s: Scenario)
    ensures SingleLines(HeaderLines(s)) && |HeaderLines(s)| == 5
  {
    DecimalRoundTrip(s.sequence);
    DecimalRoundTrip(s.timestamp);
  }

  lemma VerdictsShape(verdicts: seq<Verdict>)
    requires forall i | 0 <= i < |verdicts| :: All(verdicts[i].call, NotNewline)
    ensures SingleLines(VerdictLines(verdicts))
  {
  }

  lemma BodyLinesAreSingle(table: AliasTable, s: Scenario)
    requires CleanAliases(table) && Clean(table, s)
    ensures SingleLines(BodyLines(table, s))
  {
    HeaderShape(s);
    SortedStorageShape(table, s.storage);
    EventsShape(table, s.events);
    VerdictsShape(s.verdicts);
    assert SingleLines(EventsHeading()) && SingleLines(VerdictsHeading());
  }

  lemma HeaderIsFaithful(s: Scenario, s': Scenario)
    ensures HeaderLines(s) == HeaderLines(s') <==> s.sequence == s'.sequence && s.timestamp == s'.timestamp
  {
    DecimalRoundTrip(s.sequence);
    DecimalRoundTrip(s'.sequence);
    DecimalRoundTrip(s.timestamp);
    DecimalRoundTrip(s'.timestamp);
    if HeaderLines(s) == HeaderLines(s') {
      assert HeaderLines(s)[1] == HeaderLines(s')[1] && HeaderLines(s)[2] == HeaderLines(s')[2];
      assert Decimal(s.sequence) == HeaderLines(s)[1][11..] && Decimal(s'.sequence) == HeaderLines(s')[1][11..];
      assert Decimal(s.timestamp) == HeaderLines(s)[2][12..] && Decimal(s'.timestamp) == HeaderLines(s')[2][12..];
    }
  }

  /** The five parts of a body, cut out of its lines. */
  lemma SectionsAreDetermined(h: seq<string>, st: seq<string>, ev: seq<string>, vd: seq<string>,
                              h': seq<string>, st': seq<string>, ev': seq<string>, vd': seq<string>)
    requires |h| == |h'| && NonBlank(st) && NonBlank(st') && NonBlank(ev) && NonBlank(ev')
    requires h + st + EventsHeading() + ev + VerdictsHeading() + vd == h' + st' + EventsHeading() + ev' + VerdictsHeading() + vd'
    ensures h == h' && st == st' && ev == ev' && vd == vd'
  {
    var tail := ["[events]"] + (ev + [""] + (["[verdicts]"] + vd));
    var tail' := ["[events]"] + (ev' + [""] + (["[verdicts]"] + vd'));
    var all := h + (st + [""] + tail);
    assert all == h + st + EventsHeading() + ev + VerdictsHeading() + vd;
    assert all == h' + (st' + [""] + tail');
    assert h == all[..|h|] && h' == all[..|h|];
    assert st + [""] + tail == all[|h|..] && st' + [""] + tail' == all[|h|..];
    BlankLineSplits(st, tail, st', tail');
    assert ev + [""] + (["[verdicts]"] + vd) == tail[1..] && ev' + [""] + (["[verdicts]"] + vd') == tail'[1..];
    BlankLineSplits(ev, ["[verdicts]"] + vd, ev', ["[verdicts]"] + vd');
    assert vd == (["[verdicts]"] + vd)[1..] && vd' == (["[verdicts]"] + vd')[1..];
  }

  /** The snapshot hides no contract state: two clean scenarios have the same body exactly when they agree on the
      ledger position, on which storage entries exist with which contents, on the events in their order, and on every
      verdict. */
  lemma BodyIsFaithful(table: AliasTable, s: Scenario, s': Scenario)
    requires CleanAliases(table) && DistinctAliases(table) && Clean(table, s) && Clean(table, s')
    ensures Body(table, s) == Body(table, s') <==>
      && s.sequence == s'.sequence && s.timestamp == s'.timestamp
      && multiset(s.storage) == multiset(s'.storage) && s.events == s'.events && s.verdicts == s'.verdicts
  {
    HeaderIsFaithful(s, s');
    StorageSectionIsFaithful(table, s.storage, s'.storage);
    EventLinesAreFaithful(table, s.events, s'.events);
    VerdictLinesAreFaithful(s.verdicts, s'.verdicts);
    if Body(table, s) == Body(table, s') {
      BodyLinesAreSingle(table, s);
      BodyLinesAreSingle(table, s');
      LinesOfUnlines(BodyLines(table, s));
      LinesOfUnlines(BodyLines(table, s'));
      HeaderShape(s);
      HeaderShape(s');
      SortedStorageShape(table, s.storage);
      SortedStorageShape(table, s'.storage);
      EventsShape(table, s.events);
      EventsShape(table, s'.events);
      SectionsAreDetermined(
        HeaderLines(s), Sort(StorageLines(table, s.storage)), EventLines(table, s.events), VerdictLines(s.verdicts),
        HeaderLines(s'), Sort(StorageLines(table, s'.storage)), EventLines(table, s'.events), VerdictLines(s'.verdicts));
    }
  }
}
