/** Rendering, writing and parsing put together: what a fixture on disk says about the scenario it was made from. */
module SnapshotFixtures {
  import opened Shared
  import opened Text
  import opened Render
  import opened Snapshot
  import opened SnapshotLaws
  import opened Fixtures
  import opened FixtureLaws

  /** What parsing a regenerated fixture should give. */
  function Expected(file: Option<string>, scenario: string, rawReason: string, rendered: string, sha256: Hasher): Fixture
    requires PreviousRevision(file).Some? && PreviousRevision(file).value < U32_MAX
  {
    var body := TrimNewlines(rendered);
    Fixture(scenario, PreviousRevision(file).value + 1, Trim(rawReason), Digest(sha256, body), body)
  }

  lemma RegeneratedContents(file: Option<string>, scenario: string, rawReason: string, rendered: string, sha256: Hasher)
    requires Regenerated(file, scenario, rawReason, rendered, sha256).Some?
    ensures PreviousRevision(file).Some? && PreviousRevision(file).value < U32_MAX && Acceptable(Trim(rawReason))
    ensures
      var f := Expected(file, scenario, rawReason, rendered, sha256);
      Regenerated(file, scenario, rawReason, rendered, sha256).value
      == Contents(f.scenario, f.revision, f.reason, f.digest, f.body)
  {
  }

  lemma ExpectedIsWritable(file: Option<string>, scenario: string, rawReason: string, rendered: string, sha256: Hasher)
    requires HeaderValue(scenario) && Acceptable(Trim(rawReason))
    requires PreviousRevision(file).Some? && PreviousRevision(file).value < U32_MAX
    ensures
      var f := Expected(file, scenario, rawReason, rendered, sha256);
      HeaderValue(f.scenario) && HeaderValue(f.reason) && HeaderValue(f.digest) && !EndsInNewline(f.body)
  {
    TrimTrims(rawReason);
    DigestIsHeaderValue(sha256, TrimNewlines(rendered));
    TrimNewlinesTrims(rendered);
  }

  lemma WrittenFixtureReads(f: Fixture)
    requires HeaderValue(f.scenario) && HeaderValue(f.reason) && HeaderValue(f.digest) && !EndsInNewline(f.body)
    ensures Fixtures.Parsed(Contents(f.scenario, f.revision, f.reason, f.digest, f.body)) == Some(f) <==> NoCrLf(f.body + "\n")
  {
    ParseInvertsWrite(f.scenario, f.revision, f.reason, f.digest, f.body);
  }

  /** Parsing a regenerated fixture gives back the scenario, the next revision, the trimmed reason, the rendered body
      without its last newlines, and the digest of exactly that body, if and only if no carriage return in the body
      stands before a newline or at its end. */
  lemma {:induction false} RegeneratedFixtureReads(file: Option<string>, scenario: string, rawReason: string, rendered: string, sha256: Hasher)
    requires HeaderValue(scenario) && Regenerated(file, scenario, rawReason, rendered, sha256).Some?
    ensures PreviousRevision(file).Some? && PreviousRevision(file).value < U32_MAX
    ensures Fixtures.Parsed(Regenerated(file, scenario, rawReason, rendered, sha256).value)
            == Some(Expected(file, scenario, rawReason, rendered, sha256))
            <==> NoCrLf(TrimNewlines(rendered) + "\n")
  {
    RegeneratedContents(file, scenario, rawReason, rendered, sha256);
    ExpectedIsWritable(file, scenario, rawReason, rendered, sha256);
    WrittenFixtureReads(Expected(file, scenario, rawReason, rendered, sha256));
  }

  // ----- the last newline carries nothing -----

  lemma {:induction false} TrimOneNewline(s: string)
    requires s != "" && s[|s| - 1] != '\n'
    ensures TrimNewlines(s + "\n") == s
  {
    assert (s + "\n")[..|s|] == s;
    assert TrimNewlines(s + "\n") == TrimNewlines(s);
  }

  lemma {:induction false} TrimOfUnlines(lines: seq<string>, last: string)
    requires last != "" && last[|last| - 1] != '\n'
    ensures TrimNewlines(Unlines(lines + [last])) + "\n" == Unlines(lines + [last])
  {
    UnlinesSnoc(lines, last);
    var s := Unlines(lines) + last;
    assert s[|s| - 1] == last[|last| - 1];
    TrimOneNewline(s);
  }

  lemma VerdictLineEnds(v: Verdict)
    ensures VerdictLine(v) != "" && VerdictLine(v)[|VerdictLine(v)| - 1] == 'e'
  {
  }

  lemma BodyEndsInOneNewline(table: AliasTable, s: Scenario)
    ensures TrimNewlines(Body(table, s)) + "\n" == Body(table, s)
  {
    var lines := BodyLines(table, s);
    var n := |lines| - 1;
    if s.verdicts == [] {
      assert lines[n] == "[verdicts]";
    } else {
      var v := s.verdicts[|s.verdicts| - 1];
      VerdictLineEnds(v);
      assert lines[n] == VerdictLine(v);
    }
    assert lines == lines[..n] + [lines[n]];
    TrimOfUnlines(lines[..n], lines[n]);
  }

  /** Two regenerated fixtures carry the same body exactly when their scenarios agree on the ledger position, the
      storage entries, the events and the verdicts: the file on disk hides no contract state either. */
  lemma FixturesAgreeExactlyWhenScenariosDo(
      table: AliasTable, s: Scenario, s': Scenario, file: Option<string>, file': Option<string>, name: string,
      rawReason: string, rawReason': string, sha256: Hasher)
    requires CleanAliases(table) && DistinctAliases(table) && Clean(table, s) && Clean(table, s') && HeaderValue(name)
    requires NoCrLf(Body(table, s)) && NoCrLf(Body(table, s'))
    requires Regenerated(file, name, rawReason, Body(table, s), sha256).Some?
    requires Regenerated(file', name, rawReason', Body(table, s'), sha256).Some?
    ensures
      var f := Fixtures.Parsed(Regenerated(file, name, rawReason, Body(table, s), sha256).value);
      var f' := Fixtures.Parsed(Regenerated(file', name, rawReason', Body(table, s'), sha256).value);
      && f.Some? && f'.Some?
      && (f.value.body == f'.value.body <==>
            && s.sequence == s'.sequence && s.timestamp == s'.timestamp
            && multiset(s.storage) == multiset(s'.storage) && s.events == s'.events && s.verdicts == s'.verdicts)
  {
    BodyEndsInOneNewline(table, s);
    BodyEndsInOneNewline(table, s');
    RegeneratedFixtureReads(file, name, rawReason, Body(table, s), sha256);
    RegeneratedFixtureReads(file', name, rawReason', Body(table, s'), sha256);
    BodyIsFaithful(table, s, s');
  }
}
