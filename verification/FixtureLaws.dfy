/** The parser inverts the writer, exactly where carriage returns allow it, and revisions count regenerations. */
module FixtureLaws {
  import opened Shared
  import opened Text
  import opened Fixtures
  import Render
  import RenderLaws

  // ----- trimming -----

  predicate Trimmed(s: string) {
    s == "" || (!IsSpace(s[0]) && !IsSpace(s[|s| - 1]))
  }

  lemma TrimOfTrimmed(s: string)
    requires Trimmed(s)
    ensures Trim(s) == s
  {
  }

  lemma TrimOfPadded(s: string)
    requires Trimmed(s)
    ensures Trim(" " + s) == s
  {
    var padded := " " + s;
    assert IsSpace(padded[0]) && padded[1..] == s;
    assert TrimStart(padded) == TrimStart(s);
  }

  lemma {:induction false} TrimStartTrims(s: string)
    ensures TrimStart(s) == "" || !IsSpace(TrimStart(s)[0])
  {
    if s != "" && IsSpace(s[0]) {
      TrimStartTrims(s[1..]);
    }
  }

  lemma {:induction false} TrimEndTrims(s: string)
    ensures TrimEnd(s) == "" || (!IsSpace(TrimEnd(s)[|TrimEnd(s)| - 1]) && TrimEnd(s)[0] == s[0])
  {
    if s != "" && IsSpace(s[|s| - 1]) {
      TrimEndTrims(s[..|s| - 1]);
    }
  }

  lemma TrimTrims(s: string)
    ensures Trimmed(Trim(s))
  {
    TrimStartTrims(s);
    TrimEndTrims(TrimStart(s));
  }

  /** What the header format can carry: trimmed text on one line. */
  predicate HeaderValue(s: string) {
    Trimmed(s) && All(s, NotNewline)
  }

  // ----- carriage returns -----

  /** No carriage return stands right before a newline. */
  ghost predicate NoCrLf(s: string) {
    forall i :: !CrLfAt(s, i)
  }

  predicate CrLfAt(s: string, i: int) {
    0 <= i < |s| - 1 && s[i] == '\r' && s[i + 1] == '\n'
  }

  lemma NoCrLfInside(a: string, b: string)
    requires NoCrLf(a + b)
    ensures NoCrLf(a) && NoCrLf(b) && !(EndsInCr(a) && b != "" && b[0] == '\n')
  {
    forall i ensures !CrLfAt(a, i) && !CrLfAt(b, i) {
      assert CrLfAt(a, i) ==> CrLfAt(a + b, i);
      assert CrLfAt(b, i) ==> CrLfAt(a + b, |a| + i);
    }
    assert EndsInCr(a) && b != "" && b[0] == '\n' ==> CrLfAt(a + b, |a| - 1);
  }

  lemma NoCrLfJoined(a: string, b: string)
    requires NoCrLf(a) && NoCrLf(b) && !(EndsInCr(a) && b != "" && b[0] == '\n')
    ensures NoCrLf(a + b)
  {
    forall i ensures !CrLfAt(a + b, i) {
      assert i < |a| - 1 && CrLfAt(a + b, i) ==> CrLfAt(a, i);
      assert i >= |a| && CrLfAt(a + b, i) ==> CrLfAt(b, i - |a|);
    }
  }

  predicate EndsInCr(s: string) {
    s != "" && s[|s| - 1] == '\r'
  }

  lemma {:induction false} ReplaceSkips(a: string, b: string)
    requires NoCrLf(a) && !EndsInCr(a)
    ensures ReplaceCrLf(a + b) == a + ReplaceCrLf(b)
  {
    if a == "" {
      assert a + b == b;
    } else {
      assert a == [a[0]] + a[1..];
      NoCrLfInside([a[0]], a[1..]);
      assert (a + b)[1..] == a[1..] + b;
      assert !CrLfAt(a, 0);
      ReplaceSkips(a[1..], b);
    }
  }

  lemma {:induction false} ReplaceShrinks(s: string)
    ensures |ReplaceCrLf(s)| <= |s|
    ensures NoCrLf(s) ==> ReplaceCrLf(s) == s
    ensures !NoCrLf(s) ==> |ReplaceCrLf(s)| < |s|
    decreases |s|
  {
    if s == "" {
    } else if |s| >= 2 && s[0] == '\r' && s[1] == '\n' {
      assert CrLfAt(s, 0);
      ReplaceShrinks(s[2..]);
    } else {
      ReplaceShrinks(s[1..]);
      assert s == [s[0]] + s[1..];
      if NoCrLf(s) {
        NoCrLfInside([s[0]], s[1..]);
      } else if NoCrLf(s[1..]) {
        NoCrLfJoined([s[0]], s[1..]);
      }
    }
  }

  lemma {:induction false} ReplaceKeepsLastNewline(s: string)
    requires s != "" && s[|s| - 1] == '\n'
    ensures ReplaceCrLf(s) != "" && ReplaceCrLf(s)[|ReplaceCrLf(s)| - 1] == '\n'
    decreases |s|
  {
    if |s| >= 2 && s[0] == '\r' && s[1] == '\n' {
      if |s| > 2 {
        ReplaceKeepsLastNewline(s[2..]);
      }
    } else if |s| > 1 {
      ReplaceKeepsLastNewline(s[1..]);
    }
  }

  predicate Terminated(s: string) {
    s == "" || s[|s| - 1] == '\n'
  }

  lemma FirstLine(s: string) returns (line: string, rest: string)
    requires s != "" && Terminated(s)
    ensures s == line + ("\n" + rest) && All(line, NotNewline) && Terminated(rest)
    ensures StdLines(s) == [StripCr(line)] + StdLines(rest)
  {
    var r := Span(s, NotNewline);
    assert !NotNewline(s[|s| - 1]);
    line, rest := r.0, r.1[1..];
  }

  lemma StripCrKeeps(line: string, rest: string)
    requires NoCrLf(line + ("\n" + rest))
    ensures StripCr(line) == line && NoCrLf(rest)
  {
    NoCrLfInside(line, "\n" + rest);
    NoCrLfInside("\n", rest);
  }

  lemma {:induction false} UnlinesCons(line: string, lines: seq<string>)
    ensures Unlines([line] + lines) == line + "\n" + Unlines(lines)
  {
    assert ([line] + lines)[1..] == lines;
  }

  /** Rejoining the standard lines of a newline-terminated text never lengthens it... */
  lemma {:induction false} RejoinedLinesShrink(s: string)
    requires Terminated(s)
    ensures |Unlines(StdLines(s))| <= |s| && Terminated(Unlines(StdLines(s)))
    ensures s != "" ==> Unlines(StdLines(s)) != ""
    decreases |s|
  {
    if s != "" {
      var line, rest := FirstLine(s);
      RejoinedLinesShrink(rest);
      UnlinesCons(StripCr(line), StdLines(rest));
    }
  }

  lemma {:induction false} Glue(line: string, lines: seq<string>, rest: string)
    requires Unlines(lines) == rest
    ensures Unlines([line] + lines) == line + ("\n" + rest)
  {
    UnlinesCons(line, lines);
    assert line + "\n" + rest == line + ("\n" + rest);
  }

  /** ...and restores it when no carriage return stands before a newline. */
  lemma {:induction false} RejoinedLinesRestore(s: string)
    requires Terminated(s) && NoCrLf(s)
    ensures Unlines(StdLines(s)) == s
    decreases |s|
  {
    if s != "" {
      var line, rest := FirstLine(s);
      StripCrKeeps(line, rest);
      RejoinedLinesRestore(rest);
      Glue(line, StdLines(rest), rest);
    }
  }

  // ----- the header -----

  ghost predicate PlainLines(lines: seq<string>) {
    forall i | 0 <= i < |lines| :: All(lines[i], NotNewline) && !EndsInCr(lines[i])
  }

  lemma OneLineHasNoCrLf(line: string)
    requires All(line, NotNewline)
    ensures NoCrLf(line)
  {
  }

  lemma PlainLineHasNoCrLf(line: string, rest: string)
    requires All(line, NotNewline) && !EndsInCr(line) && NoCrLf(rest) && !EndsInCr(rest)
    ensures NoCrLf(line + ("\n" + rest)) && !EndsInCr(line + ("\n" + rest))
  {
    OneLineHasNoCrLf(line);
    NoCrLfJoined("\n", rest);
    NoCrLfJoined(line, "\n" + rest);
  }

  lemma {:induction false} UnlinesHead(lines: seq<string>)
    requires lines != []
    ensures Unlines(lines) == lines[0] + ("\n" + Unlines(lines[1..]))
  {
  }

  lemma {:induction false} PlainTextHasNoCrLf(lines: seq<string>)
    requires PlainLines(lines)
    ensures NoCrLf(Unlines(lines)) && !EndsInCr(Unlines(lines))
  {
    if lines != [] {
      PlainTextHasNoCrLf(lines[1..]);
      PlainLineHasNoCrLf(lines[0], Unlines(lines[1..]));
      UnlinesHead(lines);
    }
  }

  lemma {:induction false} StdFirstLine(line: string, rest: string)
    requires All(line, NotNewline) && !EndsInCr(line)
    ensures StdLines(line + ("\n" + rest)) == [line] + StdLines(rest)
  {
    SpanSplits(line, "\n" + rest, NotNewline);
    assert ("\n" + rest)[1..] == rest;
  }

  lemma {:induction false} Reassociate(lines: seq<string>, rest: string)
    requires lines != []
    ensures Unlines(lines) + rest == lines[0] + ("\n" + (Unlines(lines[1..]) + rest))
  {
    UnlinesHead(lines);
    var more := Unlines(lines[1..]);
    assert lines[0] + ("\n" + more) + rest == lines[0] + ("\n" + (more + rest));
  }

  lemma ConsConcat(lines: seq<string>, more: seq<string>)
    requires lines != []
    ensures [lines[0]] + (lines[1..] + more) == lines + more
  {
  }

  lemma {:induction false} StdLinesOfPlainText(lines: seq<string>, rest: string)
    requires PlainLines(lines)
    ensures StdLines(Unlines(lines) + rest) == lines + StdLines(rest)
  {
    if lines == [] {
      assert Unlines(lines) + rest == rest;
    } else {
      var tail := Unlines(lines[1..]) + rest;
      calc {
        StdLines(Unlines(lines) + rest);
        { Reassociate(lines, rest); }
        StdLines(lines[0] + ("\n" + tail));
        { StdFirstLine(lines[0], tail); }
        [lines[0]] + StdLines(tail);
        { StdLinesOfPlainText(lines[1..], rest); }
        [lines[0]] + (lines[1..] + StdLines(rest));
        { ConsConcat(lines, StdLines(rest)); }
        lines + StdLines(rest);
      }
    }
  }

  lemma FieldSplits(key: string, val: string)
    requires All(key, NotColon)
    ensures
      var line := Field(key, val);
      && IsHeader(line)
      && Span(line[2..], NotColon) == (key, ": " + val)
  {
    assert Field(key, val)[2..] == key + (": " + val);
    SpanSplits(key, ": " + val, NotColon);
  }

  lemma SplitLineIsRead(p: Progress, line: string, key: string, tail: string)
    requires !p.inBody && IsHeader(line) && Span(line[2..], NotColon) == (key, tail) && tail != ""
    ensures LineRead(p, line) == FieldRead(p, Trim(key), Trim(tail[1..]))
  {
  }

  lemma TailIsTrimmed(val: string)
    requires Trimmed(val)
    ensures Trim((": " + val)[1..]) == val
  {
    TrimOfPadded(val);
    assert (": " + val)[1..] == " " + val;
  }

  /** A written field line is read as that field. */
  lemma FieldIsRead(p: Progress, key: string, val: string)
    requires !p.inBody && All(key, NotColon) && Trim(key) == key && Trimmed(val)
    ensures LineRead(p, Field(key, val)) == FieldRead(p, key, val)
  {
    FieldSplits(key, val);
    TailIsTrimmed(val);
    SplitLineIsRead(p, Field(key, val), key, ": " + val);
  }

  lemma ScenarioIsRead(p: Progress, val: string)
    requires !p.inBody && Trimmed(val)
    ensures LineRead(p, Field("scenario", val)) == Some(p.(scenario := Some(val)))
  {
    TrimOfTrimmed("scenario");
    FieldIsRead(p, "scenario", val);
  }

  lemma ReasonIsRead(p: Progress, val: string)
    requires !p.inBody && Trimmed(val)
    ensures LineRead(p, Field("reason", val)) == Some(p.(reason := Some(val)))
  {
    TrimOfTrimmed("reason");
    FieldIsRead(p, "reason", val);
  }

  lemma DigestIsRead(p: Progress, val: string)
    requires !p.inBody && Trimmed(val)
    ensures LineRead(p, Field("body-digest", val)) == Some(p.(digest := Some(val)))
  {
    TrimOfTrimmed("body-digest");
    FieldIsRead(p, "body-digest", val);
  }

  lemma {:induction false} RevisionIsRead(p: Progress, n: u32)
    requires !p.inBody
    ensures LineRead(p, Field("revision", Decimal(n))) == Some(p.(revision := Some(n)))
  {
    RevisionBack(n);
    TrimOfTrimmed("revision");
    FieldIsRead(p, "revision", Decimal(n));
  }

  lemma {:induction false} RevisionBack(n: u32)
    ensures ParseU32(Decimal(n)) == Some(n) && HeaderValue(Decimal(n))
  {
    DecimalRoundTrip(n);
    var d := Decimal(n);
    assert IsDigit(d[0]) && IsDigit(d[|d| - 1]);
  }

  lemma {:induction false} ReadOneMore(p: Progress, line: string, q: Progress, rest: seq<string>)
    requires LineRead(p, line) == Some(q)
    ensures LinesRead(p, [line] + rest) == LinesRead(q, rest)
  {
    assert ([line] + rest)[1..] == rest;
  }

  lemma {:induction false} ReadTwoMore(p: Progress, a: string, b: string, q: Progress, r: Progress, rest: seq<string>)
    requires LineRead(p, a) == Some(q) && LineRead(q, b) == Some(r)
    ensures LinesRead(p, [a, b] + rest) == LinesRead(r, rest)
  {
    ReadOneMore(q, b, r, rest);
    ReadOneMore(p, a, q, [b] + rest);
    assert [a, b] + rest == [a] + ([b] + rest);
  }

  lemma {:induction false} TopIsRead(scenario: string, n: u32, rest: seq<string>)
    requires Trimmed(scenario)
    ensures LinesRead(NOTHING_READ, [Field("scenario", scenario), Field("revision", Decimal(n))] + rest)
         == LinesRead(NOTHING_READ.(scenario := Some(scenario), revision := Some(n)), rest)
  {
    var p := NOTHING_READ.(scenario := Some(scenario));
    ScenarioIsRead(NOTHING_READ, scenario);
    RevisionIsRead(p, n);
    ReadTwoMore(NOTHING_READ, Field("scenario", scenario), Field("revision", Decimal(n)), p, p.(revision := Some(n)), rest);
  }

  lemma {:induction false} BottomIsRead(p: Progress, reason: string, digest: string, rest: seq<string>)
    requires !p.inBody && Trimmed(reason) && Trimmed(digest)
    ensures LinesRead(p, [Field("reason", reason), Field("body-digest", digest)] + rest)
         == LinesRead(p.(reason := Some(reason), digest := Some(digest)), rest)
  {
    var q := p.(reason := Some(reason));
    ReasonIsRead(p, reason);
    DigestIsRead(q, digest);
    ReadTwoMore(p, Field("reason", reason), Field("body-digest", digest), q, q.(digest := Some(digest)), rest);
  }

  lemma {:induction false} BlankOpensBody(p: Progress, rest: seq<string>)
    requires !p.inBody
    ensures LinesRead(p, [""] + rest) == LinesRead(p.(inBody := true), rest)
  {
    ReadOneMore(p, "", p.(inBody := true), rest);
  }

  lemma {:induction false} HeaderIsRead(scenario: string, n: u32, reason: string, digest: string, rest: seq<string>)
    requires HeaderValue(scenario) && HeaderValue(reason) && HeaderValue(digest)
    ensures LinesRead(NOTHING_READ, HeaderLines(scenario, n, reason, digest) + [""] + rest)
         == LinesRead(Progress(Some(scenario), Some(n), Some(reason), Some(digest), "", true), rest)
  {
    var top := [Field("scenario", scenario), Field("revision", Decimal(n))];
    var bottom := [Field("reason", reason), Field("body-digest", digest)];
    var p := NOTHING_READ.(scenario := Some(scenario), revision := Some(n));
    calc {
      LinesRead(NOTHING_READ, HeaderLines(scenario, n, reason, digest) + [""] + rest);
      { assert HeaderLines(scenario, n, reason, digest) + [""] + rest == top + (bottom + ([""] + rest)); }
      LinesRead(NOTHING_READ, top + (bottom + ([""] + rest)));
      { TopIsRead(scenario, n, bottom + ([""] + rest)); }
      LinesRead(p, bottom + ([""] + rest));
      { BottomIsRead(p, reason, digest, [""] + rest); }
      LinesRead(p.(reason := Some(reason), digest := Some(digest)), [""] + rest);
      { BlankOpensBody(p.(reason := Some(reason), digest := Some(digest)), rest); }
      LinesRead(Progress(Some(scenario), Some(n), Some(reason), Some(digest), "", true), rest);
    }
  }

  lemma {:induction false} BodyIsRead(p: Progress, lines: seq<string>)
    requires p.inBody
    ensures LinesRead(p, lines) == Some(p.(body := p.body + Unlines(lines)))
    decreases |lines|
  {
    if lines == [] {
      assert p.body + "" == p.body;
    } else {
      var q := p.(body := p.body + lines[0] + "\n");
      BodyIsRead(q, lines[1..]);
      assert p.body + lines[0] + "\n" + Unlines(lines[1..]) == p.body + Unlines(lines);
    }
  }

  lemma HeaderIsPlain(scenario: string, n: u32, reason: string, digest: string)
    requires HeaderValue(scenario) && HeaderValue(reason) && HeaderValue(digest)
    ensures PlainLines(HeaderLines(scenario, n, reason, digest) + [""])
  {
    RevisionBack(n);
    FieldIsPlain("scenario", scenario);
    FieldIsPlain("revision", Decimal(n));
    FieldIsPlain("reason", reason);
    FieldIsPlain("body-digest", digest);
  }

  lemma FieldIsPlain(key: string, val: string)
    requires HeaderValue(val) && All(key, NotNewline)
    ensures All(Field(key, val), NotNewline) && !EndsInCr(Field(key, val))
  {
    var line := Field(key, val);
    assert line[|line| - 1] == if val == "" then ' ' else val[|val| - 1];
  }

  // ----- the round trip -----

  /** The body that parsing brings back. */
  function BodyAsRead(body: string): string {
    TrimNewlines(Unlines(StdLines(ReplaceCrLf(body + "\n"))))
  }

  lemma ParseOfContents(scenario: string, n: u32, reason: string, digest: string, body: string)
    requires HeaderValue(scenario) && HeaderValue(reason) && HeaderValue(digest)
    ensures Parsed(Contents(scenario, n, reason, digest, body))
         == Some(Fixture(scenario, n, reason, digest, BodyAsRead(body)))
  {
    var head := HeaderLines(scenario, n, reason, digest) + [""];
    var rest := ReplaceCrLf(body + "\n");
    HeaderIsPlain(scenario, n, reason, digest);
    PlainTextHasNoCrLf(head);
    ReplaceSkips(Unlines(head), body + "\n");
    StdLinesOfPlainText(head, rest);
    HeaderIsRead(scenario, n, reason, digest, StdLines(rest));
    var p := Progress(Some(scenario), Some(n), Some(reason), Some(digest), "", true);
    BodyIsRead(p, StdLines(rest));
    assert "" + Unlines(StdLines(rest)) == Unlines(StdLines(rest));
  }

  lemma {:induction false} TrimNewlinesTrims(s: string)
    ensures |TrimNewlines(s)| <= |s| && (TrimNewlines(s) == "" || TrimNewlines(s)[|TrimNewlines(s)| - 1] != '\n')
    ensures s != "" && s[|s| - 1] == '\n' ==> |TrimNewlines(s)| < |s|
  {
    if s != "" && s[|s| - 1] == '\n' {
      TrimNewlinesTrims(s[..|s| - 1]);
    }
  }

  predicate EndsInNewline(s: string) {
    s != "" && s[|s| - 1] == '\n'
  }

  lemma {:induction false} RejoiningTrims(s: string)
    requires EndsInNewline(s)
    ensures |TrimNewlines(Unlines(StdLines(s)))| < |s|
  {
    RejoinedLinesShrink(s);
    TrimNewlinesTrims(Unlines(StdLines(s)));
  }

  lemma {:induction false} ReadingShrinksText(text: string)
    requires EndsInNewline(text) && !NoCrLf(text)
    ensures |TrimNewlines(Unlines(StdLines(ReplaceCrLf(text))))| + 1 < |text|
  {
    ReplaceShrinks(text);
    ReplaceKeepsLastNewline(text);
    RejoiningTrims(ReplaceCrLf(text));
  }

  lemma ReadingShrinksCrLf(body: string)
    requires !NoCrLf(body + "\n")
    ensures |BodyAsRead(body)| < |body|
  {
    ReadingShrinksText(body + "\n");
  }

  lemma {:induction false} ReadingOnlyTrims(body: string)
    requires NoCrLf(body + "\n")
    ensures BodyAsRead(body) == TrimNewlines(body)
  {
    ReplaceShrinks(body + "\n");
    RejoinedLinesRestore(body + "\n");
    assert (body + "\n")[..|body|] == body;
  }

  lemma BodySurvives(body: string)
    ensures BodyAsRead(body) == body <==> NoCrLf(body + "\n") && !EndsInNewline(body)
  {
    if NoCrLf(body + "\n") {
      ReadingOnlyTrims(body);
      TrimNewlinesTrims(body);
    } else {
      ReadingShrinksCrLf(body);
    }
  }

  /** Parsing what the writer wrote gives back every field, whatever the body looks like inside (blank lines and lines
      starting with "# " included), exactly when the body does not end in a newline and no carriage return in it
      stands before a newline or at its end. */
  lemma ParseInvertsWrite(scenario: string, n: u32, reason: string, digest: string, body: string)
    requires HeaderValue(scenario) && HeaderValue(reason) && HeaderValue(digest)
    ensures Parsed(Contents(scenario, n, reason, digest, body)) == Some(Fixture(scenario, n, reason, digest, body))
            <==> NoCrLf(body + "\n") && !EndsInNewline(body)
  {
    ParseOfContents(scenario, n, reason, digest, body);
    BodySurvives(body);
  }

  // ----- revisions count regenerations -----

  lemma DigestIsHeaderValue(sha256: Hasher, body: string)
    ensures HeaderValue(Digest(sha256, body))
  {
    RenderLaws.HexBack(sha256(ReplaceCrLf(body)));
  }

  datatype Run = Run(rawReason: string, rendered: string)

  /** A rewriting of one file: the new file, or `None` for a panic. */
  type Rewriter = (Option<string>, Run) -> Option<string>

  function Regenerator(scenario: string, sha256: Hasher): Rewriter {
    (file, run: Run) => Regenerated(file, scenario, run.rawReason, run.rendered, sha256)
  }

  /** The file after a series of runs, each with its own reason and rendering; `None` if one panics. */
  function AfterRuns(rewrite: Rewriter, file: Option<string>, runs: seq<Run>): Option<Option<string>>
    decreases |runs|
  {
    if runs == [] then Some(file)
    else
      var c := rewrite(file, runs[0]);
      if c.None? then None else AfterRuns(rewrite, c, runs[1..])
  }

  predicate AllAcceptable(runs: seq<Run>) {
    runs == [] || (Acceptable(Trim(runs[0].rawReason)) && AllAcceptable(runs[1..]))
  }

  lemma RegeneratedRevision(file: Option<string>, scenario: string, run: Run, sha256: Hasher)
    requires HeaderValue(scenario)
    requires PreviousRevision(file).Some?
    ensures
      var c := Regenerated(file, scenario, run.rawReason, run.rendered, sha256);
      && (c.Some? <==> Acceptable(Trim(run.rawReason)) && PreviousRevision(file).value < U32_MAX)
      && (c.Some? ==> PreviousRevision(c) == Some(PreviousRevision(file).value + 1))
  {
    var c := Regenerated(file, scenario, run.rawReason, run.rendered, sha256);
    if c.Some? {
      TrimTrims(run.rawReason);
      var body := TrimNewlines(run.rendered);
      DigestIsHeaderValue(sha256, body);
      ParseOfContents(scenario, PreviousRevision(file).value + 1, Trim(run.rawReason), Digest(sha256, body), body);
    }
  }

  /** Each run of `rewrite` raises the revision that `revision` reads by one, and fails only for a bad reason or a
      revision without room. */
  ghost predicate StepsRevision(rewrite: Rewriter, revision: Option<string> -> Option<u32>) {
    forall file, run: Run :: revision(file).Some? ==>
      var c, n := rewrite(file, run), revision(file).value;
      && (c.Some? <==> Acceptable(Trim(run.rawReason)) && n < U32_MAX)
      && (c.Some? ==> revision(c) == Some(n + 1))
  }

  lemma {:induction false} RunsAddUp(rewrite: Rewriter, revision: Option<string> -> Option<u32>, file: Option<string>,
                                     runs: seq<Run>)
    requires StepsRevision(rewrite, revision) && revision(file).Some?
    ensures
      var r, start := AfterRuns(rewrite, file, runs), revision(file).value;
      && (r.Some? <==> AllAcceptable(runs) && start + |runs| <= U32_MAX)
      && (r.Some? ==> revision(r.value) == Some(start + |runs|))
    decreases |runs|
  {
    if runs != [] {
      var c := rewrite(file, runs[0]);
      if c.Some? {
        RunsAddUp(rewrite, revision, c, runs[1..]);
      }
    }
  }

  lemma RegeneratorStepsRevision(scenario: string, sha256: Hasher)
    requires HeaderValue(scenario)
    ensures StepsRevision(Regenerator(scenario, sha256), PreviousRevision)
  {
    forall file, run: Run | PreviousRevision(file).Some?
      ensures
        var c, n := Regenerator(scenario, sha256)(file, run), PreviousRevision(file).value;
        && (c.Some? <==> Acceptable(Trim(run.rawReason)) && n < U32_MAX)
        && (c.Some? ==> PreviousRevision(c) == Some(n + 1))
    {
      RegeneratedRevision(file, scenario, run, sha256);
    }
  }

  /** A series of n regenerations goes through exactly when every reason is acceptable and the revision has room for
      n more, and it then raises the revision by exactly n, whatever bodies were rendered. */
  lemma {:induction false} RevisionCountsRegenerations(file: Option<string>, scenario: string, runs: seq<Run>, sha256: Hasher)
    requires HeaderValue(scenario)
    requires PreviousRevision(file).Some?
    ensures
      var r, start := AfterRuns(Regenerator(scenario, sha256), file, runs), PreviousRevision(file).value;
      && (r.Some? <==> AllAcceptable(runs) && start + |runs| <= U32_MAX)
      && (r.Some? ==> PreviousRevision(r.value) == Some(start + |runs|))
  {
    RegeneratorStepsRevision(scenario, sha256);
    RunsAddUp(Regenerator(scenario, sha256), PreviousRevision, file, runs);
  }

  // ----- what the writer writes -----

  lemma FieldLine(key: string, val: string, rest: string)
    ensures Field(key, val) + "\n" + rest == "# " + key + ": " + val + "\n" + rest
  {
  }

  lemma {:induction false} FiveLines(a: string, b: string, c: string, d: string, e: string)
    ensures Unlines([a, b, c, d, e]) == a + "\n" + (b + "\n" + (c + "\n" + (d + "\n" + (e + "\n"))))
  {
    var lines := [a, b, c, d, e];
    assert lines[1..] == [b, c, d, e] && [b, c, d, e][1..] == [c, d, e] && [c, d, e][1..] == [d, e] && [d, e][1..] == [e];
    assert Unlines([e]) == e + "\n";
    assert Unlines([d, e]) == d + "\n" + Unlines([e]);
    assert Unlines([c, d, e]) == c + "\n" + Unlines([d, e]);
    assert Unlines([b, c, d, e]) == b + "\n" + Unlines([c, d, e]);
  }

  /** The four header lines in their order, a blank line, the body and a newline. */
  lemma {:induction false} ContentsSay(scenario: string, n: u32, reason: string, digest: string, body: string)
    ensures Contents(scenario, n, reason, digest, body)
         == Field("scenario", scenario) + "\n" + (Field("revision", Decimal(n)) + "\n" + (Field("reason", reason) + "\n"
            + (Field("body-digest", digest) + "\n" + "\n"))) + (body + "\n")
  {
    var h := HeaderLines(scenario, n, reason, digest);
    assert h + [""] == [h[0], h[1], h[2], h[3], ""];
    FiveLines(h[0], h[1], h[2], h[3], "");
    assert "" + "\n" == "\n";
  }

  /** The header keys, character by character. */
  lemma HeaderKeys(val: string)
    ensures Field("scenario", val) == "# scenario: " + val && Field("revision", val) == "# revision: " + val
    ensures Field("reason", val) == "# reason: " + val && Field("body-digest", val) == "# body-digest: " + val
  {
    assert "# " + "scenario" + ": " == "# scenario: " && "# " + "revision" + ": " == "# revision: ";
    assert "# " + "reason" + ": " == "# reason: " && "# " + "body-digest" + ": " == "# body-digest: ";
  }

  predicate IsAscii(c: char) {
    c as int < 0x80
  }

  lemma {:induction false} AsciiLength(s: string)
    requires All(s, IsAscii)
    ensures Utf8Length(s) == |s|
  {
    if s != "" {
      assert IsAscii(s[0]);
      AsciiLength(s[1..]);
    }
  }

  /** A reason in plain ASCII is accepted exactly when it has at least 20 characters and no newline. */
  lemma ReasonRule(reason: string)
    requires All(reason, IsAscii)
    ensures Acceptable(reason) <==> |reason| >= 20 && All(reason, NotNewline)
  {
    AsciiLength(reason);
  }

  /** The digest is the hash of the body with its line ends normalised, in hex; a body without carriage returns before
      newlines is hashed as it is. */
  lemma {:induction false} DigestIsHexOfHash(sha256: Hasher, body: string)
    ensures Render.Unhex(Digest(sha256, body)) == sha256(ReplaceCrLf(body))
    ensures NoCrLf(body) ==> Render.Unhex(Digest(sha256, body)) == sha256(body)
  {
    RenderLaws.HexBack(sha256(ReplaceCrLf(body)));
    ReplaceShrinks(body);
  }

  // ----- what the parser makes of other texts -----

  lemma {:induction false} TrimEndOfBlank(s: string)
    ensures TrimEnd(s) == "" <==> All(s, IsSpace)
  {
    if s != "" && IsSpace(s[|s| - 1]) {
      TrimEndOfBlank(s[..|s| - 1]);
      assert s == s[..|s| - 1] + [s[|s| - 1]];
    }
  }

  lemma {:induction false} TrimStartOfBlank(s: string)
    ensures TrimStart(s) == "" <==> All(s, IsSpace)
    ensures All(TrimStart(s), IsSpace) <==> All(s, IsSpace)
  {
    if s != "" && IsSpace(s[0]) {
      TrimStartOfBlank(s[1..]);
      assert s == [s[0]] + s[1..];
    }
  }

  lemma {:induction false} TrimOfBlank(s: string)
    ensures Trim(s) == "" <==> All(s, IsSpace)
  {
    TrimStartOfBlank(s);
    TrimEndOfBlank(TrimStart(s));
  }

  /** The first line that is no header line opens the body: it is dropped if it holds nothing but white space and is the
      body's first line otherwise. Every line after it belongs to the body, whatever it looks like. */
  lemma {:induction false} BodyOpensAt(p: Progress, line: string, rest: seq<string>)
    requires !p.inBody && !IsHeader(line)
    ensures LinesRead(p, [line] + rest)
         == Some(p.(inBody := true,
                    body := p.body + Unlines(if All(line, IsSpace) then rest else [line] + rest)))
  {
    TrimOfBlank(line);
    var q := p.(inBody := true, body := if All(line, IsSpace) then p.body else p.body + line + "\n");
    ReadOneMore(p, line, q, rest);
    BodyIsRead(q, rest);
    if !All(line, IsSpace) {
      UnlinesCons(line, rest);
      assert p.body + line + "\n" + Unlines(rest) == p.body + (line + "\n" + Unlines(rest));
    }
  }

  predicate IsKey(key: string) {
    key == "scenario" || key == "revision" || key == "reason" || key == "body-digest"
  }

  /** A header line without a colon, with an unknown key, or with a revision that is no u32 is a panic; any other one
      sets its field, replacing what an earlier line said. */
  lemma {:induction false} HeaderLineRule(p: Progress, rawKey: string, rawVal: string)
    requires !p.inBody && All(rawKey, NotColon)
    ensures LineRead(p, "# " + rawKey) == None
    ensures
      var line, key, val := "# " + (rawKey + (":" + rawVal)), Trim(rawKey), Trim(rawVal);
      && (LineRead(p, line).None? <==> !IsKey(key) || (key == "revision" && ParseU32(val).None?))
      && (key == "scenario" ==> LineRead(p, line) == Some(p.(scenario := Some(val))))
      && (key == "reason" ==> LineRead(p, line) == Some(p.(reason := Some(val))))
      && (key == "body-digest" ==> LineRead(p, line) == Some(p.(digest := Some(val))))
      && (key == "revision" && ParseU32(val).Some? ==> LineRead(p, line) == Some(p.(revision := ParseU32(val))))
  {
    BareKeyPanics(p, rawKey);
    var tail := ":" + rawVal;
    var line := "# " + (rawKey + tail);
    assert line[2..] == rawKey + tail;
    SpanSplits(rawKey, tail, NotColon);
    SplitLineIsRead(p, line, rawKey, tail);
    assert tail[1..] == rawVal;
  }

  lemma {:induction false} BareKeyPanics(p: Progress, rawKey: string)
    requires !p.inBody && All(rawKey, NotColon)
    ensures LineRead(p, "# " + rawKey) == None
  {
    var line := "# " + rawKey;
    assert line[2..] == rawKey + "";
    SpanSplits(rawKey, "", NotColon);
  }

  /** A revision too large for a u32 is refused. */
  lemma {:induction false} LargeRevisionIsRefused(n: nat)
    ensures ParseU32(Decimal(n)) == if n <= 0xFFFF_FFFF then Some(n) else None
  {
    DecimalRoundTrip(n);
    assert IsDigit(Decimal(n)[0]);
  }

  /** All four headers must be there. */
  lemma HeadersAreRequired(p: Progress)
    ensures Finished(p).Some? <==> p.scenario.Some? && p.revision.Some? && p.reason.Some? && p.digest.Some?
  {
  }

  // ----- one run over all scenarios -----

  ghost predicate Distinct(names: seq<string>) {
    forall i, j | 0 <= i < j < |names| :: names[i] != names[j]
  }

  /** The loop writes every named file once, from what was on disk before it, and no other file; it stops at the
      first one that cannot be written. */
  lemma {:induction false} EachFileIsWrittenOnce(files: map<string, string>, names: seq<string>, write: Writer)
    requires Distinct(names)
    ensures
      var r := RewrittenFrom(files, names, write);
      && (r.done <==> forall i | 0 <= i < |names| :: write(FileIn(files, names[i]), names[i]).Some?)
      && (r.done ==> forall i | 0 <= i < |names| :: FileIn(r.files, names[i]) == write(FileIn(files, names[i]), names[i]))
      && (forall name | name !in names :: FileIn(r.files, name) == FileIn(files, name))
    decreases |names|
  {
    if names != [] {
      var c := write(FileIn(files, names[0]), names[0]);
      if c.Some? {
        var files', rest := files[names[0] := c.value], names[1..];
        EachFileIsWrittenOnce(files', rest, write);
        forall i | 0 <= i < |rest| ensures FileIn(files', rest[i]) == FileIn(files, names[i + 1]) && rest[i] == names[i + 1] {
        }
        assert names[0] !in rest;
        assert forall i | 1 <= i < |names| :: names[i] == rest[i - 1];
      }
    }
  }

  lemma WriterBumps(file: Option<string>, name: string, rawReason: string, render: string -> string, sha256: Hasher)
    requires HeaderValue(name)
    ensures
      var c, previous := WriterFor(rawReason, render, sha256)(file, name), PreviousRevision(file);
      && (c.Some? <==> Acceptable(Trim(rawReason)) && previous.Some? && previous.value < U32_MAX)
      && (c.Some? ==> PreviousRevision(c) == Some(previous.value + 1))
  {
    var run := Run(rawReason, render(name));
    assert WriterFor(rawReason, render, sha256)(file, name) == Regenerated(file, name, run.rawReason, run.rendered, sha256);
    if PreviousRevision(file).Some? {
      RegeneratedRevision(file, name, run, sha256);
    }
  }

  predicate CanBump(file: Option<string>) {
    PreviousRevision(file).Some? && PreviousRevision(file).value < U32_MAX
  }

  predicate Bumped(before: Option<string>, after: Option<string>)
    requires PreviousRevision(before).Some?
  {
    PreviousRevision(after) == Some(PreviousRevision(before).value + 1)
  }

  /** A regeneration with an acceptable reason completes exactly when every fixture on disk is missing or readable
      with a revision that has room; it then raises every scenario's revision by one and leaves all other files
      alone. */
  lemma {:induction false} RegenerationBumpsEveryFixture(files: map<string, string>, names: seq<string>, rawReason: string,
                                      render: string -> string, sha256: Hasher)
    requires Distinct(names) && Acceptable(Trim(rawReason)) && forall i | 0 <= i < |names| :: HeaderValue(names[i])
    ensures
      var r := RewrittenFrom(files, names, WriterFor(rawReason, render, sha256));
      && (r.done <==> forall i | 0 <= i < |names| :: CanBump(FileIn(files, names[i])))
      && (r.done ==> forall i | 0 <= i < |names| :: Bumped(FileIn(files, names[i]), FileIn(r.files, names[i])))
      && (forall name | name !in names :: FileIn(r.files, name) == FileIn(files, name))
  {
    var write := WriterFor(rawReason, render, sha256);
    var r := RewrittenFrom(files, names, write);
    EachFileIsWrittenOnce(files, names, write);
    forall i | 0 <= i < |names|
      ensures write(FileIn(files, names[i]), names[i]).Some? <==> CanBump(FileIn(files, names[i]))
      ensures r.done ==> Bumped(FileIn(files, names[i]), FileIn(r.files, names[i]))
    {
      WriterBumps(FileIn(files, names[i]), names[i], rawReason, render, sha256);
    }
  }
}
