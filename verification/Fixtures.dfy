/** tests/ledger-snapshots/src/snapshot.rs, `parse`, and regenerate.rs: the fixture format, its parser and the guarded
    writer that bumps the revision. */
module Fixtures {
  import opened Shared
  import opened Text
  import Render

  datatype Fixture = Fixture(scenario: string, revision: u32, reason: string, digest: string, body: string)

  // ----- string operations of the standard library -----

  /** The Unicode White_Space property, as `str::trim` uses it. */
  predicate IsSpace(c: char) {
    var n := c as int;
    || 0x09 <= n <= 0x0D || n == 0x20 || n == 0x85 || n == 0xA0 || n == 0x1680 || 0x2000 <= n <= 0x200A
    || n == 0x2028 || n == 0x2029 || n == 0x202F || n == 0x205F || n == 0x3000
  }

  function TrimStart(s: string): string {
    if s != "" && IsSpace(s[0]) then TrimStart(s[1..]) else s
  }

  function TrimEnd(s: string): string {
    if s != "" && IsSpace(s[|s| - 1]) then TrimEnd(s[..|s| - 1]) else s
  }

  function Trim(s: string): string {
    TrimEnd(TrimStart(s))
  }

  /** `trim_end_matches('\n')`. */
  function TrimNewlines(s: string): string {
    if s != "" && s[|s| - 1] == '\n' then TrimNewlines(s[..|s| - 1]) else s
  }

  /** `replace("\r\n", "\n")`. */
  function ReplaceCrLf(s: string): string {
    if s == "" then ""
    else if |s| >= 2 && s[0] == '\r' && s[1] == '\n' then "\n" + ReplaceCrLf(s[2..])
    else [s[0]] + ReplaceCrLf(s[1..])
  }

  function StripCr(line: string): string {
    if line != "" && line[|line| - 1] == '\r' then line[..|line| - 1] else line
  }

  /** `str::lines`: a terminated line also loses one carriage return before its newline. */
  function StdLines(s: string): seq<string>
    decreases |s|
  {
    if s == "" then []
    else
      var r := Span(s, NotNewline);
      if r.1 == "" then [r.0] else [StripCr(r.0)] + StdLines(r.1[1..])
  }

  /** `str::parse::<u32>`. */
  function ParseU32(s: string): Option<u32> {
    var digits := if |s| > 1 && s[0] == '+' then s[1..] else s;
    if digits == "" || !All(digits, IsDigit) || DecimalValue(digits) > U32_MAX then None else Some(DecimalValue(digits))
  }

  function Utf8Length(s: string): nat {
    if s == "" then 0
    else
      var n := s[0] as int;
      (if n < 0x80 then 1 else if n < 0x800 then 2 else if n < 0x1_0000 then 3 else 4) + Utf8Length(s[1..])
  }

  // ----- the parser -----

  /** The parser's variables. */
  datatype Progress = Progress(
    scenario: Option<string>, revision: Option<u32>, reason: Option<string>, digest: Option<string>,
    body: string, inBody: bool)

  const NOTHING_READ := Progress(None, None, None, None, "", false)

  predicate NotColon(c: char) {
    c != ':'
  }

  predicate IsHeader(line: string) {
    |line| >= 2 && line[0] == '#' && line[1] == ' '
  }

  /** One header field; `None` is a panic. */
  function FieldRead(p: Progress, key: string, val: string): Option<Progress> {
    if key == "scenario" then Some(p.(scenario := Some(val)))
    else if key == "revision" then
      var n := ParseU32(val);
      if n.None? then None else Some(p.(revision := n))
    else if key == "reason" then Some(p.(reason := Some(val)))
    else if key == "body-digest" then Some(p.(digest := Some(val)))
    else None
  }

  function HeaderRead(p: Progress, line: string): Option<Progress>
    requires IsHeader(line)
  {
    var parts := Span(line[2..], NotColon);
    if parts.1 == "" then None else FieldRead(p, Trim(parts.0), Trim(parts.1[1..]))
  }

  function LineRead(p: Progress, line: string): Option<Progress> {
    if !p.inBody && IsHeader(line) then HeaderRead(p, line)
    else if !p.inBody && Trim(line) == "" then Some(p.(inBody := true))
    else Some(p.(inBody := true, body := p.body + line + "\n"))
  }

  function LinesRead(p: Progress, lines: seq<string>): Option<Progress>
    decreases |lines|
  {
    if lines == [] then Some(p)
    else
      var q := LineRead(p, lines[0]);
      if q.None? then None else LinesRead(q.value, lines[1..])
  }

  function Finished(p: Progress): Option<Fixture> {
    if p.scenario.None? || p.revision.None? || p.reason.None? || p.digest.None? then None
    else Some(Fixture(p.scenario.value, p.revision.value, p.reason.value, p.digest.value, TrimNewlines(p.body)))
  }

  function Parsed(contents: string): Option<Fixture> {
    var p := LinesRead(NOTHING_READ, StdLines(ReplaceCrLf(contents)));
    if p.None? then None else Finished(p.value)
  }

  method Parse(contents: string) returns (r: Option<Fixture>)
    ensures r == Parsed(contents)
  {
    var lines := StdLines(ReplaceCrLf(contents));
    var scenario: Option<string>, revision: Option<u32>, reason: Option<string>, digest: Option<string> :=
      None, None, None, None;
    var body, inBody := "", false;
    var i := 0;
    while i < |lines|
      invariant 0 <= i <= |lines|
      invariant LinesRead(NOTHING_READ, lines)
             == LinesRead(Progress(scenario, revision, reason, digest, body, inBody), lines[i..])
    {
      var line := lines[i];
      assert lines[i..][0] == line && lines[i..][1..] == lines[i + 1..];
      i := i + 1;
      if !inBody && IsHeader(line) {
        var parts := Span(line[2..], NotColon);
        if parts.1 == "" { return None; }
        var key, val := Trim(parts.0), Trim(parts.1[1..]);
        if key == "scenario" {
          scenario := Some(val);
        } else if key == "revision" {
          var n := ParseU32(val);
          if n.None? { return None; }
          revision := n;
        } else if key == "reason" {
          reason := Some(val);
        } else if key == "body-digest" {
          digest := Some(val);
        } else {
          return None;
        }
        continue;
      }
      if !inBody && Trim(line) == "" {
        inBody := true;
        continue;
      }
      inBody := true;
      body := body + line;
      body := body + "\n";
    }
    return Finished(Progress(scenario, revision, reason, digest, body, inBody));
  }

  // ----- the writer -----

  const MINIMUM_REASON := 20

  function Field(key: string, val: string): string {
    "# " + key + ": " + val
  }

  function HeaderLines(scenario: string, revision: u32, reason: string, digest: string): seq<string> {
    [Field("scenario", scenario), Field("revision", Decimal(revision)), Field("reason", reason),
     Field("body-digest", digest)]
  }

  function Contents(scenario: string, revision: u32, reason: string, digest: string, body: string): string {
    Unlines(HeaderLines(scenario, revision, reason, digest) + [""]) + (body + "\n")
  }

  predicate Acceptable(reason: string) {
    Utf8Length(reason) >= MINIMUM_REASON && All(reason, NotNewline)
  }

  /** The revision on disk: zero for a missing file, a panic for a malformed one. */
  function PreviousRevision(file: Option<string>): Option<u32> {
    if file.None? then Some(0)
    else
      var f := Parsed(file.value);
      if f.None? then None else Some(f.value.revision)
  }

  /** The hash function, which the model leaves open. */
  type Hasher = string -> seq<Render.byte>

  function Digest(sha256: Hasher, body: string): string {
    Render.Hex(sha256(ReplaceCrLf(body)))
  }

  /** One fixture rewritten; `None` is a panic. */
  function Regenerated(file: Option<string>, scenario: string, rawReason: string, rendered: string, sha256: Hasher)
    : Option<string>
  {
    var reason, body, previous := Trim(rawReason), TrimNewlines(rendered), PreviousRevision(file);
    if !Acceptable(reason) || previous.None? || previous.value == U32_MAX then None
    else Some(Contents(scenario, previous.value + 1, reason, Digest(sha256, body), body))
  }

  function FileIn(files: map<string, string>, name: string): Option<string> {
    if name in files then Some(files[name]) else None
  }

  /** The loop over the scenarios: the files after it, and whether it ran to the end. */
  datatype Rewrite = Rewrite(files: map<string, string>, done: bool)

  /** What happens to one named fixture. */
  type Writer = (Option<string>, string) -> Option<string>

  function WriterFor(rawReason: string, render: string -> string, sha256: Hasher): Writer {
    (file, name) => Regenerated(file, name, rawReason, render(name), sha256)
  }

  function RewrittenFrom(files: map<string, string>, names: seq<string>, write: Writer): Rewrite
    decreases |names|
  {
    if names == [] then Rewrite(files, true)
    else
      var c := write(FileIn(files, names[0]), names[0]);
      if c.None? then Rewrite(files, false) else RewrittenFrom(files[names[0] := c.value], names[1..], write)
  }

  method RegenerateFixtures(files: map<string, string>, names: seq<string>, rawReason: string,
                            render: string -> string, sha256: Hasher)
    returns (r: Rewrite)
    ensures r == if Acceptable(Trim(rawReason)) then RewrittenFrom(files, names, WriterFor(rawReason, render, sha256))
                 else Rewrite(files, false)
  {
    var reason := Trim(rawReason);
    if Utf8Length(reason) < MINIMUM_REASON || !All(reason, NotNewline) {
      return Rewrite(files, false);
    }
    ghost var write := WriterFor(rawReason, render, sha256);
    var disk := files;
    var i := 0;
    while i < |names|
      invariant 0 <= i <= |names|
      invariant RewrittenFrom(files, names, write) == RewrittenFrom(disk, names[i..], write)
    {
      var name := names[i];
      assert names[i..][0] == name && names[i..][1..] == names[i + 1..];
      var body := TrimNewlines(render(name));
      var previous := PreviousRevision(FileIn(disk, name));
      if previous.None? || previous.value == U32_MAX {
        return Rewrite(disk, false);
      }
      disk := disk[name := Contents(name, previous.value + 1, reason, Digest(sha256, body), body)];
      i := i + 1;
    }
    return Rewrite(disk, true);
  }
}
