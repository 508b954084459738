/** Decimal numerals, scanning and line splitting: what the snapshot printer and the fixture parser share. */
module Text {
  import opened Shared

  // ----- decimal numerals -----

  predicate IsDigit(c: char) {
    '0' <= c <= '9'
  }

  function Digit(n: nat): char
    requires n < 10
  {
    ('0' as int + n) as char
  }

  function DigitValue(c: char): nat {
    if IsDigit(c) then c as int - '0' as int else 0
  }

  function Decimal(n: nat): string {
    if n < 10 then [Digit(n)] else Decimal(n / 10) + [Digit(n % 10)]
  }

  function DecimalValue(s: string): nat {
    if s == "" then 0 else 10 * DecimalValue(s[..|s| - 1]) + DigitValue(s[|s| - 1])
  }

  predicate All(s: string, p: char -> bool) {
    forall i | 0 <= i < |s| :: p(s[i])
  }

  lemma {:induction false} DecimalRoundTrip(n: nat)
    ensures DecimalValue(Decimal(n)) == n && All(Decimal(n), IsDigit) && Decimal(n) != ""
  {
    if n < 10 {
      assert Decimal(n)[..0] == "";
    } else {
      DecimalRoundTrip(n / 10);
      assert Decimal(n)[..|Decimal(n)| - 1] == Decimal(n / 10);
    }
  }

  // ----- scanning -----

  /** Splits `s` after its longest prefix of characters satisfying `p`. */
  function Span(s: string, p: char -> bool): (r: (string, string))
    ensures s == r.0 + r.1 && All(r.0, p) && (r.1 != "" ==> !p(r.1[0]))
  {
    if s == "" || !p(s[0]) then ("", s)
    else
      var r := Span(s[1..], p);
      ([s[0]] + r.0, r.1)
  }

  lemma {:induction false} SpanSplits(t: string, rest: string, p: char -> bool)
    requires All(t, p) && (rest != "" ==> !p(rest[0]))
    ensures Span(t + rest, p) == (t, rest)
  {
    if t == "" {
      assert t + rest == rest;
    } else {
      assert (t + rest)[1..] == t[1..] + rest;
      SpanSplits(t[1..], rest, p);
      assert t == [t[0]] + t[1..];
    }
  }

  predicate StartsWith(s: string, prefix: string) {
    |prefix| <= |s| && s[..|prefix|] == prefix
  }

  function Drop(s: string, n: nat): string {
    if n <= |s| then s[n..] else ""
  }

  lemma DropPrefix(prefix: string, rest: string)
    ensures StartsWith(prefix + rest, prefix) && Drop(prefix + rest, |prefix|) == rest
  {
  }

  // ----- lines -----

  predicate NotNewline(c: char) {
    c != '\n'
  }

  /** Every line followed by a newline. */
  function Unlines(lines: seq<string>): string {
    if lines == [] then "" else lines[0] + "\n" + Unlines(lines[1..])
  }

  ghost predicate SingleLines(lines: seq<string>) {
    forall i | 0 <= i < |lines| :: All(lines[i], NotNewline)
  }

  /** The pieces of `s` that end in a newline, and a last unterminated piece if there is one. */
  function Lines(s: string): seq<string>
    decreases |s|
  {
    if s == "" then []
    else
      var r := Span(s, NotNewline);
      if r.1 == "" then [r.0] else [r.0] + Lines(r.1[1..])
  }

  lemma {:induction false} LinesOfUnlines(lines: seq<string>)
    requires SingleLines(lines)
    ensures Lines(Unlines(lines)) == lines
  {
    if lines != [] {
      var rest := "\n" + Unlines(lines[1..]);
      assert Unlines(lines) == lines[0] + rest;
      SpanSplits(lines[0], rest, NotNewline);
      assert rest[1..] == Unlines(lines[1..]);
      LinesOfUnlines(lines[1..]);
    }
  }

  lemma {:induction false} UnlinesConcat(a: seq<string>, b: seq<string>)
    ensures Unlines(a + b) == Unlines(a) + Unlines(b)
  {
    if a == [] {
      assert a + b == b;
    } else {
      assert (a + b)[1..] == a[1..] + b;
      UnlinesConcat(a[1..], b);
    }
  }
}
