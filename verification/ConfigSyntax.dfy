/** Lines of a configuration file, the two scan patterns, and what a file means. */
module ConfigSyntax {
  import opened Options

  /** MAX_LINE_LENGTH and MAX_CONFIG_LENGTH. */
  const MAX_LINE: nat := 128
  const MAX_CONFIG: nat := 64

  // ---- lines ----

  /** Where the line that starts at i ends: its newline, or the end of the file. */
  function LineEnd(s: string, i: nat): (e: nat)
    requires i <= |s|
    ensures i <= e <= |s| && (e < |s| ==> s[e] == '\n')
    decreases |s| - i
  {
    if i == |s| || s[i] == '\n' then i else LineEnd(s, i + 1)
  }

  /** The lines from position i on; the text after the last newline is a line too, possibly empty. */
  function Lines(s: string, i: nat): seq<string>
    requires i <= |s|
    decreases |s| - i
  {
    var e := LineEnd(s, i);
    if e == |s| then [s[i..e]] else [s[i..e]] + Lines(s, e + 1)
  }

  // ---- scanning, as sscanf does (section 7.21.6.2 of ISO/IEC 9899:2011) ----

  /** The text up to the first NUL. */
  function CString(s: string): string {
    if s == "" || s[0] == '\0' then "" else [s[0]] + CString(s[1..])
  }

  /** How many leading characters differ from c, at most max. */
  function SpanNot(s: string, c: char, max: nat): (n: nat)
    ensures n <= |s| && n <= max
    ensures n == |s| || n == max || s[n] == c
  {
    if s == "" || s[0] == c || max == 0 then 0 else 1 + SpanNot(s[1..], c, max - 1)
  }

  predicate IsSpace(c: char) {
    c == ' ' || c == '\t' || c == '\n' || c == '\U{000B}' || c == '\U{000C}' || c == '\r'
  }

  function SkipSpace(s: string): string {
    if s != "" && IsSpace(s[0]) then SkipSpace(s[1..]) else s
  }

  /** The leading characters that are not white space, at most max. */
  function Word(s: string, max: nat): string {
    if s == "" || IsSpace(s[0]) || max == 0 then "" else [s[0]] + Word(s[1..], max - 1)
  }

  /** The pattern [%64[^]]]: the closing bracket need not be there, the name must not be empty. */
  function ScanHeader(s: string): Option<string> {
    if s == "" || s[0] != '[' then None
    else
      var n := SpanNot(s[1..], ']', MAX_CONFIG);
      if n == 0 then None else Some(s[1..n + 1])
  }

  /** The pattern %64[^=]=%64s: a key of at most 64 characters, then the first word behind the equals sign. */
  function ScanPair(s: string): Option<(string, string)> {
    var n := SpanNot(s, '=', MAX_CONFIG);
    if n == 0 || n == |s| || s[n] != '=' then None
    else
      var value := Word(SkipSpace(s[n + 1..]), MAX_CONFIG);
      if value == "" then None else Some((s[..n], value))
  }

  datatype Line = Skip | Endless | TooLong | Header(name: string) | Pair(key: string, value: string) | Malformed

  predicate Skipped(first: char) {
    first == '#' || first == ';' || first == '\r' || first == '\n' || first == '\0'
  }

  /**
   What a line does. A skipped line that does not fit leaves the stream failed but not at its end, and the
   reading loop then goes round for ever.
   */
  function Classify(line: string): Line {
    if line == "" || Skipped(line[0]) then (if |line| < MAX_LINE then Skip else Endless)
    else if |line| >= MAX_LINE then TooLong
    else
      match ScanHeader(CString(line))
      case Some(name) => Header(name)
      case None =>
        match ScanPair(CString(line))
        case Some(p) => Pair(p.0, p.1)
        case None => Malformed
  }

  // ---- parsing ----

  type Mapping = map<string, map<string, seq<string>>>

  datatype Outcome = Running(section: string, mapping: Mapping) | Failed | Hung

  function Lookup(m: Mapping, section: string, key: string): seq<string> {
    if section in m && key in m[section] then m[section][key] else []
  }

  predicate Present(m: Mapping, section: string, key: string) {
    section in m && key in m[section]
  }

  /** One more value of a key. */
  function Add(m: Mapping, section: string, key: string, value: string): Mapping {
    var inner := if section in m then m[section] else map[];
    m[section := inner[key := Lookup(m, section, key) + [value]]]
  }

  function Feed(o: Outcome, line: string): Outcome {
    if !o.Running? then o
    else
      match Classify(line)
      case Skip => o
      case Endless => Hung
      case TooLong | Malformed => Failed
      case Header(name) => o.(section := name)
      case Pair(key, value) => o.(mapping := Add(o.mapping, o.section, key, value))
  }

  function Parse(lines: seq<string>): Outcome {
    if lines == [] then Running("", map[]) else Feed(Parse(lines[..|lines| - 1]), lines[|lines| - 1])
  }

  lemma {:induction false} ParseSnoc(lines: seq<string>, line: string)
    ensures Parse(lines + [line]) == Feed(Parse(lines), line)
  {
    assert (lines + [line])[..|lines|] == lines;
  }

  /** Nothing behind a line that stops the parse matters. */
  lemma {:induction false} Stopped(lines: seq<string>, more: seq<string>)
    requires !Parse(lines).Running?
    ensures Parse(lines + more) == Parse(lines)
  {
    if more == [] {
      assert lines + more == lines;
    } else {
      var n := |more| - 1;
      assert lines + more == lines + more[..n] + [more[n]];
      Stopped(lines, more[..n]);
      ParseSnoc(lines + more[..n], more[n]);
    }
  }

  // ---- what a file means, without parsing state ----

  predicate Accepted(line: string) {
    Classify(line).Skip? || Classify(line).Header? || Classify(line).Pair?
  }

  /** The name in the nearest header before line i, or the empty name. */
  function SectionAt(lines: seq<string>, i: nat): string
    requires i <= |lines|
  {
    if i == 0 then ""
    else if Classify(lines[i - 1]).Header? then Classify(lines[i - 1]).name
    else SectionAt(lines, i - 1)
  }

  /** A line that starts with empty brackets is no header; the line [] matches neither pattern. */
  lemma {:induction false} EmptyHeader(line: string)
    ensures Classify(line).Header? ==> Classify(line).name != ""
    ensures |line| >= 2 && line[..2] == "[]" ==> !Classify(line).Header?
    ensures Classify("[]").Malformed?
  {
    if |line| >= 2 && line[..2] == "[]" {
      assert line[0] == line[..2][0] && line[1] == line[..2][1];
      assert CString(line) == "[" + CString(line[1..]) && CString(line[1..]) == "]" + CString(line[1..][1..]);
    }
  }

  lemma {:induction false} HeaderNamed(line: string)
    ensures Classify(line).Header? ==> Classify(line).name != ""
  {
  }

  /** So the unnamed section ends at the first header and never comes back. */
  lemma {:induction false} UnnamedSection(lines: seq<string>, i: nat)
    requires i <= |lines|
    ensures SectionAt(lines, i) == "" <==> forall k :: 0 <= k < i ==> !Classify(lines[k]).Header?
  {
    if i > 0 {
      UnnamedSection(lines, i - 1);
      HeaderNamed(lines[i - 1]);
    }
  }

  /** The values of key in section, in file order. */
  function Values(lines: seq<string>, section: string, key: string, n: nat): seq<string>
    requires n <= |lines|
  {
    if n == 0 then []
    else
      var line := Classify(lines[n - 1]);
      Values(lines, section, key, n - 1)
      + if line.Pair? && line.key == key && SectionAt(lines, n - 1) == section then [line.value] else []
  }

  lemma {:induction false} AddLookup(m: Mapping, s: string, k: string, v: string, section: string, key: string)
    ensures Lookup(Add(m, s, k, v), section, key)
            == Lookup(m, section, key) + if section == s && key == k then [v] else []
    ensures Present(Add(m, s, k, v), section, key) <==> Present(m, section, key) || (section == s && key == k)
  {
  }

  /** A parse that is still running knows the section, and for each key the values so far. */
  ghost predicate Knows(o: Outcome, here: string, section: string, key: string, values: seq<string>) {
    o.Running? ==>
      && o.section == here
      && Lookup(o.mapping, section, key) == values
      && (Present(o.mapping, section, key) <==> values != [])
  }

  lemma {:induction false} KnowsMore(o: Outcome, line: string, here: string, section: string, key: string,
                                     values: seq<string>)
    requires Knows(o, here, section, key, values)
    ensures var l := Classify(line);
            Knows(Feed(o, line), if l.Header? then l.name else here, section, key,
                  values + if l.Pair? && l.key == key && here == section then [l.value] else [])
  {
    var l := Classify(line);
    if o.Running? && l.Pair? {
      AddLookup(o.mapping, o.section, l.key, l.value, section, key);
    }
  }

  lemma {:induction false} ParseUpTo(lines: seq<string>, n: nat)
    requires 0 < n <= |lines|
    ensures Parse(lines[..n]) == Feed(Parse(lines[..n - 1]), lines[n - 1])
  {
    assert lines[..n] == lines[..n - 1] + [lines[n - 1]];
    ParseSnoc(lines[..n - 1], lines[n - 1]);
  }

  lemma {:induction false} RunsOn(o: Outcome, line: string)
    ensures Feed(o, line).Running? <==> o.Running? && Accepted(line)
  {
  }

  lemma {:induction false} RunsWhileAccepted(lines: seq<string>, n: nat)
    requires n <= |lines|
    ensures Parse(lines[..n]).Running? <==> forall i :: 0 <= i < n ==> Accepted(lines[i])
  {
    if n > 0 {
      RunsWhileAccepted(lines, n - 1);
      ParseUpTo(lines, n);
      RunsOn(Parse(lines[..n - 1]), lines[n - 1]);
    }
  }

  lemma {:induction false} KnowsValues(lines: seq<string>, n: nat, section: string, key: string)
    requires n <= |lines|
    ensures Knows(Parse(lines[..n]), SectionAt(lines, n), section, key, Values(lines, section, key, n))
  {
    if n > 0 {
      KnowsValues(lines, n - 1, section, key);
      ParseUpTo(lines, n);
      KnowsMore(Parse(lines[..n - 1]), lines[n - 1], SectionAt(lines, n - 1), section, key,
                Values(lines, section, key, n - 1));
    }
  }

  /**
   The parse succeeds exactly when every line is skipped or matches, and then each section and key has exactly
   the values of its lines, in file order.
   */
  lemma {:induction false} ParserMeaning(lines: seq<string>, section: string, key: string)
    ensures Parse(lines).Running? <==> forall i :: 0 <= i < |lines| ==> Accepted(lines[i])
    ensures Parse(lines).Running? ==>
              var m := Parse(lines).mapping;
              && Lookup(m, section, key) == Values(lines, section, key, |lines|)
              && (Present(m, section, key) <==> Values(lines, section, key, |lines|) != [])
  {
    RunsWhileAccepted(lines, |lines|);
    KnowsValues(lines, |lines|, section, key);
    assert lines[..|lines|] == lines;
  }

  /** Line i is skipped but too long, and all lines before it are accepted. */
  ghost predicate EndlessAt(lines: seq<string>, i: nat) {
    i < |lines| && Classify(lines[i]).Endless? && forall j :: 0 <= j < i ==> Accepted(lines[j])
  }

  lemma {:induction false} EndlessBefore(lines: seq<string>, n: nat, i: nat)
    requires i < n <= |lines|
    ensures EndlessAt(lines[..n], i) <==> EndlessAt(lines, i)
  {
    assert forall j :: 0 <= j < n ==> lines[..n][j] == lines[j];
  }

  /** The parse hangs exactly when an overlong skipped line comes before every line that stops it with an error. */
  lemma {:induction false} HangsExactly(lines: seq<string>)
    ensures Parse(lines).Hung? <==> exists i: nat :: EndlessAt(lines, i)
  {
    if lines != [] {
      var n := |lines| - 1;
      HangsExactly(lines[..n]);
      RunsWhileAccepted(lines, n);
      ParseUpTo(lines, |lines|);
      assert lines[..|lines|] == lines;
      if i: nat :| EndlessAt(lines[..n], i) {
        EndlessBefore(lines, n, i);
      }
      if i: nat :| EndlessAt(lines, i) {
        if i < n {
          EndlessBefore(lines, n, i);
        }
      } else {
        assert !EndlessAt(lines, n);
      }
    }
  }

  /** So a file that starts with an overlong comment, or an overlong line that starts with CR or NUL, is never read. */
  lemma {:induction false} OverlongCommentHangs(text: string)
    requires text != "" && Skipped(text[0]) && LineEnd(text, 0) >= MAX_LINE
    ensures Parse(Lines(text, 0)).Hung?
  {
    var line, lines := text[0..LineEnd(text, 0)], Lines(text, 0);
    assert lines[0] == line && line[0] == text[0];
    assert EndlessAt(lines, 0);
    HangsExactly(lines);
  }
}
