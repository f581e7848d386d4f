/** The scan patterns in terms of the text they match, and configuration files that are written out and read back. */
module ConfigText {
  import opened Options
  import opened ConfigSyntax
  import opened ConfigLineEndings
  import opened Sequences

  // ---- spans and words ----

  ghost predicate White(s: string) {
    forall i :: 0 <= i < |s| ==> IsSpace(s[i])
  }

  ghost predicate NoWhite(s: string) {
    forall i :: 0 <= i < |s| ==> !IsSpace(s[i])
  }

  /** White space is the blank and the five control characters from HT to CR. */
  lemma {:induction false} SpaceExactly(c: char)
    ensures IsSpace(c) <==> c as int == 32 || 9 <= c as int <= 13
  {
    assert '\t' as int == 9 && '\n' as int == 10 && '\r' as int == 13 && ' ' as int == 32;
    assert '\U{000B}' as int == 11 && '\U{000C}' as int == 12;
  }

  lemma {:induction false} SpanIs(s: string, c: char, max: nat, n: nat)
    requires n <= |s| && n <= max && c !in s[..n] && (n == |s| || n == max || s[n] == c)
    ensures SpanNot(s, c, max) == n
  {
    if n > 0 {
      assert s[..n][0] == s[0] && s[1..][..n - 1] == s[..n][1..];
      SpanIs(s[1..], c, max - 1, n - 1);
    }
  }

  lemma {:induction false} SpanClean(s: string, c: char, max: nat)
    ensures c !in s[..SpanNot(s, c, max)]
  {
    if s != "" && s[0] != c && max > 0 {
      SpanClean(s[1..], c, max - 1);
      var n := SpanNot(s, c, max);
      assert s[..n] == [s[0]] + s[1..][..n - 1];
    }
  }

  lemma {:induction false} SkipIs(gap: string, t: string)
    requires White(gap) && (t == "" || !IsSpace(t[0]))
    ensures SkipSpace(gap + t) == t
  {
    if gap == "" {
      assert gap + t == t;
    } else {
      assert (gap + t)[1..] == gap[1..] + t;
      SkipIs(gap[1..], t);
    }
  }

  lemma {:induction false} SkipSplit(s: string) returns (gap: string)
    ensures White(gap) && s == gap + SkipSpace(s)
    ensures SkipSpace(s) == "" || !IsSpace(SkipSpace(s)[0])
  {
    if s != "" && IsSpace(s[0]) {
      gap := SkipSplit(s[1..]);
      gap := [s[0]] + gap;
    } else {
      gap := "";
    }
  }

  lemma {:induction false} WordIs(v: string, rest: string, max: nat)
    requires NoWhite(v) && |v| <= max && (rest == "" || |v| == max || IsSpace(rest[0]))
    ensures Word(v + rest, max) == v
  {
    if v == "" {
      assert v + rest == rest;
    } else {
      assert (v + rest)[1..] == v[1..] + rest;
      WordIs(v[1..], rest, max - 1);
    }
  }

  lemma {:induction false} WordSplit(s: string, max: nat) returns (rest: string)
    ensures s == Word(s, max) + rest && NoWhite(Word(s, max)) && |Word(s, max)| <= max
    ensures rest == "" || |Word(s, max)| == max || IsSpace(rest[0])
  {
    if s == "" || IsSpace(s[0]) || max == 0 {
      rest := s;
    } else {
      rest := WordSplit(s[1..], max - 1);
    }
  }

  // ---- the two patterns ----

  /** A key of 1 to 64 characters before the first equals sign, white space, and a word cut off at 64 characters. */
  ghost predicate PairText(s: string, key: string, value: string, gap: string, rest: string) {
    && s == key + "=" + gap + value + rest
    && 1 <= |key| <= 64 && '=' !in key
    && White(gap) && 1 <= |value| <= 64 && NoWhite(value)
    && (rest == "" || |value| == 64 || IsSpace(rest[0]))
  }

  lemma {:induction false} PairMatches(s: string, key: string, value: string, gap: string, rest: string)
    requires PairText(s, key, value, gap, rest)
    ensures ScanPair(s) == Some((key, value))
  {
    var n := |key|;
    assert s[..n] == key && s[n] == '=' && s[n + 1..] == gap + (value + rest);
    SpanIs(s, '=', 64, n);
    SkipIs(gap, value + rest);
    WordIs(value, rest, 64);
  }

  lemma {:induction false} PairMatched(s: string, key: string, value: string) returns (gap: string, rest: string)
    requires ScanPair(s) == Some((key, value))
    ensures PairText(s, key, value, gap, rest)
  {
    var n := SpanNot(s, '=', 64);
    SpanClean(s, '=', 64);
    var t := s[n + 1..];
    gap := SkipSplit(t);
    rest := WordSplit(SkipSpace(t), 64);
    Chain(s, key, t, gap, SkipSpace(t), value, rest);
  }

  lemma {:induction false} Chain(s: string, key: string, t: string, gap: string, u: string, value: string, rest: string)
    requires |key| < |s| && s[..|key|] == key && s[|key|] == '=' && s[|key| + 1..] == t
    requires t == gap + u && u == value + rest
    ensures s == key + "=" + gap + value + rest
  {
    assert s == key + "=" + t;
    assert key + "=" + (gap + (value + rest)) == key + "=" + gap + value + rest;
  }

  /** The pair pattern matches exactly such texts, and gives the key and the value in this order. */
  lemma {:induction false} PairExactly(s: string, key: string, value: string)
    ensures ScanPair(s) == Some((key, value)) <==> exists gap, rest :: PairText(s, key, value, gap, rest)
  {
    if ScanPair(s) == Some((key, value)) {
      var gap, rest := PairMatched(s, key, value);
    }
    if gap, rest :| PairText(s, key, value, gap, rest) {
      PairMatches(s, key, value, gap, rest);
    }
  }

  /** A bracket and a name of 1 to 64 characters up to the closing bracket, which may be missing. */
  ghost predicate HeaderText(s: string, name: string, rest: string) {
    && s == "[" + name + rest
    && 1 <= |name| <= 64 && ']' !in name
    && (rest == "" || |name| == 64 || rest[0] == ']')
  }

  lemma {:induction false} HeaderMatches(s: string, name: string, rest: string)
    requires HeaderText(s, name, rest)
    ensures ScanHeader(s) == Some(name)
  {
    assert s[1..] == name + rest && s[1..][..|name|] == name;
    SpanIs(s[1..], ']', 64, |name|);
    assert s[1..|name| + 1] == name;
  }

  /** The header pattern matches exactly such texts. */
  lemma {:induction false} HeaderExactly(s: string, name: string)
    ensures ScanHeader(s) == Some(name) <==> exists rest :: HeaderText(s, name, rest)
  {
    if ScanHeader(s) == Some(name) {
      SpanClean(s[1..], ']', 64);
      var n := SpanNot(s[1..], ']', 64);
      assert s[1..][..n] == s[1..n + 1] == name;
      assert s == "[" + name + s[n + 1..];
      assert n < |s[1..]| ==> s[1..][n] == s[n + 1..][0];
      assert HeaderText(s, name, s[n + 1..]);
    }
    if rest :| HeaderText(s, name, rest) {
      HeaderMatches(s, name, rest);
    }
  }

  /** What the scans see of a line ends before its first NUL. */
  lemma {:induction false} CStringExactly(s: string, t: string)
    ensures CString(s) == t <==> '\0' !in t && (s == t || t + "\0" <= s)
  {
    if s == "" || s[0] == '\0' {
    } else {
      if t != "" {
        CStringExactly(s[1..], t[1..]);
        assert s == [s[0]] + s[1..] && t == [t[0]] + t[1..];
        assert t + "\0" == [t[0]] + (t[1..] + "\0");
        assert s == t <==> s[0] == t[0] && s[1..] == t[1..];
        assert t + "\0" <= s <==> s[0] == t[0] && t[1..] + "\0" <= s[1..];
        assert '\0' in t <==> t[0] == '\0' || '\0' in t[1..];
      } else {
        assert t + "\0" == "\0";
      }
    }
  }

  // ---- what a line does ----

  predicate SkippedText(line: string) {
    line == "" || line[0] == '#' || line[0] == ';' || line[0] == '\r' || line[0] == '\n' || line[0] == '\0'
  }

  lemma {:induction false} ClassifyScans(line: string, name: string, key: string, value: string)
    ensures Classify(line) == Header(name) <==>
              |line| < 128 && !SkippedText(line) && ScanHeader(CString(line)) == Some(name)
    ensures Classify(line).Header? <==> |line| < 128 && !SkippedText(line) && ScanHeader(CString(line)).Some?
    ensures Classify(line) == Pair(key, value) <==>
              && |line| < 128 && !SkippedText(line)
              && ScanHeader(CString(line)).None? && ScanPair(CString(line)) == Some((key, value))
  {
  }

  /** What a line does, by its length, its first character and the text before its first NUL. */
  lemma {:induction false} ClassifyExactly(line: string, name: string, key: string, value: string)
    ensures Classify(line).Skip? <==> |line| < 128 && SkippedText(line)
    ensures Classify(line).Endless? <==> |line| >= 128 && SkippedText(line)
    ensures Classify(line).TooLong? <==> |line| >= 128 && !SkippedText(line)
    ensures Classify(line) == Header(name) <==>
              |line| < 128 && !SkippedText(line) && exists rest :: HeaderText(CString(line), name, rest)
    ensures Classify(line) == Pair(key, value) <==>
              && |line| < 128 && !SkippedText(line) && !Classify(line).Header?
              && exists gap, rest :: PairText(CString(line), key, value, gap, rest)
  {
    HeaderExactly(CString(line), name);
    PairExactly(CString(line), key, value);
    ClassifyScans(line, name, key, value);
  }

  // ---- the lines of a file ----

  /** Lines joined by newlines. */
  function Joined(lines: seq<string>): string {
    if lines == [] then ""
    else if |lines| == 1 then lines[0]
    else lines[0] + "\n" + Joined(lines[1..])
  }

  lemma {:induction false} OneLineMore(line: string, lines: seq<string>)
    requires lines != [] && '\n' !in line && NoNewlines(lines)
    ensures Joined([line] + lines) == line + "\n" + Joined(lines) && NoNewlines([line] + lines)
  {
    assert ([line] + lines)[1..] == lines;
  }

  ghost predicate NoNewlines(lines: seq<string>) {
    forall k :: 0 <= k < |lines| ==> '\n' !in lines[k]
  }

  /** The lines of a text are the pieces between its newlines. */
  lemma {:induction false} LinesExactly(s: string)
    ensures Lines(s, 0) != [] && Joined(Lines(s, 0)) == s && NoNewlines(Lines(s, 0))
  {
    var e := LineEnd(s, 0);
    LineHasNoNewline(s, 0);
    if e < |s| {
      var a, t := s[0..e], s[e + 1..];
      assert s == a + "\n" + t;
      FirstLineOf(a, t);
      LinesExactly(t);
      OneLineMore(a, Lines(t, 0));
    } else {
      assert s[0..e] == s && Lines(s, 0) == [s];
    }
  }

  // ---- writing a configuration and reading it back ----

  datatype Entry = Comment(text: string) | Blank | Section(name: string) | Setting(key: string, value: string)

  function Written(e: Entry): string {
    match e
    case Comment(text) => text
    case Blank => ""
    case Section(name) => "[" + name + "]"
    case Setting(key, value) => key + "=" + value
  }

  /** The file with these entries, one on each line. */
  function Render(doc: seq<Entry>): string {
    if doc == [] then "" else Written(doc[0]) + "\n" + Render(doc[1..])
  }

  ghost predicate PlainName(s: string) {
    1 <= |s| <= 64 && '\n' !in s && '\0' !in s
  }

  ghost predicate PlainKey(key: string) {
    PlainName(key) && '=' !in key && key[0] != '[' && key[0] != '#' && key[0] != ';' && key[0] != '\r'
  }

  ghost predicate PlainValue(value: string) {
    PlainName(value) && NoWhite(value)
  }

  ghost predicate Writable(e: Entry) {
    match e
    case Comment(text) => 1 <= |text| < 128 && (text[0] == '#' || text[0] == ';') && '\n' !in text
    case Blank => true
    case Section(name) => PlainName(name) && ']' !in name
    case Setting(key, value) => PlainKey(key) && PlainValue(value) && |key| + |value| < 127
  }

  ghost predicate AllWritable(doc: seq<Entry>) {
    forall i :: 0 <= i < |doc| ==> Writable(doc[i])
  }

  /** The section in force after doc. */
  function SectionAfter(doc: seq<Entry>): string {
    if doc == [] then ""
    else if doc[|doc| - 1].Section? then doc[|doc| - 1].name
    else SectionAfter(doc[..|doc| - 1])
  }

  /** The values doc gives a key in a section, in order. */
  function EntryValues(doc: seq<Entry>, section: string, key: string): seq<string> {
    if doc == [] then []
    else
      var n := |doc| - 1;
      EntryValues(doc[..n], section, key)
      + if doc[n].Setting? && doc[n].key == key && SectionAfter(doc[..n]) == section then [doc[n].value] else []
  }

  /** The mapping has, for every section and key, exactly the values doc gives it. */
  ghost predicate Means(m: Mapping, doc: seq<Entry>) {
    forall section, key ::
      && Lookup(m, section, key) == EntryValues(doc, section, key)
      && (Present(m, section, key) <==> EntryValues(doc, section, key) != [])
  }

  lemma {:induction false} NoNul(s: string)
    requires '\0' !in s
    ensures CString(s) == s
  {
    CStringExactly(s, s);
  }

  lemma {:induction false} WrittenLine(e: Entry)
    requires Writable(e)
    ensures '\n' !in Written(e) && Classify(Written(e)) ==
              match e
              case Comment(_) | Blank => Skip
              case Section(name) => Header(name)
              case Setting(key, value) => Pair(key, value)
  {
    var line := Written(e);
    match e
    case Comment(_) | Blank =>
    case Section(name) =>
      NoNul(line);
      assert line == "[" + name + "]";
      HeaderMatches(line, name, "]");
    case Setting(key, value) =>
      NoNul(line);
      assert line[0] == key[0] && key[0] in key;
      assert line == key + "=" + "" + value + "";
      PairMatches(line, key, value, "", "");
  }

  /** The lines of such a file are its entries, and an empty line at the end. */
  function WrittenLines(doc: seq<Entry>): seq<string> {
    if doc == [] then [] else [Written(doc[0])] + WrittenLines(doc[1..])
  }

  lemma {:induction false} RenderedLines(doc: seq<Entry>)
    requires AllWritable(doc)
    ensures Lines(Render(doc), 0) == WrittenLines(doc) + [""]
  {
    if doc != [] {
      WrittenLine(doc[0]);
      RenderedLines(doc[1..]);
      FirstLineOf(Written(doc[0]), Render(doc[1..]));
      Regroup([Written(doc[0])], WrittenLines(doc[1..]), [""]);
    }
  }

  lemma {:induction false} LastLine(doc: seq<Entry>)
    requires doc != []
    ensures WrittenLines(doc) == WrittenLines(doc[..|doc| - 1]) + [Written(doc[|doc| - 1])]
  {
    if |doc| > 1 {
      LastLine(doc[1..]);
      assert doc[1..][..|doc| - 2] == doc[..|doc| - 1][1..];
    }
  }

  lemma {:induction false} ParsesAsWritten(doc: seq<Entry>, section: string, key: string)
    requires AllWritable(doc)
    ensures Parse(WrittenLines(doc)).Running?
    ensures Knows(Parse(WrittenLines(doc)), SectionAfter(doc), section, key, EntryValues(doc, section, key))
  {
    if doc != [] {
      var n := |doc| - 1;
      ParsesAsWritten(doc[..n], section, key);
      LastLine(doc);
      WrittenLine(doc[n]);
      ParseSnoc(WrittenLines(doc[..n]), Written(doc[n]));
      KnowsMore(Parse(WrittenLines(doc[..n])), Written(doc[n]), SectionAfter(doc[..n]), section, key,
                EntryValues(doc[..n], section, key));
    }
  }

  /** A configuration written out, with comments and blank lines anywhere, reads back as itself. */
  lemma {:induction false} ReadsBack(doc: seq<Entry>)
    requires AllWritable(doc)
    ensures Parse(Lines(Render(doc), 0)).Running? && Means(Parse(Lines(Render(doc), 0)).mapping, doc)
  {
    RenderedLines(doc);
    ParseSnoc(WrittenLines(doc), "");
    ParsesAsWritten(doc, "", "");
    var m := Parse(Lines(Render(doc), 0)).mapping;
    forall section, key
      ensures Lookup(m, section, key) == EntryValues(doc, section, key)
      ensures Present(m, section, key) <==> EntryValues(doc, section, key) != []
    {
      ParsesAsWritten(doc, section, key);
    }
  }
}
