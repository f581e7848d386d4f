/** When a configuration file means the same with LF and with CRLF line endings. */
module ConfigLineEndings {
  import opened Options
  import opened ConfigSyntax

  /** Every LF changed to CRLF. */
  function ToCrlf(s: string): string {
    if s == "" then ""
    else (if s[0] == '\n' then "\r\n" else [s[0]]) + ToCrlf(s[1..])
  }

  /** Every line but the last with a CR at its end. */
  function AddCr(lines: seq<string>): (r: seq<string>)
    ensures |r| == |lines|
  {
    if |lines| <= 1 then lines else [lines[0] + "\r"] + AddCr(lines[1..])
  }

  // ---- the lines of the changed file ----

  lemma {:induction false} CrlfAppend(a: string, b: string)
    ensures ToCrlf(a + b) == ToCrlf(a) + ToCrlf(b)
  {
    if a == "" {
      assert a + b == b;
    } else {
      assert (a + b)[1..] == a[1..] + b;
      CrlfAppend(a[1..], b);
    }
  }

  lemma {:induction false} NoNewline(a: string)
    requires '\n' !in a
    ensures ToCrlf(a) == a
  {
    if a != "" {
      assert '\n' !in a[1..];
      NoNewline(a[1..]);
    }
  }

  lemma {:induction false} LineHasNoNewline(s: string, i: nat)
    requires i <= |s|
    ensures '\n' !in s[i..LineEnd(s, i)]
    decreases |s| - i
  {
    if i < |s| && s[i] != '\n' {
      LineHasNoNewline(s, i + 1);
      assert s[i..LineEnd(s, i)] == [s[i]] + s[i + 1..LineEnd(s, i + 1)];
    }
  }

  lemma {:induction false} LineEndIs(s: string, i: nat, e: nat)
    requires i <= e < |s| && s[e] == '\n' && '\n' !in s[i..e]
    ensures LineEnd(s, i) == e
    decreases e - i
  {
    if i < e {
      assert s[i..e][0] == s[i] && s[i + 1..e] == s[i..e][1..];
      LineEndIs(s, i + 1, e);
    }
  }

  lemma {:induction false} LineEndShift(s: string, n: nat, k: nat)
    requires n + k <= |s|
    ensures LineEnd(s, n + k) == n + LineEnd(s[n..], k)
    decreases |s| - k
  {
    if n + k < |s| && s[n + k] != '\n' {
      LineEndShift(s, n, k + 1);
    }
  }

  /** Two texts go on with the same lines when their next lines agree and so does what follows. */
  lemma {:induction false} SameLines(s: string, t: string, i: nat, k: nat, e: nat, f: nat)
    requires i <= |s| && k <= |t| && e == LineEnd(s, i) && f == LineEnd(t, k) && s[i..e] == t[k..f]
    requires e == |s| <==> f == |t|
    requires e < |s| ==> Lines(s, e + 1) == Lines(t, f + 1)
    ensures Lines(s, i) == Lines(t, k)
  {
  }

  /** The lines from a position on are the lines of the rest of the text. */
  lemma {:induction false} LinesShift(s: string, n: nat, k: nat)
    requires n + k <= |s|
    ensures Lines(s, n + k) == Lines(s[n..], k)
    decreases |s| - k
  {
    LineEndShift(s, n, k);
    var t := s[n..];
    var e := LineEnd(t, k);
    assert s[n + k..n + e] == t[k..e];
    if n + e < |s| {
      LinesShift(s, n, e + 1);
    }
    SameLines(s, t, n + k, k, n + e, e);
  }

  lemma {:induction false} FirstLineOf(a: string, t: string)
    requires '\n' !in a
    ensures Lines(a + "\n" + t, 0) == [a] + Lines(t, 0)
  {
    var s := a + "\n" + t;
    assert s[0..|a|] == a && s[|a|] == '\n' && s[|a| + 1..] == t;
    LineEndIs(s, 0, |a|);
    LinesShift(s, |a| + 1, 0);
  }

  lemma {:induction false} CrlfSplit(a: string, t: string)
    requires '\n' !in a
    ensures ToCrlf(a + "\n" + t) == a + "\r" + "\n" + ToCrlf(t)
  {
    assert a + "\n" + t == a + ("\n" + t);
    CrlfAppend(a, "\n" + t);
    NoNewline(a);
    assert ("\n" + t)[1..] == t;
  }

  lemma {:induction false} CrlfLines(s: string)
    ensures Lines(ToCrlf(s), 0) == AddCr(Lines(s, 0))
  {
    var e := LineEnd(s, 0);
    LineHasNoNewline(s, 0);
    if e == |s| {
      assert s[0..e] == s;
      NoNewline(s);
    } else {
      var a, t := s[0..e], s[e + 1..];
      assert s == a + "\n" + t;
      FirstLineOf(a, t);
      CrlfSplit(a, t);
      FirstLineOf(a + "\r", ToCrlf(t));
      CrlfLines(t);
      AddCrMore(a, Lines(t, 0));
    }
  }

  lemma {:induction false} AddCrMore(line: string, lines: seq<string>)
    requires lines != []
    ensures AddCr([line] + lines) == [line + "\r"] + AddCr(lines)
  {
    assert ([line] + lines)[1..] == lines;
  }

  // ---- scanning a line with a CR at its end ----

  lemma {:induction false} SpanCr(s: string, c: char, max: nat)
    requires c != '\r'
    ensures var n := SpanNot(s, c, max);
            SpanNot(s + "\r", c, max) == if n == |s| < max then n + 1 else n
  {
    if s == "" {
      assert s + "\r" == "\r" && "\r"[1..] == "";
    } else if s[0] != c && max > 0 {
      assert (s + "\r")[1..] == s[1..] + "\r";
      SpanCr(s[1..], c, max - 1);
    }
  }

  lemma {:induction false} WordCr(s: string, max: nat)
    ensures Word(s + "\r", max) == Word(s, max)
  {
    if s != "" && !IsSpace(s[0]) && max > 0 {
      assert (s + "\r")[1..] == s[1..] + "\r";
      WordCr(s[1..], max - 1);
    }
  }

  lemma {:induction false} SkipSpaceCr(s: string)
    ensures SkipSpace(s + "\r") == if SkipSpace(s) == "" then "" else SkipSpace(s) + "\r"
  {
    if s == "" {
      assert s + "\r" == "\r" && "\r"[1..] == "";
    } else if IsSpace(s[0]) {
      assert (s + "\r")[1..] == s[1..] + "\r";
      SkipSpaceCr(s[1..]);
    }
  }

  lemma {:induction false} CStringCr(s: string)
    ensures CString(s + "\r") == if '\0' in s then CString(s) else s + "\r"
    ensures '\0' !in s ==> CString(s) == s
  {
    if s == "" {
      assert s + "\r" == "\r" && "\r"[1..] == "";
    } else if s[0] != '\0' {
      assert (s + "\r")[1..] == s[1..] + "\r";
      assert '\0' in s <==> '\0' in s[1..];
      CStringCr(s[1..]);
    }
  }

  lemma {:induction false} PairCr(c: string)
    ensures ScanPair(c + "\r") == ScanPair(c)
  {
    var n := SpanNot(c, '=', MAX_CONFIG);
    SpanCr(c, '=', MAX_CONFIG);
    if 0 < n < |c| && c[n] == '=' {
      var rest := c[n + 1..];
      assert (c + "\r")[n + 1..] == rest + "\r" && (c + "\r")[..n] == c[..n];
      SkipSpaceCr(rest);
      WordCr(SkipSpace(rest), MAX_CONFIG);
    }
  }

  /** A line that opens a bracket closes it, or its name fills the whole 64 characters. */
  predicate Closed(line: string) {
    || line == "" || line[0] != '[' || '\0' in line
    || SpanNot(line[1..], ']', MAX_CONFIG) == MAX_CONFIG
    || 1 + SpanNot(line[1..], ']', MAX_CONFIG) < |line|
  }

  lemma {:induction false} HeaderCr(line: string)
    requires '\0' !in line
    ensures Closed(line) ==> ScanHeader(line + "\r") == ScanHeader(line)
    ensures !Closed(line) ==> ScanHeader(line + "\r") == Some(line[1..] + "\r")
    ensures !Closed(line) ==> ScanHeader(line) == if line == "[" then None else Some(line[1..])
  {
    if line != "" {
      var n := SpanNot(line[1..], ']', MAX_CONFIG);
      assert (line + "\r")[1..] == line[1..] + "\r";
      SpanCr(line[1..], ']', MAX_CONFIG);
      assert n + 1 <= |line| && (line + "\r")[1..n + 1] == line[1..n + 1];
      if !Closed(line) {
        assert (line + "\r")[1..n + 2] == line[1..] + "\r" && line[1..n + 1] == line[1..];
      }
    }
  }

  /** The exact condition: a CR at its end does not change what a line does. */
  predicate CrlfSafe(line: string) {
    if |line| < MAX_LINE - 1 then Closed(line)
    else |line| == MAX_LINE - 1 ==> Classify(line).Malformed?
  }

  /** What a line that fits and is not skipped matches, by the C string it starts with. */
  function Matched(c: string): Line {
    match ScanHeader(c)
    case Some(name) => Header(name)
    case None => if ScanPair(c).Some? then Pair(ScanPair(c).value.0, ScanPair(c).value.1) else Malformed
  }

  lemma {:induction false} MatchedCr(line: string)
    requires '\0' !in line
    ensures Closed(line) ==> Matched(line + "\r") == Matched(line)
    ensures !Closed(line) ==> Matched(line + "\r") == Header(line[1..] + "\r")
    ensures !Closed(line) ==> Matched(line) == if line == "[" then Malformed else Header(line[1..])
  {
    PairCr(line);
    HeaderCr(line);
    if line == "[" {
      assert ScanPair(line) == None;
    }
  }

  lemma {:induction false} ClassifyCr(line: string)
    requires |line| < MAX_LINE - 1
    ensures Closed(line) ==> Classify(line + "\r") == Classify(line)
    ensures !Closed(line) ==> Classify(line + "\r") == Header(line[1..] + "\r")
    ensures !Closed(line) ==> Classify(line) == if line == "[" then Malformed else Header(line[1..])
  {
    if line != "" && !Skipped(line[0]) {
      assert (line + "\r")[0] == line[0];
      CStringCr(line);
      assert Classify(line) == Matched(CString(line));
      assert Classify(line + "\r") == Matched(CString(line + "\r"));
      if '\0' !in line {
        MatchedCr(line);
      }
    }
  }

  /** A CR at the end of a line makes no difference to any parse exactly when the line is CrlfSafe. */
  lemma {:induction false} CrHarmlessExactly(line: string)
    ensures (forall o :: Feed(o, line + "\r") == Feed(o, line)) <==> CrlfSafe(line)
  {
    if |line| < MAX_LINE - 1 {
      ClassifyCr(line);
    } else {
      assert (line + "\r")[0] == line[0];
    }
    if !CrlfSafe(line) {
      var o := Running("", map[]);
      assert Feed(o, line + "\r") != Feed(o, line);
    }
  }

  lemma {:induction false} SameParse(a: seq<string>, b: seq<string>)
    requires |a| == |b| && forall i :: 0 <= i < |a| ==> a[i] == b[i] || (a[i] == b[i] + "\r" && CrlfSafe(b[i]))
    ensures Parse(a) == Parse(b)
  {
    if a != [] {
      var n := |a| - 1;
      SameParse(a[..n], b[..n]);
      CrHarmlessExactly(b[n]);
    }
  }

  lemma {:induction false} AddCrAt(lines: seq<string>, i: nat)
    requires i < |lines|
    ensures AddCr(lines)[i] == if i + 1 < |lines| then lines[i] + "\r" else lines[i]
  {
    if i > 0 {
      AddCrAt(lines[1..], i - 1);
    }
  }

  /** Files whose lines are all CrlfSafe give the same result and the same mapping with either line ending. */
  lemma {:induction false} LineEndingInvariance(text: string)
    requires forall i :: 0 <= i < |Lines(text, 0)| - 1 ==> CrlfSafe(Lines(text, 0)[i])
    ensures Parse(Lines(ToCrlf(text), 0)) == Parse(Lines(text, 0))
  {
    CrlfLines(text);
    var lines := Lines(text, 0);
    forall i | 0 <= i < |lines|
      ensures AddCr(lines)[i] == lines[i] || (AddCr(lines)[i] == lines[i] + "\r" && CrlfSafe(lines[i]))
    {
      AddCrAt(lines, i);
    }
    SameParse(AddCr(lines), lines);
  }
}
