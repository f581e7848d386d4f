/** Reading a configuration file line by line into a nested mapping. */
module Config {
  import opened Options
  import opened ConfigSyntax
  import opened ConfigText
  import opened Sequences

  /** An input stream over the text of a file. */
  class InputStream {
    const text: string
    var pos: nat
    var eofbit: bool
    var failbit: bool

    constructor (text: string)
      ensures this.text == text && pos == 0 && !eofbit && !failbit
    {
      this.text := text;
      pos, eofbit, failbit := 0, false, false;
    }

    ghost predicate Valid()
      reads this
    {
      pos <= |text|
    }

    /**
     Extracts a line of at most limit - 1 characters. The end of the text sets eofbit (and failbit when nothing was
     extracted), a longer line sets failbit, and a stream that is not good extracts nothing and sets failbit.
     */
    method GetLine(limit: nat) returns (line: string)
      requires Valid() && limit > 0
      modifies this`pos, this`eofbit, this`failbit
      ensures Valid()
      ensures old(eofbit || failbit) ==>
                line == "" && failbit && pos == old(pos) && eofbit == old(eofbit)
      ensures !old(eofbit || failbit) ==>
                var e := LineEnd(text, old(pos));
                if e - old(pos) < limit then
                  && line == text[old(pos)..e]
                  && eofbit == (e == |text|) && failbit == (e == |text| == old(pos))
                  && pos == (if e == |text| then e else e + 1)
                else
                  line == text[old(pos)..e][..limit - 1] && pos == old(pos) + limit - 1 && !eofbit && failbit
    {
      line := "";
      if eofbit || failbit {
        failbit := true;
        return;
      }
      ghost var start := pos;
      while true
        invariant Valid() && start <= pos && line == text[start..pos] && |line| < limit
        invariant LineEnd(text, start) == LineEnd(text, pos)
        invariant !eofbit && !failbit
        decreases |text| - pos
      {
        if pos == |text| {
          eofbit := true;
          failbit := line == "";
          return;
        }
        if text[pos] == '\n' {
          pos := pos + 1;
          return;
        }
        if |line| == limit - 1 {
          assert text[start..pos] == text[start..LineEnd(text, start)][..limit - 1];
          failbit := true;
          return;
        }
        line := line + [text[pos]];
        pos := pos + 1;
      }
    }
  }

  lemma {:induction false} FirstLine(text: string, pos: nat) returns (piece: string, rest: seq<string>)
    requires pos <= |text|
    ensures var e := LineEnd(text, pos);
            piece == text[pos..e] && rest == if e == |text| then [] else Lines(text, e + 1)
    ensures Lines(text, pos) == [piece] + rest
  {
    var e := LineEnd(text, pos);
    piece, rest := text[pos..e], if e == |text| then [] else Lines(text, e + 1);
  }

  /** A line that stops the parse settles it whatever the rest is. */
  lemma {:induction false} Settled(seen: seq<string>, piece: string, rest: seq<string>, all: seq<string>)
    requires all == seen + [piece] + rest && !Feed(Parse(seen), piece).Running?
    ensures Parse(all) == Feed(Parse(seen), piece)
  {
    ParseSnoc(seen, piece);
    Stopped(seen + [piece], rest);
  }

  /** What the flags after a read say about the line that was read. */
  lemma {:induction false} LineCases(piece: string, line: string, failbit: bool, eofbit: bool)
    requires if |piece| < MAX_LINE then line == piece && (failbit ==> eofbit && line == "")
             else line == piece[..MAX_LINE - 1] && failbit && !eofbit
    ensures line == "" || Skipped(line[0]) ==> Classify(piece) == if failbit && !eofbit then Endless else Skip
    ensures line != "" && !Skipped(line[0]) ==>
              if failbit then Classify(piece) == TooLong else line == piece && |line| < MAX_LINE
  {
    assert |piece| >= MAX_LINE ==> line[0] == piece[0];
  }

  /** How readFrom comes back: with 0, with 1, or not at all. */
  datatype ReadResult = Zero | One | Never

  /** What the loop does after a line: read the next one, return 1, or go round for ever on a failed stream. */
  datatype Verdict = Next | Stop | Loop

  /** The result and the mapping a parse calls for. */
  ghost predicate Returns(o: Outcome, result: ReadResult, mapping: Mapping) {
    match o
    case Running(_, m) => result == Zero && mapping == m
    case Failed => result == One && mapping == map[]
    case Hung => result == Never
  }

  class ConfigMapping {
    var mapping: Mapping

    constructor ()
      ensures mapping == map[]
    {
      mapping := map[];
    }

    /** Reads a file; None stands for a file that cannot be opened. */
    method ReadFrom(file: Option<string>) returns (result: ReadResult)
      modifies this
      ensures file.None? ==> result == One && mapping == map[]
      ensures file.Some? ==> Returns(Parse(Lines(file.value, 0)), result, mapping)
      ensures forall doc :: AllWritable(doc) && file == Some(Render(doc)) ==> result == Zero && Means(mapping, doc)
    {
      mapping := map[];
      if file.None? {
        return One;
      }
      result := ReadText(file.value, Lines(file.value, 0));
      forall doc | AllWritable(doc) && file == Some(Render(doc))
        ensures result == Zero && Means(mapping, doc)
      {
        ReadsBack(doc);
      }
    }

    /** The reading loop. */
    method ReadText(text: string, ghost all: seq<string>) returns (result: ReadResult)
      requires mapping == map[] && all == Lines(text, 0)
      modifies this
      ensures Returns(Parse(all), result, mapping)
    {
      var stream := new InputStream(text);
      var section, verdict := "", Next;
      ghost var seen: seq<string> := [];
      while !stream.eofbit
        invariant stream.Valid() && stream.text == text && fresh(stream)
        invariant !stream.failbit || stream.eofbit
        invariant Parse(seen) == Running(section, mapping)
        invariant all == seen + if stream.eofbit then [] else Lines(text, stream.pos)
        decreases |text| - stream.pos, !stream.eofbit
      {
        ghost var piece, rest := FirstLine(text, stream.pos);
        Regroup(seen, [piece], rest);
        section, verdict := ReadLine(stream, section, piece, rest);
        if verdict == Loop {
          Settled(seen, piece, rest, all);
          return Never;
        }
        if verdict == Stop {
          Settled(seen, piece, rest, all);
          mapping := map[];
          return One;
        }
        ParseSnoc(seen, piece);
        seen := seen + [piece];
      }
      assert seen == all;
      return Zero;
    }

    /** One pass of the loop: read a line, skip it, give up on it, or match it. */
    method ReadLine(stream: InputStream, section: string, ghost piece: string, ghost rest: seq<string>)
      returns (next: string, verdict: Verdict)
      requires stream.Valid() && !stream.eofbit && !stream.failbit
      requires var e := LineEnd(stream.text, stream.pos);
               && piece == stream.text[stream.pos..e]
               && rest == if e == |stream.text| then [] else Lines(stream.text, e + 1)
      modifies this, stream`pos, stream`eofbit, stream`failbit
      ensures stream.Valid()
      ensures Feed(Running(section, old(mapping)), piece) ==
              match verdict case Next => Running(next, mapping) case Stop => Failed case Loop => Hung
      ensures verdict == Next ==> (stream.failbit ==> stream.eofbit)
      ensures verdict == Next ==> if stream.eofbit then rest == [] else rest == Lines(stream.text, stream.pos)
      ensures verdict == Next ==> stream.pos >= old(stream.pos) && (stream.eofbit || stream.pos > old(stream.pos))
    {
      var line := stream.GetLine(MAX_LINE);
      LineCases(piece, line, stream.failbit, stream.eofbit);
      next, verdict := section, Next;
      if line == "" || Skipped(line[0]) {
        if stream.failbit && !stream.eofbit {
          verdict := Loop;
        }
      } else if stream.failbit {
        verdict := Stop;
      } else {
        var matched;
        next, matched := Match(section, line);
        if !matched {
          verdict := Stop;
        }
      }
    }

    /** Tries the header pattern, then the pair pattern, on a line that fits and is not skipped. */
    method Match(section: string, line: string) returns (next: string, matched: bool)
      requires line != "" && !Skipped(line[0]) && |line| < MAX_LINE
      modifies this
      ensures Feed(Running(section, old(mapping)), line) == if matched then Running(next, mapping) else Failed
    {
      next, matched := section, true;
      var header := ScanHeader(CString(line));
      if header.Some? {
        next := header.value;
      } else {
        var pair := ScanPair(CString(line));
        if pair.Some? {
          Append(section, pair.value.0, pair.value.1);
        } else {
          matched := false;
        }
      }
    }

    /** Adds a value, creating the key when it is not there yet. */
    method Append(section: string, key: string, value: string)
      modifies this
      ensures mapping == Add(old(mapping), section, key, value)
    {
      var inner := if section in mapping then mapping[section] else map[];
      if !IsPresent(section, key) {
        inner := inner[key := []];
        mapping := mapping[section := inner];
      }
      mapping := mapping[section := inner[key := inner[key] + [value]]];
      assert mapping[section] == Add(old(mapping), section, key, value)[section];
    }

    predicate IsPresent(section: string, key: string)
      reads this
    {
      section in mapping && key in mapping[section]
    }

    /** Copies the first value of a key into dest, padded with NULs; nothing is written when the key is missing. */
    method GetString(section: string, key: string, dest: array<char>, n: nat) returns (status: nat)
      requires n <= dest.Length && (IsPresent(section, key) ==> mapping[section][key] != [])
      modifies dest
      ensures status == if Present(mapping, section, key) then 0 else 1
      ensures status == 1 ==> dest[..] == old(dest[..])
      ensures status == 0 ==>
                var v := Lookup(mapping, section, key)[0];
                && dest[n..] == old(dest[n..])
                && forall i :: 0 <= i < n ==> dest[i] == if i < |v| then v[i] else '\0'
    {
      if !IsPresent(section, key) {
        return 1;
      }
      var v := mapping[section][key][0];
      for i := 0 to n
        invariant dest[n..] == old(dest[n..])
        invariant forall j :: 0 <= j < i ==> dest[j] == if j < |v| then v[j] else '\0'
      {
        dest[i] := if i < |v| then v[i] else '\0';
      }
      return 0;
    }
  }

  /** On a stream that has failed short of its end, every further read is empty and changes nothing. */
  method ReadAgain(stream: InputStream) returns (line: string)
    requires stream.Valid() && stream.failbit && !stream.eofbit
    modifies stream
    ensures line == "" && stream.failbit && !stream.eofbit && stream.pos == old(stream.pos)
  {
    line := stream.GetLine(MAX_LINE);
  }
}
