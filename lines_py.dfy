/** How the lines Python's file.readlines() returns (each keeping its '\n')
    relate to the text they came from and to str.splitlines(). The Python
    service reads server mode with splitlines() but rewrites the file with
    readlines()/writelines(), so its read-after-write rests on these facts. */
module PyLines {
  import opened Text

  predicate Terminated(line: string) {
    |line| > 0 && line[|line| - 1] == '\n'
  }

  /** A line without its terminating '\n'. */
  function Chomp(line: string): string {
    if Terminated(line) then line[..|line| - 1] else line
  }

  function ChompAll(lines: seq<string>): (r: seq<string>)
    ensures |r| == |lines|
  {
    seq(|lines|, i requires 0 <= i < |lines| => Chomp(lines[i]))
  }

  /** The shape of a readlines() result: non-empty lines, '\n' only as the
      last character, and every line but the last one terminated. */
  predicate WellFormedLines(lines: seq<string>) {
    (forall i :: 0 <= i < |lines| ==> lines[i] != [] && '\n' !in Chomp(lines[i]))
    && (forall i :: 0 <= i < |lines| - 1 ==> Terminated(lines[i]))
  }

  /** Every line boundary of splitlines() in `s` is a '\n'. */
  predicate OnlyNewlineBreaks(s: string) {
    forall i :: 0 <= i < |s| && IsLineBreak(s[i]) ==> s[i] == '\n'
  }

  lemma ReadLinesWellFormed(s: string)
    ensures WellFormedLines(ReadLines(s))
  {
    var r := ReadLines(s);
    forall i | 0 <= i < |r|
      ensures '\n' !in Chomp(r[i])
      ensures i < |r| - 1 ==> Terminated(r[i])
    {
      ReadLinesTerminated(s, i);
      var l := r[i];
      assert l[..|l| - 1] + [l[|l| - 1]] == l;
    }
  }

  /** A line that holds no '\n' before its end is read back as itself. */
  lemma ReadLinesOfLine(line: string)
    requires line != [] && '\n' !in Chomp(line)
    ensures ReadLines(line) == [line]
  {
    var n := NewlineEnd(line);
    forall j | 0 <= j < |line| - 1
      ensures line[j] != '\n'
    {
      assert Chomp(line)[j] == line[j];
    }
    assert n == |line|;
    assert line[..n] == line && line[n..] == [];
    ReadLinesUnfold(line);
  }

  lemma ReadLinesUnfold(s: string)
    requires |s| > 0
    ensures ReadLines(s) == [s[..NewlineEnd(s)]] + ReadLines(s[NewlineEnd(s)..])
  {
  }

  /** The text of a terminated line never runs into what follows it. */
  lemma {:induction false} NewlineEndOfTerminated(a: string, b: string)
    requires |a| > 0 && (a[|a| - 1] == '\n' || |b| == 0)
    ensures NewlineEnd(a + b) == NewlineEnd(a)
    decreases |a|
  {
    if |a| > 1 && a[0] != '\n' {
      NewlineEndOfTerminated(a[1..], b);
      assert (a + b)[1..] == a[1..] + b;
    }
  }

  /** readlines() of a text that ends a line starts over after it. */
  lemma {:induction false} ReadLinesAppend(a: string, b: string)
    requires a == [] || Terminated(a)
    ensures ReadLines(a + b) == ReadLines(a) + ReadLines(b)
    decreases |a|
  {
    if |a| == 0 {
      assert a + b == b;
    } else {
      var n := NewlineEnd(a);
      var rest := a[n..];
      var first := [a[..n]];
      assert rest == [] || Terminated(rest) by {
        if |rest| > 0 {
          assert rest[|rest| - 1] == a[|a| - 1];
        }
      }
      assert ReadLines(rest + b) == ReadLines(rest) + ReadLines(b) by {
        ReadLinesAppend(rest, b);
      }
      ReadLinesFirstLine(a, b);
      assert ReadLines(a) == first + ReadLines(rest) by {
        ReadLinesUnfold(a);
      }
      AppendAssoc(first, ReadLines(rest), ReadLines(b));
    }
  }

  /** The first line of a terminated `a` is the first line of `a + b`. */
  lemma ReadLinesFirstLine(a: string, b: string)
    requires Terminated(a)
    ensures ReadLines(a + b) == [a[..NewlineEnd(a)]] + ReadLines(a[NewlineEnd(a)..] + b)
  {
    var n := NewlineEnd(a);
    NewlineEndOfTerminated(a, b);
    ReadLinesUnfold(a + b);
    AppendSlices(a, b, n);
  }

  /** writelines() then readlines() gives the lines back, when they have the
      shape readlines() produces. */
  lemma {:induction false} ReadLinesConcat(lines: seq<string>)
    requires WellFormedLines(lines)
    ensures ReadLines(Concat(lines)) == lines
  {
    if |lines| > 0 {
      var line, rest := lines[0], lines[1..];
      assert WellFormedLines(rest) by {
        forall i | 0 <= i < |rest|
          ensures rest[i] != [] && '\n' !in Chomp(rest[i])
        {
          assert rest[i] == lines[i + 1];
        }
        forall i | 0 <= i < |rest| - 1
          ensures Terminated(rest[i])
        {
          assert rest[i] == lines[i + 1];
        }
      }
      ReadLinesConcat(rest);
      if |rest| == 0 {
        assert Concat(lines) == line;
        ReadLinesOfLine(line);
      } else {
        ReadLinesAppend(line, Concat(rest));
        ReadLinesOfLine(line);
        assert [line] + rest == lines;
      }
    }
  }

  /** A line holding no boundary but its '\n' is one line for splitlines(). */
  lemma ChompNoBreak(line: string)
    requires '\n' !in Chomp(line) && OnlyNewlineBreaks(line)
    ensures NoLineBreak(Chomp(line))
  {
    var c := Chomp(line);
    forall i | 0 <= i < |c|
      ensures !IsLineBreak(c[i])
    {
      assert c[i] == line[i];
    }
  }

  /** A text none of whose characters is a boundary holds no boundary. */
  lemma NoBreakByMembers(s: string)
    requires forall c :: c in s ==> !IsLineBreak(c)
    ensures NoLineBreak(s)
  {
    forall i | 0 <= i < |s|
      ensures !IsLineBreak(s[i])
    {
      assert s[i] in s;
    }
  }

  lemma NoLineBreakAppend(a: string, b: string)
    requires NoLineBreak(a) && NoLineBreak(b)
    ensures NoLineBreak(a + b)
  {
    forall i | 0 <= i < |a + b|
      ensures !IsLineBreak((a + b)[i])
    {
      if i < |a| {
        assert (a + b)[i] == a[i];
      } else {
        assert (a + b)[i] == b[i - |a|];
      }
    }
  }

  lemma SplitLinesNoBreak(w: string)
    requires w != [] && NoLineBreak(w)
    ensures SplitLines(w) == [w]
  {
    LineLenWhole(w);
  }

  lemma {:induction false} LineLenWhole(w: string)
    requires NoLineBreak(w)
    ensures LineLen(w) == |w|
  {
    if |w| > 0 {
      assert NoLineBreak(w[1..]) by {
        forall i | 0 <= i < |w[1..]|
          ensures !IsLineBreak(w[1..][i])
        {
          assert w[1..][i] == w[i + 1];
        }
      }
      LineLenWhole(w[1..]);
    }
  }

  /** The tail of well-formed lines is well formed. */
  lemma WellFormedTail(lines: seq<string>)
    requires |lines| > 0 && WellFormedLines(lines)
    requires forall i :: 0 <= i < |lines| ==> OnlyNewlineBreaks(lines[i])
    ensures WellFormedLines(lines[1..])
    ensures forall i :: 0 <= i < |lines[1..]| ==> OnlyNewlineBreaks(lines[1..][i])
  {
    var rest := lines[1..];
    forall i | 0 <= i < |rest|
      ensures rest[i] != [] && '\n' !in Chomp(rest[i]) && OnlyNewlineBreaks(rest[i])
    {
      assert rest[i] == lines[i + 1];
    }
    forall i | 0 <= i < |rest| - 1
      ensures Terminated(rest[i])
    {
      assert rest[i] == lines[i + 1];
    }
  }

  /** A terminated line is the first line splitlines() sees, less its '\n'. */
  lemma SplitLinesOfFirst(line: string, t: string)
    requires Terminated(line) && '\n' !in Chomp(line) && OnlyNewlineBreaks(line)
    ensures SplitLines(line + t) == [Chomp(line)] + SplitLines(t)
  {
    var w := Chomp(line);
    ChompNoBreak(line);
    assert line == w + "\n";
    SplitLinesOfLine(w);
    SplitLinesAfterNewline(line, t);
  }

  /** splitlines() of the concatenated lines gives the lines without their
      '\n', when '\n' is the only boundary they hold. */
  lemma {:induction false} SplitLinesOfConcat(lines: seq<string>)
    requires WellFormedLines(lines)
    requires forall i :: 0 <= i < |lines| ==> OnlyNewlineBreaks(lines[i])
    ensures SplitLines(Concat(lines)) == ChompAll(lines)
  {
    if |lines| > 0 {
      var line, rest := lines[0], lines[1..];
      WellFormedTail(lines);
      SplitLinesOfConcat(rest);
      assert Concat(lines) == line + Concat(rest);
      assert ChompAll(lines) == [Chomp(line)] + ChompAll(rest);
      if Terminated(line) {
        SplitLinesOfFirst(line, Concat(rest));
      } else {
        assert Concat(lines) == line by {
          assert |rest| == 0;
        }
        ChompNoBreak(line);
        SplitLinesNoBreak(line);
      }
    }
  }

  /** Under '\n'-only boundaries the lines of the text carry nothing else. */
  lemma {:induction false} ReadLinesBreaks(s: string)
    requires OnlyNewlineBreaks(s)
    ensures forall i :: 0 <= i < |ReadLines(s)| ==> OnlyNewlineBreaks(ReadLines(s)[i])
    decreases |s|
  {
    if |s| > 0 {
      var n := NewlineEnd(s);
      var rest := s[n..];
      assert OnlyNewlineBreaks(rest) by {
        forall i | 0 <= i < |rest| && IsLineBreak(rest[i])
          ensures rest[i] == '\n'
        {
          assert rest[i] == s[n + i];
        }
      }
      assert OnlyNewlineBreaks(s[..n]) by {
        forall i | 0 <= i < n && IsLineBreak(s[..n][i])
          ensures s[..n][i] == '\n'
        {
          assert s[..n][i] == s[i];
        }
      }
      ReadLinesBreaks(rest);
      assert ReadLines(s) == [s[..n]] + ReadLines(rest);
    }
  }

  /** splitlines() sees the lines readlines() sees, less their '\n', when the
      text has no other boundary. */
  lemma SplitLinesOfRead(s: string)
    requires OnlyNewlineBreaks(s)
    ensures SplitLines(s) == ChompAll(ReadLines(s))
  {
    ReadLinesWellFormed(s);
    ReadLinesBreaks(s);
    ConcatReadLines(s);
    SplitLinesOfConcat(ReadLines(s));
  }
}
