/** String primitives the service relies on, from Go's `strings` package and
    Python's `str` type, stated over `seq<char>`. Each routine is given with the
    exact character classes its library uses, so that the parsers and the
    configuration rewrite built on top of them see the same lines and tokens as
    the original code. */
module Text {

  datatype Option<T> = None | Some(value: T)

  /** The two variants of the service: chrony_api_app.go and chrony_api_app.py. */
  datatype Dialect = Go | Python

  lemma AppendAssoc<T>(x: seq<T>, y: seq<T>, z: seq<T>)
    ensures x + (y + z) == (x + y) + z
  {
  }

  /** The white-space classes used by the libraries involved. */
  datatype SpaceClass =
    | GoSpace   // unicode.IsSpace: strings.TrimSpace and strings.Fields
    | Re2Space  // RE2's `\s`: the separators of regexp `\s+`
    | PySpace   // str.isspace: str.strip and Python's re `\s` on str

  /** The Unicode White_Space property, which unicode.IsSpace tests. */
  predicate IsUnicodeWhiteSpace(n: int) {
    (0x09 <= n <= 0x0D) || n == 0x20 || n == 0x85 || n == 0xA0 || n == 0x1680
    || (0x2000 <= n <= 0x200A) || n == 0x2028 || n == 0x2029 || n == 0x202F
    || n == 0x205F || n == 0x3000
  }

  predicate IsSpace(k: SpaceClass, c: char) {
    var n := c as int;
    match k
    case GoSpace => IsUnicodeWhiteSpace(n)
    case Re2Space => n == 0x09 || n == 0x0A || n == 0x0C || n == 0x0D || n == 0x20
    case PySpace => IsUnicodeWhiteSpace(n) || (0x1C <= n <= 0x1F)
  }

  predicate NoSpace(k: SpaceClass, s: string) {
    forall i :: 0 <= i < |s| ==> !IsSpace(k, s[i])
  }

  // ---------------------------------------------------------------------------
  // Trimming (strings.TrimSpace, str.strip)

  function TrimLeft(k: SpaceClass, s: string): (r: string)
    ensures |r| <= |s|
    ensures r == [] || !IsSpace(k, r[0])
  {
    if |s| > 0 && IsSpace(k, s[0]) then TrimLeft(k, s[1..]) else s
  }

  function TrimRight(k: SpaceClass, s: string): (r: string)
    ensures |r| <= |s|
    ensures r == [] || !IsSpace(k, r[|r| - 1])
  {
    if |s| > 0 && IsSpace(k, s[|s| - 1]) then TrimRight(k, s[..|s| - 1]) else s
  }

  /** Both ends stripped of the class's white space. */
  function Trim(k: SpaceClass, s: string): string {
    TrimLeft(k, TrimRight(k, s))
  }

  /** Trimming on the left keeps a suffix of the text. */
  lemma {:induction false} TrimLeftSuffix(k: SpaceClass, s: string)
    ensures TrimLeft(k, s) == s[|s| - |TrimLeft(k, s)|..]
  {
    if |s| > 0 && IsSpace(k, s[0]) {
      TrimLeftSuffix(k, s[1..]);
    }
  }

  /** Trimming on the right keeps a prefix of the text. */
  lemma {:induction false} TrimRightPrefix(k: SpaceClass, s: string)
    ensures TrimRight(k, s) == s[..|TrimRight(k, s)|]
  {
    if |s| > 0 && IsSpace(k, s[|s| - 1]) {
      TrimRightPrefix(k, s[..|s| - 1]);
    }
  }

  /** The trimmed text neither starts nor ends with white space. */
  lemma TrimEnds(k: SpaceClass, s: string)
    ensures var r := Trim(k, s); r == [] || (!IsSpace(k, r[0]) && !IsSpace(k, r[|r| - 1]))
  {
    var m := TrimRight(k, s);
    TrimLeftSuffix(k, m);
  }

  /** Trimming is the identity on a string that neither starts nor ends with
      white space, and a string of white space trims to nothing. */
  lemma TrimOfTrimmed(k: SpaceClass, s: string)
    requires s == [] || (!IsSpace(k, s[0]) && !IsSpace(k, s[|s| - 1]))
    ensures Trim(k, s) == s
  {
  }

  /** Appending white space does not change the trimmed form. */
  lemma {:induction false} TrimAppendSpace(k: SpaceClass, s: string, c: char)
    requires IsSpace(k, c)
    ensures Trim(k, s + [c]) == Trim(k, s)
  {
    assert (s + [c])[..|s + [c]| - 1] == s;
  }

  // ---------------------------------------------------------------------------
  // Tokenizing (strings.Fields, regexp `\s+` split of a trimmed line, re.split)

  /** Length of the leading run of non-space characters. */
  function TokenLen(k: SpaceClass, s: string): (n: nat)
    ensures n <= |s| && NoSpace(k, s[..n])
    ensures n < |s| ==> IsSpace(k, s[n])
  {
    if |s| == 0 || IsSpace(k, s[0]) then 0 else 1 + TokenLen(k, s[1..])
  }

  /** The maximal runs of non-space characters of `s`, in order. */
  function Fields(k: SpaceClass, s: string): (r: seq<string>)
    ensures forall i :: 0 <= i < |r| ==> r[i] != [] && NoSpace(k, r[i])
    decreases |s|
  {
    if |s| == 0 then []
    else if IsSpace(k, s[0]) then Fields(k, s[1..])
    else
      var n := TokenLen(k, s);
      [s[..n]] + Fields(k, s[n..])
  }

  /** A token never contains a separator, so it cannot equal a phrase with one. */
  lemma FieldNotPhrase(k: SpaceClass, s: string, i: nat, phrase: string, j: nat)
    requires i < |Fields(k, s)| && j < |phrase| && IsSpace(k, phrase[j])
    ensures Fields(k, s)[i] != phrase
  {
    var t := Fields(k, s)[i];
    if j < |t| {
      assert !IsSpace(k, t[j]);
    }
  }

  // ---------------------------------------------------------------------------
  // Prefixes and substrings (strings.HasPrefix, strings.Contains, `in`)

  predicate HasPrefix(s: string, p: string) {
    |p| <= |s| && s[..|p|] == p
  }

  /** `sub` occurs somewhere in `s`. */
  predicate Contains(s: string, sub: string) {
    HasPrefix(s, sub) || (|s| > 0 && Contains(s[1..], sub))
  }

  /** Index of the first occurrence of `c`. */
  function IndexOf(s: string, c: char): (i: nat)
    requires c in s
    ensures i < |s| && s[i] == c && c !in s[..i]
  {
    if s[0] == c then 0 else 1 + IndexOf(s[1..], c)
  }

  /** strings.SplitN(s, ":", 2) and s.split(':', 1) for a string holding the
      separator: the text before its first occurrence and the text after. */
  function SplitAtFirst(s: string, c: char): (r: (string, string))
    requires c in s
    ensures r.0 + [c] + r.1 == s && c !in r.0
  {
    var i := IndexOf(s, c);
    assert s[..i] + [c] + s[i + 1..] == s;
    (s[..i], s[i + 1..])
  }

  // ---------------------------------------------------------------------------
  // Go: strings.Split(s, sep) and strings.Join(elems, sep) for a one-character sep

  function Split(s: string, sep: char): (r: seq<string>)
    ensures |r| >= 1
  {
    if |s| == 0 then [""]
    else
      var rest := Split(s[1..], sep);
      if s[0] == sep then [""] + rest
      else [[s[0]] + rest[0]] + rest[1..]
  }

  function Join(parts: seq<string>, sep: char): string {
    if |parts| == 0 then ""
    else if |parts| == 1 then parts[0]
    else parts[0] + [sep] + Join(parts[1..], sep)
  }

  /** Joining the pieces of a split gives back the original text, byte for byte. */
  lemma {:induction false} JoinSplit(s: string, sep: char)
    ensures Join(Split(s, sep), sep) == s
  {
    if |s| > 0 {
      var rest := Split(s[1..], sep);
      JoinSplit(s[1..], sep);
      if s[0] == sep {
        assert Split(s, sep) == [""] + rest;
        assert ([""] + rest)[1..] == rest;
        assert s == [sep] + s[1..];
      } else {
        var r := Split(s, sep);
        assert r == [[s[0]] + rest[0]] + rest[1..];
        if |rest| == 1 {
          assert s == [s[0]] + s[1..];
        } else {
          assert r[1..] == rest[1..];
          assert Join(rest, sep) == rest[0] + [sep] + Join(rest[1..], sep);
          assert s == [s[0]] + s[1..];
        }
      }
    }
  }

  /** Splitting a join of separator-free pieces gives back the pieces. */
  lemma {:induction false} SplitJoin(parts: seq<string>, sep: char)
    requires |parts| >= 1
    requires forall i :: 0 <= i < |parts| ==> sep !in parts[i]
    ensures Split(Join(parts, sep), sep) == parts
  {
    if |parts| == 1 {
      SplitFree(parts[0], sep);
    } else {
      SplitJoin(parts[1..], sep);
      SplitPrefixed(parts[0], Join(parts[1..], sep), sep);
      assert [parts[0]] + parts[1..] == parts;
    }
  }

  /** No piece of a split holds the separator. */
  lemma {:induction false} SplitPiecesFree(s: string, sep: char)
    ensures forall i :: 0 <= i < |Split(s, sep)| ==> sep !in Split(s, sep)[i]
  {
    if |s| > 0 {
      SplitPiecesFree(s[1..], sep);
    }
  }

  /** A separator-free string is split into itself. */
  lemma {:induction false} SplitFree(s: string, sep: char)
    requires sep !in s
    ensures Split(s, sep) == [s]
  {
    if |s| > 0 {
      SplitFree(s[1..], sep);
      assert [s[0]] + s[1..] == s;
    }
  }

  /** Splitting `w + sep + t` for separator-free `w` yields `w` followed by the pieces of `t`. */
  lemma {:induction false} SplitPrefixed(w: string, t: string, sep: char)
    requires sep !in w
    ensures Split(w + [sep] + t, sep) == [w] + Split(t, sep)
  {
    if |w| == 0 {
      assert [sep] + t == w + [sep] + t;
      assert ([sep] + t)[1..] == t;
    } else {
      SplitPrefixed(w[1..], t, sep);
      var s := w + [sep] + t;
      assert s[0] == w[0] && s[1..] == w[1..] + [sep] + t;
      assert [w[0]] + w[1..] == w;
    }
  }

  /** Splitting `a + sep + b` splits `a` and `b` separately. */
  lemma {:induction false} SplitAround(a: string, b: string, sep: char)
    ensures Split(a + [sep] + b, sep) == Split(a, sep) + Split(b, sep)
  {
    var parts := Split(a, sep) + Split(b, sep);
    SplitPiecesFree(a, sep);
    SplitPiecesFree(b, sep);
    JoinSplit(a, sep);
    JoinSplit(b, sep);
    JoinAppend(Split(a, sep), Split(b, sep), sep);
    SplitJoin(parts, sep);
  }

  /** Joining two non-empty lists of pieces puts one separator between them. */
  lemma {:induction false} JoinAppend(xs: seq<string>, ys: seq<string>, sep: char)
    requires |xs| >= 1 && |ys| >= 1
    ensures Join(xs + ys, sep) == Join(xs, sep) + [sep] + Join(ys, sep)
  {
    if |xs| == 1 {
      assert (xs + ys)[1..] == ys;
    } else {
      JoinAppend(xs[1..], ys, sep);
      assert (xs + ys)[1..] == xs[1..] + ys;
    }
  }

  // ---------------------------------------------------------------------------
  // Python: str.splitlines(), file.readlines() and file.writelines()

  /** The line boundaries of str.splitlines(). */
  predicate IsLineBreak(c: char) {
    var n := c as int;
    (0x0A <= n <= 0x0D) || (0x1C <= n <= 0x1E) || n == 0x85 || n == 0x2028 || n == 0x2029
  }

  predicate NoLineBreak(s: string) {
    forall i :: 0 <= i < |s| ==> !IsLineBreak(s[i])
  }

  /** Length of the text before the first line boundary. */
  function LineLen(s: string): (n: nat)
    ensures n <= |s|
    ensures n < |s| ==> IsLineBreak(s[n])
  {
    if |s| == 0 || IsLineBreak(s[0]) then 0 else 1 + LineLen(s[1..])
  }

  /** No boundary precedes the one LineLen finds. */
  lemma {:induction false} LineLenNoBreak(s: string, i: nat)
    requires i < LineLen(s)
    ensures !IsLineBreak(s[i])
  {
    if i > 0 {
      LineLenNoBreak(s[1..], i - 1);
    }
  }

  /** Length of the boundary at the start of `s` ("\r\n" counts as one). */
  function BreakLen(s: string): (w: nat)
    requires |s| > 0
    ensures 1 <= w <= |s|
  {
    if s[0] == '\r' && |s| > 1 && s[1] == '\n' then 2 else 1
  }

  /** str.splitlines(): the lines of `s` without their boundaries. */
  function SplitLines(s: string): seq<string>
    decreases |s|
  {
    if |s| == 0 then []
    else
      var n := LineLen(s);
      if n == |s| then [s]
      else [s[..n]] + SplitLines(s[n + BreakLen(s[n..])..])
  }

  /** Length of the first line of `s` including its '\n', if it has one. */
  function NewlineEnd(s: string): (n: nat)
    requires |s| > 0
    ensures 1 <= n <= |s| && '\n' !in s[..n - 1]
    ensures n < |s| || s[|s| - 1] == '\n' ==> s[n - 1] == '\n'
  {
    if s[0] == '\n' || |s| == 1 then 1 else 1 + NewlineEnd(s[1..])
  }

  /** file.readlines() on text read in universal-newline mode: the lines of
      `s`, each keeping its terminating '\n'. */
  function ReadLines(s: string): (r: seq<string>)
    ensures forall i :: 0 <= i < |r| ==> r[i] != []
    decreases |s|
  {
    if |s| == 0 then []
    else
      var n := NewlineEnd(s);
      [s[..n]] + ReadLines(s[n..])
  }

  /** file.writelines(): the lines written one after the other. */
  function Concat(lines: seq<string>): string {
    if |lines| == 0 then "" else lines[0] + Concat(lines[1..])
  }

  lemma {:induction false} ConcatAppend(xs: seq<string>, ys: seq<string>)
    ensures Concat(xs + ys) == Concat(xs) + Concat(ys)
  {
    if |xs| == 0 {
      assert xs + ys == ys;
    } else {
      var x, rest := xs[0], xs[1..];
      assert Concat(rest + ys) == Concat(rest) + Concat(ys) by {
        ConcatAppend(rest, ys);
      }
      assert Concat(xs + ys) == x + Concat(rest + ys) by {
        assert (xs + ys)[0] == x && (xs + ys)[1..] == rest + ys;
      }
      AppendAssoc(x, Concat(rest), Concat(ys));
    }
  }

  /** Writing back the lines read from a text gives the same text. */
  lemma {:induction false} ConcatReadLines(s: string)
    ensures Concat(ReadLines(s)) == s
    decreases |s|
  {
    if |s| > 0 {
      var n := NewlineEnd(s);
      var tail := ReadLines(s[n..]);
      assert Concat(tail) == s[n..] by {
        ConcatReadLines(s[n..]);
      }
      assert Concat(ReadLines(s)) == s[..n] + Concat(tail) by {
        assert ReadLines(s) == [s[..n]] + tail;
        assert ReadLines(s)[0] == s[..n] && ReadLines(s)[1..] == tail;
      }
      assert s[..n] + s[n..] == s;
    }
  }

  /** Every line but the last ends with '\n'; the last one does exactly when the text does. */
  lemma {:induction false} ReadLinesTerminated(s: string, i: nat)
    requires i < |ReadLines(s)|
    ensures var l := ReadLines(s)[i];
      (i < |ReadLines(s)| - 1 || s[|s| - 1] == '\n') ==> l[|l| - 1] == '\n'
    ensures '\n' !in ReadLines(s)[i][..|ReadLines(s)[i]| - 1]
    decreases |s|
  {
    var n := NewlineEnd(s);
    var tail := ReadLines(s[n..]);
    assert ReadLines(s) == [s[..n]] + tail;
    if i > 0 {
      assert ReadLines(s)[i] == tail[i - 1];
      ReadLinesTerminated(s[n..], i - 1);
      assert s[n..][|s[n..]| - 1] == s[|s| - 1];
    }
  }

  /** After a '\n' a new line always starts: the lines of `a + b` are those of
      `a` followed by those of `b`. */
  lemma {:induction false} SplitLinesAfterNewline(a: string, b: string)
    requires |a| > 0 && a[|a| - 1] == '\n'
    ensures SplitLines(a + b) == SplitLines(a) + SplitLines(b)
    decreases |a|
  {
    var rest := SplitLinesFirstLine(a, b);
    var first := [a[..LineLen(a)]];
    if |rest| > 0 {
      assert SplitLines(rest + b) == SplitLines(rest) + SplitLines(b) by {
        SplitLinesAfterNewline(rest, b);
      }
      AppendAssoc(first, SplitLines(rest), SplitLines(b));
    } else {
      assert rest + b == b;
      assert SplitLines(rest) == [];
    }
  }

  /** The first line of `a + b` is the first line of `a` when `a` ends with
      '\n'; returns what follows that line in `a`. */
  lemma {:induction false} SplitLinesFirstLine(a: string, b: string) returns (rest: string)
    requires |a| > 0 && a[|a| - 1] == '\n'
    ensures |rest| < |a| && (rest == [] || rest[|rest| - 1] == '\n')
    ensures SplitLines(a) == [a[..LineLen(a)]] + SplitLines(rest)
    ensures SplitLines(a + b) == [a[..LineLen(a)]] + SplitLines(rest + b)
  {
    var n := LineLen(a);
    if n == |a| {
      LineLenNoBreak(a, |a| - 1);
    }
    var w := BreakLen(a[n..]);
    rest := a[n + w..];
    SplitLinesStep(a, n, w);
    SplitLinesStepAppend(a, b, n, w);
  }

  /** One step of splitlines() on `a + b` stays within `a`, which ends with '\n'. */
  lemma SplitLinesStepAppend(a: string, b: string, n: nat, w: nat)
    requires |a| > 0 && a[|a| - 1] == '\n'
    requires n == LineLen(a) < |a| && w == BreakLen(a[n..])
    ensures SplitLines(a + b) == [a[..n]] + SplitLines(a[n + w..] + b)
  {
    LineLenPrefix(a, b);
    BreakLenPrefix(a, b, n);
    SplitLinesStep(a + b, n, w);
    AppendSlices(a, b, n);
    AppendSlices(a, b, n + w);
  }

  /** A boundary inside `a`, which ends with '\n', has the same width in `a + b`. */
  lemma BreakLenPrefix(a: string, b: string, n: nat)
    requires n < |a| && a[|a| - 1] == '\n'
    ensures BreakLen((a + b)[n..]) == BreakLen(a[n..])
  {
    var s := a + b;
    assert s[n] == a[n];
    if n + 1 < |a| {
      assert s[n + 1] == a[n + 1];
    }
  }

  lemma {:induction false} AppendSlices(a: string, b: string, n: nat)
    requires n <= |a|
    ensures (a + b)[..n] == a[..n] && (a + b)[n..] == a[n..] + b
  {
  }

  /** One step of splitlines() on a text that holds a boundary. */
  lemma SplitLinesStep(s: string, n: nat, w: nat)
    requires n == LineLen(s) < |s| && w == BreakLen(s[n..])
    ensures SplitLines(s) == [s[..n]] + SplitLines(s[n + w..])
  {
  }

  /** The first line of `a + b` lies within `a` when `a` holds a boundary. */
  lemma {:induction false} LineLenPrefix(a: string, b: string)
    requires LineLen(a) < |a|
    ensures LineLen(a + b) == LineLen(a)
    decreases |a|
  {
    if !IsLineBreak(a[0]) {
      LineLenPrefix(a[1..], b);
      assert (a + b)[1..] == a[1..] + b;
    }
  }

  /** A break-free line followed by '\n' is one line for splitlines(). */
  lemma SplitLinesOfLine(w: string)
    requires NoLineBreak(w)
    ensures SplitLines(w + "\n") == [w]
  {
    var s := w + "\n";
    LineLenOfLine(w);
    assert s[..|w|] == w;
    assert s[|w|..] == "\n";
    assert s[|w| + 1..] == [];
  }

  lemma {:induction false} LineLenOfLine(w: string)
    requires NoLineBreak(w)
    ensures LineLen(w + "\n") == |w|
  {
    if |w| > 0 {
      LineLenOfLine(w[1..]);
      assert (w + "\n")[1..] == w[1..] + "\n";
    }
  }
}
