/** The `allow` directive store of chrony.conf, at the level of lines. Both
    variants of the service read server mode as "some line, trimmed, starts
    with `allow`" and write it by dropping every such line (disable) or by
    keeping them and appending one `allow 0.0.0.0/0` when there was none
    (enable). They differ in what a line is (Go splits on '\n', Python keeps
    each line's '\n') and in the white space trimmed, so the rewrite is stated
    once here for a `Dialect`. */
module ConfigLines {
  import opened Text

  const AllowKeyword := "allow"

  /** A line that carries the directive: after trimming it is non-blank and
      starts with `allow` (a bare prefix test, so `allowx` counts and `#allow`
      does not). Go tests non-blankness explicitly; Python relies on the
      prefix alone. */
  predicate IsAllowLine(d: Dialect, line: string) {
    match d
    case Go => Trim(GoSpace, line) != "" && HasPrefix(Trim(GoSpace, line), AllowKeyword)
    case Python => HasPrefix(Trim(PySpace, line), AllowKeyword)
  }

  /** The directive test of a dialect, as a value the rewrite is parameterized by. */
  function DirectiveTest(d: Dialect): string -> bool {
    (line: string) => IsAllowLine(d, line)
  }

  /** Some line passes the directive test. */
  predicate HasDirective(lines: seq<string>, isDirective: string -> bool) {
    exists i :: 0 <= i < |lines| && isDirective(lines[i])
  }

  /** The line appended when enabling finds no directive. */
  function DefaultAllow(d: Dialect): string {
    match d
    case Go => "allow 0.0.0.0/0"
    case Python => "allow 0.0.0.0/0\n"
  }

  /** The lines the rewrite loop keeps: every line when enabling, every line
      but the directives when disabling. */
  function KeptLines(lines: seq<string>, enabled: bool, isDirective: string -> bool): seq<string> {
    if |lines| == 0 then []
    else
      var last := lines[|lines| - 1];
      KeptLines(lines[..|lines| - 1], enabled, isDirective)
        + (if enabled || !isDirective(last) then [last] else [])
  }

  /** The new line sequence written for a request to set server mode. */
  function Rewritten(lines: seq<string>, enabled: bool, isDirective: string -> bool, directive: string): seq<string> {
    KeptLines(lines, enabled, isDirective)
      + (if enabled && !HasDirective(lines, isDirective) then [directive] else [])
  }

  /** The rewrite loop shared by both variants (setServerModeStatus and
      set_server_mode_status): keep or drop each line while noting whether a
      directive was seen, then append the default directive when enabling
      found none. */
  method RewriteLines(d: Dialect, lines: seq<string>, enabled: bool) returns (newLines: seq<string>)
    ensures newLines == Rewritten(lines, enabled, DirectiveTest(d), DefaultAllow(d))
  {
    ghost var isDirective := DirectiveTest(d);
    newLines := [];
    var found := false;
    for i := 0 to |lines|
      invariant newLines == KeptLines(lines[..i], enabled, isDirective)
      invariant found == HasDirective(lines[..i], isDirective)
    {
      var allow := IsAllowLine(d, lines[i]);
      assert isDirective(lines[i]) == allow;
      PrefixStep(lines, i, enabled, isDirective);
      if allow {
        found := true;
        if enabled {
          newLines := newLines + [lines[i]];
        }
      } else {
        newLines := newLines + [lines[i]];
      }
    }
    assert lines[..|lines|] == lines;
    if enabled && !found {
      newLines := newLines + [DefaultAllow(d)];
    }
  }

  /** One more line of the loop: the kept lines and the directive flag of
      the longer prefix. */
  lemma PrefixStep(lines: seq<string>, i: nat, enabled: bool, isDirective: string -> bool)
    requires i < |lines|
    ensures KeptLines(lines[..i + 1], enabled, isDirective)
      == KeptLines(lines[..i], enabled, isDirective)
         + (if enabled || !isDirective(lines[i]) then [lines[i]] else [])
    ensures HasDirective(lines[..i + 1], isDirective)
      == (HasDirective(lines[..i], isDirective) || isDirective(lines[i]))
  {
    var prefix := lines[..i + 1];
    assert prefix == lines[..i] + [lines[i]] && prefix[..i] == lines[..i];
    HasDirectiveSnoc(lines[..i], lines[i], isDirective);
  }

  /** `s` is `t` with some elements deleted, the rest in their original order. */
  ghost predicate IsSubsequence<T>(s: seq<T>, t: seq<T>)
    decreases |t|
  {
    if |s| == 0 then true
    else if |t| == 0 then false
    else if s[|s| - 1] == t[|t| - 1] then IsSubsequence(s[..|s| - 1], t[..|t| - 1])
    else IsSubsequence(s, t[..|t| - 1])
  }

  lemma DefaultAllowIsDirective(d: Dialect)
    ensures IsAllowLine(d, DefaultAllow(d))
  {
    var line := "allow 0.0.0.0/0";
    assert |line| == 15 && line[0] == 'a' && line[14] == '0';
    assert line[..5] == AllowKeyword;
    if d == Go {
      TrimOfTrimmed(GoSpace, line);
    } else {
      TrimOfTrimmed(PySpace, line);
      TrimAppendSpace(PySpace, line, '\n');
      assert line + ['\n'] == DefaultAllow(d);
    }
  }

  /** Appending one line keeps it or not, on its own. */
  lemma KeptLinesSnoc(s: seq<string>, x: string, enabled: bool, isDirective: string -> bool)
    ensures KeptLines(s + [x], enabled, isDirective)
      == KeptLines(s, enabled, isDirective) + (if enabled || !isDirective(x) then [x] else [])
  {
    var t := s + [x];
    assert t[..|t| - 1] == s && t[|t| - 1] == x;
  }

  /** Keeping distributes over concatenation: each line is judged on its own. */
  lemma {:induction false} KeptLinesAppend(xs: seq<string>, ys: seq<string>, enabled: bool, isDirective: string -> bool)
    ensures KeptLines(xs + ys, enabled, isDirective)
      == KeptLines(xs, enabled, isDirective) + KeptLines(ys, enabled, isDirective)
    decreases |ys|
  {
    if |ys| == 0 {
      assert xs + ys == xs;
    } else {
      var init, last := ys[..|ys| - 1], ys[|ys| - 1];
      var keep := if enabled || !isDirective(last) then [last] else [];
      assert ys == init + [last];
      assert xs + ys == (xs + init) + [last];
      KeptLinesAppend(xs, init, enabled, isDirective);
      KeptLinesSnoc(xs + init, last, enabled, isDirective);
      KeptLinesSnoc(init, last, enabled, isDirective);
      var a, b := KeptLines(xs, enabled, isDirective), KeptLines(init, enabled, isDirective);
      AppendAssoc(a, b, keep);
    }
  }

  /** A directive among `xs + [x]` is one among `xs` or `x` itself. */
  lemma HasDirectiveSnoc(xs: seq<string>, x: string, isDirective: string -> bool)
    ensures HasDirective(xs + [x], isDirective) == (HasDirective(xs, isDirective) || isDirective(x))
  {
    var ys := xs + [x];
    if HasDirective(ys, isDirective) && !isDirective(x) {
      var i :| 0 <= i < |ys| && isDirective(ys[i]);
      assert ys[i] == xs[i];
    }
    if HasDirective(xs, isDirective) {
      var i :| 0 <= i < |xs| && isDirective(xs[i]);
      assert ys[i] == xs[i];
    }
    if isDirective(x) {
      assert ys[|xs|] == x;
    }
  }

  /** Enabling a line list that already has a directive changes nothing. */
  lemma RewrittenEnabledWithDirective(lines: seq<string>, isDirective: string -> bool, directive: string)
    requires HasDirective(lines, isDirective)
    ensures Rewritten(lines, true, isDirective, directive) == lines
  {
    KeptLinesEnabled(lines, isDirective);
  }

  /** Every kept line is a line of the input. */
  lemma {:induction false} KeptLinesMembers(lines: seq<string>, enabled: bool, isDirective: string -> bool)
    ensures forall x :: x in KeptLines(lines, enabled, isDirective) ==> x in lines
  {
    if |lines| > 0 {
      var init := lines[..|lines| - 1];
      KeptLinesMembers(init, enabled, isDirective);
      assert forall x :: x in init ==> x in lines;
    }
  }

  /** Enabling keeps every line as it is. */
  lemma {:induction false} KeptLinesEnabled(lines: seq<string>, isDirective: string -> bool)
    ensures KeptLines(lines, true, isDirective) == lines
  {
    if |lines| > 0 {
      KeptLinesEnabled(lines[..|lines| - 1], isDirective);
      assert lines[..|lines| - 1] + [lines[|lines| - 1]] == lines;
    }
  }

  /** Disabling drops exactly the directive lines: the result is an
      order-preserving subsequence of the input holding every non-directive
      line as often as the input does, and no directive line. */
  lemma DisableDropsExactlyDirectives(lines: seq<string>, isDirective: string -> bool)
    ensures IsSubsequence(KeptLines(lines, false, isDirective), lines)
    ensures forall l :: !isDirective(l) ==>
      multiset(KeptLines(lines, false, isDirective))[l] == multiset(lines)[l]
    ensures forall l :: isDirective(l) ==> multiset(KeptLines(lines, false, isDirective))[l] == 0
  {
    DisableKeepsOrder(lines, isDirective);
    DisableCounts(lines, isDirective);
  }

  lemma {:induction false} DisableKeepsOrder(lines: seq<string>, isDirective: string -> bool)
    ensures IsSubsequence(KeptLines(lines, false, isDirective), lines)
  {
    if |lines| > 0 {
      var init, last := lines[..|lines| - 1], lines[|lines| - 1];
      DisableKeepsOrder(init, isDirective);
      assert init + [last] == lines;
      var before := KeptLines(init, false, isDirective);
      var kept := KeptLines(lines, false, isDirective);
      if isDirective(last) {
        assert kept == before;
        SubsequenceDropLast(before, init, last);
      } else {
        assert kept == before + [last];
        assert kept[..|kept| - 1] == before && lines[..|lines| - 1] == init;
      }
    }
  }

  lemma {:induction false} DisableCounts(lines: seq<string>, isDirective: string -> bool)
    ensures forall l :: !isDirective(l) ==>
      multiset(KeptLines(lines, false, isDirective))[l] == multiset(lines)[l]
    ensures forall l :: isDirective(l) ==> multiset(KeptLines(lines, false, isDirective))[l] == 0
  {
    if |lines| > 0 {
      var init, last := lines[..|lines| - 1], lines[|lines| - 1];
      DisableCounts(init, isDirective);
      assert init + [last] == lines;
      var before := KeptLines(init, false, isDirective);
      assert multiset(lines) == multiset(init) + multiset{last};
      if !isDirective(last) {
        assert multiset(KeptLines(lines, false, isDirective)) == multiset(before) + multiset{last};
      }
    }
  }

  /** No directive survives disabling. */
  lemma {:induction false} DisableLeavesNoDirective(lines: seq<string>, isDirective: string -> bool)
    ensures !HasDirective(KeptLines(lines, false, isDirective), isDirective)
  {
    if |lines| > 0 {
      var init, last := lines[..|lines| - 1], lines[|lines| - 1];
      DisableLeavesNoDirective(init, isDirective);
      var before := KeptLines(init, false, isDirective);
      if !isDirective(last) {
        HasDirectiveSnoc(before, last, isDirective);
      }
    }
  }

  lemma {:induction false} SubsequenceDropLast<T>(s: seq<T>, t: seq<T>, x: T)
    requires IsSubsequence(s, t)
    ensures IsSubsequence(s, t + [x])
    decreases |t|, 1
  {
    var u := t + [x];
    assert u[..|u| - 1] == t;
    if |s| > 0 && s[|s| - 1] == x {
      assert s[..|s| - 1] + [x] == s;
      SubsequenceShorter(s[..|s| - 1], t, x);
    }
  }

  /** Dropping the last element of a subsequence keeps it a subsequence. */
  lemma {:induction false} SubsequenceShorter<T>(s: seq<T>, t: seq<T>, x: T)
    requires IsSubsequence(s + [x], t)
    ensures IsSubsequence(s, t)
    decreases |t|, 0
  {
    var sx := s + [x];
    assert sx[..|sx| - 1] == s;
    if |s| > 0 && |t| > 0 {
      var tl := t[..|t| - 1];
      assert tl + [t[|t| - 1]] == t;
      if x == t[|t| - 1] {
        SubsequenceDropLast(s, tl, t[|t| - 1]);
      } else {
        SubsequenceShorter(s, tl, x);
        SubsequenceDropLast(s, tl, t[|t| - 1]);
      }
    }
  }

  /** Read-after-write at the level of lines: the rewritten lines hold a
      directive exactly when server mode was requested. */
  lemma {:induction false} RewrittenHasDirective(lines: seq<string>, enabled: bool, isDirective: string -> bool, directive: string)
    requires isDirective(directive)
    ensures HasDirective(Rewritten(lines, enabled, isDirective, directive), isDirective) == enabled
  {
    var r := Rewritten(lines, enabled, isDirective, directive);
    if enabled {
      KeptLinesEnabled(lines, isDirective);
      if HasDirective(lines, isDirective) {
        var i :| 0 <= i < |lines| && isDirective(lines[i]);
        assert r[i] == lines[i];
      } else {
        assert r[|r| - 1] == directive;
      }
    } else {
      DisableLeavesNoDirective(lines, isDirective);
    }
  }

  /** Rewriting twice with the same flag is the same as rewriting once. */
  lemma {:induction false} RewrittenIdempotent(lines: seq<string>, enabled: bool, isDirective: string -> bool, directive: string)
    requires isDirective(directive)
    ensures var once := Rewritten(lines, enabled, isDirective, directive);
      Rewritten(once, enabled, isDirective, directive) == once
  {
    var once := Rewritten(lines, enabled, isDirective, directive);
    RewrittenHasDirective(lines, enabled, isDirective, directive);
    if enabled {
      KeptLinesEnabled(once, isDirective);
    } else {
      NoDirectiveKeptAll(once, isDirective);
    }
  }

  /** Without directives, disabling keeps every line. */
  lemma {:induction false} NoDirectiveKeptAll(lines: seq<string>, isDirective: string -> bool)
    requires !HasDirective(lines, isDirective)
    ensures KeptLines(lines, false, isDirective) == lines
  {
    if |lines| > 0 {
      var init := lines[..|lines| - 1];
      forall i | 0 <= i < |init|
        ensures !isDirective(init[i])
      {
        assert init[i] == lines[i];
      }
      NoDirectiveKeptAll(init, isDirective);
      assert init + [lines[|lines| - 1]] == lines;
    }
  }
}
