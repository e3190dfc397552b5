/** The `allow`-directive store of the Python service (chrony_api_app.py):
    server mode is read over str.splitlines() of chrony.conf, while the
    rewrite works on the readlines() lines, which keep their '\n', and
    writes them back with writelines(). */
module PyConfig {
  import opened Text
  import opened ConfigLines
  import opened PyLines

  /** get_server_mode_status: any stripped line starting with `allow`; a file
      that cannot be read (`None`) reads as disabled. */
  function GetServerModeStatus(file: Option<string>): (enabled: bool)
    ensures file.None? ==> !enabled
  {
    file.Some? && HasDirective(SplitLines(file.value), DirectiveTest(Python))
  }

  /** The text set_server_mode_status writes for a request. */
  function RewriteConfig(content: string, enabled: bool): string {
    Concat(Rewritten(ReadLines(content), enabled, DirectiveTest(Python), DefaultAllow(Python)))
  }

  /** set_server_mode_status on the text of a file that could be read:
      readlines, the rewrite loop, writelines. */
  method RewriteText(content: string, enabled: bool) returns (newContent: string)
    ensures newContent == RewriteConfig(content, enabled)
  {
    var lines := ReadLines(content);
    var newLines := RewriteLines(Python, lines, enabled);
    newContent := Concat(newLines);
  }

  /** Stripping removes a line's '\n' along with the rest of its white space,
      so a line and its chomped form are both directives or both not. */
  lemma ChompDirective(line: string)
    ensures IsAllowLine(Python, Chomp(line)) == IsAllowLine(Python, line)
  {
    if Terminated(line) {
      assert Chomp(line) + ['\n'] == line;
      TrimAppendSpace(PySpace, Chomp(line), '\n');
    }
  }

  lemma HasDirectiveChompAll(lines: seq<string>)
    ensures HasDirective(ChompAll(lines), DirectiveTest(Python)) == HasDirective(lines, DirectiveTest(Python))
  {
    var chomped := ChompAll(lines);
    forall i | 0 <= i < |lines|
      ensures IsAllowLine(Python, chomped[i]) == IsAllowLine(Python, lines[i])
    {
      ChompDirective(lines[i]);
    }
    if HasDirective(lines, DirectiveTest(Python)) {
      var i :| 0 <= i < |lines| && IsAllowLine(Python, lines[i]);
      assert IsAllowLine(Python, chomped[i]);
    }
    if HasDirective(chomped, DirectiveTest(Python)) {
      var i :| 0 <= i < |chomped| && IsAllowLine(Python, chomped[i]);
      assert IsAllowLine(Python, lines[i]);
    }
  }

  /** When '\n' is the file's only line boundary, the reader and the rewrite
      agree on whether the file holds a directive. */
  lemma ReadMatchesRewrite(content: string)
    requires OnlyNewlineBreaks(content)
    ensures GetServerModeStatus(Some(content)) == HasDirective(ReadLines(content), DirectiveTest(Python))
  {
    SplitLinesOfRead(content);
    HasDirectiveChompAll(ReadLines(content));
  }

  /** Enabling a file whose lines already hold a directive writes it back unchanged. */
  lemma EnableFoundIdentity(content: string)
    requires HasDirective(ReadLines(content), DirectiveTest(Python))
    ensures RewriteConfig(content, true) == content
  {
    RewrittenEnabledWithDirective(ReadLines(content), DirectiveTest(Python), DefaultAllow(Python));
    ConcatReadLines(content);
  }

  /** Enabling a file without a directive appends exactly `allow 0.0.0.0/0\n`
      to its text, whether or not the text ends with a newline. */
  lemma EnableAppendsDirective(content: string)
    requires !HasDirective(ReadLines(content), DirectiveTest(Python))
    ensures RewriteConfig(content, true) == content + "allow 0.0.0.0/0\n"
  {
    var lines := ReadLines(content);
    KeptLinesEnabled(lines, DirectiveTest(Python));
    assert Rewritten(lines, true, DirectiveTest(Python), DefaultAllow(Python)) == lines + [DefaultAllow(Python)];
    ConcatAppend(lines, [DefaultAllow(Python)]);
    assert Concat([DefaultAllow(Python)]) == DefaultAllow(Python);
    ConcatReadLines(content);
  }

  /** The rewritten lines keep the shape readlines() gives, provided enabling
      never appends after an unterminated last line. */
  lemma RewrittenWellFormed(content: string, enabled: bool)
    requires enabled ==> content == [] || Terminated(content)
    ensures WellFormedLines(Rewritten(ReadLines(content), enabled, DirectiveTest(Python), DefaultAllow(Python)))
  {
    var lines := ReadLines(content);
    var isDirective := DirectiveTest(Python);
    var kept := KeptLines(lines, enabled, isDirective);
    var r := Rewritten(lines, enabled, isDirective, DefaultAllow(Python));
    ReadLinesWellFormed(content);
    KeptLinesWellFormed(lines, enabled, isDirective);
    if enabled && !HasDirective(lines, isDirective) {
      KeptLinesEnabled(lines, isDirective);
      assert r == lines + [DefaultAllow(Python)];
      if |lines| > 0 {
        ReadLinesTerminated(content, |lines| - 1);
      }
      assert '\n' !in Chomp(DefaultAllow(Python)) by {
        assert Chomp(DefaultAllow(Python)) == "allow 0.0.0.0/0";
      }
      WellFormedSnoc(lines, DefaultAllow(Python));
    } else {
      assert r == kept + [];
    }
  }

  /** A line appended after a terminated last line keeps the list well formed. */
  lemma WellFormedSnoc(lines: seq<string>, extra: string)
    requires WellFormedLines(lines) && (|lines| > 0 ==> Terminated(lines[|lines| - 1]))
    requires extra != [] && '\n' !in Chomp(extra)
    ensures WellFormedLines(lines + [extra])
  {
    var r := lines + [extra];
    forall i | 0 <= i < |r|
      ensures r[i] != [] && '\n' !in Chomp(r[i]) && (i < |r| - 1 ==> Terminated(r[i]))
    {
      if i < |lines| {
        assert r[i] == lines[i];
      }
    }
  }

  /** Keeping lines of a well-formed list keeps it well formed: every kept
      line but the input's last is terminated. */
  lemma {:induction false} KeptLinesWellFormed(lines: seq<string>, enabled: bool, isDirective: string -> bool)
    requires WellFormedLines(lines)
    ensures WellFormedLines(KeptLines(lines, enabled, isDirective))
  {
    if |lines| > 0 {
      var init, last := lines[..|lines| - 1], lines[|lines| - 1];
      var before := KeptLines(init, enabled, isDirective);
      var kept := KeptLines(lines, enabled, isDirective);
      assert kept == before + (if enabled || !isDirective(last) then [last] else []);
      KeptLinesMembers(init, enabled, isDirective);
      forall i | 0 <= i < |before|
        ensures before[i] != [] && '\n' !in Chomp(before[i]) && Terminated(before[i])
      {
        assert before[i] in init;
        var j :| 0 <= j < |init| && init[j] == before[i];
        assert init[j] == lines[j];
      }
    }
  }

  /** Every line of the rewritten list is a line of the file or the directive,
      so it holds no boundary but '\n' when the file holds none. */
  lemma RewrittenBreaks(content: string, enabled: bool)
    requires OnlyNewlineBreaks(content)
    ensures forall i :: 0 <= i < |Rewritten(ReadLines(content), enabled, DirectiveTest(Python), DefaultAllow(Python))| ==>
      OnlyNewlineBreaks(Rewritten(ReadLines(content), enabled, DirectiveTest(Python), DefaultAllow(Python))[i])
  {
    var lines := ReadLines(content);
    var r := Rewritten(lines, enabled, DirectiveTest(Python), DefaultAllow(Python));
    var kept := KeptLines(lines, enabled, DirectiveTest(Python));
    ReadLinesBreaks(content);
    KeptLinesMembers(lines, enabled, DirectiveTest(Python));
    forall i | 0 <= i < |r|
      ensures OnlyNewlineBreaks(r[i])
    {
      if i < |kept| {
        assert r[i] in lines;
      } else {
        var d := DefaultAllow(Python);
        assert r[i] == d;
        forall j | 0 <= j < |d| && IsLineBreak(d[j])
          ensures d[j] == '\n'
        {
          assert j == 15;
        }
      }
    }
  }

  /** Read-after-write: get_server_mode_status on the written file reports the
      requested mode, when '\n' is the file's only line boundary and enabling
      starts from an empty or newline-terminated file. */
  lemma ReadAfterWrite(content: string, enabled: bool)
    requires OnlyNewlineBreaks(content)
    requires enabled ==> content == [] || Terminated(content)
    ensures GetServerModeStatus(Some(RewriteConfig(content, enabled))) == enabled
  {
    var r := Rewritten(ReadLines(content), enabled, DirectiveTest(Python), DefaultAllow(Python));
    RewrittenWellFormed(content, enabled);
    RewrittenBreaks(content, enabled);
    SplitLinesOfConcat(r);
    HasDirectiveChompAll(r);
    DefaultAllowIsDirective(Python);
    RewrittenHasDirective(ReadLines(content), enabled, DirectiveTest(Python), DefaultAllow(Python));
  }

  /** Enabling twice writes the same text as enabling once, for a file that
      is empty or ends with a newline. */
  lemma EnableIdempotent(content: string)
    requires content == [] || Terminated(content)
    ensures RewriteConfig(RewriteConfig(content, true), true) == RewriteConfig(content, true)
  {
    var lines := ReadLines(content);
    if HasDirective(lines, DirectiveTest(Python)) {
      EnableFoundIdentity(content);
    } else {
      var once := RewriteConfig(content, true);
      EnableAppendsDirective(content);
      DirectiveReadBack(content);
      EnableFoundIdentity(once);
    }
  }

  /** Disabling twice writes the same text as disabling once. */
  lemma DisableIdempotent(content: string)
    ensures RewriteConfig(RewriteConfig(content, false), false) == RewriteConfig(content, false)
  {
    var isDirective := DirectiveTest(Python);
    var kept := Rewritten(ReadLines(content), false, isDirective, DefaultAllow(Python));
    var once := RewriteConfig(content, false);
    assert once == Concat(kept);
    RewrittenWellFormed(content, false);
    ReadLinesConcat(kept);
    assert ReadLines(once) == kept;
    DefaultAllowIsDirective(Python);
    RewrittenHasDirective(ReadLines(content), false, isDirective, DefaultAllow(Python));
    NoDirectiveKeptAll(kept, isDirective);
    assert Rewritten(kept, false, isDirective, DefaultAllow(Python)) == kept;
  }

  /** After appending the directive to a terminated file, readlines() finds
      it as the last line. */
  lemma DirectiveReadBack(content: string)
    requires content == [] || Terminated(content)
    ensures HasDirective(ReadLines(content + "allow 0.0.0.0/0\n"), DirectiveTest(Python))
  {
    var d := DefaultAllow(Python);
    assert ReadLines(d) == [d] by {
      DirectiveLineFacts();
      assert Chomp(d) == "allow 0.0.0.0/0";
      ReadLinesOfLine(d);
    }
    assert ReadLines(content + d) == ReadLines(content) + [d] by {
      ReadLinesAppend(content, d);
    }
    assert DirectiveTest(Python)(d) by {
      DefaultAllowIsDirective(Python);
    }
    HasDirectiveSnoc(ReadLines(content), d, DirectiveTest(Python));
  }

  /** As written, enabling a one-line file whose line lacks its '\n' glues
      the directive onto that line: the written text reads as disabled, and
      enabling again appends a second copy. `ServerAIsFused` shows the file
      `server a` is such a file. */
  lemma EnableFusesOntoUnterminatedLine(c: string)
    requires c != [] && NoLineBreak(c)
    requires !IsAllowLine(Python, c) && !IsAllowLine(Python, c + "allow 0.0.0.0/0")
    ensures RewriteConfig(c, true) == c + "allow 0.0.0.0/0\n"
    ensures !GetServerModeStatus(Some(RewriteConfig(c, true)))
    ensures RewriteConfig(RewriteConfig(c, true), true) != RewriteConfig(c, true)
  {
    var line := "allow 0.0.0.0/0";
    var v := c + line;
    var w := v + "\n";
    var isDirective := DirectiveTest(Python);
    assert c + DefaultAllow(Python) == w;
    assert RewriteConfig(c, true) == w by {
      assert c[|c| - 1] in c;
      assert Chomp(c) == c;
      EnableOneLine(c);
    }
    DirectiveLineFacts();
    NoLineBreakAppend(c, line);
    assert !GetServerModeStatus(Some(w)) by {
      SplitLinesOfLine(v);
      HasDirectiveSingleton(v, isDirective);
    }
    assert RewriteConfig(w, true) == w + "allow 0.0.0.0/0\n" by {
      assert Chomp(w) == v;
      forall k | 0 <= k < |v|
        ensures v[k] != '\n'
      {
        assert !IsLineBreak(v[k]);
      }
      ChompDirective(w);
      EnableOneLine(w);
    }
  }

  /** The one-line file `server a` meets the conditions of the counterexample. */
  lemma ServerAIsFused()
    ensures var c := "server a";
      c != [] && NoLineBreak(c) && !IsAllowLine(Python, c) && !IsAllowLine(Python, c + "allow 0.0.0.0/0")
  {
    var c := "server a";
    assert forall ch :: ch in c ==> !IsLineBreak(ch);
    NoBreakByMembers(c);
    NotDirective(c);
    NotDirective(c + "allow 0.0.0.0/0");
  }

  /** Enabling a one-line file that is not a directive appends the directive. */
  lemma EnableOneLine(line: string)
    requires line != [] && '\n' !in Chomp(line) && !IsAllowLine(Python, line)
    ensures RewriteConfig(line, true) == line + "allow 0.0.0.0/0\n"
  {
    ReadLinesOfLine(line);
    HasDirectiveSingleton(line, DirectiveTest(Python));
    EnableAppendsDirective(line);
  }

  /** The facts about the default directive line. */
  lemma DirectiveLineFacts()
    ensures NoLineBreak("allow 0.0.0.0/0")
    ensures DefaultAllow(Python) == "allow 0.0.0.0/0" + "\n"
    ensures IsAllowLine(Python, "allow 0.0.0.0/0")
  {
    var line := "allow 0.0.0.0/0";
    assert forall ch :: ch in line ==> !IsLineBreak(ch);
    NoBreakByMembers(line);
    DefaultAllowIsDirective(Go);
    assert IsAllowLine(Go, line);
    TrimOfTrimmed(PySpace, line);
  }

  lemma HasDirectiveSingleton(line: string, isDirective: string -> bool)
    ensures HasDirective([line], isDirective) == isDirective(line)
  {
    assert [line][0] == line;
  }

  /** A line that starts with `s` is not a directive. */
  lemma NotDirective(line: string)
    requires |line| > 0 && line[0] == 's' && !IsSpace(PySpace, line[|line| - 1])
    ensures !IsAllowLine(Python, line)
  {
    TrimOfTrimmed(PySpace, line);
  }

  /** The rewrite as evidently intended: when enabling must append after an
      unterminated last line, that line is terminated first so that the
      directive stands on a line of its own. */
  function RewriteConfigOnOwnLine(content: string, enabled: bool): string {
    if enabled && !HasDirective(ReadLines(content), DirectiveTest(Python)) && content != [] && !Terminated(content)
    then content + "\n" + DefaultAllow(Python)
    else RewriteConfig(content, enabled)
  }

  /** Read-after-write holds for the corrected rewrite on every file whose
      only line boundary is '\n', terminated or not. */
  lemma OnOwnLineReadAfterWrite(content: string, enabled: bool)
    requires OnlyNewlineBreaks(content)
    ensures GetServerModeStatus(Some(RewriteConfigOnOwnLine(content, enabled))) == enabled
  {
    var isDirective := DirectiveTest(Python);
    var d := DefaultAllow(Python);
    if !enabled || content == [] || Terminated(content) {
      ReadAfterWrite(content, enabled);
    } else if HasDirective(ReadLines(content), isDirective) {
      EnableFoundIdentity(content);
      ReadMatchesRewrite(content);
    } else {
      var t := content + "\n";
      var line := "allow 0.0.0.0/0";
      assert RewriteConfigOnOwnLine(content, enabled) == t + d;
      DirectiveLineFacts();
      assert SplitLines(t + d) == SplitLines(t) + [line] by {
        SplitLinesAfterNewline(t, d);
        SplitLinesOfLine(line);
      }
      HasDirectiveSnoc(SplitLines(t), line, isDirective);
    }
  }

  /** Enabling twice with the corrected rewrite writes the same text as
      enabling once, on every file. */
  lemma OnOwnLineEnableIdempotent(content: string)
    ensures RewriteConfigOnOwnLine(RewriteConfigOnOwnLine(content, true), true)
      == RewriteConfigOnOwnLine(content, true)
  {
    var isDirective := DirectiveTest(Python);
    var once := RewriteConfigOnOwnLine(content, true);
    if HasDirective(ReadLines(content), isDirective) {
      EnableFoundIdentity(content);
    } else if content == [] || Terminated(content) {
      EnableAppendsDirective(content);
      DirectiveReadBack(content);
      EnableFoundIdentity(once);
    } else {
      var t := content + "\n";
      assert Terminated(t);
      DirectiveReadBack(t);
      assert once == t + "allow 0.0.0.0/0\n";
      EnableFoundIdentity(once);
    }
  }
}
