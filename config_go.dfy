/** The `allow`-directive store of the Go service (chrony_api_app.go):
    chrony.conf is cut into lines with strings.Split on '\n', tested or
    rewritten line by line, and glued back with strings.Join. */
module GoConfig {
  import opened Text
  import opened ConfigLines

  /** Server mode as getServerModeStatus reads it from the file's text. */
  predicate AllowEnabled(content: string) {
    HasDirective(Split(content, '\n'), DirectiveTest(Go))
  }

  /** The text setServerModeStatus writes back for a request. */
  function RewriteConfig(content: string, enabled: bool): string {
    Join(Rewritten(Split(content, '\n'), enabled, DirectiveTest(Go), DefaultAllow(Go)), '\n')
  }

  /** The scan of getServerModeStatus over the lines of the file: stop at
      the first line that is a directive. */
  method ScanForAllow(lines: seq<string>) returns (found: bool)
    ensures found == HasDirective(lines, DirectiveTest(Go))
  {
    ghost var isDirective := DirectiveTest(Go);
    for i := 0 to |lines|
      invariant forall j :: 0 <= j < i ==> !isDirective(lines[j])
    {
      if IsAllowLine(Go, lines[i]) {
        assert isDirective(lines[i]);
        return true;
      }
    }
    return false;
  }

  /** getServerModeStatus on the text of a file that could be read. */
  method ServerModeOfText(content: string) returns (enabled: bool)
    ensures enabled == AllowEnabled(content)
  {
    var lines := Split(content, '\n');
    enabled := ScanForAllow(lines);
  }

  /** The text setServerModeStatus writes: split, rewrite, join. */
  method RewriteText(content: string, enabled: bool) returns (newContent: string)
    ensures newContent == RewriteConfig(content, enabled)
  {
    var lines := Split(content, '\n');
    var newLines := RewriteLines(Go, lines, enabled);
    newContent := Join(newLines, '\n');
  }

  /** No line of the rewritten list holds a '\n', so splitting the written
      text gives the list back. */
  lemma SplitRewritten(content: string, enabled: bool)
    requires Rewritten(Split(content, '\n'), enabled, DirectiveTest(Go), DefaultAllow(Go)) != []
    ensures Split(RewriteConfig(content, enabled), '\n')
      == Rewritten(Split(content, '\n'), enabled, DirectiveTest(Go), DefaultAllow(Go))
  {
    var lines := Split(content, '\n');
    var r := Rewritten(lines, enabled, DirectiveTest(Go), DefaultAllow(Go));
    KeptLinesMembers(lines, enabled, DirectiveTest(Go));
    SplitPiecesFree(content, '\n');
    forall i | 0 <= i < |r|
      ensures '\n' !in r[i]
    {
      if i < |KeptLines(lines, enabled, DirectiveTest(Go))| {
        assert r[i] in KeptLines(lines, enabled, DirectiveTest(Go));
      }
    }
    SplitJoin(r, '\n');
  }

  /** Read-after-write: after a successful rewrite, getServerModeStatus reports
      exactly the requested mode. */
  lemma ReadAfterWrite(content: string, enabled: bool)
    ensures AllowEnabled(RewriteConfig(content, enabled)) == enabled
  {
    var lines := Split(content, '\n');
    var r := Rewritten(lines, enabled, DirectiveTest(Go), DefaultAllow(Go));
    DefaultAllowIsDirective(Go);
    RewrittenHasDirective(lines, enabled, DirectiveTest(Go), DefaultAllow(Go));
    if r == [] {
      assert !enabled by {
        if enabled {
          KeptLinesEnabled(lines, DirectiveTest(Go));
        }
      }
      assert Split("", '\n') == [""];
      assert !IsAllowLine(Go, "");
    } else {
      SplitRewritten(content, enabled);
    }
  }

  /** Enabling a file that already holds a directive writes it back byte for byte. */
  lemma EnableWhenEnabledIsIdentity(content: string)
    requires AllowEnabled(content)
    ensures RewriteConfig(content, true) == content
  {
    RewrittenEnabledWithDirective(Split(content, '\n'), DirectiveTest(Go), DefaultAllow(Go));
    JoinSplit(content, '\n');
  }

  /** Enabling a file without a directive appends exactly one line,
      `allow 0.0.0.0/0`, after everything that was there. */
  lemma EnableAppendsDirective(content: string)
    requires !AllowEnabled(content)
    ensures RewriteConfig(content, true) == content + "\n" + "allow 0.0.0.0/0"
  {
    var lines := Split(content, '\n');
    KeptLinesEnabled(lines, DirectiveTest(Go));
    JoinAppend(lines, [DefaultAllow(Go)], '\n');
    JoinSplit(content, '\n');
  }

  /** Enabling twice writes the same text as enabling once. */
  lemma EnableIdempotent(content: string)
    ensures RewriteConfig(RewriteConfig(content, true), true) == RewriteConfig(content, true)
  {
    ReadAfterWrite(content, true);
    EnableWhenEnabledIsIdentity(RewriteConfig(content, true));
  }

  /** Disabling twice writes the same text as disabling once. */
  lemma DisableIdempotent(content: string)
    ensures RewriteConfig(RewriteConfig(content, false), false) == RewriteConfig(content, false)
  {
    var once := RewriteConfig(content, false);
    var lines := Split(once, '\n');
    var isDirective := DirectiveTest(Go);
    assert !HasDirective(lines, isDirective) by {
      ReadAfterWrite(content, false);
    }
    assert Rewritten(lines, false, isDirective, DefaultAllow(Go)) == lines by {
      NoDirectiveKeptAll(lines, isDirective);
    }
    JoinSplit(once, '\n');
  }

  /** Toggling a file without a directive on and then off restores it exactly. */
  lemma DisableUndoesEnable(content: string)
    requires !AllowEnabled(content)
    ensures RewriteConfig(RewriteConfig(content, true), false) == content
  {
    var lines := Split(content, '\n');
    var isDirective := DirectiveTest(Go);
    var directive := DefaultAllow(Go);
    var enabled := RewriteConfig(content, true);
    DefaultAllowIsDirective(Go);
    assert isDirective(directive);
    assert !HasDirective(lines, isDirective);
    KeptLinesEnabled(lines, isDirective);
    assert Rewritten(lines, true, isDirective, directive) == lines + [directive];
    SplitRewritten(content, true);
    assert Split(enabled, '\n') == lines + [directive];
    KeptLinesAppend(lines, [directive], false, isDirective);
    assert KeptLines([directive], false, isDirective) == [] by {
      assert [directive][..0] == [];
    }
    NoDirectiveKeptAll(lines, isDirective);
    assert KeptLines(lines + [directive], false, isDirective) == lines;
    assert Rewritten(lines + [directive], false, isDirective, directive) == lines;
    JoinSplit(content, '\n');
  }
}
