/**
 Session commands (internal/agent/rootless.go): the quoting printer against a
 reader for simple commands built from the quoting and token rules of the Shell
 Command Language, sections 2.2.1, 2.2.2 and 2.3 of POSIX.1-2017 XCU.
 */
module ShellWords {

  // ---- the printer ----

  /** Every single quote closed, escaped and reopened. */
  function Escape(value: string): string {
    if value == "" then ""
    else (if value[0] == '\'' then "'\\''" else [value[0]]) + Escape(value[1..])
  }

  function ShellQuote(value: string): string {
    "'" + Escape(value) + "'"
  }

  function Join(words: seq<string>): string {
    if words == [] then ""
    else if |words| == 1 then words[0]
    else words[0] + " " + Join(words[1..])
  }

  const XDG := "XDG_RUNTIME_DIR="
  const DBUS := "DBUS_SESSION_BUS_ADDRESS="
  const BUS_SCHEME := "unix:path="
  const FORCE_INSTALL := "FORCE_ROOTLESS_INSTALL=1"
  const SKIP_IPTABLES := "SKIP_IPTABLES=1"

  /** busPath is the bus socket's path under the runtime directory. */
  function SessionEnvAssignments(runtimeDir: string, busPath: string, extra: seq<string>): seq<string> {
    [XDG + ShellQuote(runtimeDir), DBUS + ShellQuote(BUS_SCHEME + busPath)] + extra
  }

  function SessionEnvPrefix(runtimeDir: string, busPath: string, extra: seq<string>): string {
    "export " + Join(SessionEnvAssignments(runtimeDir, busPath, extra)) + "; "
  }

  function SessionCommand(runtimeDir: string, busPath: string, script: string, extra: seq<string>): string {
    SessionEnvPrefix(runtimeDir, busPath, extra) + script
  }

  // ---- the reader ----

  predicate Blank(c: char) { c == ' ' || c == '\t' }

  /** Operators, expansions, patterns and comments: outside the fragment the reader understands. */
  predicate Special(c: char) {
    || c == '|' || c == '&' || c == '<' || c == '>' || c == '(' || c == ')' || c == '$' || c == '`'
    || c == '\"' || c == '*' || c == '?' || c == '[' || c == '#' || c == '~' || c == '\n'
  }

  /** Characters that stand for themselves in a word. */
  predicate Plain(c: char) {
    !Blank(c) && !Special(c) && c != ';' && c != '\'' && c != '\\'
  }

  predicate AllPlain(s: string) {
    forall i :: 0 <= i < |s| ==> Plain(s[i])
  }

  /** The words of the first simple command and whatever follows its semicolon. */
  datatype Reading = Command(words: seq<string>, rest: string) | Unreadable

  /** The word under construction; None between words, so that '' still makes a word. */
  datatype Current = NoWord | Word(text: string) {
    function Text(): string {
      if this.NoWord? then "" else text
    }

    function Finish(words: seq<string>): seq<string> {
      if this.NoWord? then words else words + [text]
    }
  }

  function Read(s: string, words: seq<string>, cur: Current): Reading
    decreases |s|
  {
    if s == "" then Command(cur.Finish(words), "")
    else if Blank(s[0]) then Read(s[1..], cur.Finish(words), NoWord)
    else if s[0] == ';' then Command(cur.Finish(words), s[1..])
    else if s[0] == '\'' then ReadQuoted(s[1..], words, cur.Text())
    else if s[0] == '\\' then
      if |s| == 1 then Unreadable
      else if s[1] == '\n' then Read(s[2..], words, cur)
      else Read(s[2..], words, Word(cur.Text() + [s[1]]))
    else if Special(s[0]) then Unreadable
    else Read(s[1..], words, Word(cur.Text() + [s[0]]))
  }

  /** Inside single quotes everything up to the next single quote is literal. */
  function ReadQuoted(s: string, words: seq<string>, text: string): Reading
    decreases |s|
  {
    if s == "" then Unreadable
    else if s[0] == '\'' then Read(s[1..], words, Word(text))
    else ReadQuoted(s[1..], words, text + [s[0]])
  }

  // ---- printing, then reading ----

  lemma ReadEscapedQuote(suffix: string, words: seq<string>, text: string)
    ensures ReadQuoted("'\\''" + suffix, words, text) == ReadQuoted(suffix, words, text + "'")
  {
    var s := "'\\''" + suffix;
    assert s[1..] == "\\''" + suffix;
    assert s[1..][2..] == "'" + suffix;
    assert ("'" + suffix)[1..] == suffix;
    assert ReadQuoted(s, words, text) == Read(s[1..], words, Word(text));
    assert Read(s[1..], words, Word(text)) == Read("'" + suffix, words, Word(text + ['\'']));
  }

  lemma {:induction false} ReadEscaped(value: string, suffix: string, words: seq<string>, text: string)
    ensures ReadQuoted(Escape(value) + "'" + suffix, words, text) == Read(suffix, words, Word(text + value))
  {
    if value == "" {
      assert Escape(value) + "'" + suffix == "'" + suffix;
      assert ("'" + suffix)[1..] == suffix && text + value == text;
    } else {
      var tail := Escape(value[1..]) + "'" + suffix;
      assert value == [value[0]] + value[1..];
      assert text + value == (text + [value[0]]) + value[1..];
      if value[0] == '\'' {
        assert Escape(value) + "'" + suffix == "'\\''" + tail;
        ReadEscapedQuote(tail, words, text);
      } else {
        assert Escape(value) + "'" + suffix == [value[0]] + tail;
        assert ([value[0]] + tail)[1..] == tail;
      }
      ReadEscaped(value[1..], suffix, words, text + [value[0]]);
    }
  }

  /** A quoted value adds exactly itself to the current word, wherever it stands. */
  lemma ReadShellQuote(value: string, suffix: string, words: seq<string>, cur: Current)
    ensures Read(ShellQuote(value) + suffix, words, cur) == Read(suffix, words, Word(cur.Text() + value))
  {
    var s := ShellQuote(value) + suffix;
    assert s[1..] == Escape(value) + "'" + suffix;
    ReadEscaped(value, suffix, words, cur.Text());
  }

  /** Round trip: the quoted form of any value reads back as that one word. */
  lemma QuoteRoundTrip(value: string)
    ensures Read(ShellQuote(value), [], NoWord) == Command([value], "")
  {
    ReadShellQuote(value, "", [], NoWord);
    assert ShellQuote(value) + "" == ShellQuote(value);
    assert "" + value == value;
  }

  /** Different values never print the same. */
  lemma QuoteInjective(a: string, b: string)
    requires ShellQuote(a) == ShellQuote(b)
    ensures a == b
  {
    QuoteRoundTrip(a);
    QuoteRoundTrip(b);
    assert [a][0] == [b][0];
  }

  lemma {:induction false} ReadPlain(p: string, suffix: string, words: seq<string>, cur: Current)
    requires AllPlain(p) && p != ""
    ensures Read(p + suffix, words, cur) == Read(suffix, words, Word(cur.Text() + p))
  {
    assert (p + suffix)[1..] == p[1..] + suffix;
    var next := Word(cur.Text() + [p[0]]);
    assert Read(p + suffix, words, cur) == Read(p[1..] + suffix, words, next);
    if |p| == 1 {
      assert p[1..] + suffix == suffix && [p[0]] == p;
    } else {
      ReadPlain(p[1..], suffix, words, next);
      assert next.text + p[1..] == cur.Text() + p;
    }
  }

  lemma ReadBlank(suffix: string, words: seq<string>, cur: Current)
    ensures Read(" " + suffix, words, cur) == Read(suffix, cur.Finish(words), NoWord)
  {}

  lemma ReadSeparator(script: string, words: seq<string>, cur: Current)
    ensures Read("; " + script, words, cur) == Command(cur.Finish(words), " " + script)
  {}

  lemma NamesPlain()
    ensures AllPlain("export") && AllPlain(XDG) && AllPlain(DBUS)
  {}

  lemma ReadExport(tail: string)
    ensures Read("export " + tail, [], NoWord) == Read(tail, ["export"], NoWord)
  {
    NamesPlain();
    assert "export " + tail == "export" + (" " + tail);
    ReadPlain("export", " " + tail, [], NoWord);
    assert "" + "export" == "export";
    ReadBlank(tail, [], Word("export"));
    assert [] + ["export"] == ["export"];
  }

  /** Rendered words that each read as one word read, joined by blanks, as that list. */
  ghost predicate Renders(rendered: string, word: string) {
    forall suffix, words :: Read(rendered + suffix, words, NoWord) == Read(suffix, words, Word(word))
  }

  ghost predicate AllRender(rendered: seq<string>, words: seq<string>) {
    |rendered| == |words| && forall i :: 0 <= i < |words| ==> Renders(rendered[i], words[i])
  }

  lemma {:induction false} ReadJoined(rendered: seq<string>, meant: seq<string>, suffix: string, words: seq<string>)
    requires AllRender(rendered, meant) && |meant| > 0
    ensures Read(Join(rendered) + suffix, words, NoWord) ==
            Read(suffix, words + meant[..|meant| - 1], Word(meant[|meant| - 1]))
  {
    assert Renders(rendered[0], meant[0]);
    if |meant| == 1 {
      assert words + meant[..0] == words;
    } else {
      var tail := Join(rendered[1..]) + suffix;
      assert Join(rendered) + suffix == rendered[0] + (" " + tail);
      ReadBlank(tail, words, Word(meant[0]));
      assert AllRender(rendered[1..], meant[1..]) by {
        forall i | 0 <= i < |meant| - 1 ensures Renders(rendered[1..][i], meant[1..][i]) {
          assert Renders(rendered[i + 1], meant[i + 1]);
        }
      }
      ReadJoined(rendered[1..], meant[1..], suffix, words + [meant[0]]);
      assert words + [meant[0]] + meant[1..][..|meant| - 2] == words + meant[..|meant| - 1];
    }
  }

  lemma PlainRenders(p: string)
    requires AllPlain(p) && p != ""
    ensures Renders(p, p)
  {
    forall suffix, words ensures Read(p + suffix, words, NoWord) == Read(suffix, words, Word(p)) {
      ReadPlain(p, suffix, words, NoWord);
      assert "" + p == p;
    }
  }

  lemma AssignmentRenders(name: string, value: string)
    requires AllPlain(name) && name != ""
    ensures Renders(name + ShellQuote(value), name + value)
  {
    forall suffix, words ensures Read(name + ShellQuote(value) + suffix, words, NoWord) == Read(suffix, words, Word(name + value)) {
      assert name + ShellQuote(value) + suffix == name + (ShellQuote(value) + suffix);
      ReadPlain(name, ShellQuote(value) + suffix, words, NoWord);
      assert "" + name == name;
      ReadShellQuote(value, suffix, words, Word(name));
    }
  }

  /** The words a session command must read as: export, the two bus assignments, the toggles. */
  function ExportWords(runtimeDir: string, busPath: string, extra: seq<string>): seq<string> {
    ["export", XDG + runtimeDir, DBUS + (BUS_SCHEME + busPath)] + extra
  }

  lemma AssignmentsRender(runtimeDir: string, busPath: string, extra: seq<string>)
    requires forall i :: 0 <= i < |extra| ==> AllPlain(extra[i]) && extra[i] != ""
    ensures AllRender(SessionEnvAssignments(runtimeDir, busPath, extra),
                      [XDG + runtimeDir, DBUS + (BUS_SCHEME + busPath)] + extra)
  {
    var r, w := SessionEnvAssignments(runtimeDir, busPath, extra), [XDG + runtimeDir, DBUS + (BUS_SCHEME + busPath)] + extra;
    NamesPlain();
    AssignmentRenders(XDG, runtimeDir);
    AssignmentRenders(DBUS, BUS_SCHEME + busPath);
    forall i | 0 <= i < |w| ensures Renders(r[i], w[i]) {
      if i >= 2 {
        PlainRenders(extra[i - 2]);
        assert r[i] == extra[i - 2] == w[i];
      }
    }
  }

  lemma LastBack(a: seq<string>, b: seq<string>)
    requires b != []
    ensures a + b[..|b| - 1] + [b[|b| - 1]] == a + b
  {}

  /**
   For every runtime directory, bus path and script, the shell reads a session command as export with
   exactly the two bus assignments and the toggles, and leaves the script behind byte for byte.
   */
  lemma SessionCommandReads(runtimeDir: string, busPath: string, script: string, extra: seq<string>)
    requires forall i :: 0 <= i < |extra| ==> AllPlain(extra[i]) && extra[i] != ""
    ensures Read(SessionCommand(runtimeDir, busPath, script, extra), [], NoWord) ==
            Command(ExportWords(runtimeDir, busPath, extra), " " + script)
  {
    var rendered := SessionEnvAssignments(runtimeDir, busPath, extra);
    var meant := [XDG + runtimeDir, DBUS + (BUS_SCHEME + busPath)] + extra;
    var tail := Join(rendered) + ("; " + script);
    assert SessionCommand(runtimeDir, busPath, script, extra) == "export " + tail;
    ReadExport(tail);
    AssignmentsRender(runtimeDir, busPath, extra);
    ReadJoined(rendered, meant, "; " + script, ["export"]);
    ReadSeparator(script, ["export"] + meant[..|meant| - 1], Word(meant[|meant| - 1]));
    LastBack(["export"], meant);
    assert ["export"] + meant == ExportWords(runtimeDir, busPath, extra);
  }

  // ---- which toggles may be passed verbatim ----

  function Total(words: seq<string>): nat {
    if words == [] then 0 else Total(words[..|words| - 1]) + |words[|words| - 1]|
  }

  lemma FinishTotal(words: seq<string>, cur: Current)
    ensures Total(cur.Finish(words)) == Total(words) + |cur.Text()|
  {}

  /** Reading never adds characters, and drops at least one unless all of them are plain. */
  lemma {:induction false} ReadShrinks(s: string, words: seq<string>, cur: Current)
    requires Read(s, words, cur).Command?
    ensures var r := Read(s, words, cur);
            Total(r.words) + |r.rest| + (if AllPlain(s) then 0 else 1) <= Total(words) + |cur.Text()| + |s|
    decreases |s|
  {
    FinishTotal(words, cur);
    if s == "" {
    } else if Blank(s[0]) {
      ReadShrinks(s[1..], cur.Finish(words), NoWord);
    } else if s[0] == ';' {
    } else if s[0] == '\'' {
      QuotedShrinks(s[1..], words, cur.Text());
    } else if s[0] == '\\' {
      if s[1] == '\n' {
        ReadShrinks(s[2..], words, cur);
      } else {
        ReadShrinks(s[2..], words, Word(cur.Text() + [s[1]]));
      }
    } else {
      ReadShrinks(s[1..], words, Word(cur.Text() + [s[0]]));
      assert AllPlain(s[1..]) ==> AllPlain(s) by {
        assert s == [s[0]] + s[1..];
      }
    }
  }

  lemma {:induction false} QuotedShrinks(s: string, words: seq<string>, text: string)
    requires ReadQuoted(s, words, text).Command?
    ensures var r := ReadQuoted(s, words, text); Total(r.words) + |r.rest| + 1 <= Total(words) + |text| + |s|
    decreases |s|
  {
    if s[0] == '\'' {
      ReadShrinks(s[1..], words, Word(text));
    } else {
      QuotedShrinks(s[1..], words, text + [s[0]]);
    }
  }

  /** A toggle appended as it is reads back as itself exactly when it is a non-empty plain word. */
  lemma VerbatimExactly(e: string)
    ensures Read(e, [], NoWord) == Command([e], "") <==> e != "" && AllPlain(e)
  {
    if e != "" && AllPlain(e) {
      ReadPlain(e, "", [], NoWord);
      assert e + "" == e && "" + e == e && [] + [e] == [e];
    } else if Read(e, [], NoWord).Command? {
      ReadShrinks(e, [], NoWord);
      FinishTotal([], Word(e));
      assert [] + [e] == [e];
    }
  }

  lemma ForcePlain()
    ensures AllPlain(FORCE_INSTALL)
  {}

  lemma SkipPlain()
    ensures AllPlain(SKIP_IPTABLES)
  {}

  /** The installer's command, with its two toggles, for every runtime directory and script. */
  lemma InstallerCommandReads(runtimeDir: string, busPath: string, script: string)
    ensures Read(SessionCommand(runtimeDir, busPath, script, [FORCE_INSTALL, SKIP_IPTABLES]), [], NoWord) ==
            Command(ExportWords(runtimeDir, busPath, [FORCE_INSTALL, SKIP_IPTABLES]), " " + script)
  {
    ForcePlain();
    SkipPlain();
    SessionCommandReads(runtimeDir, busPath, script, [FORCE_INSTALL, SKIP_IPTABLES]);
  }
}
