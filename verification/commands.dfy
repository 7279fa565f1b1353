/**
  Slash commands of the interactive prompt (src/commands.py): splitting a
  line into a command and its argument text, and the help listing.
  Completion by prefix is `Lists.FilterPrefix`.
 */
module Commands {
  import opened Options
  import opened Text
  import opened Sorting

  /** A registered command: its name, usage line and help text. */
  datatype CommandSpec = CommandSpec(name: string, usage: string, help: string)

  function NameOf(c: CommandSpec): string { c.name }

  const HelpHeader := "Available commands:"

  // ---------------------------------------------------------------------------
  // split_command

  /**
    `split_command`: the stripped line must start with "/"; the command is its
    first whitespace-delimited word and the rest is what follows the first run
    of whitespace ("" when there is none).
   */
  function SplitCommand(text: string): (r: Option<(string, string)>)
    ensures r.None? <==> !StartsWith(Strip(text), "/")
    ensures r.Some? ==> StartsWith(r.value.0, "/")
  {
    var s := Strip(text);
    if !StartsWith(s, "/") then None
    else
      match FindCharFrom(s, IsSpace, 0)
      case None => Some((s, ""))
      case Some(i) =>
        assert s[..i][..1] == s[..1];
        Some((s[..i], LStrip(s[i..])))
  }

  /** No character of `s` is whitespace. */
  predicate NoSpace(s: string) {
    forall k | 0 <= k < |s| :: !IsSpace(s[k])
  }

  /**
    What a split command is made of: the stripped line `s` is the command, a
    gap of whitespace and the rest; the command has no whitespace, the rest
    does not start with whitespace, and the rest is empty exactly when the
    line holds no whitespace at all.
   */
  predicate CommandParts(s: string, cmd: string, rest: string) {
    && NoSpace(cmd)
    && StartsWith(s, cmd) && EndsWith(s, rest) && |cmd| + |rest| <= |s|
    && (forall k | |cmd| <= k < |s| - |rest| :: IsSpace(s[k]))
    && (rest == "" || !IsSpace(rest[0]))
    && (rest == "" <==> NoSpace(s))
  }

  /** Text after the first whitespace of a line not ending in whitespace: left-stripping it leaves a non-empty rest after a gap of whitespace. */
  lemma GapThenRest(t: string)
    requires t != [] && !IsSpace(t[|t| - 1])
    ensures LStrip(t) != ""
  {
  }

  /** Splitting at the first whitespace `i` of a line not ending in whitespace. */
  lemma PartsAtSpace(s: string, i: nat)
    requires i < |s| && IsSpace(s[i]) && !IsSpace(s[|s| - 1])
    requires forall k | 0 <= k < i :: !IsSpace(s[k])
    ensures CommandParts(s, s[..i], LStrip(s[i..]))
  {
    var t := s[i..];
    var rest := LStrip(t);
    assert t[|t| - 1] == s[|s| - 1];
    GapThenRest(t);
    assert rest == s[|s| - |rest|..];
    forall k | i <= k < |s| - |rest| ensures IsSpace(s[k]) {
      assert s[k] == t[k - i];
    }
    assert !NoSpace(s);
  }

  /** Splitting a stripped command line gives its parts. */
  lemma SplitCommandParts(text: string)
    requires StartsWith(Strip(text), "/")
    ensures CommandParts(Strip(text), SplitCommand(text).value.0, SplitCommand(text).value.1)
  {
    var s := Strip(text);
    match FindCharFrom(s, IsSpace, 0)
    case None =>
    case Some(i) =>
      PartsAtSpace(s, i);
  }

  /** A string that neither starts nor ends with whitespace is its own strip. */
  lemma StrippedAlready(s: string)
    requires s != [] && !IsSpace(s[0]) && !IsSpace(s[|s| - 1])
    ensures Strip(s) == s
  {
    LStripWhileIdle(s, IsSpace);
    RStripWhileIdle(s, IsSpace);
  }

  /** The first whitespace in `cmd + " " + rest` is the space after `cmd`. */
  lemma FirstSpaceAfter(cmd: string, rest: string)
    requires NoSpace(cmd)
    ensures FindCharFrom(cmd + " " + rest, IsSpace, 0) == Some(|cmd|)
  {
    var s := cmd + " " + rest;
    forall k | 0 <= k < |cmd| ensures !IsSpace(s[k]) {
      assert s[k] == cmd[k];
    }
    assert IsSpace(s[|cmd|]);
  }

  /** The partner of splitting: a command written with one space before stripped argument text splits back into the two. */
  lemma SplitCommandOfParts(cmd: string, rest: string)
    requires StartsWith(cmd, "/") && NoSpace(cmd)
    requires rest != "" && !IsSpace(rest[0]) && !IsSpace(rest[|rest| - 1])
    ensures SplitCommand(cmd + " " + rest) == Some((cmd, rest))
  {
    var s := cmd + " " + rest;
    assert s[0] == cmd[0] && s[|s| - 1] == rest[|rest| - 1];
    StrippedAlready(s);
    assert s[..1] == cmd[..1];
    FirstSpaceAfter(cmd, rest);
    assert s[..|cmd|] == cmd;
    assert s[|cmd|..] == [' '] + rest;
    LStripWhileIdle(rest, IsSpace);
  }

  /** A command without argument text splits into itself and "". */
  lemma SplitCommandAlone(cmd: string)
    requires StartsWith(cmd, "/") && NoSpace(cmd)
    ensures SplitCommand(cmd) == Some((cmd, ""))
  {
    StrippedAlready(cmd);
  }

  // ---------------------------------------------------------------------------
  // format_help

  /** The help lines for commands in the given order: the header, then per command its usage indented by two spaces and its help by six. */
  function HelpLines(cs: seq<CommandSpec>): seq<string> {
    if cs == [] then [HelpHeader]
    else
      var c := cs[|cs| - 1];
      HelpLines(cs[..|cs| - 1]) + ["  " + c.usage, "      " + c.help]
  }

  /** The help text has the header and then two lines per command, in the given order. */
  lemma {:induction false} HelpLinesShape(cs: seq<CommandSpec>)
    ensures |HelpLines(cs)| == 1 + 2 * |cs|
    ensures HelpLines(cs)[0] == HelpHeader
    ensures forall k | 0 <= k < |cs| ::
      HelpLines(cs)[1 + 2 * k] == "  " + cs[k].usage && HelpLines(cs)[2 + 2 * k] == "      " + cs[k].help
  {
    if cs != [] {
      var init := cs[..|cs| - 1];
      HelpLinesShape(init);
      forall k | 0 <= k < |cs| - 1 ensures cs[k] == init[k] { }
    }
  }

  lemma HelpLinesStep(cs: seq<CommandSpec>, i: nat)
    requires i < |cs|
    ensures HelpLines(cs[..i + 1]) == HelpLines(cs[..i]) + ["  " + cs[i].usage, "      " + cs[i].help]
  {
    assert cs[..i + 1][..i] == cs[..i];
  }

  /** `format_help`: the help lines of the commands sorted by name, joined with "\n", with a final "\n". */
  method FormatHelp(commands: seq<CommandSpec>) returns (text: string)
    ensures text == Join(HelpLines(SortBy(commands, NameOf)), "\n") + "\n"
  {
    var sorted := SortBy(commands, NameOf);
    var lines := [HelpHeader];
    for i := 0 to |sorted|
      invariant lines == HelpLines(sorted[..i])
    {
      HelpLinesStep(sorted, i);
      lines := lines + ["  " + sorted[i].usage, "      " + sorted[i].help];
    }
    assert sorted[..|sorted|] == sorted;
    text := Join(lines, "\n") + "\n";
  }

  /** A string without line breaks. */
  predicate OneLine(s: string) {
    forall c | c in s :: !IsLineBreak(c)
  }

  /** Help lines of one-line usages and helps are one line each. */
  lemma {:induction false} HelpLinesOneLine(cs: seq<CommandSpec>)
    requires forall c | c in cs :: OneLine(c.usage) && OneLine(c.help)
    ensures forall x | x in HelpLines(cs) :: OneLine(x)
  {
    if cs != [] {
      var init, c := cs[..|cs| - 1], cs[|cs| - 1];
      assert forall d | d in init :: d in cs;
      HelpLinesOneLine(init);
      assert c in cs;
      assert OneLine("  " + c.usage) && OneLine("      " + c.help);
    }
  }

  /**
    When no usage or help text holds a line break, the help text has exactly
    1 + 2n lines: the header, then usage and help of each command in name
    order, and every command appears.
   */
  lemma FormatHelpLines(commands: seq<CommandSpec>)
    requires forall c | c in commands :: OneLine(c.usage) && OneLine(c.help)
    ensures var sorted := SortBy(commands, NameOf);
      && SortedBy(sorted, NameOf) && multiset(sorted) == multiset(commands)
      && SplitLines(Join(HelpLines(sorted), "\n") + "\n") == HelpLines(sorted)
      && |HelpLines(sorted)| == 1 + 2 * |commands|
  {
    var sorted := SortBy(commands, NameOf);
    HelpLinesShape(sorted);
    assert |sorted| == |multiset(sorted)| == |commands|;
    assert forall c | c in sorted :: c in multiset(commands);
    HelpLinesOneLine(sorted);
    SplitLinesJoin(HelpLines(sorted));
  }
}
