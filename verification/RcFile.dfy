/** Installing the start-up block into a shell's RC file, and removing it again. */
module RcFile {
  import opened Bytes
  import opened RcText

  const MARKER_BEGIN := "# >>> shellanywhere >>>"
  const MARKER_END := "# <<< shellanywhere <<<"

  const ADDRESS := "https://github.com/ejfkdev/ShellAnyWhere"

  datatype Shell = Bash | Zsh | Fish | Tcsh | Ksh | Nu | Elvish | Xonsh | PowerShell

  // ----- the block -----

  function EnvLine(shell: Shell, name: string, value: string): string {
    match shell
    case Bash | Zsh | Ksh => "export " + name + "=\"" + value + "\""
    case Fish => "set -gx " + name + " \"" + value + "\""
    case Tcsh => "setenv " + name + " \"" + value + "\""
    case Nu => "$env." + name + " = \"" + value + "\""
    case Elvish => "set-env " + name + " " + value
    case Xonsh => "$" + name + " = '" + value + "'"
    case PowerShell => "$env:" + name + " = \"" + value + "\""
  }

  function Condition(shell: Shell): string {
    match shell
    case Bash | Zsh => PosixTests() + BashInteractive()
    case Ksh => PosixTests() + KshInteractive()
    case Fish => FishTests()
    case Tcsh => TcshTests()
    case Nu => NuTests()
    case Elvish => ElvishTests()
    case Xonsh => XonshTests()
    case PowerShell => PowerShellTests() + PowerShellHost()
  }

  function PosixTests(): (s: string)
    ensures OneLine(s)
  {
    "[ -z \"$SAW_SKIP\" ]" + " && [ -t 0 ]"
  }

  function BashInteractive(): (s: string)
    ensures OneLine(s)
  {
    " && [[ $- == *i* ]]; then"
  }

  function KshInteractive(): (s: string)
    ensures OneLine(s)
  {
    " && [[ -o interactive ]]; then"
  }

  function TcshTests(): (s: string)
    ensures OneLine(s)
  {
    "(! $?SAW_SKIP && -t 0" + " && $?prompt) then"
  }

  function ElvishTests(): (s: string)
    ensures OneLine(s)
  {
    "(not has-env SAW_SKIP) {"
  }

  function PowerShellHost(): (s: string)
    ensures OneLine(s)
  {
    " -and $Host.Name" + " -eq 'ConsoleHost') {"
  }

  function FishTests(): (s: string)
    ensures OneLine(s)
  {
    "not set -q SAW_SKIP;" + " and test -t 0;" + " and status is-interactive"
  }

  function NuTests(): (s: string)
    ensures OneLine(s)
  {
    "(not ($env.SAW_SKIP?" + " | is-not-empty))" + " and ($nu.is-interactive) {"
  }

  function XonshTests(): (s: string)
    ensures OneLine(s)
  {
    "'SAW_SKIP' not in ${^env}" + " and sys.stdin.isatty()" + " and $XONSH_INTERACTIVE:"
  }

  function PowerShellTests(): (s: string)
    ensures OneLine(s)
  {
    "(-not $env:SAW_SKIP" + " -and -not [Console]" + "::IsInputRedirected"
  }

  function Guard(shell: Shell): string {
    "if " + Condition(shell)
  }

  function Launch(shell: Shell, exe: string): string {
    match shell
    case PowerShell => "  " + exe
    case Xonsh => "    " + ("exec " + exe)
    case _ => "  " + ("exec " + exe)
  }

  function Closing(shell: Shell): seq<string> {
    match shell
    case Fish => ["end"]
    case Tcsh => ["endif"]
    case Nu => ["}"]
    case Elvish => ["}"]
    case PowerShell => ["}"]
    case Xonsh => []
    case _ => ["fi"]
  }

  function Opening(shell: Shell, server: Option<string>, token: Option<string>): seq<string> {
    ["# " + ADDRESS]
    + (if server.Some? then [EnvLine(shell, "SAW_SERVER", server.value)] else [])
    + (if token.Some? then [EnvLine(shell, "SAW_TOKEN", token.value)] else [])
    + [Guard(shell)]
  }

  /** The lines between the markers. */
  function Inner(shell: Shell, exe: string, server: Option<string>, token: Option<string>): seq<string> {
    Opening(shell, server, token) + [Launch(shell, exe)] + Closing(shell)
  }

  function InjectionScript(shell: Shell, exe: string, server: Option<string>, token: Option<string>): string {
    Join([""] + [MARKER_BEGIN] + Inner(shell, exe, server, token) + [MARKER_END] + [""])
  }

  /** The file written by an installation over `existing`. */
  function Install(existing: string, shell: Shell, exe: string, server: Option<string>, token: Option<string>): string {
    var cleaned := Removed(existing);
    var script := InjectionScript(shell, exe, server, token);
    if cleaned == "" then script + "\n"
    else if cleaned[|cleaned| - 1] == '\n' then script + cleaned + "\n"
    else script + "\n" + cleaned + "\n"
  }

  // ----- removal -----

  function DropBlankLast(ls: seq<string>): seq<string> {
    if ls != [] && Blank(ls[|ls| - 1]) then ls[..|ls| - 1] else ls
  }

  function DropBlankFirst(ls: seq<string>): seq<string> {
    if ls != [] && Blank(ls[0]) then ls[1..] else ls
  }

  /** What the scan keeps of `ls`, after having kept `kept`. */
  function Scan(ls: seq<string>, skipping: bool, kept: seq<string>): seq<string>
    decreases |ls|
  {
    if ls == [] then kept
    else if Trim(ls[0]) == MARKER_BEGIN then Scan(ls[1..], true, DropBlankLast(kept))
    else if Trim(ls[0]) == MARKER_END then Scan(DropBlankFirst(ls[1..]), false, kept)
    else Scan(ls[1..], skipping, if skipping then kept else kept + [ls[0]])
  }

  function RemovedLines(content: string): seq<string> {
    TidyLines(Scan(Lines(content), false, []))
  }

  /** The file a removal leaves. */
  function Removed(content: string): string {
    FromLines(RemovedLines(content))
  }

  method RemoveInjection(content: string) returns (r: string)
    ensures r == Removed(content)
  {
    var lines := Lines(content);
    var result: seq<string> := [];
    var skipping := false;
    var i := 0;
    while i < |lines|
      invariant 0 <= i <= |lines|
      invariant Scan(lines[i..], skipping, result) == Scan(lines, false, [])
    {
      var rest := lines[i..];
      assert rest[1..] == lines[i + 1..];
      var trimmed := Trim(lines[i]);
      if trimmed == MARKER_BEGIN {
        if result != [] && Blank(result[|result| - 1]) {
          result := result[..|result| - 1];
        }
        skipping := true;
        i := i + 1;
        continue;
      }
      if trimmed == MARKER_END {
        skipping := false;
        if i + 1 < |lines| && Blank(lines[i + 1]) {
          assert rest[1..][1..] == lines[i + 2..];
          i := i + 2;
          continue;
        }
        i := i + 1;
        continue;
      }
      if !skipping {
        result := result + [lines[i]];
      }
      i := i + 1;
    }
    TidyIsTrimmedJoin(result);
    var trimmed := TrimEnd(Join(result));
    r := if trimmed == "" then "" else trimmed + "\n";
  }

  // ----- what a scan keeps -----

  predicate IsMarker(l: string) {
    Trim(l) == MARKER_BEGIN || Trim(l) == MARKER_END
  }

  predicate Unmarked(ls: seq<string>) {
    forall l | l in ls :: !IsMarker(l)
  }

  lemma {:induction false} ScanKeeps(ls: seq<string>, rest: seq<string>, kept: seq<string>)
    requires Unmarked(ls)
    ensures Scan(ls + rest, false, kept) == Scan(rest, false, kept + ls)
    decreases |ls|
  {
    if ls == [] {
      assert ls + rest == rest && kept + ls == kept;
    } else {
      hide Trim;
      assert (ls + rest)[1..] == ls[1..] + rest;
      assert !IsMarker(ls[0]);
      ScanKeeps(ls[1..], rest, kept + [ls[0]]);
      assert kept + [ls[0]] + ls[1..] == kept + ls;
    }
  }

  /** Inside a block lines are dropped; a nested begin marker matters only to a blank line before it. */
  lemma {:induction false} ScanSkips(ls: seq<string>, rest: seq<string>, kept: seq<string>)
    requires forall l | l in ls :: Trim(l) != MARKER_END
    requires Unmarked(ls) || kept == []
    ensures Scan(ls + rest, true, kept) == Scan(rest, true, kept)
    decreases |ls|
  {
    hide Trim;
    if ls == [] {
      assert ls + rest == rest;
    } else {
      assert (ls + rest)[1..] == ls[1..] + rest;
      assert Trim(ls[0]) != MARKER_END && (kept != [] ==> !IsMarker(ls[0]));
      ScanSkips(ls[1..], rest, kept);
    }
  }

  lemma SolidIsTrimmed(s: string)
    requires s != "" && !White(s[0]) && !White(s[|s| - 1])
    ensures Trim(s) == s && Chomp(s) == s
  {
  }

  lemma MarkersAreMarkers()
    ensures Trim(MARKER_BEGIN) == MARKER_BEGIN && Trim(MARKER_END) == MARKER_END
    ensures Chomp(MARKER_BEGIN) == MARKER_BEGIN && Chomp(MARKER_END) == MARKER_END
    ensures MARKER_BEGIN != MARKER_END && OneLine(MARKER_BEGIN) && OneLine(MARKER_END)
    ensures Blank("")
  {
    hide Trim, Chomp;
    EmptyIsBlank();
    assert MARKER_BEGIN[|MARKER_BEGIN| - 1] == '>' && MARKER_BEGIN[0] == '#';
    assert MARKER_END[|MARKER_END| - 1] == '<' && MARKER_END[0] == '#';
    assert MARKER_BEGIN[2] == '>' && MARKER_END[2] == '<';
    SolidIsTrimmed(MARKER_BEGIN);
    SolidIsTrimmed(MARKER_END);
  }

  /** A block, ended by any line that reads as the end marker, leaves no trace. */
  lemma BlockScan(before: seq<string>, inner: seq<string>, end: string, after: seq<string>)
    requires Unmarked(before) && Trim(end) == MARKER_END
    requires forall l | l in inner :: Trim(l) != MARKER_END
    requires Unmarked(inner) || DropBlankLast(before) == []
    ensures Scan(before + ([MARKER_BEGIN] + inner + [end] + after), false, [])
         == Scan(DropBlankFirst(after), false, DropBlankLast(before))
  {
    hide Trim, MARKER_BEGIN, MARKER_END;
    MarkersAreMarkers();
    var block := [MARKER_BEGIN] + inner + [end] + after;
    ScanKeeps(before, block, []);
    assert [] + before == before;
    var tail := [end] + after;
    assert block[1..] == inner + tail;
    ScanSkips(inner, tail, DropBlankLast(before));
    assert tail[1..] == after;
  }

  /**
    A block anywhere in a file goes together with one blank line on each side; everything
    around it stays, line for line.
   */
  lemma BlockIsRemoved(before: seq<string>, inner: seq<string>, after: seq<string>)
    requires Unmarked(before) && Unmarked(after)
    requires forall l | l in inner :: Trim(l) != MARKER_END
    requires Unmarked(inner) || DropBlankLast(before) == []
    ensures Scan(before + ([MARKER_BEGIN] + inner + [MARKER_END] + after), false, [])
         == DropBlankLast(before) + DropBlankFirst(after)
  {
    hide Trim, MARKER_BEGIN, MARKER_END;
    MarkersAreMarkers();
    BlockScan(before, inner, MARKER_END, after);
    var left := DropBlankFirst(after);
    assert left + [] == left;
    assert Unmarked(left);
    ScanKeeps(left, [], DropBlankLast(before));
  }

  lemma {:induction false} ScanUnmarks(ls: seq<string>, skipping: bool, kept: seq<string>)
    requires Unmarked(kept)
    ensures Unmarked(Scan(ls, skipping, kept))
    decreases |ls|
  {
    hide Trim;
    if ls != [] {
      if Trim(ls[0]) == MARKER_BEGIN {
        ScanUnmarks(ls[1..], true, DropBlankLast(kept));
      } else if Trim(ls[0]) == MARKER_END {
        ScanUnmarks(DropBlankFirst(ls[1..]), false, kept);
      } else {
        ScanUnmarks(ls[1..], skipping, if skipping then kept else kept + [ls[0]]);
      }
    }
  }

  lemma {:induction false} ScanSelects(ls: seq<string>, skipping: bool, kept: seq<string>, l: string)
    requires l in Scan(ls, skipping, kept)
    ensures l in ls || l in kept
    decreases |ls|
  {
    hide Trim;
    if ls != [] {
      if Trim(ls[0]) == MARKER_BEGIN {
        ScanSelects(ls[1..], true, DropBlankLast(kept), l);
      } else if Trim(ls[0]) == MARKER_END {
        ScanSelects(DropBlankFirst(ls[1..]), false, kept, l);
      } else {
        ScanSelects(ls[1..], skipping, if skipping then kept else kept + [ls[0]], l);
      }
    }
  }

  lemma {:induction false} TidyKeepsPrefix(ls: seq<string>)
    ensures var t := TidyLines(ls);
            && (t != [] ==> t[..|t| - 1] == ls[..|t| - 1] && t[|t| - 1] == TrimEnd(ls[|t| - 1]))
  {
    if ls != [] {
      var n := |ls| - 1;
      if Blank(ls[n]) {
        TidyKeepsPrefix(ls[..n]);
      }
    }
  }

  /** What removal leaves: single lines, no markers, no trailing white space. */
  lemma RemovedIsClean(content: string)
    ensures var ks := RemovedLines(content);
            Tidy(ks) && Unmarked(ks) && AllOneLine(ks)
  {
    hide Trim;
    var all := Scan(Lines(content), false, []);
    var ks := RemovedLines(content);
    ScanUnmarks(Lines(content), false, []);
    LinesAreLines(content);
    TidyLinesAreTidy(all);
    TidyKeepsPrefix(all);
    forall l | l in ks
      ensures OneLine(l) && !IsMarker(l)
    {
      var i :| 0 <= i < |ks| && ks[i] == l;
      ScanSelects(Lines(content), false, [], all[i]);
      if i == |ks| - 1 {
        TrimOfTrimEnd(all[i]);
        TrimEndIsPrefix(all[i]);
      } else {
        assert ks[..|ks| - 1][i] == all[i];
      }
    }
  }

  lemma {:induction false} TrimEndIsPrefix(s: string)
    ensures TrimEnd(s) <= s
  {
    if s != "" && White(s[|s| - 1]) {
      TrimEndIsPrefix(s[..|s| - 1]);
    }
  }

  /** A file without markers is only cut at its end. */
  lemma UnmarkedIsOnlyTrimmed(content: string)
    requires Unmarked(Lines(content))
    ensures RemovedLines(content) == TidyLines(Lines(content))
  {
    ScanKeeps(Lines(content), [], []);
    assert Lines(content) + [] == Lines(content) && [] + Lines(content) == Lines(content);
  }

  // ----- removing twice -----

  predicate NoCarriageReturn(ls: seq<string>) {
    forall l | l in ls :: Chomp(l) == l
  }

  lemma LinesOfClean(ks: seq<string>)
    requires AllOneLine(ks)
    ensures Lines(FromLines(ks)) == ChompAll(ks)
    ensures Lines(FromLines(ks) + "\n") == ChompAll(ks) + [""]
  {
    if ks != [] {
      LinesOfJoin(ks, "");
      LinesOfJoin(ks, "\n");
      assert Join(ks) + "\n" + "" == Join(ks) + "\n";
    }
    LinesCons("", "");
    assert "" + "\n" + "" == "\n";
  }

  lemma ChompKeepsTrim(l: string)
    ensures Trim(Chomp(l)) == Trim(l)
  {
    if Chomp(l) != l {
      var m := l[..|l| - 1];
      assert l == m + ['\r'];
      assert TrimEnd(l) == TrimEnd(m);
    }
  }

  lemma TrimmedIsChomped(l: string)
    requires TrimEnd(l) == l
    ensures Chomp(l) == l
  {
  }

  lemma ChompedIsClean(ks: seq<string>)
    requires Tidy(ks) && Unmarked(ks)
    ensures Tidy(ChompAll(ks)) && Unmarked(ChompAll(ks))
    ensures NoCarriageReturn(ks) <==> ChompAll(ks) == ks
  {
    hide Trim;
    forall i | 0 <= i < |ks|
      ensures Trim(Chomp(ks[i])) == Trim(ks[i])
    {
      ChompKeepsTrim(ks[i]);
    }
    if ks != [] {
      TrimmedIsChomped(ks[|ks| - 1]);
    }
    forall l | l in ChompAll(ks)
      ensures !IsMarker(l)
    {
      var i :| 0 <= i < |ks| && ChompAll(ks)[i] == l;
      assert !IsMarker(ks[i]);
    }
    if ChompAll(ks) == ks {
      assert forall l | l in ks :: exists i :: 0 <= i < |ks| && ks[i] == l;
    }
  }

  lemma RemoveAgain(content: string)
    ensures RemovedLines(Removed(content)) == ChompAll(RemovedLines(content))
  {
    hide RemovedLines, ChompAll, Trim, Lines;
    var ks := RemovedLines(content);
    RemovedIsClean(content);
    LinesOfClean(ks);
    ChompedIsClean(ks);
    UnmarkedIsOnlyTrimmed(Removed(content));
    TidyStays(ChompAll(ks));
  }

  lemma {:induction false} FromLinesGrows(a: seq<string>, b: seq<string>)
    requires |a| == |b| && forall i | 0 <= i < |a| :: |a[i]| <= |b[i]|
    ensures |FromLines(a)| <= |FromLines(b)|
    ensures (exists i :: 0 <= i < |a| && |a[i]| < |b[i]|) ==> |FromLines(a)| < |FromLines(b)|
    decreases |a|
  {
    if |a| > 1 {
      FromLinesGrows(a[1..], b[1..]);
      if i :| 0 <= i < |a| && |a[i]| < |b[i]| {
        assert i > 0 ==> |a[1..][i - 1]| < |b[1..][i - 1]|;
      }
    }
  }

  /**
    Removing twice is removing once, exactly when no line that is left ends in a carriage
    return: the second reading would take that for half of a line break.
   */
  lemma RemoveTwiceIff(content: string)
    ensures Removed(Removed(content)) == Removed(content) <==> NoCarriageReturn(RemovedLines(content))
  {
    hide RemovedLines, Trim;
    var ks := RemovedLines(content);
    RemoveAgain(content);
    RemovedIsClean(content);
    ChompedIsClean(ks);
    FromLinesGrows(ChompAll(ks), ks);
    if !NoCarriageReturn(ks) {
      var i :| 0 <= i < |ks| && Chomp(ks[i]) != ks[i];
      assert |ChompAll(ks)[i]| < |ks[i]|;
    }
  }

  /** Every line left is a line of the file, perhaps with its end trimmed. */
  lemma LeftIsPrefix(content: string, l: string)
    requires l in RemovedLines(content)
    ensures exists m :: m in Lines(content) && l <= m
  {
    hide Trim, Lines;
    var all := Scan(Lines(content), false, []);
    var ks := RemovedLines(content);
    TidyKeepsPrefix(all);
    var i :| 0 <= i < |ks| && ks[i] == l;
    ScanSelects(Lines(content), false, [], all[i]);
    TrimEndIsPrefix(all[i]);
    assert i < |ks| - 1 ==> ks[..|ks| - 1][i] == all[i];
    assert all[i] in Lines(content) && l <= all[i];
  }

  lemma CrFreeLines(content: string)
    requires '\r' !in content
    ensures NoCarriageReturn(RemovedLines(content))
  {
    hide RemovedLines, Lines;
    forall l | l in RemovedLines(content)
      ensures Chomp(l) == l
    {
      LeftIsPrefix(content, l);
      var m :| m in Lines(content) && l <= m;
      LinesChars(content, m);
    }
  }

  lemma {:induction false} LinesChars(s: string, l: string)
    requires l in Lines(s)
    ensures forall c | c in l :: c in s
    decreases |s|
  {
    if s != "" {
      var k := Break(s);
      if k < |s| {
        if l in Lines(s[k + 1..]) {
          LinesChars(s[k + 1..], l);
        } else {
          assert forall c | c in l :: c in s[..k];
        }
      }
    }
  }

  // ----- installing -----

  /** The one line of a block that an executable path can turn into an end marker. */
  predicate ClosesEarly(shell: Shell, exe: string) {
    shell == PowerShell && Trim(exe) == MARKER_END
  }

  lemma StartsVisible(l: string)
    requires l != "" && !White(l[0]) && l[0] != '#'
    ensures !IsMarker(l) && !Blank(l)
  {
    hide Trim, White;
    TrimVisible(l[0], l[1..]);
    assert [l[0]] + l[1..] == l;
    assert MARKER_BEGIN[0] == '#' && MARKER_END[0] == '#';
  }

  lemma EnvLineIsNoMarker(shell: Shell, name: string, value: string)
    ensures !IsMarker(EnvLine(shell, name, value))
  {
    StartsVisible(EnvLine(shell, name, value));
  }

  lemma GuardIsNoMarker(shell: Shell)
    ensures !IsMarker(Guard(shell))
  {
    hide Condition;
    StartsVisible(Guard(shell));
  }

  lemma ClosingIsNoMarker(shell: Shell)
    ensures forall l | l in Closing(shell) :: !IsMarker(l) && !Blank(l)
  {
    forall l | l in Closing(shell)
      ensures !IsMarker(l) && !Blank(l)
    {
      assert l == Closing(shell)[0];
      StartsVisible(l);
    }
  }

  lemma TrimComment(text: string)
    requires text != "" && text[0] == 'h'
    ensures Trim("# " + text) == "# h" + TrimEnd(text[1..])
  {
    hide Trim, TrimEnd;
    var tail := TrimEnd(text[1..]);
    SolidEnd("h");
    TrimEndConcat("h", text[1..]);
    assert text == "h" + text[1..];
    assert TrimEnd(text) == "h" + tail;
    TrimEndConcat(" ", text);
    TrimVisible('#', " " + text);
    assert "# " + text == ['#'] + (" " + text);
  }

  lemma AddressIsNoMarker()
    ensures !IsMarker("# " + ADDRESS)
  {
    hide Trim;
    TrimComment(ADDRESS);
    assert Trim("# " + ADDRESS)[2] == 'h' && MARKER_BEGIN[2] == '>' && MARKER_END[2] == '<';
  }

  lemma LaunchMarks(shell: Shell, exe: string)
    ensures Trim(Launch(shell, exe)) == MARKER_END <==> ClosesEarly(shell, exe)
  {
    hide Trim, MARKER_BEGIN, MARKER_END;
    var command := "exec " + exe;
    StartsVisible(command);
    TrimLead("  ", exe);
    TrimLead("  ", command);
    TrimLead("    ", command);
  }

  lemma OpeningIsNoMarker(shell: Shell, server: Option<string>, token: Option<string>)
    ensures Unmarked(Opening(shell, server, token))
  {
    hide EnvLine, Guard, IsMarker;
    AddressIsNoMarker();
    GuardIsNoMarker(shell);
    if server.Some? { EnvLineIsNoMarker(shell, "SAW_SERVER", server.value); }
    if token.Some? { EnvLineIsNoMarker(shell, "SAW_TOKEN", token.value); }
  }

  predicate OneLineArgs(exe: string, server: Option<string>, token: Option<string>) {
    OneLine(exe) && (server.Some? ==> OneLine(server.value)) && (token.Some? ==> OneLine(token.value))
  }

  lemma ConditionIsLine(shell: Shell)
    ensures OneLine(Condition(shell))
  {
    hide PosixTests, BashInteractive, KshInteractive, TcshTests, ElvishTests, PowerShellHost;
    hide FishTests, NuTests, XonshTests, PowerShellTests;
  }

  lemma EnvLineIsLine(shell: Shell, name: string, value: string)
    requires OneLine(name) && OneLine(value)
    ensures OneLine(EnvLine(shell, name, value))
  {
  }

  lemma OpeningIsLines(shell: Shell, server: Option<string>, token: Option<string>)
    requires OneLineArgs("", server, token)
    ensures AllOneLine(Opening(shell, server, token))
  {
    hide EnvLine, Condition;
    ConditionIsLine(shell);
    if server.Some? { EnvLineIsLine(shell, "SAW_SERVER", server.value); }
    if token.Some? { EnvLineIsLine(shell, "SAW_TOKEN", token.value); }
    assert OneLine(ADDRESS) && OneLine("# " + ADDRESS);
    assert OneLine(Guard(shell));
  }

  lemma InnerIsLines(shell: Shell, exe: string, server: Option<string>, token: Option<string>)
    requires OneLineArgs(exe, server, token)
    ensures AllOneLine(Inner(shell, exe, server, token))
  {
    hide Opening;
    OpeningIsLines(shell, server, token);
    assert OneLine(Launch(shell, exe));
    assert AllOneLine(Closing(shell));
  }

  /** The lines of an installed file: a blank line, the block, the cleaned lines, a blank line. */
  lemma InstalledLines(existing: string, shell: Shell, exe: string, server: Option<string>, token: Option<string>)
    requires OneLineArgs(exe, server, token)
    ensures Lines(Install(existing, shell, exe, server, token))
         == Installed(ChompAll(Inner(shell, exe, server, token)), ChompAll(RemovedLines(existing)) + [""])
  {
    hide MARKER_BEGIN, MARKER_END, Inner, RemovedLines, Lines, Chomp, ChompAll, Join, FromLines;
    var inner := Inner(shell, exe, server, token);
    var ks := RemovedLines(existing);
    var block := [""] + [MARKER_BEGIN] + inner + [MARKER_END];
    MarkersAreMarkers();
    RemovedIsClean(existing);
    InnerIsLines(shell, exe, server, token);
    LinesOfClean(ks);
    JoinSnoc(block, "");
    InstallShape(existing, shell, exe, server, token);
    assert AllOneLine(block);
    EndsOfLines(Join(block), FromLines(ks) + "\n");
    LinesOfJoin(block, FromLines(ks) + "\n");
    ChompBlock(inner);
    InstalledConcat(ChompAll(inner), ChompAll(ks) + [""]);
  }

  function Installed(inner: seq<string>, after: seq<string>): seq<string> {
    [""] + ([MARKER_BEGIN] + inner + [MARKER_END] + after)
  }

  lemma InstalledConcat(inner: seq<string>, after: seq<string>)
    ensures [""] + ([MARKER_BEGIN] + inner + [MARKER_END]) + after == Installed(inner, after)
  {
  }

  lemma EndsOfLines(a: string, b: string)
    ensures (a + "\n" + "") + b == a + "\n" + b
  {
  }

  lemma InstallShape(existing: string, shell: Shell, exe: string, server: Option<string>, token: Option<string>)
    ensures var script := InjectionScript(shell, exe, server, token);
            Install(existing, shell, exe, server, token) == script + (Removed(existing) + "\n")
  {
  }

  lemma ChompBlock(inner: seq<string>)
    ensures ChompAll([""] + [MARKER_BEGIN] + inner + [MARKER_END])
         == [""] + ([MARKER_BEGIN] + ChompAll(inner) + [MARKER_END])
  {
    hide Chomp;
    MarkersAreMarkers();
    EmptyIsChomped();
  }

  lemma EmptyIsChomped()
    ensures Chomp("") == ""
  {
  }

  // ----- removing after installing -----

  lemma EmptyIsNoMarker()
    ensures !IsMarker("")
  {
  }

  lemma TidyAfter(front: seq<string>, ks: seq<string>)
    requires Tidy(front) && Tidy(ks)
    ensures TidyLines(front + DropBlankFirst(ks + [""])) == front + DropBlankFirst(ks)
  {
    hide Trim, TrimEnd;
    EmptyIsBlank();
    var left := DropBlankFirst(ks);
    if ks == [] {
      assert front + DropBlankFirst(ks + [""]) == front && front + left == front;
      TidyStays(front);
    } else {
      assert front + DropBlankFirst(ks + [""]) == (front + left) + [""];
      assert (front + left)[|front + left| - 1] == ks[|ks| - 1];
      TidyStays(front + left);
    }
  }

  lemma EmptyIsBlank()
    ensures Blank("")
  {
  }

  /** A removal takes the whole block off the top of the file, and one blank line below it. */
  lemma BlockOnTop(inner: seq<string>, ks: seq<string>)
    requires Unmarked(ks) && Tidy(ks) && forall l | l in inner :: Trim(l) != MARKER_END
    ensures TidyLines(Scan(Installed(inner, ks + [""]), false, [])) == DropBlankFirst(ks)
  {
    hide Trim, MARKER_BEGIN, MARKER_END;
    EmptyIsBlank();
    EmptyIsNoMarker();
    BlockIsRemoved([""], inner, ks + [""]);
    assert DropBlankLast([""]) == [];
    TidyAfter([], ks);
    var left := DropBlankFirst(ks);
    assert [] + left == left;
  }

  /** When an inner line reads as an end marker, the line after it stays behind. */
  lemma BlockClosedEarly(opening: seq<string>, launch: string, ks: seq<string>)
    requires Unmarked(ks) && Tidy(ks) && Unmarked(opening) && Trim(launch) == MARKER_END
    ensures TidyLines(Scan(Installed(opening + [launch] + ["}"], ks + [""]), false, [])) == ["}"] + DropBlankFirst(ks)
  {
    hide Trim, MARKER_BEGIN, MARKER_END, TidyLines;
    EmptyIsBlank();
    EmptyIsNoMarker();
    BraceIsSolid();
    MarkersAreMarkers();
    var close, after := ["}"], ks + [""];
    var tail := close + ([MARKER_END] + after);
    assert [MARKER_BEGIN] + (opening + [launch] + close) + [MARKER_END] + after
        == [MARKER_BEGIN] + opening + [launch] + tail;
    BlockScan([""], opening, launch, tail);
    assert DropBlankLast([""]) == [] && DropBlankFirst(tail) == tail;
    ScanKeeps(close, [MARKER_END] + after, []);
    assert [] + close == close && ([MARKER_END] + after)[1..] == after;
    var left := DropBlankFirst(after);
    assert Unmarked(left) && left + [] == left;
    ScanKeeps(left, [], close);
    TidyAfter(close, ks);
  }

  lemma BraceIsSolid()
    ensures !IsMarker("}") && !Blank("}") && Tidy(["}"])
  {
    StartsVisible("}");
  }

  lemma ChompedTrims(ls: seq<string>)
    ensures forall i | 0 <= i < |ls| :: Trim(ChompAll(ls)[i]) == Trim(ls[i])
  {
    forall i | 0 <= i < |ls|
      ensures Trim(Chomp(ls[i])) == Trim(ls[i])
    {
      ChompKeepsTrim(ls[i]);
    }
  }

  /**
    Uninstalling what was installed gives the cleaned lines, less the first one if that is
    blank. Only PowerShell starts the executable without `exec`; there, if the path reads as
    the end marker, the block's closing brace is left on top of the file.
   */
  lemma UninstallAfterInstall(existing: string, shell: Shell, exe: string,
                              server: Option<string>, token: Option<string>)
    requires OneLineArgs(exe, server, token) && NoCarriageReturn(RemovedLines(existing))
    ensures RemovedLines(Install(existing, shell, exe, server, token))
         == (if ClosesEarly(shell, exe) then ["}"] else []) + DropBlankFirst(RemovedLines(existing))
  {
    hide Trim, Lines, Inner, Opening, Launch, Install;
    var ks := RemovedLines(existing);
    InstalledLines(existing, shell, exe, server, token);
    RemovedIsClean(existing);
    ChompedIsClean(ks);
    var inner := Inner(shell, exe, server, token);
    var left := DropBlankFirst(ks);
    assert [] + left == left;
    if ClosesEarly(shell, exe) {
      EarlyInner(exe, server, token);
      BlockClosedEarly(ChompAll(Opening(PowerShell, server, token)), Chomp(Launch(PowerShell, exe)), ks);
    } else {
      InnerHasNoEnd(shell, exe, server, token);
      BlockOnTop(ChompAll(inner), ks);
    }
  }

  lemma InnerHasNoEnd(shell: Shell, exe: string, server: Option<string>, token: Option<string>)
    requires !ClosesEarly(shell, exe)
    ensures forall l | l in ChompAll(Inner(shell, exe, server, token)) :: Trim(l) != MARKER_END
  {
    hide Trim, Opening, Launch, Closing, Chomp;
    OpeningIsNoMarker(shell, server, token);
    LaunchMarks(shell, exe);
    ClosingIsNoMarker(shell);
    var inner := Inner(shell, exe, server, token);
    ChompedTrims(inner);
    forall l | l in ChompAll(inner)
      ensures Trim(l) != MARKER_END
    {
      var i :| 0 <= i < |inner| && ChompAll(inner)[i] == l;
      assert inner[i] in inner;
      assert inner[i] in Opening(shell, server, token) || inner[i] == Launch(shell, exe) || inner[i] in Closing(shell);
    }
  }

  lemma EarlyInner(exe: string, server: Option<string>, token: Option<string>)
    requires ClosesEarly(PowerShell, exe)
    ensures var opening, launch := ChompAll(Opening(PowerShell, server, token)), Chomp(Launch(PowerShell, exe));
            && ChompAll(Inner(PowerShell, exe, server, token)) == opening + [launch] + ["}"]
            && Unmarked(opening) && Trim(launch) == MARKER_END
  {
    hide Trim, Opening, Launch;
    OpeningIsNoMarker(PowerShell, server, token);
    LaunchMarks(PowerShell, exe);
    var opening := Opening(PowerShell, server, token);
    ChompedTrims(opening);
    ChompKeepsTrim(Launch(PowerShell, exe));
    assert Chomp("}") == "}";
    forall l | l in ChompAll(opening)
      ensures !IsMarker(l)
    {
      var i :| 0 <= i < |opening| && ChompAll(opening)[i] == l;
      assert !IsMarker(opening[i]);
    }
  }

  predicate StartsBlank(ls: seq<string>) {
    ls != [] && Blank(ls[0])
  }

  lemma CleanIsInjective(ks: seq<string>, ls: seq<string>)
    requires AllOneLine(ks) && AllOneLine(ls) && NoCarriageReturn(ks) && NoCarriageReturn(ls)
    requires FromLines(ks) == FromLines(ls)
    ensures ks == ls
  {
    LinesOfClean(ks);
    LinesOfClean(ls);
    assert ChompAll(ks) == ks && ChompAll(ls) == ls;
  }

  /** Uninstalling restores the cleaned file exactly when it does not start blank and no path closes the block early. */
  lemma RoundTripIff(existing: string, shell: Shell, exe: string, server: Option<string>, token: Option<string>)
    requires OneLineArgs(exe, server, token) && NoCarriageReturn(RemovedLines(existing))
    ensures Removed(Install(existing, shell, exe, server, token)) == Removed(existing)
       <==> !StartsBlank(RemovedLines(existing)) && !ClosesEarly(shell, exe)
  {
    hide Trim, RemovedLines, Install, FromLines, Chomp;
    var ks := RemovedLines(existing);
    var left := DropBlankFirst(ks);
    UninstallAfterInstall(existing, shell, exe, server, token);
    RemovedIsClean(existing);
    assert [] + left == left;
    if Removed(Install(existing, shell, exe, server, token)) == Removed(existing) {
      BraceIsLine();
      CleanIsInjective((if ClosesEarly(shell, exe) then ["}"] else []) + left, ks);
      BraceIsSolid();
      assert (["}"] + left)[0] == "}";
    }
  }

  lemma BraceIsLine()
    ensures OneLine("}") && Chomp("}") == "}"
  {
  }

  /** Installing over an installation gives the same file, under exactly the same condition. */
  lemma InstallTwiceIff(existing: string, shell: Shell, exe: string, server: Option<string>, token: Option<string>)
    requires OneLineArgs(exe, server, token) && NoCarriageReturn(RemovedLines(existing))
    ensures var once := Install(existing, shell, exe, server, token);
            Install(once, shell, exe, server, token) == once
            <==> !StartsBlank(RemovedLines(existing)) && !ClosesEarly(shell, exe)
  {
    hide Removed, RemovedLines, InjectionScript, Install;
    var once := Install(existing, shell, exe, server, token);
    RoundTripIff(existing, shell, exe, server, token);
    InstallShape(existing, shell, exe, server, token);
    InstallShape(once, shell, exe, server, token);
    SameSuffix(InjectionScript(shell, exe, server, token), Removed(once), Removed(existing));
  }

  lemma SameSuffix(a: string, b: string, c: string)
    ensures a + (b + "\n") == a + (c + "\n") <==> b == c
  {
    if a + (b + "\n") == a + (c + "\n") {
      assert (a + (b + "\n"))[|a|..] == b + "\n";
      assert (a + (c + "\n"))[|a|..] == c + "\n";
      assert (b + "\n")[..|b|] == b && (c + "\n")[..|c|] == c;
      assert |b + "\n"| == |c + "\n"|;
    }
  }

  /** When a blank line is lost, it is exactly that one. */
  lemma OneBlankLineIsLost(existing: string, shell: Shell, exe: string, server: Option<string>, token: Option<string>)
    requires OneLineArgs(exe, server, token) && NoCarriageReturn(RemovedLines(existing))
    requires StartsBlank(RemovedLines(existing)) && !ClosesEarly(shell, exe)
    ensures Removed(existing)
         == RemovedLines(existing)[0] + "\n" + Removed(Install(existing, shell, exe, server, token))
  {
    hide Trim, RemovedLines, Install;
    var ks := RemovedLines(existing);
    UninstallAfterInstall(existing, shell, exe, server, token);
    RemovedIsClean(existing);
    assert [] + ks[1..] == ks[1..];
    assert |ks| > 1;
    Regroup(ks[0], Join(ks[1..]), "");
    assert Removed(existing) + "" == Removed(existing);
  }

  // ----- inputs on which it fails -----

  lemma TwoLines(a: string, b: string)
    requires OneLine(a) && OneLine(b) && b != ""
    ensures Lines(a + "\n" + b) == [Chomp(a), b]
  {
    LinesCons(a, b);
    OneLineBreaks(b);
  }

  lemma {:induction false} OneLineBreaks(s: string)
    requires OneLine(s)
    ensures Break(s) == |s|
  {
    if s != "" {
      assert forall c | c in s[1..] :: c in s;
      OneLineBreaks(s[1..]);
    }
  }

  lemma TwoLinesStay(a: string, b: string)
    requires OneLine(a) && OneLine(b) && b != "" && !IsMarker(Chomp(a)) && !IsMarker(b)
    requires !Blank(b) && TrimEnd(b) == b
    ensures RemovedLines(a + "\n" + b) == [Chomp(a), b]
  {
    hide Trim, TrimEnd;
    TwoLines(a, b);
    UnmarkedIsOnlyTrimmed(a + "\n" + b);
    TidyStays([Chomp(a), b]);
  }

  /** A file with a blank first line loses it: an uninstall gives back less, a second install writes less. */
  lemma BlankFirstLineFails(shell: Shell)
    ensures var file := "\n" + "x";
            var once := Install(file, shell, "saw", None, None);
            && Removed(file) == "\nx\n"
            && Removed(once) != Removed(file)
            && Install(once, shell, "saw", None, None) != once
  {
    hide Install, Removed, RemovedLines;
    var file := "\n" + "x";
    EmptyIsNoMarker();
    EmptyIsBlank();
    EmptyIsChomped();
    StartsVisible("x");
    SolidIsTrimmed("x");
    SolidEnd("x");
    TwoLinesStay("", "x");
    assert "" + "\n" + "x" == file;
    RemovedOf(file, "", "x");
    assert Chomp("x") == "x";
    RoundTripIff(file, shell, "saw", None, None);
    InstallTwiceIff(file, shell, "saw", None, None);
  }

  lemma RemovedOf(file: string, a: string, b: string)
    requires RemovedLines(file) == [a, b]
    ensures Removed(file) == a + "\n" + b + "\n"
  {
    hide RemovedLines;
    assert [a, b][1..] == [b];
    assert Join([b]) == b && Join([a, b]) == a + "\n" + Join([b]);
  }

  /** A PowerShell block whose path reads as the end marker leaves its closing brace behind. */
  lemma MarkerPathFails(existing: string)
    requires NoCarriageReturn(RemovedLines(existing))
    ensures var once := Install(existing, PowerShell, MARKER_END, None, None);
            && Removed(once) != Removed(existing)
            && Install(once, PowerShell, MARKER_END, None, None) != once
  {
    hide Install, Removed, RemovedLines, MARKER_BEGIN, MARKER_END;
    MarkersAreMarkers();
    RoundTripIff(existing, PowerShell, MARKER_END, None, None);
    InstallTwiceIff(existing, PowerShell, MARKER_END, None, None);
  }

  /** A line that ends in two carriage returns loses one at each removal. */
  lemma CarriageReturnsFail()
    ensures var file := "x\r\r" + "\n" + "y";
            Removed(file) == "x\r" + "\n" + "y" + "\n" && Removed(Removed(file)) != Removed(file)
  {
    hide Removed, RemovedLines;
    var file := "x\r\r" + "\n" + "y";
    StartsVisible("x\r");
    StartsVisible("y");
    SolidIsTrimmed("y");
    SolidEnd("y");
    assert Chomp("x\r\r") == "x\r";
    TwoLinesStay("x\r\r", "y");
    RemovedOf(file, "x\r", "y");
    assert Chomp("x\r") == "x";
    RemoveTwiceIff(file);
  }
}
