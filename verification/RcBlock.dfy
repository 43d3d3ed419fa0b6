/** What an installed block says to its shell: the variables it sets and the command it runs. */
module RcBlock {
  import opened Bytes
  import opened RcText
  import opened RcFile

  /** How a shell writes an assignment: before the name, between name and value, after the value. */
  datatype Syntax = Syntax(before: string, between: string, after: string)

  function AssignmentOf(shell: Shell): Syntax {
    match shell
    case Bash => Syntax("export ", "=\"", "\"")
    case Zsh => Syntax("export ", "=\"", "\"")
    case Ksh => Syntax("export ", "=\"", "\"")
    case Fish => Syntax("set -gx ", " \"", "\"")
    case Tcsh => Syntax("setenv ", " \"", "\"")
    case Nu => Syntax("$env.", " = \"", "\"")
    case Elvish => Syntax("set-env ", " ", "")
    case Xonsh => Syntax("$", " = '", "'")
    case PowerShell => Syntax("$env:", " = \"", "\"")
  }

  predicate NameChar(c: char) {
    'A' <= c <= 'Z' || c == '_'
  }

  function NameLen(s: string): (n: nat)
    ensures n <= |s|
  {
    if s != "" && NameChar(s[0]) then 1 + NameLen(s[1..]) else 0
  }

  /** The variable and the value that a line assigns, if it is an assignment of this shell. */
  function ReadAssignment(shell: Shell, line: string): Option<(string, string)> {
    var x := AssignmentOf(shell);
    if !(x.before <= line) then None else
      var s := line[|x.before|..];
      var n := NameLen(s);
      var t := s[n..];
      if n == 0 || |t| < |x.between| + |x.after| || !(x.between <= t) || t[|t| - |x.after|..] != x.after then None
      else Some((s[..n], t[|x.between|..|t| - |x.after|]))
  }

  lemma {:induction false} NameOf(name: string, rest: string)
    requires (forall c | c in name :: NameChar(c)) && (rest == "" || !NameChar(rest[0]))
    ensures NameLen(name + rest) == |name|
  {
    if name == "" {
      assert name + rest == rest;
    } else {
      assert (name + rest)[1..] == name[1..] + rest;
      assert forall c | c in name[1..] :: c in name;
      NameOf(name[1..], rest);
    }
  }

  lemma EnvLineIs(shell: Shell, name: string, value: string)
    ensures var x := AssignmentOf(shell);
            EnvLine(shell, name, value) == x.before + (name + (x.between + (value + x.after)))
  {
    assert value + "" == value;
    Flat(AssignmentOf(shell).before, name, AssignmentOf(shell).between, value, AssignmentOf(shell).after);
  }

  lemma Flat(a: string, b: string, c: string, d: string, e: string)
    ensures a + (b + (c + (d + e))) == a + b + c + d + e
  {
  }

  lemma Cut(before: string, name: string, between: string, value: string, after: string)
    ensures var t := between + (value + after);
            var line := before + (name + t);
            && before <= line && line[|before|..] == name + t
            && (name + t)[..|name|] == name && (name + t)[|name|..] == t
            && between <= t && t[|t| - |after|..] == after && t[|between|..|t| - |after|] == value
  {
  }

  lemma BetweenStarts(shell: Shell)
    ensures var x := AssignmentOf(shell); x.between != "" && !NameChar(x.between[0])
  {
  }

  /** An assignment line reads back as its name and its value, in every shell. */
  lemma AssignmentReadsBack(shell: Shell, name: string, value: string)
    requires name != "" && forall c | c in name :: NameChar(c)
    ensures ReadAssignment(shell, EnvLine(shell, name, value)) == Some((name, value))
  {
    hide EnvLine, AssignmentOf;
    var x := AssignmentOf(shell);
    EnvLineIs(shell, name, value);
    BetweenStarts(shell);
    Cut(x.before, name, x.between, value, x.after);
    NameOf(name, x.between + (value + x.after));
  }

  /** The command a line runs: after its indentation and, but in PowerShell, the word `exec`. */
  function ReadLaunch(shell: Shell, line: string): Option<string> {
    var lead := if shell == PowerShell then "  " else if shell == Xonsh then "    exec " else "  exec ";
    if lead <= line then Some(line[|lead|..]) else None
  }

  lemma LaunchReadsBack(shell: Shell, exe: string)
    ensures ReadLaunch(shell, Launch(shell, exe)) == Some(exe)
    ensures ReadAssignment(shell, Launch(shell, exe)) == None
  {
    var lead := if shell == PowerShell then "  " else if shell == Xonsh then "    exec " else "  exec ";
    assert Launch(shell, exe) == lead + exe by {
      assert "    " + ("exec " + exe) == "    exec " + exe;
      assert "  " + ("exec " + exe) == "  exec " + exe;
    }
    assert Launch(shell, exe)[0] == ' ' && AssignmentOf(shell).before[0] != ' ';
  }

  /** Neither an assignment nor a command: by its first character. */
  lemma OtherLine(shell: Shell, line: string)
    requires line != "" && line[0] != ' ' && line[0] != AssignmentOf(shell).before[0]
    ensures ReadLaunch(shell, line) == None && ReadAssignment(shell, line) == None
  {
  }

  lemma GuardReads(shell: Shell)
    ensures ReadLaunch(shell, Guard(shell)) == None && ReadAssignment(shell, Guard(shell)) == None
    ensures "if " <= Guard(shell)
  {
    hide Condition;
    assert Guard(shell)[0] == 'i';
    OtherLine(shell, Guard(shell));
  }

  lemma AddressReads(shell: Shell)
    ensures ReadLaunch(shell, "# " + ADDRESS) == None && ReadAssignment(shell, "# " + ADDRESS) == None
  {
    hide ADDRESS;
    OtherLine(shell, "# " + ADDRESS);
  }

  /** What ends the guarded command: nothing in xonsh, which goes by indentation. */
  function EndWord(shell: Shell): string {
    if shell == Xonsh then ""
    else if shell == Fish then "end"
    else if shell == Tcsh then "endif"
    else if shell == Nu || shell == Elvish || shell == PowerShell then "}"
    else "fi"
  }

  lemma ClosingReads(shell: Shell)
    ensures Closing(shell) == if shell == Xonsh then [] else [EndWord(shell)]
    ensures shell != Xonsh ==>
              ReadLaunch(shell, EndWord(shell)) == None && ReadAssignment(shell, EndWord(shell)) == None
  {
    match shell {
      case Fish => ShortWord(shell);
      case Tcsh => ShortWord(shell);
      case Xonsh =>
      case _ => OtherLine(shell, EndWord(shell));
    }
  }

  lemma ShortWord(shell: Shell)
    requires shell == Fish || shell == Tcsh
    ensures ReadLaunch(shell, EndWord(shell)) == None && ReadAssignment(shell, EndWord(shell)) == None
  {
    assert EndWord(shell)[0] == 'e' && AssignmentOf(shell).before[0] == 's';
    OtherLine(shell, EndWord(shell));
  }

  /** The guard of each shell: not skipped, a terminal for input, and interactive, as far as the shell can tell. */
  function GuardText(shell: Shell): string {
    match shell
    case Bash => "if " + ("[ -z \"$SAW_SKIP\" ]" + " && [ -t 0 ]" + " && [[ $- == *i* ]]; then")
    case Zsh => "if " + ("[ -z \"$SAW_SKIP\" ]" + " && [ -t 0 ]" + " && [[ $- == *i* ]]; then")
    case Fish => "if " + ("not set -q SAW_SKIP;" + " and test -t 0;" + " and status is-interactive")
    case Tcsh => "if " + ("(! $?SAW_SKIP && -t 0" + " && $?prompt) then")
    case Ksh => "if " + ("[ -z \"$SAW_SKIP\" ]" + " && [ -t 0 ]" + " && [[ -o interactive ]]; then")
    case Nu => "if " + ("(not ($env.SAW_SKIP?" + " | is-not-empty))" + " and ($nu.is-interactive) {")
    case Elvish => "if " + "(not has-env SAW_SKIP) {"
    case Xonsh =>
      "if " + ("'SAW_SKIP' not in ${^env}" + " and sys.stdin.isatty()" + " and $XONSH_INTERACTIVE:")
    case PowerShell =>
      "if " + (("(-not $env:SAW_SKIP" + " -and -not [Console]" + "::IsInputRedirected")
               + (" -and $Host.Name" + " -eq 'ConsoleHost') {"))
  }

  lemma GuardIs(shell: Shell)
    ensures Guard(shell) == GuardText(shell)
  {
  }

  /** All assignments of a block, in order. */
  function Assignments(shell: Shell, lines: seq<string>): seq<(string, string)> {
    if lines == [] then [] else
      (match ReadAssignment(shell, lines[0])
       case Some(a) => [a]
       case None => []) + Assignments(shell, lines[1..])
  }

  /** All commands a block runs. */
  function Commands(shell: Shell, lines: seq<string>): seq<string> {
    if lines == [] then [] else
      (match ReadLaunch(shell, lines[0])
       case Some(c) => [c]
       case None => []) + Commands(shell, lines[1..])
  }

  lemma {:induction false} ReadingConcat(shell: Shell, a: seq<string>, b: seq<string>)
    ensures Assignments(shell, a + b) == Assignments(shell, a) + Assignments(shell, b)
    ensures Commands(shell, a + b) == Commands(shell, a) + Commands(shell, b)
  {
    hide ReadAssignment, ReadLaunch;
    if a == [] {
      assert a + b == b;
    } else {
      assert (a + b)[1..] == a[1..] + b;
      ReadingConcat(shell, a[1..], b);
      Assoc(Assignments(shell, [a[0]]), Assignments(shell, a[1..]), Assignments(shell, b));
      Assoc(Commands(shell, [a[0]]), Commands(shell, a[1..]), Commands(shell, b));
      ReadingOne(shell, a[0]);
    }
  }

  lemma ReadingOne(shell: Shell, line: string)
    ensures Assignments(shell, [line]) == match ReadAssignment(shell, line) case Some(a) => [a] case None => []
    ensures Commands(shell, [line]) == match ReadLaunch(shell, line) case Some(c) => [c] case None => []
    ensures Assignments(shell, []) == [] && Commands(shell, []) == []
  {
    hide ReadAssignment, ReadLaunch;
    assert [line][1..] == [];
  }

  function Given(name: string, value: Option<string>): seq<(string, string)> {
    if value.Some? then [(name, value.value)] else []
  }

  lemma EnvReads(shell: Shell, name: string, value: Option<string>)
    requires name != "" && forall c | c in name :: NameChar(c)
    ensures var lines := if value.Some? then [EnvLine(shell, name, value.value)] else [];
            Assignments(shell, lines) == Given(name, value) && Commands(shell, lines) == []
  {
    hide ReadAssignment, ReadLaunch, EnvLine;
    if value.Some? {
      AssignmentReadsBack(shell, name, value.value);
      ReadingOne(shell, EnvLine(shell, name, value.value));
      EnvLineIsNoCommand(shell, name, value.value);
    } else {
      ReadingOne(shell, "");
    }
  }

  lemma EnvLineIsNoCommand(shell: Shell, name: string, value: string)
    ensures ReadLaunch(shell, EnvLine(shell, name, value)) == None
  {
    assert EnvLine(shell, name, value)[0] != ' ';
  }

  lemma NamesAreNames()
    ensures forall c | c in "SAW_SERVER" :: NameChar(c)
    ensures forall c | c in "SAW_TOKEN" :: NameChar(c)
  {
  }

  lemma OpeningReads(shell: Shell, server: Option<string>, token: Option<string>)
    ensures Assignments(shell, Opening(shell, server, token)) == Given("SAW_SERVER", server) + Given("SAW_TOKEN", token)
    ensures Commands(shell, Opening(shell, server, token)) == []
    ensures |Opening(shell, server, token)| > 0
    ensures Opening(shell, server, token)[|Opening(shell, server, token)| - 1] == Guard(shell)
  {
    hide ReadAssignment, ReadLaunch, EnvLine, Guard, ADDRESS, Assignments, Commands;
    var a, g := ["# " + ADDRESS], [Guard(shell)];
    var s := if server.Some? then [EnvLine(shell, "SAW_SERVER", server.value)] else [];
    var t := if token.Some? then [EnvLine(shell, "SAW_TOKEN", token.value)] else [];
    NamesAreNames();
    EnvReads(shell, "SAW_SERVER", server);
    EnvReads(shell, "SAW_TOKEN", token);
    AddressReads(shell);
    GuardReads(shell);
    ReadingOne(shell, a[0]);
    ReadingOne(shell, g[0]);
    assert Opening(shell, server, token) == a + s + t + g;
    ReadingFour(shell, a, s, t, g);
    Bare(Given("SAW_SERVER", server), Given("SAW_TOKEN", token));
    Bare<string>([], []);
  }

  lemma ReadingFour(shell: Shell, a: seq<string>, b: seq<string>, c: seq<string>, d: seq<string>)
    ensures Assignments(shell, a + b + c + d)
         == Assignments(shell, a) + Assignments(shell, b) + Assignments(shell, c) + Assignments(shell, d)
    ensures Commands(shell, a + b + c + d)
         == Commands(shell, a) + Commands(shell, b) + Commands(shell, c) + Commands(shell, d)
  {
    hide Assignments, Commands;
    ReadingConcat(shell, a, b);
    ReadingConcat(shell, a + b, c);
    ReadingConcat(shell, a + b + c, d);
  }

  lemma Bare<T>(a: seq<T>, b: seq<T>)
    ensures [] + a + b + [] == a + b && a + [] + [] == a
  {
  }

  /**
    The block sets SAW_SERVER to the server and SAW_TOKEN to the token, each exactly when
    given, and nothing else; and it runs `exe` and nothing else, right after the guard and
    right before the word that ends it.
   */
  lemma BlockSays(shell: Shell, exe: string, server: Option<string>, token: Option<string>)
    ensures var block := Inner(shell, exe, server, token);
            && Assignments(shell, block) == Given("SAW_SERVER", server) + Given("SAW_TOKEN", token)
            && Commands(shell, block) == [exe]
            && var i := |block| - (if shell == Xonsh then 1 else 2);
            && i > 0 && block[i - 1] == Guard(shell) && "if " <= block[i - 1]
            && ReadLaunch(shell, block[i]) == Some(exe)
            && (shell != Xonsh ==> block[i + 1] == EndWord(shell))
  {
    hide Opening, Launch, Closing, EndWord, Guard, ReadAssignment, ReadLaunch, Assignments, Commands;
    var o, l, c := Opening(shell, server, token), [Launch(shell, exe)], Closing(shell);
    OpeningReads(shell, server, token);
    LaunchReadsBack(shell, exe);
    ClosingReads(shell);
    GuardReads(shell);
    ReadingOne(shell, l[0]);
    ReadingOne(shell, EndWord(shell));
    ReadingFour(shell, o, l, c, []);
    assert o + l + c + [] == Inner(shell, exe, server, token);
    Bare(Given("SAW_SERVER", server) + Given("SAW_TOKEN", token), []);
    assert [] + [exe] + [] + [] == [exe];
    var block := Inner(shell, exe, server, token);
    assert block[|o| - 1] == o[|o| - 1] && block[|o|] == l[0];
    assert c != [] ==> block[|o| + 1] == c[0];
  }

  predicate NoReturnAtEnd(s: string) {
    s == "" || s[|s| - 1] != '\r'
  }

  /** The same of the lines read back from the installed file, unless an argument ends in a carriage return. */
  lemma InstalledBlockSays(existing: string, shell: Shell, exe: string, server: Option<string>, token: Option<string>)
    requires OneLineArgs(exe, server, token)
    requires NoReturnAtEnd(exe) && (server.Some? ==> NoReturnAtEnd(server.value))
    requires token.Some? ==> NoReturnAtEnd(token.value)
    ensures var lines := Lines(Install(existing, shell, exe, server, token));
            var n := |Inner(shell, exe, server, token)|;
            && |lines| > n + 3 && lines[1] == MARKER_BEGIN && lines[n + 2] == MARKER_END
            && var block := lines[2..n + 2];
            && Assignments(shell, block) == Given("SAW_SERVER", server) + Given("SAW_TOKEN", token)
            && Commands(shell, block) == [exe]
  {
    hide Lines, Install, Inner, RemovedLines, MARKER_BEGIN, MARKER_END;
    hide Assignments, Commands, ReadAssignment, ReadLaunch;
    hide Given, NoReturnAtEnd, Chomp, ChompAll, Installed;
    var inner := Inner(shell, exe, server, token);
    BlockSays(shell, exe, server, token);
    InstalledLines(existing, shell, exe, server, token);
    InnerReadsSame(shell, exe, server, token);
    SameReading(shell, inner, ChompAll(inner));
    BlockAt(ChompAll(inner), ChompAll(RemovedLines(existing)) + [""]);
  }

  /** The lines around the block. */
  lemma MarkerTexts()
    ensures MARKER_BEGIN == "# >>> shellanywhere >>>" && MARKER_END == "# <<< shellanywhere <<<"
  {
  }

  lemma BlockAt(inner: seq<string>, after: seq<string>)
    requires after != []
    ensures var lines, n := Installed(inner, after), |inner|;
            && |lines| > n + 3 && lines[1] == MARKER_BEGIN && lines[n + 2] == MARKER_END && lines[2..n + 2] == inner
  {
    hide MARKER_BEGIN, MARKER_END;
  }

  lemma {:induction false} SameReading(shell: Shell, a: seq<string>, b: seq<string>)
    requires |a| == |b| && forall i | 0 <= i < |a| ::
               && ReadAssignment(shell, a[i]) == ReadAssignment(shell, b[i])
               && ReadLaunch(shell, a[i]) == ReadLaunch(shell, b[i])
    ensures Assignments(shell, a) == Assignments(shell, b) && Commands(shell, a) == Commands(shell, b)
  {
    hide ReadAssignment, ReadLaunch;
    if a != [] {
      SameReading(shell, a[1..], b[1..]);
    }
  }

  /** A line reads the same without its carriage return. */
  predicate ReadsSame(shell: Shell, l: string) {
    && ReadAssignment(shell, Chomp(l)) == ReadAssignment(shell, l)
    && ReadLaunch(shell, Chomp(l)) == ReadLaunch(shell, l)
  }

  lemma OtherReadsSame(shell: Shell, l: string)
    requires |l| >= 2 && l[0] != ' ' && l[0] != AssignmentOf(shell).before[0]
    ensures ReadsSame(shell, l)
  {
    OtherLine(shell, l);
    OtherLine(shell, Chomp(l));
  }

  lemma FixedReadSame(shell: Shell)
    ensures ReadsSame(shell, Guard(shell)) && ReadsSame(shell, "# " + ADDRESS)
  {
    hide Condition, ADDRESS;
    OtherReadsSame(shell, Guard(shell));
    OtherReadsSame(shell, "# " + ADDRESS);
  }

  lemma EndReadsSame(shell: Shell)
    ensures Chomp(EndWord(shell)) == EndWord(shell)
  {
  }

  lemma InnerReadsSame(shell: Shell, exe: string, server: Option<string>, token: Option<string>)
    requires NoReturnAtEnd(exe) && (server.Some? ==> NoReturnAtEnd(server.value))
    requires token.Some? ==> NoReturnAtEnd(token.value)
    ensures var inner := Inner(shell, exe, server, token);
            forall i | 0 <= i < |inner| :: ReadsSame(shell, inner[i])
  {
    hide EnvLine, Guard, Launch, ADDRESS, EndWord, Closing, ReadAssignment, ReadLaunch, Chomp;
    ClosingReads(shell);
    FixedReadSame(shell);
    EndReadsSame(shell);
    if server.Some? { EnvLineStays(shell, "SAW_SERVER", server.value); }
    if token.Some? { EnvLineStays(shell, "SAW_TOKEN", token.value); }
    LaunchStays(shell, exe);
    var inner := Inner(shell, exe, server, token);
    forall i | 0 <= i < |inner|
      ensures ReadsSame(shell, inner[i])
    {
      assert inner[i] in Opening(shell, server, token) || inner[i] == Launch(shell, exe) || inner[i] in Closing(shell);
    }
  }

  lemma EnvLineStays(shell: Shell, name: string, value: string)
    requires name != "" && NoReturnAtEnd(value)
    ensures Chomp(EnvLine(shell, name, value)) == EnvLine(shell, name, value)
  {
    hide EnvLine, AssignmentOf;
    var x := AssignmentOf(shell);
    EnvLineIs(shell, name, value);
    EndsOfSyntax(shell);
    var l := EnvLine(shell, name, value);
    if x.after != "" {
      assert l[|l| - 1] == x.after[|x.after| - 1];
    } else if value != "" {
      assert l[|l| - 1] == value[|value| - 1];
    } else {
      assert l[|l| - 1] == x.between[|x.between| - 1];
    }
  }

  lemma EndsOfSyntax(shell: Shell)
    ensures var x := AssignmentOf(shell);
            && x.between != "" && x.between[|x.between| - 1] != '\r'
            && (x.after != "" ==> x.after[|x.after| - 1] != '\r')
  {
  }

  lemma LaunchStays(shell: Shell, exe: string)
    requires NoReturnAtEnd(exe)
    ensures Chomp(Launch(shell, exe)) == Launch(shell, exe)
  {
    var l := Launch(shell, exe);
    if exe != "" {
      assert l[|l| - 1] == exe[|exe| - 1];
    } else {
      assert l[|l| - 1] == ' ';
    }
  }
}
