/** Text as the RC-file code sees it: lines, joining, and white-space trimming. */
module RcText {
  import opened Bytes

  /** The characters Rust trims: the Unicode property White_Space. */
  predicate White(c: char) {
    || '\t' <= c <= '\r' || c == ' ' || c == '\U{85}' || c == '\U{A0}' || c == '\U{1680}'
    || '\U{2000}' <= c <= '\U{200A}' || c == '\U{2028}' || c == '\U{2029}'
    || c == '\U{202F}' || c == '\U{205F}' || c == '\U{3000}'
  }

  function TrimEnd(s: string): (t: string)
    ensures |t| <= |s|
    ensures t != "" ==> !White(t[|t| - 1])
  {
    if s != "" && White(s[|s| - 1]) then TrimEnd(s[..|s| - 1]) else s
  }

  function TrimStart(s: string): string {
    if s != "" && White(s[0]) then TrimStart(s[1..]) else s
  }

  function Trim(s: string): string {
    TrimStart(TrimEnd(s))
  }

  predicate Blank(s: string) {
    Trim(s) == ""
  }

  /** The white space of Unicode, by code point. */
  lemma WhiteIff(c: char)
    ensures White(c) <==>
              || 9 <= c as int <= 13 || c as int == 32 || c as int == 133 || c as int == 160 || c as int == 5760
              || 8192 <= c as int <= 8202 || c as int == 8232 || c as int == 8233
              || c as int == 8239 || c as int == 8287 || c as int == 12288
  {
  }

  // ----- facts about trimming -----

  lemma {:induction false} TrimEndConcat(a: string, b: string)
    ensures TrimEnd(a + b) == if TrimEnd(b) == "" then TrimEnd(a) else a + TrimEnd(b)
  {
    if b == "" {
      assert a + b == a;
    } else {
      var n := |b| - 1;
      assert (a + b)[|a + b| - 1] == b[n];
      if White(b[n]) {
        assert (a + b)[..|a + b| - 1] == a + b[..n];
        TrimEndConcat(a, b[..n]);
      }
    }
  }

  lemma {:induction false} TrimEndTwice(s: string)
    ensures TrimEnd(TrimEnd(s)) == TrimEnd(s)
  {
  }

  lemma {:induction false} TrimStartNothing(s: string)
    requires TrimStart(s) == "" && TrimEnd(s) == s
    ensures s == ""
  {
    AllWhite(s);
  }

  lemma {:induction false} AllWhite(s: string)
    ensures TrimStart(s) == "" ==> forall i | 0 <= i < |s| :: White(s[i])
  {
    if s != "" && White(s[0]) {
      AllWhite(s[1..]);
      assert forall i | 0 < i < |s| :: s[i] == s[1..][i - 1];
    }
  }

  /** A line is blank exactly when trimming its end alone leaves nothing. */
  lemma BlankIff(s: string)
    ensures Blank(s) <==> TrimEnd(s) == ""
  {
    TrimEndTwice(s);
    if TrimStart(TrimEnd(s)) == "" {
      TrimStartNothing(TrimEnd(s));
    }
  }

  lemma TrimOfTrimEnd(s: string)
    ensures Trim(TrimEnd(s)) == Trim(s)
  {
    TrimEndTwice(s);
  }

  /** A line that begins with a visible character keeps it when trimmed. */
  lemma TrimVisible(c: char, rest: string)
    requires !White(c)
    ensures Trim([c] + rest) == [c] + TrimEnd(rest)
  {
    hide White, TrimEnd, TrimStart;
    var tail := TrimEnd(rest);
    TrimEndConcat([c], rest);
    SolidEnd([c]);
    assert tail == "" ==> [c] + tail == [c];
    SolidStart([c] + tail);
  }

  lemma SolidEnd(s: string)
    requires s != "" && !White(s[|s| - 1])
    ensures TrimEnd(s) == s
  {
  }

  lemma SolidStart(s: string)
    requires s != "" && !White(s[0])
    ensures TrimStart(s) == s
  {
  }

  lemma {:induction false} TrimStartLead(lead: string, s: string)
    requires forall i | 0 <= i < |lead| :: White(lead[i])
    ensures TrimStart(lead + s) == TrimStart(s)
  {
    if lead == "" {
      assert lead + s == s;
    } else {
      assert (lead + s)[1..] == lead[1..] + s;
      assert forall i | 0 <= i < |lead[1..]| :: lead[1..][i] == lead[i + 1];
      TrimStartLead(lead[1..], s);
    }
  }

  lemma {:induction false} TrimEndWhite(s: string)
    requires forall i | 0 <= i < |s| :: White(s[i])
    ensures TrimEnd(s) == ""
  {
    if s != "" {
      TrimEndWhite(s[..|s| - 1]);
    }
  }

  lemma TrimLead(lead: string, s: string)
    requires forall i | 0 <= i < |lead| :: White(lead[i])
    ensures Trim(lead + s) == Trim(s)
  {
    TrimEndConcat(lead, s);
    if TrimEnd(s) == "" {
      TrimEndWhite(lead);
    } else {
      TrimStartLead(lead, TrimEnd(s));
    }
  }

  // ----- lines -----

  predicate OneLine(s: string) {
    '\n' !in s
  }

  /** A line break is LF or CR LF; a lone CR stays. */
  function Chomp(s: string): string {
    if s != "" && s[|s| - 1] == '\r' then s[..|s| - 1] else s
  }

  function Break(s: string): (k: nat)
    ensures k <= |s| && OneLine(s[..k]) && (k < |s| ==> s[k] == '\n')
  {
    if s == "" || s[0] == '\n' then 0 else
      var k := 1 + Break(s[1..]);
      assert s[..k] == [s[0]] + s[1..][..k - 1];
      k
  }

  function Lines(s: string): seq<string>
    decreases |s|
  {
    if s == "" then [] else
      var k := Break(s);
      if k == |s| then [s] else [Chomp(s[..k])] + Lines(s[k + 1..])
  }

  function Join(ls: seq<string>): string {
    if ls == [] then "" else if |ls| == 1 then ls[0] else ls[0] + "\n" + Join(ls[1..])
  }

  function ChompAll(ls: seq<string>): (r: seq<string>)
    ensures |r| == |ls| && forall i | 0 <= i < |ls| :: r[i] == Chomp(ls[i])
  {
    seq(|ls|, i requires 0 <= i < |ls| => Chomp(ls[i]))
  }

  predicate AllOneLine(ls: seq<string>) {
    forall l | l in ls :: OneLine(l)
  }

  lemma {:induction false} BreakAt(a: string, b: string)
    requires OneLine(a)
    ensures Break(a + "\n" + b) == |a|
  {
    if a == "" {
      assert (a + "\n" + b)[0] == '\n';
    } else {
      assert (a + "\n" + b)[1..] == a[1..] + "\n" + b;
      assert forall c | c in a[1..] :: c in a;
      BreakAt(a[1..], b);
    }
  }

  lemma LinesCons(a: string, b: string)
    requires OneLine(a)
    ensures Lines(a + "\n" + b) == [Chomp(a)] + Lines(b)
  {
    BreakAt(a, b);
    var s := a + "\n" + b;
    assert s[..|a|] == a && s[|a| + 1..] == b;
  }

  /** Reading back lines that were each ended by a line feed. */
  lemma {:induction false} LinesOfJoin(ls: seq<string>, rest: string)
    requires AllOneLine(ls) && ls != []
    ensures Lines(Join(ls) + "\n" + rest) == ChompAll(ls) + Lines(rest)
    decreases |ls|
  {
    if |ls| == 1 {
      LinesCons(ls[0], rest);
      assert ChompAll(ls) == [Chomp(ls[0])];
    } else {
      hide Lines, Chomp;
      var tail := Join(ls[1..]) + "\n" + rest;
      Regroup(ls[0], Join(ls[1..]), rest);
      LinesCons(ls[0], tail);
      LinesOfJoin(ls[1..], rest);
      ChompFirst(ls);
      Assoc([Chomp(ls[0])], ChompAll(ls[1..]), Lines(rest));
    }
  }

  lemma Regroup(a: string, b: string, c: string)
    ensures a + "\n" + b + "\n" + c == a + "\n" + (b + "\n" + c)
  {
  }

  lemma ChompFirst(ls: seq<string>)
    requires ls != []
    ensures ChompAll(ls) == [Chomp(ls[0])] + ChompAll(ls[1..])
  {
  }

  lemma {:induction false} LinesAreLines(s: string)
    ensures AllOneLine(Lines(s))
    decreases |s|
  {
    if s != "" {
      var k := Break(s);
      if k == |s| {
        assert s[..k] == s;
      } else {
        LinesAreLines(s[k + 1..]);
        assert forall c | c in Chomp(s[..k]) :: c in s[..k];
      }
    }
  }

  lemma {:induction false} JoinSnoc(ls: seq<string>, l: string)
    requires ls != []
    ensures Join(ls + [l]) == Join(ls) + "\n" + l
  {
    if |ls| == 1 {
      assert (ls + [l])[1..] == [l];
    } else {
      assert (ls + [l])[1..] == ls[1..] + [l];
      JoinSnoc(ls[1..], l);
    }
  }

  // ----- a text without trailing white space -----

  /** The lines of a text once its trailing white space is cut. */
  function TidyLines(ls: seq<string>): (r: seq<string>)
    ensures |r| <= |ls|
  {
    if ls == [] then [] else
      var n := |ls| - 1;
      if Blank(ls[n]) then TidyLines(ls[..n]) else ls[..n] + [TrimEnd(ls[n])]
  }

  /** A text of these lines, each ended by a line feed; no text for no lines. */
  function FromLines(ls: seq<string>): string {
    if ls == [] then "" else Join(ls) + "\n"
  }

  predicate Tidy(ls: seq<string>) {
    ls != [] ==> !Blank(ls[|ls| - 1]) && TrimEnd(ls[|ls| - 1]) == ls[|ls| - 1]
  }

  lemma {:induction false} TidyIsTrimmedJoin(ls: seq<string>)
    ensures TrimEnd(Join(ls)) == Join(TidyLines(ls))
    ensures TidyLines(ls) == [] <==> TrimEnd(Join(ls)) == ""
  {
    if ls != [] {
      var n := |ls| - 1;
      BlankIff(ls[n]);
      if n == 0 {
        assert ls[..n] == [];
      } else {
        assert ls == ls[..n] + [ls[n]];
        JoinSnoc(ls[..n], ls[n]);
        TrimEndConcat(Join(ls[..n]) + "\n", ls[n]);
        if Blank(ls[n]) {
          TrimEndConcat(Join(ls[..n]), "\n");
          TidyIsTrimmedJoin(ls[..n]);
        } else {
          JoinSnoc(ls[..n], TrimEnd(ls[n]));
        }
      }
    }
  }

  lemma {:induction false} TidyLinesAreTidy(ls: seq<string>)
    ensures Tidy(TidyLines(ls))
  {
    if ls != [] {
      var n := |ls| - 1;
      if Blank(ls[n]) {
        TidyLinesAreTidy(ls[..n]);
      } else {
        TrimEndTwice(ls[n]);
        TrimOfTrimEnd(ls[n]);
      }
    }
  }

  lemma TidyStays(ls: seq<string>)
    requires Tidy(ls)
    ensures TidyLines(ls) == ls && TidyLines(ls + [""]) == ls
  {
    assert (ls + [""])[..|ls|] == ls;
    if ls != [] {
      assert ls == ls[..|ls| - 1] + [ls[|ls| - 1]];
    }
  }
}
