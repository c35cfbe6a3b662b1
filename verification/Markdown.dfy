/**
  The markdown normaliser: lines trimmed, runs of blank lines squeezed, fenced code left alone.
 */
module Markdown {
  import opened Text

  const FENCE := "```"

  // --- Lines ------------------------------------------------------------------------------------------

  /** Where the first line ends: at the first line feed, or at the end. */
  function LineEnd(s: string): (k: nat)
    ensures k <= |s| && (forall i :: 0 <= i < k ==> s[i] != '\n') && (k < |s| ==> s[k] == '\n')
  {
    if s == "" || s[0] == '\n' then 0
    else LineEnd(s[1..]) + 1
  }

  predicate EndsCr(s: string) {
    s != "" && s[|s| - 1] == '\r'
  }

  /** The lines of a text: one carriage return before a line feed belongs to the line break. */
  function Lines(s: string): seq<string>
    decreases |s|
  {
    if s == "" then []
    else
      var k := LineEnd(s);
      if k == |s| then [s]
      else [if EndsCr(s[..k]) then s[..k - 1] else s[..k]] + Lines(s[k + 1..])
  }

  function Join(ls: seq<string>): string {
    if ls == [] then ""
    else if |ls| == 1 then ls[0]
    else ls[0] + "\n" + Join(ls[1..])
  }

  // --- The normaliser as a function -------------------------------------------------------------------

  predicate IsFence(line: string) {
    FENCE <= Trim(line)
  }

  /** What one line adds to the output; `blank` says whether a blank line came just before. */
  function Emit(line: string, inCode: bool, blank: bool): seq<string> {
    if IsFence(line) then [Trim(line)]
    else if inCode then [line]
    else if Trim(line) != "" then [Trim(line)]
    else if blank then []
    else [""]
  }

  predicate NextCode(line: string, inCode: bool) {
    IsFence(line) != inCode
  }

  predicate NextBlank(line: string, inCode: bool) {
    !IsFence(line) && !inCode && Trim(line) == ""
  }

  function Pass(ls: seq<string>, inCode: bool, blank: bool): seq<string> {
    if ls == [] then []
    else Emit(ls[0], inCode, blank) + Pass(ls[1..], NextCode(ls[0], inCode), NextBlank(ls[0], inCode))
  }

  function Clean(s: string): string {
    Trim(Join(Pass(Lines(s), false, false)))
  }

  /** `clean_markdown`. */
  method CleanMarkdown(s: string) returns (r: string)
    ensures r == Clean(s)
  {
    var lines, rest := [], Lines(s);
    var inCodeBlock, consecutiveEmpty := false, 0;
    while rest != []
      invariant consecutiveEmpty >= 0
      invariant lines + Pass(rest, inCodeBlock, consecutiveEmpty > 0) == Pass(Lines(s), false, false)
      decreases |rest|
    {
      var line := rest[0];
      var trimmed := Trim(line);
      ghost var done, wasInCode, wasBlank := lines, inCodeBlock, consecutiveEmpty > 0;
      if FENCE <= trimmed {
        inCodeBlock := !inCodeBlock;
        consecutiveEmpty := 0;
        lines := lines + [trimmed];
      } else if inCodeBlock {
        lines := lines + [line];
        consecutiveEmpty := 0;
      } else if trimmed == "" {
        consecutiveEmpty := consecutiveEmpty + 1;
        if consecutiveEmpty <= 1 {
          lines := lines + [""];
        }
      } else {
        consecutiveEmpty := 0;
        lines := lines + [trimmed];
      }
      assert lines == done + Emit(line, wasInCode, wasBlank);
      PassStep(done, rest, wasInCode, wasBlank);
      rest := rest[1..];
    }
    assert lines == Pass(Lines(s), false, false);
    r := Trim(Join(lines));
  }

  lemma PassStep(done: seq<string>, rest: seq<string>, inCode: bool, blank: bool)
    requires rest != []
    ensures done + Pass(rest, inCode, blank) ==
            done + Emit(rest[0], inCode, blank) + Pass(rest[1..], NextCode(rest[0], inCode), NextBlank(rest[0], inCode))
  {
  }

  // --- Trimming ---------------------------------------------------------------------------------------

  /** Nothing to trim. */
  predicate Tight(s: string) {
    s == "" || (!IsSpace(s[0]) && !IsSpace(s[|s| - 1]))
  }

  lemma {:induction false} TrimStartCuts(s: string)
    ensures |TrimStart(s)| <= |s| && TrimStart(s) == s[|s| - |TrimStart(s)|..]
    ensures Blank(s[..|s| - |TrimStart(s)|])
    ensures TrimStart(s) == "" || !IsSpace(TrimStart(s)[0])
  {
    if s != "" && IsSpace(s[0]) {
      TrimStartCuts(s[1..]);
      assert s[..|s| - |TrimStart(s)|] == [s[0]] + s[1..][..|s[1..]| - |TrimStart(s)|];
    }
  }

  lemma {:induction false} TrimEndCuts(s: string)
    ensures |TrimEnd(s)| <= |s| && TrimEnd(s) == s[..|TrimEnd(s)|]
    ensures Blank(s[|TrimEnd(s)|..])
    ensures TrimEnd(s) == "" || !IsSpace(TrimEnd(s)[|TrimEnd(s)| - 1])
  {
    if s != "" && IsSpace(s[|s| - 1]) {
      TrimEndCuts(s[..|s| - 1]);
      assert s[|TrimEnd(s)|..] == s[..|s| - 1][|TrimEnd(s)|..] + [s[|s| - 1]];
    }
  }

  lemma {:induction false} TrimStartAppend(a: string, b: string)
    requires Blank(a)
    ensures TrimStart(a + b) == TrimStart(b)
  {
    if a == "" {
      assert a + b == b;
    } else {
      assert a[0] in a && (a + b)[1..] == a[1..] + b;
      TrimStartAppend(a[1..], b);
    }
  }

  lemma {:induction false} TrimEndAppend(a: string, b: string)
    ensures TrimEnd(a + b) == if Blank(b) then TrimEnd(a) else a + TrimEnd(b)
    decreases |b|
  {
    if b == "" {
      assert a + b == a;
    } else {
      var n := |b| - 1;
      assert (a + b)[..|a| + n] == a + b[..n] && (a + b)[|a| + n] == b[n];
      assert b == b[..n] + [b[n]];
      if IsSpace(b[n]) {
        TrimEndAppend(a, b[..n]);
        assert Blank(b) <==> Blank(b[..n]);
      } else {
        assert b[n] in b;
      }
    }
  }

  /** What `Trim` is: the one tight string left when blank ends are cut off. */
  lemma TrimIs(before: string, t: string, after: string)
    requires Blank(before) && Tight(t) && Blank(after)
    ensures Trim(before + t + after) == t
  {
    assert before + t + after == before + (t + after);
    TrimStartAppend(before, t + after);
    if t == "" {
      assert t + after == after + "";
      TrimStartAppend(after, "");
    } else {
      assert t[|t| - 1] in t && !Blank(t);
      assert TrimStart(t + after) == t + after;
      TrimEndAppend(t, after);
    }
  }

  lemma TrimParts(s: string) returns (before: string, after: string)
    ensures s == before + Trim(s) + after
    ensures Blank(before) && Tight(Trim(s)) && Blank(after)
  {
    var u := TrimStart(s);
    TrimStartCuts(s);
    TrimEndCuts(u);
    before, after := s[..|s| - |u|], u[|TrimEnd(u)|..];
  }

  /** Trimming again changes nothing. */
  lemma TrimTwice(s: string)
    ensures Trim(Trim(s)) == Trim(s) && TrimEnd(Trim(s)) == Trim(s) && TrimStart(Trim(s)) == Trim(s)
  {
    var before, after := TrimParts(s);
    TrimIs("", Trim(s), "");
    assert "" + Trim(s) + "" == Trim(s);
  }

  lemma TrimBlank(s: string)
    ensures Trim(s) == "" <==> Blank(s)
    ensures |Trim(s)| <= |s| && forall c <- Trim(s) :: c in s
  {
    var before, after := TrimParts(s);
    if Trim(s) != "" {
      assert Trim(s)[0] in s && !IsSpace(Trim(s)[0]);
    }
  }

  /** Trimming what has been trimmed at its end is trimming it all. */
  lemma TrimAfterEnd(s: string)
    ensures Trim(TrimEnd(s)) == Trim(s)
  {
    var before, after := TrimParts(s);
    var t := Trim(s);
    TrimEndAppend(before + t, after);
    assert t == "" ==> before + t == before;
    TrimEndAppend(before, t);
    if t == "" {
      TrimBlank(s);
      TrimEndCuts(before);
      TrimBlank(TrimEnd(before));
      TrimBlank(before);
    } else {
      TrimBlank(t);
      TrimTwice(s);
      TrimIs(before, t, "");
      assert before + t + "" == before + t;
    }
  }

  // --- Passing over lines that have been passed over --------------------------------------------------

  ghost predicate NoFeed(ls: seq<string>) {
    forall l <- ls :: '\n' !in l
  }

  /** What a line becomes is what it stays. */
  lemma EmitStable(line: string, inCode: bool, blank: bool)
    ensures |Emit(line, inCode, blank)| <= 1
    ensures Emit(line, inCode, blank) != [] ==>
              var x := Emit(line, inCode, blank)[0];
              && Emit(x, inCode, blank) == [x]
              && NextCode(x, inCode) == NextCode(line, inCode) && NextBlank(x, inCode) == NextBlank(line, inCode)
              && |x| <= |line| && ('\n' !in line ==> '\n' !in x) && (!EndsCr(line) ==> !EndsCr(x))
    ensures Emit(line, inCode, blank) == [] ==>
              blank && !inCode && NextCode(line, inCode) == inCode && NextBlank(line, inCode)
  {
    TrimTwice(line);
    TrimBlank(line);
    TrimIs("", "", "");
    if Trim(line) != "" {
      var before, after := TrimParts(line);
      assert IsSpace('\r');
    }
  }

  lemma {:induction false} PassTwice(ls: seq<string>, inCode: bool, blank: bool)
    ensures Pass(Pass(ls, inCode, blank), inCode, blank) == Pass(ls, inCode, blank)
  {
    if ls != [] {
      EmitStable(ls[0], inCode, blank);
      var e, rest := Emit(ls[0], inCode, blank), Pass(ls[1..], NextCode(ls[0], inCode), NextBlank(ls[0], inCode));
      PassTwice(ls[1..], NextCode(ls[0], inCode), NextBlank(ls[0], inCode));
      if e == [] {
        assert Pass(ls, inCode, blank) == rest;
      } else {
        assert e + rest == [e[0]] + rest && ([e[0]] + rest)[1..] == rest;
      }
    }
  }

  /** The length of the joined lines, with a line feed after each. */
  function Length(ls: seq<string>): nat {
    if ls == [] then 0 else |ls[0]| + 1 + Length(ls[1..])
  }

  lemma {:induction false} JoinLength(ls: seq<string>)
    ensures |Join(ls)| == if ls == [] then 0 else Length(ls) - 1
  {
    if |ls| > 1 {
      JoinLength(ls[1..]);
    }
  }

  /** What holds of the lines still holds of what a pass makes of them. */
  lemma {:induction false} PassKeeps(ls: seq<string>, inCode: bool, blank: bool)
    ensures |Pass(ls, inCode, blank)| <= |ls| && Length(Pass(ls, inCode, blank)) <= Length(ls)
    ensures NoFeed(ls) ==> NoFeed(Pass(ls, inCode, blank))
  {
    if ls != [] {
      EmitStable(ls[0], inCode, blank);
      var e, rest := Emit(ls[0], inCode, blank), Pass(ls[1..], NextCode(ls[0], inCode), NextBlank(ls[0], inCode));
      PassKeeps(ls[1..], NextCode(ls[0], inCode), NextBlank(ls[0], inCode));
      assert NoFeed(ls) ==> NoFeed(ls[1..]);
      if e == [] {
        assert Pass(ls, inCode, blank) == rest;
      } else {
        assert (e + rest)[1..] == rest;
      }
    }
  }

  /** No line but the last ends in a carriage return. */
  predicate NoCrButLast(ls: seq<string>) {
    |ls| <= 1 || (!EndsCr(ls[0]) && NoCrButLast(ls[1..]))
  }

  predicate Stable(ls: seq<string>, inCode: bool, blank: bool) {
    Pass(ls, inCode, blank) == ls
  }

  lemma StableHead(ls: seq<string>, inCode: bool, blank: bool)
    requires ls != []
    ensures Stable(ls, inCode, blank) <==>
              && Emit(ls[0], inCode, blank) == [ls[0]]
              && Stable(ls[1..], NextCode(ls[0], inCode), NextBlank(ls[0], inCode))
  {
    EmitStable(ls[0], inCode, blank);
    var e, rest := Emit(ls[0], inCode, blank), Pass(ls[1..], NextCode(ls[0], inCode), NextBlank(ls[0], inCode));
    PassKeeps(ls[1..], NextCode(ls[0], inCode), NextBlank(ls[0], inCode));
    if e != [] {
      assert (e + rest)[0] == e[0] && (e + rest)[1..] == rest;
      assert ls == [ls[0]] + ls[1..];
    } else {
      assert |e + rest| < |ls|;
    }
  }

  /** Lines stay stable when the last one is dropped, or trimmed at its end without vanishing. */
  lemma {:induction false} StablePrefix(ls: seq<string>, x: string, inCode: bool, blank: bool)
    requires Stable(ls + [x], inCode, blank)
    ensures Stable(ls, inCode, blank)
    ensures !Blank(x) ==> Stable(ls + [TrimEnd(x)], inCode, blank)
  {
    StableHead(ls + [x], inCode, blank);
    if ls == [] {
      assert [] + [x] == [x] && [] + [TrimEnd(x)] == [TrimEnd(x)];
      StableHead([TrimEnd(x)], inCode, blank);
      TrimAfterEnd(x);
      TrimTwice(x);
      TrimBlank(x);
    } else {
      assert (ls + [x])[1..] == ls[1..] + [x] && (ls + [TrimEnd(x)])[1..] == ls[1..] + [TrimEnd(x)];
      StablePrefix(ls[1..], x, NextCode(ls[0], inCode), NextBlank(ls[0], inCode));
      StableHead(ls, inCode, blank);
      StableHead(ls + [TrimEnd(x)], inCode, blank);
    }
  }

  // --- The final trim, on lines -----------------------------------------------------------------------

  /** The lines without a blank first one. */
  function Unlead(ls: seq<string>): seq<string> {
    if ls != [] && ls[0] == "" then ls[1..] else ls
  }

  /** The lines without the blank ones at the end, the last one trimmed at its end. */
  function Chop(ls: seq<string>): seq<string> {
    if ls == [] then []
    else if Blank(ls[|ls| - 1]) then Chop(ls[..|ls| - 1])
    else ls[..|ls| - 1] + [TrimEnd(ls[|ls| - 1])]
  }

  ghost predicate LeadsTight(ls: seq<string>) {
    ls != [] ==> ls[0] != "" && !IsSpace(ls[0][0])
  }

  lemma UnleadStable(ls: seq<string>)
    requires Stable(ls, false, false)
    ensures Stable(Unlead(ls), false, false) && LeadsTight(Unlead(ls))
    ensures TrimStart(Join(ls)) == Join(Unlead(ls))
  {
    if ls != [] {
      StableHead(ls, false, false);
      if ls[0] == "" {
        TrimIs("", "", "");
        if |ls| > 1 {
          StableHead(ls[1..], false, true);
          StableHead(ls[1..], false, false);
          StartsTight(ls[1..], true);
          assert Join(ls) == "\n" + Join(ls[1..]);
          TrimStartAppend("\n", Join(ls[1..]));
        }
      } else {
        StartsTight(ls, false);
      }
    }
  }

  lemma StartsTight(ls: seq<string>, blank: bool)
    requires ls != [] && Emit(ls[0], false, blank) == [ls[0]] && (blank || ls[0] != "")
    ensures LeadsTight(ls) && TrimStart(Join(ls)) == Join(ls)
  {
    var before, after := TrimParts(ls[0]);
    assert ls[0] == Trim(ls[0]) != "";
    assert Join(ls)[0] == ls[0][0];
  }

  lemma {:induction false} JoinSnoc(ls: seq<string>, x: string)
    requires ls != []
    ensures Join(ls + [x]) == Join(ls) + "\n" + x
  {
    if |ls| == 1 {
      assert (ls + [x])[1..] == [x];
    } else {
      assert (ls + [x])[1..] == ls[1..] + [x];
      JoinSnoc(ls[1..], x);
    }
  }

  lemma {:induction false} ChopJoins(ls: seq<string>)
    ensures TrimEnd(Join(ls)) == Join(Chop(ls))
  {
    if ls != [] {
      var n := |ls| - 1;
      ChopJoins(ls[..n]);
      assert ls == ls[..n] + [ls[n]];
      if n == 0 {
        TrimEndAppend("", ls[0]);
        assert "" + ls[0] == ls[0] && ls[..0] + [TrimEnd(ls[0])] == [TrimEnd(ls[0])];
      } else {
        JoinSnoc(ls[..n], ls[n]);
        JoinSnoc(ls[..n], TrimEnd(ls[n]));
        TrimEndAppend(Join(ls[..n]) + "\n", ls[n]);
        TrimEndAppend(Join(ls[..n]), "\n");
      }
    }
  }

  lemma {:induction false} ChopKeeps(ls: seq<string>, inCode: bool, blank: bool)
    requires Stable(ls, inCode, blank)
    ensures Stable(Chop(ls), inCode, blank)
    ensures Chop(ls) != [] ==> Chop(ls)[|Chop(ls)| - 1] != ""
  {
    if ls != [] {
      var n := |ls| - 1;
      assert ls == ls[..n] + [ls[n]];
      StablePrefix(ls[..n], ls[n], inCode, blank);
      if Blank(ls[n]) {
        ChopKeeps(ls[..n], inCode, blank);
      } else {
        TrimEndCuts(ls[n]);
        TrimEndAppend("", ls[n]);
      }
    }
  }

  lemma {:induction false} ChopNoFeed(ls: seq<string>)
    requires NoFeed(ls)
    ensures NoFeed(Chop(ls))
  {
    if ls != [] {
      var n := |ls| - 1;
      TrimEndCuts(ls[n]);
      assert NoFeed(ls[..n]) && ls[n] in ls;
      if Blank(ls[n]) {
        ChopNoFeed(ls[..n]);
      }
    }
  }

  // --- Splitting and joining --------------------------------------------------------------------------

  lemma LineEndIs(a: string, b: string)
    requires '\n' !in a
    ensures LineEnd(a + "\n" + b) == |a|
  {
    var s := a + "\n" + b;
    assert s[|a|] == '\n';
    assert forall i :: 0 <= i < |a| ==> s[i] == a[i] && a[i] in a;
  }

  lemma LinesCons(a: string, b: string)
    requires '\n' !in a && !EndsCr(a)
    ensures Lines(a + "\n" + b) == [a] + Lines(b)
  {
    var s := a + "\n" + b;
    LineEndIs(a, b);
    assert s[..|a|] == a && s[|a| + 1..] == b;
  }

  lemma LinesConsCr(a: string, b: string)
    requires '\n' !in a
    ensures Lines(a + "\r\n" + b) == [a] + Lines(b)
  {
    var s := a + "\r\n" + b;
    assert s == (a + "\r") + "\n" + b;
    LineEndIs(a + "\r", b);
    assert s[..|a| + 1] == a + "\r" && s[..|a|] == a && s[|a| + 2..] == b;
  }

  lemma LinesOne(a: string)
    requires '\n' !in a && a != ""
    ensures Lines(a) == [a]
  {
    assert forall i :: 0 <= i < |a| ==> a[i] in a;
  }

  lemma {:induction false} LinesOfJoin(ls: seq<string>)
    requires NoFeed(ls) && NoCrButLast(ls) && (ls != [] ==> ls[|ls| - 1] != "")
    ensures Lines(Join(ls)) == ls
  {
    if |ls| == 1 {
      LinesOne(ls[0]);
    } else if |ls| > 1 {
      LinesOfJoin(ls[1..]);
      LinesCons(ls[0], Join(ls[1..]));
    }
  }

  ghost predicate HasCrLf(s: string) {
    exists i :: CrLfAt(s, i)
  }

  predicate CrLfAt(s: string, i: int) {
    0 < i < |s| && s[i] == '\n' && s[i - 1] == '\r'
  }

  lemma CrLfLater(s: string, k: nat, i: int)
    requires k < |s| && s[k] == '\n' && k < i
    ensures CrLfAt(s, i) <==> CrLfAt(s[k + 1..], i - k - 1)
  {
  }

  /** A line break with a carriage return is the first one, or comes after it. */
  lemma HasCrLfStep(s: string)
    requires s != ""
    ensures var k := LineEnd(s);
            HasCrLf(s) <==> k < |s| && ((k > 0 && s[k - 1] == '\r') || HasCrLf(s[k + 1..]))
  {
    var k := LineEnd(s);
    if HasCrLf(s) {
      var i :| CrLfAt(s, i);
      if k < i {
        CrLfLater(s, k, i);
      }
    }
    if k < |s| {
      if k > 0 && s[k - 1] == '\r' {
        assert CrLfAt(s, k);
      } else if HasCrLf(s[k + 1..]) {
        var j :| CrLfAt(s[k + 1..], j);
        CrLfLater(s, k, j + k + 1);
      }
    }
  }

  /** Splitting forgets the carriage returns of line breaks, and nothing else. */
  lemma {:induction false} LinesLength(s: string)
    ensures Length(Lines(s)) <= |s| + 1 && (HasCrLf(s) ==> Length(Lines(s)) <= |s|)
    ensures NoFeed(Lines(s))
    decreases |s|
  {
    if s != "" {
      var k := LineEnd(s);
      HasCrLfStep(s);
      if k < |s| {
        LinesLength(s[k + 1..]);
      }
    }
  }

  lemma {:induction false} JoinHasCrLf(ls: seq<string>)
    requires NoFeed(ls)
    ensures HasCrLf(Join(ls)) <==> !NoCrButLast(ls)
  {
    if |ls| == 1 {
      assert forall i :: 0 <= i < |ls[0]| ==> ls[0][i] in ls[0];
    } else if |ls| > 1 {
      JoinHasCrLf(ls[1..]);
      LineEndIs(ls[0], Join(ls[1..]));
      var s := Join(ls);
      assert s[..|ls[0]|] == ls[0] && s[|ls[0]| + 1..] == Join(ls[1..]);
      HasCrLfStep(s);
    }
  }

  // --- Idempotence ------------------------------------------------------------------------------------

  /** The lines of the result. */
  function OutLines(s: string): seq<string> {
    Chop(Unlead(Pass(Lines(s), false, false)))
  }

  ghost predicate Normal(ls: seq<string>) {
    && Stable(ls, false, false) && NoFeed(ls) && LeadsTight(ls)
    && (ls != [] ==> ls[|ls| - 1] != "" && TrimEnd(ls[|ls| - 1]) == ls[|ls| - 1])
  }

  lemma {:induction false} ChopLeads(ls: seq<string>)
    requires LeadsTight(ls)
    ensures LeadsTight(Chop(ls))
    ensures Chop(ls) != [] ==> TrimEnd(Chop(ls)[|Chop(ls)| - 1]) == Chop(ls)[|Chop(ls)| - 1]
  {
    if ls != [] {
      var n := |ls| - 1;
      if Blank(ls[n]) {
        ChopLeads(ls[..n]);
      } else {
        TrimEndCuts(ls[n]);
        TrimEndAppend("", ls[n]);
        TrimAgain(ls[n]);
      }
    }
  }

  lemma TrimAgain(s: string)
    ensures TrimEnd(TrimEnd(s)) == TrimEnd(s)
  {
    TrimEndCuts(s);
  }

  lemma CleanIsJoin(s: string)
    ensures Clean(s) == Join(OutLines(s)) && Normal(OutLines(s))
  {
    var ls := Pass(Lines(s), false, false);
    PassTwice(Lines(s), false, false);
    PassKeeps(Lines(s), false, false);
    LinesLength(s);
    UnleadStable(ls);
    ChopJoins(Unlead(ls));
    ChopKeeps(Unlead(ls), false, false);
    ChopNoFeed(Unlead(ls));
    ChopLeads(Unlead(ls));
  }

  /** Normal lines that survive splitting are cleaned to themselves. */
  lemma NormalStays(ls: seq<string>)
    requires Normal(ls) && NoCrButLast(ls)
    ensures Clean(Join(ls)) == Join(ls)
  {
    LinesOfJoin(ls);
    UnleadStable(ls);
    ChopJoins(ls);
    ChopsNothing(ls);
  }

  lemma ChopsNothing(ls: seq<string>)
    requires ls != [] ==> ls[|ls| - 1] != "" && TrimEnd(ls[|ls| - 1]) == ls[|ls| - 1]
    ensures Chop(ls) == ls
  {
    if ls != [] {
      var n := |ls| - 1;
      NotBlank(ls[n]);
      assert Chop(ls) == ls[..n] + [ls[n]];
    }
  }

  lemma NotBlank(s: string)
    requires s != "" && TrimEnd(s) == s
    ensures !Blank(s)
  {
    TrimEndCuts(s);
    assert s[|s| - 1] in s;
  }

  lemma CleanShrinks(s: string)
    ensures |Clean(s)| <= |s| && (HasCrLf(s) ==> |Clean(s)| < |s|)
  {
    var ls := Pass(Lines(s), false, false);
    LinesLength(s);
    PassKeeps(Lines(s), false, false);
    JoinLength(ls);
    TrimBlank(Join(ls));
  }

  /** Cleaning twice is cleaning once exactly when the first result has no carriage return before a line feed. */
  lemma CleanTwiceByResult(s: string)
    ensures Clean(Clean(s)) == Clean(s) <==> !HasCrLf(Clean(s))
  {
    CleanIsJoin(s);
    CleanShrinks(Clean(s));
    JoinHasCrLf(OutLines(s));
    if !HasCrLf(Clean(s)) {
      NormalStays(OutLines(s));
    }
  }

  // --- Carriage returns that are kept -----------------------------------------------------------------

  predicate HasText(ls: seq<string>) {
    exists l <- ls :: !Blank(l)
  }

  /** A line inside a fence ends in a carriage return, and a line that is not blank follows. */
  predicate KeepsCr(ls: seq<string>, inCode: bool) {
    ls != [] &&
    ((inCode && !IsFence(ls[0]) && EndsCr(ls[0]) && HasText(ls[1..])) || KeepsCr(ls[1..], NextCode(ls[0], inCode)))
  }

  predicate AnyCr(ls: seq<string>) {
    exists l <- ls :: EndsCr(l)
  }

  /** A line ends in a carriage return, and a line that is not blank follows. */
  predicate CrThenText(ls: seq<string>) {
    ls != [] && ((EndsCr(ls[0]) && HasText(ls[1..])) || CrThenText(ls[1..]))
  }

  lemma HasTextCons(x: string, ls: seq<string>)
    ensures HasText([x] + ls) <==> !Blank(x) || HasText(ls)
  {
    assert x in [x] + ls;
    assert forall l <- ls :: l in [x] + ls;
  }

  lemma HasTextSnoc(ls: seq<string>, x: string)
    ensures HasText(ls + [x]) <==> HasText(ls) || !Blank(x)
  {
    assert x in ls + [x];
    assert forall l <- ls :: l in ls + [x];
  }

  lemma {:induction false} CrThenTextSnoc(ls: seq<string>, x: string)
    ensures CrThenText(ls + [x]) <==> if Blank(x) then CrThenText(ls) else AnyCr(ls)
  {
    if ls == [] {
      assert ls + [x] == [x] && !HasText([x][1..]);
    } else {
      assert (ls + [x])[1..] == ls[1..] + [x];
      HasTextSnoc(ls[1..], x);
      CrThenTextSnoc(ls[1..], x);
      assert ls == [ls[0]] + ls[1..];
      assert AnyCr(ls) <==> EndsCr(ls[0]) || AnyCr(ls[1..]);
    }
  }

  lemma {:induction false} NoCrSnoc(ls: seq<string>, x: string)
    ensures NoCrButLast(ls + [x]) <==> !AnyCr(ls)
  {
    if ls != [] {
      assert (ls + [x])[1..] == ls[1..] + [x];
      NoCrSnoc(ls[1..], x);
      assert ls == [ls[0]] + ls[1..];
      assert AnyCr(ls) <==> EndsCr(ls[0]) || AnyCr(ls[1..]);
    }
  }

  lemma {:induction false} ChopCr(ls: seq<string>)
    ensures NoCrButLast(Chop(ls)) <==> !CrThenText(ls)
  {
    if ls != [] {
      var n := |ls| - 1;
      assert ls == ls[..n] + [ls[n]];
      CrThenTextSnoc(ls[..n], ls[n]);
      if Blank(ls[n]) {
        ChopCr(ls[..n]);
      } else {
        NoCrSnoc(ls[..n], TrimEnd(ls[n]));
      }
    }
  }

  lemma EmitText(line: string, inCode: bool, blank: bool)
    ensures HasText(Emit(line, inCode, blank)) <==> !Blank(line)
    ensures Emit(line, inCode, blank) != [] ==>
              (EndsCr(Emit(line, inCode, blank)[0]) <==> inCode && !IsFence(line) && EndsCr(line))
  {
    var before, after := TrimParts(line);
    TrimBlank(line);
    TrimTwice(line);
    TrimBlank(Trim(line));
    var e := Emit(line, inCode, blank);
    assert e != [] ==> e == [e[0]] && e[0] in e;
  }

  lemma {:induction false} PassCr(ls: seq<string>, inCode: bool, blank: bool)
    ensures HasText(Pass(ls, inCode, blank)) <==> HasText(ls)
    ensures CrThenText(Pass(ls, inCode, blank)) <==> KeepsCr(ls, inCode)
  {
    if ls != [] {
      var e, rest := Emit(ls[0], inCode, blank), Pass(ls[1..], NextCode(ls[0], inCode), NextBlank(ls[0], inCode));
      PassCr(ls[1..], NextCode(ls[0], inCode), NextBlank(ls[0], inCode));
      EmitText(ls[0], inCode, blank);
      EmitStable(ls[0], inCode, blank);
      HasTextCons(ls[0], ls[1..]);
      assert ls == [ls[0]] + ls[1..];
      if e == [] {
        assert Pass(ls, inCode, blank) == rest;
      } else {
        assert e == [e[0]] && (e + rest)[1..] == rest;
        HasTextCons(e[0], rest);
        HasTextCons(e[0], []);
        assert [e[0]] + [] == e;
      }
    }
  }

  /** The result has a carriage return before a line feed exactly when a fenced line keeps one. */
  lemma ResultKeepsCr(s: string)
    ensures HasCrLf(Clean(s)) <==> KeepsCr(Lines(s), false)
  {
    var ls := Pass(Lines(s), false, false);
    CleanIsJoin(s);
    JoinHasCrLf(OutLines(s));
    ChopCr(Unlead(ls));
    PassCr(Lines(s), false, false);
    assert CrThenText(Unlead(ls)) <==> CrThenText(ls);
  }

  /**
    Cleaning twice is cleaning once if and only if no line inside a fence keeps a carriage return at its
    end with a line that is not blank after it.
   */
  lemma CleanTwiceIff(s: string)
    ensures Clean(Clean(s)) == Clean(s) <==> !KeepsCr(Lines(s), false)
  {
    ResultKeepsCr(s);
    CleanTwiceByResult(s);
  }

  /** The lines of the result hold no line feed, and splitting the result gives them back. */
  lemma OutLinesAreLines(s: string)
    ensures Clean(s) == Join(OutLines(s)) && NoFeed(OutLines(s))
    ensures !KeepsCr(Lines(s), false) ==> Lines(Clean(s)) == OutLines(s)
  {
    CleanIsJoin(s);
    if !KeepsCr(Lines(s), false) {
      ResultKeepsCr(s);
      JoinHasCrLf(OutLines(s));
      LinesOfJoin(OutLines(s));
    }
  }

  const TWICE: string := "```" + "\n" + ("a\r" + "\r\n" + "```")
  const TWICE_LINES: seq<string> := ["```", "a\r", "```"]

  lemma ThreeLines(a: string, b: string)
    requires '\n' !in a && !EndsCr(a) && a != "" && '\n' !in b
    ensures Lines(a + "\n" + (b + "\r\n" + a)) == [a, b, a]
  {
    LinesOne(a);
    LinesConsCr(b, a);
    LinesCons(a, b + "\r\n" + a);
  }

  lemma TwicePass()
    ensures Pass(TWICE_LINES, false, false) == TWICE_LINES
  {
    TrimIs("", "```", "");
    TrimIs("", "a", "\r");
    assert "" + "```" + "" == "```" && "" + "a" + "\r" == "a\r";
    assert !IsFence("a\r") && IsFence("```");
    assert Pass(["```"], true, false) == ["```"];
    assert ["a\r", "```"][1..] == ["```"];
    assert Pass(["a\r", "```"], true, false) == ["a\r"] + ["```"];
    assert TWICE_LINES[1..] == ["a\r", "```"];
  }

  /** Such a result exists: a fenced line that ends in two carriage returns keeps one of them. */
  lemma CleanTwiceDiffers()
    ensures Clean(Clean(TWICE)) != Clean(TWICE)
  {
    ThreeLines("```", "a\r");
    TwicePass();
    assert TrimEnd("```") == "```";
    ChopsNothing(TWICE_LINES);
    CleanIsJoin(TWICE);
    LinesLength(TWICE);
    assert EndsCr(TWICE_LINES[1]) && TWICE_LINES[1..][0] == TWICE_LINES[1];
    assert !NoCrButLast(TWICE_LINES);
    JoinHasCrLf(TWICE_LINES);
    CleanTwiceByResult(TWICE);
  }

  ghost predicate HasCrCrLf(s: string) {
    exists i :: 1 < i < |s| && s[i] == '\n' && s[i - 1] == '\r' && s[i - 2] == '\r'
  }

  lemma {:induction false} LinesNoCr(s: string)
    requires !HasCrCrLf(s)
    ensures NoCrButLast(Lines(s))
    decreases |s|
  {
    if s != "" {
      var k := LineEnd(s);
      if k < |s| {
        var rest := s[k + 1..];
        forall i | 1 < i < |rest| ensures !(rest[i] == '\n' && rest[i - 1] == '\r' && rest[i - 2] == '\r') {
          assert s[k + 1 + i] == rest[i] && s[k + 1 + i - 1] == rest[i - 1] && s[k + 1 + i - 2] == rest[i - 2];
        }
        LinesNoCr(rest);
        assert s[k] == '\n';
      }
    }
  }

  lemma {:induction false} KeepingNeedsCr(ls: seq<string>, inCode: bool)
    requires NoCrButLast(ls)
    ensures !KeepsCr(ls, inCode)
  {
    if ls != [] {
      KeepingNeedsCr(ls[1..], NextCode(ls[0], inCode));
    }
  }

  /** Idempotence on every text that has no two carriage returns before a line feed. */
  lemma CleanTwice(s: string)
    requires !HasCrCrLf(s)
    ensures Clean(Clean(s)) == Clean(s)
  {
    LinesNoCr(s);
    KeepingNeedsCr(Lines(s), false);
    CleanTwiceIff(s);
  }

  // --- Blank lines ------------------------------------------------------------------------------------

  /** Whether the line after these is inside a fence. */
  function CodeAfter(ls: seq<string>, inCode: bool): bool {
    if ls == [] then inCode else CodeAfter(ls[1..], NextCode(ls[0], inCode))
  }

  lemma {:induction false} StableSqueezed(ls: seq<string>, inCode: bool, blank: bool, i: nat)
    requires Stable(ls, inCode, blank) && i < |ls| && Blank(ls[i]) && !CodeAfter(ls[..i], inCode)
    ensures i > 0 ==> !Blank(ls[i - 1])
    ensures i == 0 ==> !blank
  {
    StableHead(ls, inCode, blank);
    if i == 0 {
      TrimBlank(ls[0]);
    } else {
      assert ls[..i][1..] == ls[1..][..i - 1] && ls[1..][i - 1] == ls[i];
      StableSqueezed(ls[1..], NextCode(ls[0], inCode), NextBlank(ls[0], inCode), i - 1);
      if i == 1 && !NextBlank(ls[0], inCode) && Blank(ls[0]) {
        TrimBlank(ls[0]);
      }
    }
  }

  /** Outside fences the result never has a blank line right after another. */
  lemma NoTwoBlankLines(s: string, i: nat)
    requires 0 < i < |OutLines(s)| && !CodeAfter(OutLines(s)[..i], false)
    ensures Clean(s) == Join(OutLines(s)) && NoFeed(OutLines(s))
    ensures !KeepsCr(Lines(s), false) ==> Lines(Clean(s)) == OutLines(s)
    ensures !(Blank(OutLines(s)[i - 1]) && Blank(OutLines(s)[i]))
  {
    CleanIsJoin(s);
    OutLinesAreLines(s);
    if Blank(OutLines(s)[i]) {
      StableSqueezed(OutLines(s), false, false, i);
    }
  }

  // --- Fenced lines -----------------------------------------------------------------------------------

  /** The lines inside fences, in order. */
  function Fenced(ls: seq<string>, inCode: bool): seq<string> {
    if ls == [] then []
    else (if inCode && !IsFence(ls[0]) then [ls[0]] else []) + Fenced(ls[1..], NextCode(ls[0], inCode))
  }

  lemma {:induction false} PassKeepsFenced(ls: seq<string>, inCode: bool, blank: bool)
    ensures Fenced(Pass(ls, inCode, blank), inCode) == Fenced(ls, inCode)
    ensures CodeAfter(Pass(ls, inCode, blank), inCode) == CodeAfter(ls, inCode)
  {
    if ls != [] {
      EmitStable(ls[0], inCode, blank);
      var e, rest := Emit(ls[0], inCode, blank), Pass(ls[1..], NextCode(ls[0], inCode), NextBlank(ls[0], inCode));
      PassKeepsFenced(ls[1..], NextCode(ls[0], inCode), NextBlank(ls[0], inCode));
      if e == [] {
        assert Pass(ls, inCode, blank) == rest;
      } else {
        assert (e + rest)[0] == e[0] && (e + rest)[1..] == rest;
        assert inCode && !IsFence(ls[0]) ==> e[0] == ls[0];
        assert IsFence(e[0]) == IsFence(ls[0]);
      }
    }
  }

  lemma {:induction false} FencedSnoc(ls: seq<string>, x: string, inCode: bool)
    ensures Fenced(ls + [x], inCode) == Fenced(ls, inCode) + if CodeAfter(ls, inCode) && !IsFence(x) then [x] else []
    ensures CodeAfter(ls + [x], inCode) == NextCode(x, CodeAfter(ls, inCode))
  {
    if ls == [] {
      assert [] + [x] == [x];
    } else {
      assert (ls + [x])[1..] == ls[1..] + [x];
      FencedSnoc(ls[1..], x, NextCode(ls[0], inCode));
    }
  }

  /** The same lines, but for blank ones missing at the end and the last of the rest trimmed at its end. */
  ghost predicate UpToTrim(f: seq<string>, g: seq<string>) {
    && |g| <= |f|
    && (forall i :: 0 <= i < |g| ==> g[i] == f[i] || (i == |g| - 1 && g[i] == TrimEnd(f[i])))
    && (forall i :: |g| <= i < |f| ==> Blank(f[i]))
  }

  lemma {:induction false} ChopKeepsFenced(ls: seq<string>, inCode: bool)
    ensures UpToTrim(Fenced(ls, inCode), Fenced(Chop(ls), inCode))
    ensures !CodeAfter(ls, inCode) ==> Fenced(Chop(ls), inCode) == Fenced(ls, inCode)
  {
    if ls != [] {
      var n := |ls| - 1;
      var x := ls[n];
      assert ls == ls[..n] + [x];
      FencedSnoc(ls[..n], x, inCode);
      if Blank(x) {
        TrimBlank(x);
        assert !IsFence(x);
        ChopKeepsFenced(ls[..n], inCode);
      } else {
        FencedSnoc(ls[..n], TrimEnd(x), inCode);
        TrimAfterEnd(x);
      }
    }
  }

  lemma UnleadKeepsFenced(ls: seq<string>)
    ensures Fenced(Unlead(ls), false) == Fenced(ls, false)
    ensures CodeAfter(Unlead(ls), false) == CodeAfter(ls, false)
  {
    TrimIs("", "", "");
    assert "" + "" + "" == "" && !IsFence("");
  }

  /** Lines inside fences come out verbatim, up to the final trim; all of them when the last fence is closed. */
  lemma FencedVerbatim(s: string)
    ensures Clean(s) == Join(OutLines(s)) && NoFeed(OutLines(s))
    ensures !KeepsCr(Lines(s), false) ==> Lines(Clean(s)) == OutLines(s)
    ensures UpToTrim(Fenced(Lines(s), false), Fenced(OutLines(s), false))
    ensures !CodeAfter(Lines(s), false) ==> Fenced(OutLines(s), false) == Fenced(Lines(s), false)
  {
    var ls := Pass(Lines(s), false, false);
    OutLinesAreLines(s);
    PassKeepsFenced(Lines(s), false, false);
    UnleadKeepsFenced(ls);
    ChopKeepsFenced(Unlead(ls), false);
  }

  // --- What the text says -----------------------------------------------------------------------------

  datatype Kind = FenceLine | CodeLine | TextLine

  /** A line with something on it, or a line of code. `gap` says that blank lines come before it. */
  datatype Piece = Piece(kind: Kind, text: string, gap: bool)

  /** A text apart from its layout. Text and fences count without the space around them, code as it is. */
  function Pieces(ls: seq<string>, inCode: bool, gap: bool): seq<Piece> {
    if ls == [] then []
    else if IsFence(ls[0]) then [Piece(FenceLine, Trim(ls[0]), gap)] + Pieces(ls[1..], !inCode, false)
    else if inCode then [Piece(CodeLine, ls[0], gap)] + Pieces(ls[1..], inCode, false)
    else if Blank(ls[0]) then Pieces(ls[1..], inCode, true)
    else [Piece(TextLine, Trim(ls[0]), gap)] + Pieces(ls[1..], inCode, false)
  }

  lemma {:induction false} PassKeepsPieces(ls: seq<string>, inCode: bool, blank: bool, gap: bool)
    requires blank ==> gap && !inCode
    ensures Pieces(Pass(ls, inCode, blank), inCode, gap) == Pieces(ls, inCode, gap)
  {
    if ls != [] {
      var line := ls[0];
      var e, code, next := Emit(line, inCode, blank), NextCode(line, inCode), NextBlank(line, inCode);
      var rest := Pass(ls[1..], code, next);
      TrimTwice(line);
      TrimBlank(line);
      TrimBlank(Trim(line));
      TrimIs("", "", "");
      PassKeepsPieces(ls[1..], code, next, next);
      if e == [] {
        assert Pass(ls, inCode, blank) == rest;
      } else {
        assert e == [e[0]] && Pass(ls, inCode, blank)[0] == e[0] && Pass(ls, inCode, blank)[1..] == rest;
      }
    }
  }

  lemma UnleadKeepsPieces(ls: seq<string>)
    ensures Pieces(Unlead(ls), false, true) == Pieces(ls, false, true)
  {
    TrimIs("", "", "");
    assert "" + "" + "" == "" && !IsFence("");
  }

  /** Whether the line after these has blank lines before it. */
  function GapAfter(ls: seq<string>, inCode: bool, gap: bool): bool {
    if ls == [] then gap else GapAfter(ls[1..], NextCode(ls[0], inCode), !IsFence(ls[0]) && !inCode && Blank(ls[0]))
  }

  lemma {:induction false} PiecesSnoc(ls: seq<string>, x: string, inCode: bool, gap: bool)
    ensures Pieces(ls + [x], inCode, gap) ==
            Pieces(ls, inCode, gap) + Pieces([x], CodeAfter(ls, inCode), GapAfter(ls, inCode, gap))
  {
    if ls == [] {
      assert [] + [x] == [x];
    } else {
      assert (ls + [x])[0] == ls[0] && (ls + [x])[1..] == ls[1..] + [x];
      PiecesSnoc(ls[1..], x, NextCode(ls[0], inCode), !IsFence(ls[0]) && !inCode && Blank(ls[0]));
    }
  }

  /** The same pieces, but for blank code missing at the end and the last of the rest, if code, trimmed at its end. */
  ghost predicate SameUpToTrim(p: seq<Piece>, q: seq<Piece>) {
    && |q| <= |p|
    && (forall i :: 0 <= i < |q| ==>
          q[i] == p[i] || (i == |q| - 1 && p[i].kind.CodeLine? && q[i] == p[i].(text := TrimEnd(p[i].text))))
    && (forall i :: |q| <= i < |p| ==> p[i].kind.CodeLine? && Blank(p[i].text))
  }

  /** What a line says does not depend on the space at its end, unless it is code. */
  lemma PieceOfTrimmed(x: string, inCode: bool, gap: bool)
    requires !Blank(x)
    ensures |Pieces([x], inCode, gap)| == |Pieces([TrimEnd(x)], inCode, gap)| == 1
    ensures var (a, b) := (Pieces([x], inCode, gap)[0], Pieces([TrimEnd(x)], inCode, gap)[0]);
            if inCode && !IsFence(x) then a.kind.CodeLine? && b == a.(text := TrimEnd(a.text)) else a == b
  {
    TrimAfterEnd(x);
    TrimBlank(x);
    TrimBlank(TrimEnd(x));
  }

  lemma {:induction false} ChopKeepsPieces(ls: seq<string>, inCode: bool, gap: bool)
    ensures SameUpToTrim(Pieces(ls, inCode, gap), Pieces(Chop(ls), inCode, gap))
    ensures !CodeAfter(ls, inCode) ==> Pieces(Chop(ls), inCode, gap) == Pieces(ls, inCode, gap)
  {
    if ls != [] {
      var n := |ls| - 1;
      var x := ls[n];
      assert ls == ls[..n] + [x];
      PiecesSnoc(ls[..n], x, inCode, gap);
      FencedSnoc(ls[..n], x, inCode);
      if Blank(x) {
        TrimBlank(x);
        assert !IsFence(x);
        ChopKeepsPieces(ls[..n], inCode, gap);
      } else {
        PiecesSnoc(ls[..n], TrimEnd(x), inCode, gap);
        PieceOfTrimmed(x, CodeAfter(ls[..n], inCode), GapAfter(ls[..n], inCode, gap));
      }
    }
  }

  /**
    Cleaning keeps what the text says: the same texts, fences and lines of code in the same order, with
    blank lines between two of them exactly where there were some. Only the final trim can touch code,
    and only when the last fence is open. Blank lines at either end are gone.
   */
  lemma CleanKeepsText(s: string)
    ensures Clean(s) == Join(OutLines(s)) && NoFeed(OutLines(s))
    ensures !KeepsCr(Lines(s), false) ==> Lines(Clean(s)) == OutLines(s)
    ensures SameUpToTrim(Pieces(Lines(s), false, true), Pieces(OutLines(s), false, true))
    ensures !CodeAfter(Lines(s), false) ==> Pieces(OutLines(s), false, true) == Pieces(Lines(s), false, true)
  {
    var ls := Pass(Lines(s), false, false);
    OutLinesAreLines(s);
    PassKeepsPieces(Lines(s), false, false, true);
    PassKeepsFenced(Lines(s), false, false);
    UnleadKeepsPieces(ls);
    UnleadKeepsFenced(ls);
    ChopKeepsPieces(Unlead(ls), false, true);
  }
}
