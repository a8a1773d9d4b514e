/** The line with which a migration opts out of the runner's transaction. */
module OptOut {
  import opened Options
  import opened Text

  function Lines(s: string): (ls: seq<string>)
    ensures ls != []
  {
    if s == "" then [""]
    else
      var rest := Lines(s[1..]);
      if s[0] == '\n' then [""] + rest else [[s[0]] + rest[0]] + rest[1..]
  }

  predicate IsBlankLine(s: string) { SpaceRun(s) == |s| }

  /** The text after leading blanks and `word`, in any case; nothing if they are not there. */
  function AfterWord(s: string, word: string): Option<string> {
    var rest := s[SpaceRun(s)..];
    if WordAt(rest, 0, word) then Some(rest[|word|..]) else None
  }

  /** A comment line that opts out of the transaction. */
  predicate IsOptOut(line: string) {
    match AfterWord(line, "--")
    case None => false
    case Some(name) =>
      match AfterWord(name, "openbooks:")
      case None => false
      case Some(value) =>
        match AfterWord(value, "no-transaction")
        case None => false
        case Some(rest) => IsBlankLine(rest)
  }

  predicate RunsWithoutTransaction(content: string) {
    exists i :: 0 <= i < |Lines(content)| && IsOptOut(Lines(content)[i])
  }

  // ---------------------------------------------------------------------
  // How the line is written
  // ---------------------------------------------------------------------

  /** Only blanks around the three words, which stand in any letter case. */
  predicate IsMarker(line: string, b0: string, b1: string, w1: string, b2: string, w2: string, b3: string) {
    && line == b0 + ("--" + (b1 + (w1 + (b2 + (w2 + b3)))))
    && Blank(b0) && Blank(b1) && Blank(b2) && Blank(b3)
    && IsWord(w1, "openbooks:") && IsWord(w2, "no-transaction")
  }

  /** The word behind the blanks at the front of `s`. */
  lemma AfterWordSplits(s: string, word: string) returns (b: string, w: string)
    requires AfterWord(s, word).Some?
    ensures Blank(b) && IsWord(w, word) && s == b + (w + AfterWord(s, word).value)
  {
    hide IsSpace, SpaceRun, WordAt, IsWord;
    var n := SpaceRun(s);
    var rest := s[n..];
    WordSlice(rest, 0, word);
    b, w := s[..n], rest[0..|word|];
    assert s == b + rest && rest == w + rest[|word|..];
  }

  lemma AfterWordJoins(b: string, w: string, rest: string, word: string)
    requires Blank(b) && IsWord(w, word) && word != "" && ('a' <= word[0] <= 'z' || word[0] == '-')
    ensures AfterWord(b + (w + rest), word) == Some(rest)
  {
    var t := w + rest;
    assert Lower(t[0]) == word[0];
    BlankRun(b, t);
    assert (b + t)[|b|..] == t;
    forall k | 0 <= k < |word| ensures Lower(t[0 + k]) == word[k] {
      assert t[k] == w[k];
    }
    assert t[|word|..] == rest;
  }

  lemma BlankIff(s: string)
    ensures IsBlankLine(s) <==> Blank(s)
  {
    if Blank(s) {
      BlankRun(s, "");
      assert s + "" == s;
    }
  }

  lemma MarkerIff(line: string)
    ensures IsOptOut(line) <==> exists b0, b1, w1, b2, w2, b3 :: IsMarker(line, b0, b1, w1, b2, w2, b3)
  {
    hide AfterWord, Blank, IsWord, IsBlankLine;
    if IsOptOut(line) {
      var name := AfterWord(line, "--").value;
      var value := AfterWord(name, "openbooks:").value;
      var b3 := AfterWord(value, "no-transaction").value;
      var b0, w0 := AfterWordSplits(line, "--");
      var b1, w1 := AfterWordSplits(name, "openbooks:");
      var b2, w2 := AfterWordSplits(value, "no-transaction");
      DashesAre(w0);
      BlankIff(b3);
      assert IsMarker(line, b0, b1, w1, b2, w2, b3);
    }
    forall b0, b1, w1, b2, w2, b3 | IsMarker(line, b0, b1, w1, b2, w2, b3) ensures IsOptOut(line) {
      DashesAre("--");
      AfterWordJoins(b0, "--", b1 + (w1 + (b2 + (w2 + b3))), "--");
      AfterWordJoins(b1, w1, b2 + (w2 + b3), "openbooks:");
      AfterWordJoins(b2, w2, b3, "no-transaction");
      BlankIff(b3);
    }
  }

  lemma DashesAre(w: string)
    ensures IsWord(w, "--") <==> w == "--"
  {
    if IsWord(w, "--") {
      assert Lower(w[0]) == '-' && Lower(w[1]) == '-';
    }
  }

  /** A line of the text: newlines, or its ends, stand around it, and none in it. */
  predicate IsLineOf(content: string, before: string, line: string, after: string) {
    && content == before + (line + after) && '\n' !in line
    && (before == "" || before[|before| - 1] == '\n') && (after == "" || after[0] == '\n')
  }

  lemma {:induction false} LineStands(s: string, i: nat) returns (before: string, after: string)
    requires i < |Lines(s)|
    ensures IsLineOf(s, before, Lines(s)[i], after)
    ensures i == 0 <==> before == ""
    decreases |s|
  {
    before, after := "", "";
    if s != "" {
      var rest := Lines(s[1..]);
      assert s == [s[0]] + s[1..];
      if s[0] == '\n' && i == 0 {
        after := s;
        assert s == "" + ("" + s);
      } else if s[0] != '\n' && i == 0 {
        before, after := LineStands(s[1..], 0);
        assert s == "" + (([s[0]] + rest[0]) + after);
      } else {
        before, after := LineStands(s[1..], if s[0] == '\n' then i - 1 else i);
        before := [s[0]] + before;
      }
    }
  }

  lemma {:induction false} LineFound(s: string, before: string, line: string, after: string) returns (i: nat)
    requires IsLineOf(s, before, line, after)
    ensures i < |Lines(s)| && Lines(s)[i] == line
    ensures i == 0 <==> before == ""
    decreases |s|
  {
    if before == "" {
      i := 0;
      FirstLine(line, after);
      assert s == line + after;
    } else {
      assert s == [s[0]] + s[1..] && s[0] == before[0] && s[1..] == before[1..] + (line + after);
      i := LineFound(s[1..], before[1..], line, after);
      if s[0] == '\n' {
        i := i + 1;
      }
    }
  }

  lemma {:induction false} FirstLine(line: string, after: string)
    requires '\n' !in line && (after == "" || after[0] == '\n')
    ensures Lines(line + after)[0] == line
    decreases |line|
  {
    if line == "" {
      assert line + after == after;
    } else {
      assert line[0] in line;
      assert (line + after)[1..] == line[1..] + after;
      FirstLine(line[1..], after);
    }
  }

  /** A file runs without a transaction exactly if one of its lines is the marker. */
  lemma RunsWithoutTransactionIff(content: string)
    ensures RunsWithoutTransaction(content) <==>
      exists before, line, after :: IsLineOf(content, before, line, after) && exists b0, b1, w1, b2, w2, b3 :: IsMarker(line, b0, b1, w1, b2, w2, b3)
  {
    hide IsMarker, IsOptOut, Lines, IsLineOf;
    if RunsWithoutTransaction(content) {
      var i :| 0 <= i < |Lines(content)| && IsOptOut(Lines(content)[i]);
      var before, after := LineStands(content, i);
      MarkerIff(Lines(content)[i]);
    }
    forall before, line, after | IsLineOf(content, before, line, after)
        && exists b0, b1, w1, b2, w2, b3 :: IsMarker(line, b0, b1, w1, b2, w2, b3)
      ensures RunsWithoutTransaction(content)
    {
      MarkerIff(line);
      var i := LineFound(content, before, line, after);
    }
  }
}
