/** The rows a preflight returns, and the texts it may run. */
module Findings {
  import opened Text
  import opened PgSession
  import opened CommentStripper

  datatype Severity = Refuse | Notice

  datatype Finding = Finding(migration: string, code: string, severity: Severity,
                             subject: string, detail: string, remedy: string)

  predicate IsLower(c: char) { 'a' <= c <= 'z' }

  /** Four digits, a dot, and a lower-case snake name. */
  predicate IsCode(code: string) {
    && |code| >= 6
    && IsDigit(code[0]) && IsDigit(code[1]) && IsDigit(code[2]) && IsDigit(code[3])
    && code[4] == '.' && IsLower(code[5])
    && forall i :: 6 <= i < |code| ==> IsLower(code[i]) || IsDigit(code[i]) || code[i] == '_'
  }

  const COLUMNS: seq<string> := ["code", "severity", "subject", "detail", "remedy"]

  predicate HasColumn(row: Row, column: string) { column in row && row[column] != "" }

  /** A row the checks accept: five texts, a code under this ordinal, a known severity. */
  predicate WellFormed(ordinal: string, row: Row) {
    && (forall i :: 0 <= i < |COLUMNS| ==> HasColumn(row, COLUMNS[i]))
    && HasColumn(row, "code") && HasColumn(row, "severity")
    && IsCode(row["code"]) && ordinal + "." <= row["code"]
    && (row["severity"] == "refuse" || row["severity"] == "notice")
  }

  predicate Holds(row: Row, column: string, text: string) { column in row && row[column] == text }

  /** The finding says what the row does, column by column. */
  predicate Says(f: Finding, migration: string, row: Row) {
    && f.migration == migration
    && Holds(row, "code", f.code)
    && Holds(row, "severity", if f.severity.Refuse? then "refuse" else "notice")
    && Holds(row, "subject", f.subject)
    && Holds(row, "detail", f.detail)
    && Holds(row, "remedy", f.remedy)
  }

  function ReadFinding(migration: string, ordinal: string, row: Row): (f: Finding)
    requires WellFormed(ordinal, row)
    ensures Says(f, migration, row)
  {
    assert forall c :: c in COLUMNS ==> HasColumn(row, c);
    assert COLUMNS[2] == "subject" && COLUMNS[3] == "detail" && COLUMNS[4] == "remedy";
    Finding(migration, row["code"], if row["severity"] == "refuse" then Refuse else Notice,
            row["subject"], row["detail"], row["remedy"])
  }

  /** A lower-case name of letters, digits and underscores that starts with a letter. */
  predicate IsSnake(name: string) {
    && name != "" && 'a' <= name[0] <= 'z'
    && forall i :: 0 <= i < |name| ==> 'a' <= name[i] <= 'z' || '0' <= name[i] <= '9' || name[i] == '_'
  }

  predicate IsOrdinal(ordinal: string) { |ordinal| == 4 && forall i :: 0 <= i < 4 ==> '0' <= ordinal[i] <= '9' }

  /**
   * What a preflight has to answer: five texts, none of them empty; a code
   * that is the migration's own four digits, a dot and a name; refuse or notice.
   */
  ghost predicate GoodRow(ordinal: string, row: Row) {
    && HasColumn(row, "code") && HasColumn(row, "severity") && HasColumn(row, "subject")
    && HasColumn(row, "detail") && HasColumn(row, "remedy")
    && row["severity"] in {"refuse", "notice"}
    && IsOrdinal(ordinal) && exists name :: IsSnake(name) && row["code"] == ordinal + ("." + name)
  }

  /** The checks accept exactly such rows. */
  lemma WellFormedIff(ordinal: string, row: Row)
    ensures WellFormed(ordinal, row) <==> GoodRow(ordinal, row)
  {
    hide HasColumn, IsCode, IsOrdinal, IsSnake;
    FiveColumns(row);
    if HasColumn(row, "code") {
      CodeColumn(row);
      if WellFormed(ordinal, row) {
        CodeSplits(ordinal, row["code"]);
      }
      if GoodRow(ordinal, row) {
        var name :| IsSnake(name) && row["code"] == ordinal + ("." + name);
        CodeJoins(ordinal, name);
      }
    }
  }

  lemma CodeColumn(row: Row)
    requires HasColumn(row, "code")
    ensures "code" in row
  {
  }

  lemma FiveColumns(row: Row)
    ensures (forall i :: 0 <= i < |COLUMNS| ==> HasColumn(row, COLUMNS[i])) <==>
      && HasColumn(row, "code") && HasColumn(row, "severity") && HasColumn(row, "subject")
      && HasColumn(row, "detail") && HasColumn(row, "remedy")
  {
    hide HasColumn;
    assert COLUMNS[0] == "code" && COLUMNS[1] == "severity" && COLUMNS[2] == "subject" && COLUMNS[3] == "detail"
      && COLUMNS[4] == "remedy";
  }

  lemma CodeSplits(ordinal: string, code: string)
    requires IsCode(code) && ordinal + "." <= code
    ensures IsOrdinal(ordinal) && IsSnake(code[5..]) && code == ordinal + ("." + code[5..])
  {
    var n := |ordinal|;
    assert (ordinal + ".")[n] == code[n] == '.';
    assert n == 4;
    assert forall i :: 0 <= i < 4 ==> ordinal[i] == (ordinal + ".")[i] == code[i];
    var name := code[5..];
    assert forall i :: 0 <= i < |name| ==> name[i] == code[5 + i];
  }

  lemma CodeJoins(ordinal: string, name: string)
    requires IsOrdinal(ordinal) && IsSnake(name)
    ensures var code := ordinal + ("." + name); IsCode(code) && ordinal + "." <= code
  {
    var code := ordinal + ("." + name);
    assert forall i :: 0 <= i < 4 ==> code[i] == ordinal[i];
    assert code[4] == '.';
    assert forall i :: 5 <= i < |code| ==> code[i] == name[i - 5];
  }

  datatype Checked = Accepted(findings: seq<Finding>) | Malformed(row: nat)

  /** Reads every row, or names the first that is malformed. */
  function ValidateFindingRows(migration: string, ordinal: string, rows: seq<Row>): (r: Checked)
    ensures r.Accepted? <==> forall i :: 0 <= i < |rows| ==> WellFormed(ordinal, rows[i])
    ensures r.Accepted? ==>
              && |r.findings| == |rows|
              && forall i :: 0 <= i < |rows| ==> Says(r.findings[i], migration, rows[i])
    ensures r.Malformed? ==>
              && r.row < |rows| && !WellFormed(ordinal, rows[r.row])
              && forall i :: 0 <= i < r.row ==> WellFormed(ordinal, rows[i])
  {
    if rows == [] then Accepted([])
    else if !WellFormed(ordinal, rows[0]) then Malformed(0)
    else
      match ValidateFindingRows(migration, ordinal, rows[1..])
      case Accepted(fs) => Accepted([ReadFinding(migration, ordinal, rows[0])] + fs)
      case Malformed(i) => Malformed(i + 1)
  }

  /** No finding is lost or invented: a row refuses exactly when its finding does. */
  lemma RefusalsAreFaithful(migration: string, ordinal: string, rows: seq<Row>)
    requires ValidateFindingRows(migration, ordinal, rows).Accepted?
    ensures var fs := ValidateFindingRows(migration, ordinal, rows).findings;
      Refuses(fs) <==> exists i :: 0 <= i < |rows| && Holds(rows[i], "severity", "refuse")
  {
    hide WellFormed, ValidateFindingRows;
    var fs := ValidateFindingRows(migration, ordinal, rows).findings;
    forall i | 0 <= i < |rows| ensures fs[i].severity.Refuse? <==> Holds(rows[i], "severity", "refuse") {
      assert Says(fs[i], migration, rows[i]);
    }
    if Refuses(fs) {
      var i :| 0 <= i < |fs| && fs[i].severity.Refuse?;
      assert Holds(rows[i], "severity", "refuse");
    }
  }

  predicate Refuses(fs: seq<Finding>) { exists i :: 0 <= i < |fs| && fs[i].severity.Refuse? }

  // ---------------------------------------------------------------------
  // The texts a preflight may run
  // ---------------------------------------------------------------------

  /** `s` starts with `word` in any case, and the word ends there. */
  predicate StartsWithWord(s: string, word: string) {
    && WordAt(s, 0, word)
    && (|s| > |word| ==> !IsIdentPart(s[|word|]))
  }

  function TrimStart(s: string): string { s[SpaceRun(s)..] }

  /** Comments and leading blanks aside, the text is a SELECT or a WITH. */
  predicate IsReadQuery(text: string) {
    var s := TrimStart(Strip(text));
    StartsWithWord(s, "select") || StartsWithWord(s, "with")
  }

  /**
   * Without its comments, the text is blanks and then SELECT or WITH, in any
   * letter case and as a whole word; nothing else is let through.
   */
  lemma ReadQueryIff(text: string)
    ensures IsReadQuery(text) <==>
      exists b, w, rest :: Blank(b) && (IsWord(w, "select") || IsWord(w, "with")) && Strip(text) == b + (w + rest)
        && (rest != "" ==> !IsIdentPart(rest[0]))
  {
    hide Strip, IsIdentPart, IsSpace;
    var s := Strip(text);
    var n := SpaceRun(s);
    if StartsWithWord(TrimStart(s), "select") {
      WordSplits(s, "select");
    } else if StartsWithWord(TrimStart(s), "with") {
      WordSplits(s, "with");
    }
    forall b, w, rest | Blank(b) && (IsWord(w, "select") || IsWord(w, "with")) && s == b + (w + rest)
        && (rest != "" ==> !IsIdentPart(rest[0]))
      ensures IsReadQuery(text)
    {
      WordJoins(b, w, rest, if IsWord(w, "select") then "select" else "with");
    }
  }

  lemma WordSplits(s: string, word: string)
    requires StartsWithWord(TrimStart(s), word)
    ensures exists b, w, rest :: Blank(b) && IsWord(w, word) && s == b + (w + rest) && (rest != "" ==> !IsIdentPart(rest[0]))
  {
    hide IsIdentPart, SpaceRun, IsSpace, WordAt, IsWord, Blank;
    var n := SpaceRun(s);
    var t := s[n..];
    var k := |word|;
    LeadIsBlank(s);
    WordSlice(t, 0, word);
    assert t[0..k] == t[..k];
    assert s == s[..n] + t && t == t[..k] + t[k..];
    assert t[k..] != "" ==> t[k..][0] == t[k];
  }

  lemma LeadIsBlank(s: string)
    ensures Blank(s[..SpaceRun(s)])
  {
    hide IsSpace;
  }

  lemma WordJoins(b: string, w: string, rest: string, word: string)
    requires Blank(b) && IsWord(w, word) && (word == "select" || word == "with") && (rest != "" ==> !IsIdentPart(rest[0]))
    ensures StartsWithWord(TrimStart(b + (w + rest)), word)
  {
    hide IsIdentPart, SpaceRun, IsSpace, Blank;
    var t := w + rest;
    FirstIsNoSpace(w, word);
    assert t[0] == w[0];
    BlankRun(b, t);
    assert (b + t)[|b|..] == t;
    forall k | 0 <= k < |word| ensures Lower(t[0 + k]) == word[k] {
      assert t[k] == w[k];
    }
    assert |t| > |word| ==> t[|word|] == rest[0];
  }

  lemma FirstIsNoSpace(w: string, word: string)
    requires IsWord(w, word) && (word == "select" || word == "with")
    ensures !IsSpace(w[0])
  {
    assert Lower(w[0]) == word[0];
  }
}
