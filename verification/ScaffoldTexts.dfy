/** The texts that scaffolding writes: filled templates, and barrels that import and list their modules. */
module ScaffoldTexts {
  import opened Text
  import opened SqlLexer
  import opened Scaffold

  // ---------------------------------------------------------------------
  // Templates
  // ---------------------------------------------------------------------

  /** A template: plain text, and the two places where a year goes. */
  datatype Piece = Plain(text: string) | Year | PriorYear

  predicate IsPlain(ps: seq<Piece>) { forall p :: p in ps && p.Plain? ==> '{' !in p.text }

  function Template(ps: seq<Piece>): string {
    if ps == [] then "" else Written(ps[0], "{year}", "{priorYear}") + Template(ps[1..])
  }

  function Written(p: Piece, year: string, prior: string): string {
    match p
    case Plain(text) => text
    case Year => year
    case PriorYear => prior
  }

  /** The template with these two texts in place. */
  function Filled(ps: seq<Piece>, year: string, prior: string): string {
    if ps == [] then "" else Written(ps[0], year, prior) + Filled(ps[1..], year, prior)
  }

  /** One occurrence at the front is replaced. */
  lemma ReplaceHere(pat: string, sub: string, rest: string)
    requires pat != ""
    ensures ReplaceAll(pat + rest, pat, sub) == sub + ReplaceAll(rest, pat, sub)
  {
    assert (pat + rest)[|pat|..] == rest;
  }

  /** A brace that opens something else is passed over. */
  lemma PassBrace(word: string, pat: string, sub: string, rest: string)
    requires |pat| >= 2 && pat[0] == '{' && word != "" && '{' !in word && word[0] != pat[1]
    ensures ReplaceAll("{" + (word + rest), pat, sub) == "{" + (word + ReplaceAll(rest, pat, sub))
  {
    var s := "{" + (word + rest);
    assert s[1] == word[0] && s[1..] == word + rest;
    assert !(pat <= s);
    NothingToReplace(word, pat, sub, rest);
  }

  lemma YearInPiece(p: Piece, year: string, rest: string)
    requires IsPlain([p])
    ensures ReplaceAll(Written(p, "{year}", "{priorYear}") + rest, "{year}", year)
      == Written(p, year, "{priorYear}") + ReplaceAll(rest, "{year}", year)
  {
    hide ReplaceAll;
    match p
    case Plain(text) =>
      assert p in [p];
      NothingToReplace(text, "{year}", year, rest);
    case Year => ReplaceHere("{year}", year, rest);
    case PriorYear =>
      assert "{priorYear}" + rest == "{" + ("priorYear}" + rest);
      PassBrace("priorYear}", "{year}", year, rest);
      var after := ReplaceAll(rest, "{year}", year);
      assert "{" + ("priorYear}" + after) == "{priorYear}" + after;
  }

  lemma PriorInPiece(p: Piece, year: string, prior: string, rest: string)
    requires IsPlain([p]) && '{' !in year
    ensures ReplaceAll(Written(p, year, "{priorYear}") + rest, "{priorYear}", prior)
      == Written(p, year, prior) + ReplaceAll(rest, "{priorYear}", prior)
  {
    hide ReplaceAll;
    match p
    case Plain(text) =>
      assert p in [p];
      NothingToReplace(text, "{priorYear}", prior, rest);
    case Year => NothingToReplace(year, "{priorYear}", prior, rest);
    case PriorYear => ReplaceHere("{priorYear}", prior, rest);
  }

  lemma {:induction false} FillYears(ps: seq<Piece>, year: string)
    requires IsPlain(ps)
    ensures ReplaceAll(Template(ps), "{year}", year) == Filled(ps, year, "{priorYear}")
  {
    hide Written;
    if ps != [] {
      FillYears(ps[1..], year);
      YearInPiece(ps[0], year, Template(ps[1..]));
    }
  }

  lemma {:induction false} FillPriorYears(ps: seq<Piece>, year: string, prior: string)
    requires IsPlain(ps) && '{' !in year
    ensures ReplaceAll(Filled(ps, year, "{priorYear}"), "{priorYear}", prior) == Filled(ps, year, prior)
  {
    hide Written;
    if ps != [] {
      FillPriorYears(ps[1..], year, prior);
      PriorInPiece(ps[0], year, prior, Filled(ps[1..], year, "{priorYear}"));
    }
  }

  /** Every place gets its year, the year before goes where it is asked for, and all other text stays. */
  lemma FillIsFilled(ps: seq<Piece>, year: nat)
    requires IsPlain(ps) && year > 0
    ensures Fill(Template(ps), year) == Filled(ps, Digits(year), Digits(year - 1))
  {
    hide Digits, ReplaceAll;
    DigitsAreDigits(year);
    FillYears(ps, Digits(year));
    FillPriorYears(ps, Digits(year), Digits(year - 1));
  }

  // ---------------------------------------------------------------------
  // Files
  // ---------------------------------------------------------------------

  /** Directory and name are templates too. */
  predicate GoesTo(f: File, year: int, p: Path) { p.dir == Fill(f.path.dir, year) && p.name == Fill(f.path.name, year) }

  /** The first of the declared files that goes to this path. */
  predicate FirstAt(fs: seq<File>, year: int, p: Path, i: int) {
    0 <= i < |fs| && GoesTo(fs[i], year, p) && forall j :: 0 <= j < i ==> !GoesTo(fs[j], year, p)
  }

  /**
   * What was there stays; what was not is there exactly if a declared file
   * goes there, and holds that file's template, filled.
   */
  lemma {:induction false} WrittenFiles(files: Files, fs: seq<File>, year: int, p: Path)
    ensures var after := WithFiles(files, fs, year);
      && (p in files ==> p in after && after[p] == files[p])
      && (p !in files ==> (p in after <==> exists i :: FirstAt(fs, year, p, i)))
      && (p !in files ==> forall i :: FirstAt(fs, year, p, i) ==> p in after && after[p] == Fill(fs[i].template, year))
    decreases |fs|
  {
    hide Fill;
    if fs != [] {
      var n := |fs| - 1;
      var init := fs[..n];
      WrittenFiles(files, init, year, p);
      forall i ensures FirstAt(init, year, p, i) <==> FirstAt(fs, year, p, i) && i < n {
        assert forall j :: 0 <= j < n ==> init[j] == fs[j];
      }
      if p !in WithFiles(files, init, year) && GoesTo(fs[n], year, p) {
        FirstOfAll(init, fs, year, p);
      }
    }
  }

  lemma FirstOfAll(init: seq<File>, fs: seq<File>, year: int, p: Path)
    requires fs != [] && init == fs[..|fs| - 1] && GoesTo(fs[|fs| - 1], year, p)
    requires forall i :: !FirstAt(init, year, p, i)
    ensures FirstAt(fs, year, p, |fs| - 1)
  {
    hide Fill;
    var k := 0;
    while k < |init|
      invariant k <= |init| && forall j :: 0 <= j < k ==> !GoesTo(fs[j], year, p)
    {
      assert init[k] == fs[k];
      assert !FirstAt(init, year, p, k);
      k := k + 1;
    }
  }

  // ---------------------------------------------------------------------
  // Barrels
  // ---------------------------------------------------------------------

  function ImportLine(name: string, file: string): string {
    "import { " + (name + (" } from \"./" + (file + "\";\n")))
  }

  function EntryLine(name: string): string { "  " + (name + ",\n") }

  /** One line for each module, in this order. */
  ghost predicate AreImports(lines: seq<string>, ms: seq<Module>, exportName: string) {
    |lines| == |ms| && forall i :: 0 <= i < |ms| ==> lines[i] == ImportLine(Fill(exportName, ms[i].year), ms[i].name)
  }

  ghost predicate AreEntries(lines: seq<string>, ms: seq<Module>, exportName: string) {
    |lines| == |ms| && forall i :: 0 <= i < |ms| ==> lines[i] == EntryLine(Fill(exportName, ms[i].year))
  }

  /**
   * The text imports the export of each module and lists it, in this order,
   * each on a line of its own, and holds nothing else but the template's text.
   */
  ghost predicate ListsModules(text: string, pre: string, mid: string, post: string, ms: seq<Module>, exportName: string) {
    exists imports: seq<string>, entries: seq<string> ::
      && AreImports(imports, ms, exportName) && AreEntries(entries, ms, exportName)
      && text == pre + (Concat(imports) + (mid + ((if ms == [] then "" else "\n" + Concat(entries)) + post)))
  }

  /** No brace in `s` opens a word that starts with `c`. */
  predicate OpensNo(s: string, c: char) {
    forall i :: 0 <= i < |s| && s[i] == '{' ==> i + 1 < |s| && s[i + 1] != c
  }

  /** The template has these parts around its two places. */
  predicate IsBarrelTemplate(template: string, pre: string, mid: string, post: string) {
    && template == pre + ("{imports}" + (mid + ("{entries}" + post)))
    && OpensNo(pre, 'i') && OpensNo(pre, 'e') && OpensNo(mid, 'e')
  }

  /** Neither file names nor filled export names hold a brace. */
  predicate NoBraces(ms: seq<Module>, exportName: string) {
    forall i :: 0 <= i < |ms| ==> '{' !in ms[i].name && '{' !in Fill(exportName, ms[i].year)
  }

  /** The first occurrence is looked for behind text that opens no such word. */
  lemma {:induction false} ReplaceBehind(s: string, pat: string, sub: string, rest: string)
    requires |pat| >= 2 && pat[0] == '{' && OpensNo(s, pat[1])
    ensures ReplaceFirst(s + (pat + rest), pat, sub) == s + (sub + rest)
    decreases |s|
  {
    hide ReplaceFirst, OpensNo;
    var t := pat + rest;
    if s == "" {
      assert s + t == t && t[|pat|..] == rest;
      FirstHere(t, pat, sub);
      assert "" + (sub + rest) == sub + rest;
    } else {
      NotYet(s, pat, t);
      OpensNoBehind(s, pat[1]);
      ReplaceBehind(s[1..], pat, sub, rest);
      FirstLater(s + t, pat, sub);
      assert [s[0]] + (s[1..] + (sub + rest)) == s + (sub + rest);
    }
  }

  lemma FirstHere(t: string, pat: string, sub: string)
    requires pat != "" && pat <= t
    ensures ReplaceFirst(t, pat, sub) == sub + t[|pat|..]
  {
  }

  lemma FirstLater(t: string, pat: string, sub: string)
    requires pat != "" && t != "" && !(pat <= t)
    ensures ReplaceFirst(t, pat, sub) == [t[0]] + ReplaceFirst(t[1..], pat, sub)
  {
  }

  lemma NotYet(s: string, pat: string, t: string)
    requires |pat| >= 2 && pat[0] == '{' && s != "" && OpensNo(s, pat[1])
    ensures !(pat <= s + t) && (s + t)[0] == s[0] && (s + t)[1..] == s[1..] + t
  {
    assert s[0] == '{' ==> (s + t)[1] == s[1];
  }

  lemma OpensNoBehind(s: string, c: char)
    requires s != "" && OpensNo(s, c)
    ensures OpensNo(s[1..], c)
  {
    forall i | 0 <= i < |s[1..]| && s[1..][i] == '{' ensures i + 1 < |s[1..]| && s[1..][i + 1] != c {
      assert s[i + 1] == '{';
    }
  }

  lemma OpensNoAppend(a: string, b: string, c: char)
    requires OpensNo(a, c) && OpensNo(b, c)
    ensures OpensNo(a + b, c)
  {
    forall i | 0 <= i < |a + b| && (a + b)[i] == '{' ensures i + 1 < |a + b| && (a + b)[i + 1] != c {
      if i < |a| {
        assert a[i] == '{';
      } else {
        assert b[i - |a|] == '{';
      }
    }
  }

  lemma ImportOpensNo(name: string, file: string)
    requires '{' !in name && '{' !in file
    ensures OpensNo(ImportLine(name, file), 'e')
  {
    OpensNoAppend(file, "\";\n", 'e');
    OpensNoAppend(" } from \"./", file + "\";\n", 'e');
    OpensNoAppend(name, " } from \"./" + (file + "\";\n"), 'e');
    OpensNoAppend("import { ", name + (" } from \"./" + (file + "\";\n")), 'e');
  }

  /** The lines of the barrel. */
  lemma {:induction false} ImportsAreLines(ms: seq<Module>, exportName: string) returns (lines: seq<string>)
    requires NoBraces(ms, exportName)
    ensures AreImports(lines, ms, exportName) && Imports(ms, exportName) == Concat(lines) && OpensNo(Concat(lines), 'e')
  {
    hide Fill, ImportLine, OpensNo, Imports;
    if ms == [] {
      lines := [];
      NoImports(exportName);
    } else {
      assert forall i :: 0 <= i < |ms[1..]| ==> ms[1..][i] == ms[i + 1];
      var rest := ImportsAreLines(ms[1..], exportName);
      var name, file := Fill(exportName, ms[0].year), ms[0].name;
      var line := ImportLine(name, file);
      lines := [line] + rest;
      ImportOpensNo(name, file);
      OpensNoAppend(line, Concat(rest), 'e');
      assert lines[1..] == rest;
      FirstImport(ms, exportName);
    }
  }

  lemma NoImports(exportName: string)
    ensures Imports([], exportName) == "" && OpensNo("", 'e')
  {
  }

  lemma FirstImport(ms: seq<Module>, exportName: string)
    requires ms != []
    ensures Imports(ms, exportName) == ImportLine(Fill(exportName, ms[0].year), ms[0].name) + Imports(ms[1..], exportName)
  {
    hide Fill;
  }

  lemma {:induction false} EntriesAreLines(ms: seq<Module>, exportName: string) returns (lines: seq<string>)
    ensures AreEntries(lines, ms, exportName) && Lines(ms, exportName) == Concat(lines)
  {
    hide Fill;
    lines := [];
    if ms != [] {
      assert forall i :: 0 <= i < |ms[1..]| ==> ms[1..][i] == ms[i + 1];
      var rest := EntriesAreLines(ms[1..], exportName);
      var line := EntryLine(Fill(exportName, ms[0].year));
      lines := [line] + rest;
      assert lines[1..] == rest;
      assert Lines(ms, exportName) == line + Lines(ms[1..], exportName);
    }
  }

  /** What is rendered imports and lists every module of the listing, once, in its order. */
  lemma RenderLists(b: Barrel, ms: seq<Module>, pre: string, mid: string, post: string)
    requires IsBarrelTemplate(b.template, pre, mid, post) && NoBraces(ms, b.exportName)
    ensures ListsModules(Render(b, ms), pre, mid, post, ms, b.exportName)
  {
    hide Fill, ReplaceFirst, Imports, Lines, AreImports, AreEntries, OpensNo;
    var imports := ImportsAreLines(ms, b.exportName);
    var entries := EntriesAreLines(ms, b.exportName);
    var i := Concat(imports);
    var e := if ms == [] then "" else "\n" + Concat(entries);
    ReplaceBehind(pre, "{imports}", i, mid + ("{entries}" + post));
    OpensNoAppend(i, mid, 'e');
    OpensNoAppend(pre, i + mid, 'e');
    var front := pre + (i + mid);
    assert pre + (i + (mid + ("{entries}" + post))) == front + ("{entries}" + post);
    ReplaceBehind(front, "{entries}", e, post);
    assert front + (e + post) == pre + (i + (mid + (e + post)));
  }
}
