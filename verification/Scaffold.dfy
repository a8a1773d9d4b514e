/** Scaffolding a payroll tax year: files are written once, barrels are regenerated from what is on disk. */
module Scaffold {
  import opened Options
  import opened Text

  // ---------------------------------------------------------------------
  // Templates
  // ---------------------------------------------------------------------

  /** Every occurrence of `pat`, from the left, replaced. */
  function ReplaceAll(s: string, pat: string, sub: string): string
    requires pat != ""
    decreases |s|
  {
    if s == "" then ""
    else if pat <= s then sub + ReplaceAll(s[|pat|..], pat, sub)
    else [s[0]] + ReplaceAll(s[1..], pat, sub)
  }

  function ReplaceFirst(s: string, pat: string, sub: string): string
    requires pat != ""
  {
    if s == "" then ""
    else if pat <= s then sub + s[|pat|..]
    else [s[0]] + ReplaceFirst(s[1..], pat, sub)
  }

  function Number(n: int): string { if n < 0 then "-" + Digits(-n) else Digits(n) }

  function Fill(template: string, year: int): string {
    ReplaceAll(ReplaceAll(template, "{year}", Number(year)), "{priorYear}", Number(year - 1))
  }

  /** Text without braces is left alone. */
  lemma {:induction false} NothingToReplace(s: string, pat: string, sub: string, rest: string)
    requires pat != "" && pat[0] == '{' && '{' !in s
    ensures ReplaceAll(s + rest, pat, sub) == s + ReplaceAll(rest, pat, sub)
    decreases |s|
  {
    if s == "" {
      assert s + rest == rest;
    } else {
      assert (s + rest)[0] == s[0] && s[0] in s;
      assert (s + rest)[1..] == s[1..] + rest;
      NothingToReplace(s[1..], pat, sub, rest);
    }
  }

  lemma {:induction false} DigitsInjective(m: nat, n: nat)
    requires Digits(m) == Digits(n)
    ensures m == n
  {
    DigitsAreDigits(m / 10);
    DigitsAreDigits(n / 10);
    var a, b := Digits(m), Digits(n);
    assert a[|a| - 1] == b[|b| - 1];
    if m >= 10 && n >= 10 {
      assert a[..|a| - 1] == Digits(m / 10) && b[..|b| - 1] == Digits(n / 10);
      DigitsInjective(m / 10, n / 10);
    }
  }

  /** Filling a template that names the year once puts the year there, and nothing else changes. */
  lemma FillOneYear(pre: string, post: string, year: nat)
    requires '{' !in pre && '{' !in post
    ensures Fill(pre + "{year}" + post, year) == pre + Digits(year) + post
  {
    DigitsAreDigits(year);
    var pat, rest := "{year}", "{year}" + post;
    assert pre + "{year}" + post == pre + rest;
    NothingToReplace(pre, pat, Digits(year), rest);
    assert rest[|pat|..] == post && pat <= rest;
    NothingToReplace(post, pat, Digits(year), "");
    assert post + "" == post;
    var once := pre + Digits(year) + post;
    assert pre + (Digits(year) + post) == once;
    assert '{' !in once;
    NothingToReplace(once, "{priorYear}", Number(year - 1), "");
    assert once + "" == once;
  }

  /** Such a template tells the years apart. */
  lemma FillTellsYear(pre: string, post: string, y: nat, z: nat)
    requires '{' !in pre && '{' !in post && y != z
    ensures Fill(pre + "{year}" + post, y) != Fill(pre + "{year}" + post, z)
  {
    FillOneYear(pre, post, y);
    FillOneYear(pre, post, z);
    var a, b := pre + Digits(y) + post, pre + Digits(z) + post;
    if a == b {
      assert a[|pre|..|a| - |post|] == Digits(y) && b[|pre|..|b| - |post|] == Digits(z);
      DigitsInjective(y, z);
    }
  }

  // ---------------------------------------------------------------------
  // A pack's declaration
  // ---------------------------------------------------------------------

  datatype Path = Path(dir: string, name: string)

  datatype File = File(path: Path, template: string)

  /** A generated barrel; `yearOf` is what its pattern captures from a file name. */
  datatype Barrel = Barrel(path: Path, yearOf: string -> Option<int>, exportName: string, template: string)

  /** An edition; the empty region is the whole country. */
  datatype Edition = Edition(year: int, published: bool, region: string)

  datatype Pack = Pack(files: seq<File>, barrels: seq<Barrel>, editions: seq<Edition>, regions: seq<string>)

  function PathOf(f: File, year: int): Path { Path(Fill(f.path.dir, year), Fill(f.path.name, year)) }

  predicate PublishedFor(pack: Pack, year: int, region: string) {
    exists i :: 0 <= i < |pack.editions| && pack.editions[i] == Edition(year, true, region)
  }

  /** The country-wide scope, then each region with tables of its own. */
  function DeclaredScopes(pack: Pack): seq<string> { [""] + pack.regions }

  /** Some declared scope is not published for the year. */
  predicate HasMissingScope(pack: Pack, year: int) {
    exists i :: 0 <= i < |DeclaredScopes(pack)| && !PublishedFor(pack, year, DeclaredScopes(pack)[i])
  }

  // ---------------------------------------------------------------------
  // The disk
  // ---------------------------------------------------------------------

  type Files = map<Path, string>

  class Disk {
    var files: Files

    constructor (files: Files)
      ensures this.files == files
    {
      this.files := files;
    }
  }

  /** The files after writing those of `year` that are not there yet. */
  function WithFiles(files: Files, fs: seq<File>, year: int): Files
    decreases |fs|
  {
    if fs == [] then files
    else
      var init, last := fs[..|fs| - 1], fs[|fs| - 1];
      var before := WithFiles(files, init, year);
      if PathOf(last, year) in before then before else before[PathOf(last, year) := Fill(last.template, year)]
  }

  datatype Written = Written(path: Path, skipped: bool)

  /** A file is reported as skipped exactly when it was there at its turn. */
  predicate ReportsFile(w: Written, f: File, year: int, before: Files) {
    w.path == PathOf(f, year) && (w.skipped <==> w.path in before)
  }

  /** The files at the turn of the `i`-th declared file. */
  function AtTurn(files: Files, fs: seq<File>, year: int, dryRun: bool, i: nat): Files
    requires i <= |fs|
  {
    if dryRun then files else WithFiles(files, fs[..i], year)
  }

  lemma NextTurn(files: Files, fs: seq<File>, year: int, dryRun: bool, i: nat)
    requires i < |fs|
    ensures var before, path := AtTurn(files, fs, year, dryRun, i), PathOf(fs[i], year);
      AtTurn(files, fs, year, dryRun, i + 1) ==
        if dryRun || path in before then before else before[path := Fill(fs[i].template, year)]
  {
    hide Fill, PathOf;
    assert fs[..i + 1][..i] == fs[..i];
  }

  method WriteScaffoldFiles(disk: Disk, fs: seq<File>, year: int, dryRun: bool) returns (written: seq<Written>)
    modifies disk
    ensures disk.files == if dryRun then old(disk.files) else WithFiles(old(disk.files), fs, year)
    ensures |written| == |fs|
    ensures forall i :: 0 <= i < |fs| ==> ReportsFile(written[i], fs[i], year, AtTurn(old(disk.files), fs, year, dryRun, i))
  {
    hide Fill, PathOf, AtTurn;
    written := [];
    var i := 0;
    FirstTurn(disk.files, fs, year, dryRun);
    while i < |fs|
      invariant i <= |fs| && |written| == i
      invariant disk.files == AtTurn(old(disk.files), fs, year, dryRun, i)
      invariant forall j :: 0 <= j < i ==>
        ReportsFile(written[j], fs[j], year, AtTurn(old(disk.files), fs, year, dryRun, j))
    {
      var path := PathOf(fs[i], year);
      NextTurn(old(disk.files), fs, year, dryRun, i);
      if path in disk.files {
        written := written + [Written(path, true)];
      } else {
        if !dryRun {
          disk.files := disk.files[path := Fill(fs[i].template, year)];
        }
        written := written + [Written(path, false)];
      }
      i := i + 1;
    }
    LastTurn(old(disk.files), fs, year, dryRun);
  }

  lemma FirstTurn(files: Files, fs: seq<File>, year: int, dryRun: bool)
    ensures AtTurn(files, fs, year, dryRun, 0) == files
  {
    assert fs[..0] == [];
  }

  lemma LastTurn(files: Files, fs: seq<File>, year: int, dryRun: bool)
    ensures AtTurn(files, fs, year, dryRun, |fs|) == if dryRun then files else WithFiles(files, fs, year)
  {
    assert fs[..|fs|] == fs;
  }

  // ---------------------------------------------------------------------
  // Barrels
  // ---------------------------------------------------------------------

  datatype Module = Module(name: string, year: int)

  /** The year modules that stand beside the barrel. */
  function Modules(files: Files, b: Barrel): set<Module> {
    set p | p in files && p.dir == b.path.dir && b.yearOf(p.name).Some? :: Module(p.name, b.yearOf(p.name).value)
  }

  predicate Ascending(ms: seq<Module>) {
    forall i, j :: 0 <= i < j < |ms| ==> ms[i].year <= ms[j].year
  }

  predicate Distinct(ms: seq<Module>) {
    forall i, j :: 0 <= i < j < |ms| ==> ms[i] != ms[j]
  }

  function Members(ms: seq<Module>): set<Module> { set m | m in ms }

  /** Exactly the modules on disk, each once, by ascending year. */
  predicate IsListing(ms: seq<Module>, files: Files, b: Barrel) {
    Ascending(ms) && Distinct(ms) && Members(ms) == Modules(files, b)
  }

  /** The file stands beside the barrel, and its name holds this year. */
  predicate IsModule(m: Module, files: Files, b: Barrel) {
    Path(b.path.dir, m.name) in files && b.yearOf(m.name) == Some(m.year)
  }

  lemma ListingIff(ms: seq<Module>, files: Files, b: Barrel)
    requires Members(ms) == Modules(files, b)
    ensures forall m: Module :: m in ms <==> IsModule(m, files, b)
  {
    forall m: Module ensures m in ms <==> IsModule(m, files, b) {
      assert m in ms <==> m in Members(ms);
      if m in Modules(files, b) {
        var p :| p in files && p.dir == b.path.dir && b.yearOf(p.name).Some? && m == Module(p.name, b.yearOf(p.name).value);
        assert p == Path(b.path.dir, m.name);
      }
      if IsModule(m, files, b) {
        var p := Path(b.path.dir, m.name);
        assert p in files && m == Module(p.name, b.yearOf(p.name).value);
      }
    }
  }

  function Imports(ms: seq<Module>, exportName: string): string {
    if ms == [] then ""
    else "import { " + Fill(exportName, ms[0].year) + " } from \"./" + ms[0].name + "\";\n" + Imports(ms[1..], exportName)
  }

  function Lines(ms: seq<Module>, exportName: string): string {
    if ms == [] then "" else "  " + Fill(exportName, ms[0].year) + ",\n" + Lines(ms[1..], exportName)
  }

  /** The text of a barrel. */
  function Render(b: Barrel, ms: seq<Module>): string {
    var entries := if ms == [] then "" else "\n" + Lines(ms, b.exportName);
    ReplaceFirst(ReplaceFirst(b.template, "{imports}", Imports(ms, b.exportName)), "{entries}", entries)
  }

  function Inserted(ms: seq<Module>, m: Module, i: nat): seq<Module>
    requires i <= |ms|
  {
    ms[..i] + [m] + ms[i..]
  }

  lemma InsertedAt(ms: seq<Module>, m: Module, i: nat, j: nat)
    requires i <= |ms| && j <= |ms|
    ensures |Inserted(ms, m, i)| == |ms| + 1
    ensures Inserted(ms, m, i)[j] == if j < i then ms[j] else if j == i then m else ms[j - 1]
  {
  }

  lemma InsertedMembers(ms: seq<Module>, m: Module, i: nat)
    requires i <= |ms|
    ensures Members(Inserted(ms, m, i)) == Members(ms) + {m}
  {
    assert ms == ms[..i] + ms[i..];
  }

  lemma InsertKeeps(ms: seq<Module>, m: Module, i: nat)
    requires i <= |ms| && Ascending(ms) && Distinct(ms) && m !in ms
    requires forall j :: 0 <= j < |ms| ==> if j < i then ms[j].year <= m.year else ms[j].year >= m.year
    ensures Ascending(Inserted(ms, m, i)) && Distinct(Inserted(ms, m, i))
  {
    hide Inserted;
    var r := Inserted(ms, m, i);
    InsertedAt(ms, m, i, i);
    forall j, k | 0 <= j < k < |r| ensures r[j].year <= r[k].year && r[j] != r[k] {
      InsertedAt(ms, m, i, j);
      InsertedAt(ms, m, i, k);
    }
  }

  /** `ms` with `m` after every module of a year up to its own. */
  method InsertByYear(ms: seq<Module>, m: Module) returns (r: seq<Module>)
    requires Ascending(ms) && Distinct(ms) && m !in ms
    ensures Ascending(r) && Distinct(r) && Members(r) == Members(ms) + {m}
  {
    hide Distinct, Inserted;
    var i := |ms|;
    while i > 0 && ms[i - 1].year > m.year
      invariant 0 <= i <= |ms|
      invariant forall j :: i <= j < |ms| ==> ms[j].year > m.year
    {
      i := i - 1;
    }
    InsertKeeps(ms, m, i);
    InsertedMembers(ms, m, i);
    r := Inserted(ms, m, i);
  }

  method RewriteBarrel(disk: Disk, b: Barrel, dryRun: bool) returns (ms: seq<Module>)
    modifies disk
    ensures IsListing(ms, old(disk.files), b) && forall m: Module :: m in ms <==> IsModule(m, old(disk.files), b)
    ensures disk.files == if dryRun then old(disk.files) else old(disk.files)[b.path := Render(b, ms)]
  {
    hide Render, IsModule;
    ms := [];
    var todo := Modules(disk.files, b);
    while todo != {}
      invariant disk.files == old(disk.files) && todo <= Modules(disk.files, b)
      invariant Ascending(ms) && Distinct(ms) && Members(ms) == Modules(disk.files, b) - todo
      decreases |todo|
    {
      var m :| m in todo;
      assert m !in Members(ms);
      ms := InsertByYear(ms, m);
      todo := todo - {m};
    }
    ListingIff(ms, disk.files, b);
    if !dryRun {
      disk.files := disk.files[b.path := Render(b, ms)];
    }
  }
}
