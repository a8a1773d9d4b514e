/** Runs of the tax-year generator: in any order, any number of times, they end in the same tree. */
module ScaffoldRuns {
  import opened Options
  import opened Text
  import opened Scaffold
  import opened ScaffoldTexts

  // ---------------------------------------------------------------------
  // One run
  // ---------------------------------------------------------------------

  /** The years the generator takes. */
  predicate InRange(year: int) { 2000 <= year <= 2100 }

  /** The year's tables are published for the whole country, or for one of its regions. */
  predicate Covers(pack: Pack, year: int, region: string) {
    exists e :: e in pack.editions && e.year == year && e.published && e.region == region
  }

  /** ... for the whole country and for every region with tables of its own. */
  predicate Complete(pack: Pack, year: int) {
    Covers(pack, year, "") && forall r :: r in pack.regions ==> Covers(pack, year, r)
  }

  /** A year from 2000 to 2100 whose tables are not complete. */
  predicate Accepts(pack: Pack, year: int) { 2000 <= year <= 2100 && !Complete(pack, year) }

  lemma MissingIff(pack: Pack, year: int)
    ensures HasMissingScope(pack, year) <==> !Complete(pack, year)
  {
    hide PublishedFor, Covers, DeclaredScopes;
    var scopes := DeclaredScopes(pack);
    ScopesAre(pack);
    if HasMissingScope(pack, year) {
      var i :| 0 <= i < |scopes| && !PublishedFor(pack, year, scopes[i]);
      PublishedIff(pack, year, scopes[i]);
    }
    if !Complete(pack, year) {
      var r :| r in scopes && !Covers(pack, year, r);
      var i :| 0 <= i < |scopes| && scopes[i] == r;
      PublishedIff(pack, year, r);
    }
  }

  lemma ScopesAre(pack: Pack)
    ensures forall r :: r in DeclaredScopes(pack) <==> r == "" || r in pack.regions
  {
  }

  lemma PublishedIff(pack: Pack, year: int, region: string)
    ensures PublishedFor(pack, year, region) <==> Covers(pack, year, region)
  {
    if PublishedFor(pack, year, region) {
      var i :| 0 <= i < |pack.editions| && pack.editions[i] == Edition(year, true, region);
      assert pack.editions[i] in pack.editions;
    }
    if Covers(pack, year, region) {
      var e :| e in pack.editions && e.year == year && e.published && e.region == region;
      var i :| 0 <= i < |pack.editions| && pack.editions[i] == e;
    }
  }

  /** The barrels are rewritten one after the other, each from what is on disk at its turn. */
  ghost predicate BarrelSteps(trace: seq<Files>, bs: seq<Barrel>) {
    |trace| == |bs| + 1
    && forall i :: 0 <= i < |bs| ==> BarrelStep(trace[i], trace[i + 1], bs[i])
  }

  ghost predicate BarrelStep(before: Files, after: Files, b: Barrel) {
    exists ms :: IsListing(ms, before, b) && after == before[b.path := Render(b, ms)]
  }

  ghost predicate IsRun(before: Files, after: Files, pack: Pack, year: int) {
    exists trace :: BarrelSteps(trace, pack.barrels)
      && trace[0] == WithFiles(before, pack.files, year) && trace[|pack.barrels|] == after
  }

  method ScaffoldYear(disk: Disk, pack: Pack, year: int, dryRun: bool)
    modifies disk
    ensures dryRun || !Accepts(pack, year) ==> disk.files == old(disk.files)
    ensures !dryRun && Accepts(pack, year) ==> IsRun(old(disk.files), disk.files, pack, year)
  {
    hide HasMissingScope, Complete, WithFiles, IsListing, Render;
    MissingIff(pack, year);
    if !InRange(year) || !HasMissingScope(pack, year) {
      return;
    }
    var written := WriteScaffoldFiles(disk, pack.files, year, dryRun);
    ghost var trace := [disk.files];
    var i := 0;
    while i < |pack.barrels|
      invariant i <= |pack.barrels|
      invariant dryRun ==> disk.files == old(disk.files)
      invariant !dryRun ==>
        && BarrelSteps(trace, pack.barrels[..i])
        && trace[0] == WithFiles(old(disk.files), pack.files, year) && trace[i] == disk.files
    {
      ghost var before := disk.files;
      var ms := RewriteBarrel(disk, pack.barrels[i], dryRun);
      if !dryRun {
        assert BarrelStep(before, disk.files, pack.barrels[i]);
        MoreSteps(trace, pack.barrels, i, disk.files);
        trace := trace + [disk.files];
      }
      i := i + 1;
    }
    assert pack.barrels[..|pack.barrels|] == pack.barrels;
  }

  lemma MoreSteps(trace: seq<Files>, bs: seq<Barrel>, i: nat, files: Files)
    requires i < |bs| && BarrelSteps(trace, bs[..i]) && BarrelStep(trace[i], files, bs[i])
    ensures BarrelSteps(trace + [files], bs[..i + 1])
  {
    hide BarrelStep;
  }

  // ---------------------------------------------------------------------
  // Packs whose runs cannot interfere
  // ---------------------------------------------------------------------

  predicate IsBarrelPath(pack: Pack, p: Path) {
    exists i :: 0 <= i < |pack.barrels| && pack.barrels[i].path == p
  }

  /** No barrel is written twice, or matches the pattern of a barrel beside it. */
  predicate BarrelsApart(bs: seq<Barrel>) {
    forall i, j :: 0 <= i < |bs| && 0 <= j < |bs| ==>
      && (i != j ==> bs[i].path != bs[j].path)
      && (bs[i].path.dir == bs[j].path.dir ==> bs[i].yearOf(bs[j].path.name).None?)
  }

  /** In the years taken, file paths tell the year, and no barrel is a declared file. */
  ghost predicate FilesApart(pack: Pack) {
    && (forall i, j, y, z :: 0 <= i < |pack.files| && 0 <= j < |pack.files| && InRange(y) && InRange(z) && y != z ==>
          PathOf(pack.files[i], y) != PathOf(pack.files[j], z))
    && (forall i, y :: 0 <= i < |pack.files| && InRange(y) ==> !IsBarrelPath(pack, PathOf(pack.files[i], y)))
  }

  /** The year that `y<year>.ts` names. */
  function YearOfName(name: string): Option<int> {
    if |name| == 8 && name[0] == 'y' && name[5..] == ".ts" && (forall i :: 1 <= i < 5 ==> IsDigit(name[i])) then
      Some((name[1] as int - 48) * 1000 + (name[2] as int - 48) * 100 + (name[3] as int - 48) * 10 + (name[4] as int - 48))
    else None
  }

  /** A pack with one file a year, named by it, and one barrel beside them. */
  function OneFilePack(template: string, barrel: string, editions: seq<Edition>): Pack {
    Pack([File(Path("years", "y{year}.ts"), template)],
         [Barrel(Path("years", "index.ts"), YearOfName, "TABLES", barrel)], editions, [])
  }

  /** Such packs exist: a path that names the year meets both conditions. */
  lemma OneFilePackIsApart(template: string, barrel: string, editions: seq<Edition>)
    ensures var pack := OneFilePack(template, barrel, editions); FilesApart(pack) && BarrelsApart(pack.barrels)
  {
    hide Fill;
    var pack := OneFilePack(template, barrel, editions);
    assert "y{year}.ts" == "y" + "{year}" + ".ts";
    forall y, z | InRange(y) && InRange(z) && y != z ensures PathOf(pack.files[0], y) != PathOf(pack.files[0], z) {
      FillTellsYear("y", ".ts", y, z);
    }
    forall y | InRange(y) ensures !IsBarrelPath(pack, PathOf(pack.files[0], y)) {
      FillOneYear("y", ".ts", y);
      assert ("y" + Digits(y) + ".ts")[0] == 'y' && "index.ts"[0] == 'i';
    }
  }

  /** No two modules beside a barrel are for the same year. */
  predicate NoTwins(files: Files, b: Barrel) {
    forall m, n :: m in Modules(files, b) && n in Modules(files, b) && m.year == n.year ==> m == n
  }

  /** The files a year brings along. */
  function Fresh(pack: Pack, year: int): Files { WithFiles(map[], pack.files, year) }

  lemma {:induction false} FilesMerge(files: Files, fs: seq<File>, year: int)
    ensures WithFiles(files, fs, year) == WithFiles(map[], fs, year) + files
    decreases |fs|
  {
    hide PathOf, Fill;
    if fs == [] {
      assert map[] + files == files;
    } else {
      FilesMerge(files, fs[..|fs| - 1], year);
    }
  }

  lemma {:induction false} FreshPaths(fs: seq<File>, year: int, p: Path)
    ensures p in WithFiles(map[], fs, year) <==> exists i :: 0 <= i < |fs| && PathOf(fs[i], year) == p
    decreases |fs|
  {
    hide PathOf, Fill;
    if fs != [] {
      var init := fs[..|fs| - 1];
      FreshPaths(init, year, p);
      if exists i :: 0 <= i < |init| && PathOf(init[i], year) == p {
        var i :| 0 <= i < |init| && PathOf(init[i], year) == p;
        assert PathOf(fs[i], year) == p;
      }
      if exists i :: 0 <= i < |fs| && PathOf(fs[i], year) == p {
        var i :| 0 <= i < |fs| && PathOf(fs[i], year) == p;
        assert i < |init| ==> PathOf(init[i], year) == p;
      }
    }
  }

  // ---------------------------------------------------------------------
  // Where runs end
  // ---------------------------------------------------------------------

  /** Every barrel lists the modules that stand beside it. */
  ghost predicate Wired(files: Files, pack: Pack) {
    forall i :: 0 <= i < |pack.barrels| ==> WiredBarrel(files, pack.barrels[i])
  }

  ghost predicate WiredBarrel(files: Files, b: Barrel) {
    b.path in files && exists ms :: IsListing(ms, files, b) && files[b.path] == Render(b, ms)
  }

  /** Apart from barrels, `after` holds what `files` holds. */
  predicate SameOutside(after: Files, files: Files, pack: Pack) {
    && (forall p :: p in after && !IsBarrelPath(pack, p) ==> p in files && after[p] == files[p])
    && (forall p :: p in files && !IsBarrelPath(pack, p) ==> p in after && after[p] == files[p])
  }

  lemma SameModules(a: Files, b: Files, pack: Pack, i: nat)
    requires SameOutside(a, b, pack) && BarrelsApart(pack.barrels) && i < |pack.barrels|
    ensures Modules(a, pack.barrels[i]) == Modules(b, pack.barrels[i])
  {
    NotAModule(pack, i);
    SomeModules(a, b, pack, i);
    SomeModules(b, a, pack, i);
  }

  /** No barrel beside this one is one of its modules. */
  lemma NotAModule(pack: Pack, i: nat)
    requires BarrelsApart(pack.barrels) && i < |pack.barrels|
    ensures forall p :: IsBarrelPath(pack, p) && p.dir == pack.barrels[i].path.dir ==> pack.barrels[i].yearOf(p.name).None?
  {
  }

  lemma SomeModules(a: Files, b: Files, pack: Pack, i: nat)
    requires SameOutside(a, b, pack) && i < |pack.barrels|
    requires forall p :: IsBarrelPath(pack, p) && p.dir == pack.barrels[i].path.dir ==> pack.barrels[i].yearOf(p.name).None?
    ensures Modules(a, pack.barrels[i]) <= Modules(b, pack.barrels[i])
  {
    hide IsBarrelPath;
    var c := pack.barrels[i];
    forall m | m in Modules(a, c) ensures m in Modules(b, c) {
      var p :| p in a && p.dir == c.path.dir && c.yearOf(p.name).Some? && m == Module(p.name, c.yearOf(p.name).value);
      assert p in b;
    }
  }

  /** After the barrel steps, every barrel is wired and nothing else has changed. */
  lemma {:induction false} StepsWire(trace: seq<Files>, pack: Pack, n: nat)
    requires n <= |pack.barrels| && BarrelSteps(trace, pack.barrels) && BarrelsApart(pack.barrels)
    ensures SameOutside(trace[n], trace[0], pack)
    ensures forall i :: 0 <= i < n ==> WiredBarrel(trace[n], pack.barrels[i])
    decreases n
  {
    hide BarrelStep, WiredBarrel, SameOutside, BarrelsApart, Render;
    if n == 0 {
      OutsideSelf(trace[0], pack);
    } else {
      StepsWire(trace, pack, n - 1);
      var before, after := trace[n - 1], trace[n];
      assert BarrelStep(before, after, pack.barrels[n - 1]);
      StepOutside(before, after, pack, n - 1);
      OutsideTransitive(after, before, trace[0], pack);
      forall i | 0 <= i < n ensures WiredBarrel(after, pack.barrels[i]) {
        WiringStays(before, after, pack, n - 1, i);
      }
    }
  }

  lemma OutsideSelf(files: Files, pack: Pack)
    ensures SameOutside(files, files, pack)
  {
  }

  lemma OutsideTransitive(a: Files, b: Files, c: Files, pack: Pack)
    requires SameOutside(a, b, pack) && SameOutside(b, c, pack)
    ensures SameOutside(a, c, pack)
  {
    hide IsBarrelPath;
  }

  lemma StepOutside(before: Files, after: Files, pack: Pack, i: nat)
    requires i < |pack.barrels| && BarrelStep(before, after, pack.barrels[i])
    ensures SameOutside(after, before, pack)
  {
    hide IsListing, Render;
  }

  lemma WiringStays(before: Files, after: Files, pack: Pack, n: nat, i: nat)
    requires i <= n < |pack.barrels| && BarrelsApart(pack.barrels) && BarrelStep(before, after, pack.barrels[n])
    requires i < n ==> WiredBarrel(before, pack.barrels[i])
    ensures WiredBarrel(after, pack.barrels[i])
  {
    hide Render, Modules;
    StepOutside(before, after, pack, n);
    SameModules(after, before, pack, i);
    var ms :| IsListing(ms, before, pack.barrels[n]) && after == before[pack.barrels[n].path := Render(pack.barrels[n], ms)];
    if i < n {
      var ls :| IsListing(ls, before, pack.barrels[i]) && before[pack.barrels[i].path] == Render(pack.barrels[i], ls);
      assert IsListing(ls, after, pack.barrels[i]);
    } else {
      assert IsListing(ms, after, pack.barrels[i]);
    }
  }

  // ---------------------------------------------------------------------
  // Any order, any number of times
  // ---------------------------------------------------------------------

  /** The tree that the years `ys` leave on top of `base`, barrels aside. */
  ghost predicate Holds(files: Files, base: Files, pack: Pack, ys: set<int>) {
    forall p :: !IsBarrelPath(pack, p) ==>
      && (p in base ==> p in files && files[p] == base[p])
      && (p !in base ==> (p in files <==> exists y :: y in ys && p in Fresh(pack, y)))
      && (p !in base ==> forall y :: y in ys && p in Fresh(pack, y) ==> p in files && files[p] == Fresh(pack, y)[p])
  }

  /** A path brought by two years would be the path of both. */
  lemma OneYear(pack: Pack, p: Path, y: int, z: int)
    requires FilesApart(pack) && p in Fresh(pack, y) && p in Fresh(pack, z) && InRange(y) && InRange(z)
    ensures y == z
  {
    hide PathOf, Fill;
    FreshPaths(pack.files, y, p);
    FreshPaths(pack.files, z, p);
  }

  ghost predicate AreModules(ms: seq<Module>, files: Files, b: Barrel) {
    forall m: Module :: m in ms <==> IsModule(m, files, b)
  }

  /** A wired barrel imports and lists the modules beside it, each once, by ascending year. */
  lemma WiredListsModules(files: Files, b: Barrel, pre: string, mid: string, post: string)
    requires WiredBarrel(files, b) && IsBarrelTemplate(b.template, pre, mid, post)
    requires forall m :: m in Modules(files, b) ==> '{' !in m.name && '{' !in Fill(b.exportName, m.year)
    ensures exists ms ::
      && Ascending(ms) && Distinct(ms) && AreModules(ms, files, b)
      && ListsModules(files[b.path], pre, mid, post, ms, b.exportName)
  {
    hide Modules, Render, Fill, ListsModules, IsBarrelTemplate, Ascending, Distinct;
    var ms: seq<Module> :| IsListing(ms, files, b) && files[b.path] == Render(b, ms);
    forall i | 0 <= i < |ms| ensures '{' !in ms[i].name && '{' !in Fill(b.exportName, ms[i].year) {
      assert ms[i] in Members(ms);
    }
    ListingIff(ms, files, b);
    assert AreModules(ms, files, b);
    RenderLists(b, ms, pre, mid, post);
  }

  lemma NothingHeld(base: Files, pack: Pack)
    ensures Holds(base, base, pack, {})
  {
    hide WithFiles, IsBarrelPath;
  }

  lemma RunHolds(before: Files, after: Files, base: Files, pack: Pack, ys: set<int>, y: int)
    requires FilesApart(pack) && Holds(before, base, pack, ys) && InRange(y) && forall z :: z in ys ==> InRange(z)
    requires SameOutside(after, Fresh(pack, y) + before, pack)
    ensures Holds(after, base, pack, ys + {y})
  {
    hide WithFiles, IsBarrelPath, FilesApart;
    forall p | !IsBarrelPath(pack, p)
      ensures p in base ==> p in after && after[p] == base[p]
      ensures p !in base ==> (p in after <==> exists z :: z in ys + {y} && p in Fresh(pack, z))
      ensures p !in base ==> forall z :: z in ys + {y} && p in Fresh(pack, z) ==> p in after && after[p] == Fresh(pack, z)[p]
    {
      if p !in base {
        forall z | z in ys + {y} && p in Fresh(pack, z)
          ensures p in after && after[p] == Fresh(pack, z)[p]
        {
          if p in before {
            var w :| w in ys && p in Fresh(pack, w);
            OneYear(pack, p, w, z);
          }
        }
        if p in after && p in before {
          var z :| z in ys && p in Fresh(pack, z);
          assert z in ys + {y};
        } else if p in after {
          assert y in ys + {y} && p in Fresh(pack, y);
        }
      }
    }
  }

  /** A call of the generator: a year, and whether it only reports. */
  datatype Call = Call(year: int, dryRun: bool)

  function YearsOf(pack: Pack, calls: seq<Call>): set<int> {
    set i | 0 <= i < |calls| && !calls[i].dryRun && Accepts(pack, calls[i].year) :: calls[i].year
  }

  /** What one call does to the tree. */
  ghost predicate IsCall(before: Files, after: Files, pack: Pack, c: Call) {
    if c.dryRun || !Accepts(pack, c.year) then after == before else IsRun(before, after, pack, c.year)
  }

  ghost predicate IsHistory(history: seq<Files>, pack: Pack, calls: seq<Call>) {
    |history| == |calls| + 1
    && forall i :: 0 <= i < |calls| ==> IsCall(history[i], history[i + 1], pack, calls[i])
  }

  lemma RunMeans(before: Files, after: Files, pack: Pack, year: int)
    requires IsRun(before, after, pack, year) && BarrelsApart(pack.barrels)
    ensures SameOutside(after, Fresh(pack, year) + before, pack) && Wired(after, pack)
  {
    hide BarrelsApart, WiredBarrel, SameOutside, BarrelStep, WithFiles;
    var trace :| BarrelSteps(trace, pack.barrels)
      && trace[0] == WithFiles(before, pack.files, year) && trace[|pack.barrels|] == after;
    FilesMerge(before, pack.files, year);
    StepsWire(trace, pack, |pack.barrels|);
  }

  lemma {:induction false} HistoryHolds(history: seq<Files>, pack: Pack, calls: seq<Call>)
    requires IsHistory(history, pack, calls) && BarrelsApart(pack.barrels) && FilesApart(pack)
    ensures Holds(history[|calls|], history[0], pack, YearsOf(pack, calls))
    ensures YearsOf(pack, calls) != {} ==> Wired(history[|calls|], pack)
    decreases |calls|
  {
    hide Holds, IsRun, BarrelsApart, FilesApart, Wired, SameOutside, Fresh, Accepts;
    if calls == [] {
      assert YearsOf(pack, calls) == {};
      NothingHeld(history[0], pack);
    } else {
      var n := |calls| - 1;
      HistoryHolds(history[..n + 1], pack, calls[..n]);
      var c := calls[n];
      assert IsCall(history[n], history[n + 1], pack, c);
      MoreYears(pack, calls);
      if !c.dryRun && Accepts(pack, c.year) {
        RunMeans(history[n], history[n + 1], pack, c.year);
        YearsInRange(pack, calls);
        RunHolds(history[n], history[n + 1], history[0], pack, YearsOf(pack, calls[..n]), c.year);
      } else {
        assert YearsOf(pack, calls) == YearsOf(pack, calls[..n]);
      }
    }
  }

  lemma YearsInRange(pack: Pack, calls: seq<Call>)
    ensures forall y :: y in YearsOf(pack, calls) ==> InRange(y)
  {
    hide HasMissingScope;
  }

  lemma MoreYears(pack: Pack, calls: seq<Call>)
    requires calls != []
    ensures var c := calls[|calls| - 1];
      YearsOf(pack, calls) == YearsOf(pack, calls[..|calls| - 1]) + if !c.dryRun && Accepts(pack, c.year) then {c.year} else {}
  {
    hide Accepts;
    var n := |calls| - 1;
    var init := calls[..n];
    forall y | y in YearsOf(pack, calls)
      ensures y in YearsOf(pack, init) || (y == calls[n].year && !calls[n].dryRun && Accepts(pack, y))
    {
      var i :| 0 <= i < |calls| && !calls[i].dryRun && Accepts(pack, calls[i].year) && calls[i].year == y;
      if i < n {
        assert init[i].year == y;
      }
    }
    forall y | y in YearsOf(pack, init) ensures y in YearsOf(pack, calls) {
      var i :| 0 <= i < |init| && !init[i].dryRun && Accepts(pack, init[i].year) && init[i].year == y;
      assert calls[i].year == y;
    }
    if !calls[n].dryRun && Accepts(pack, calls[n].year) {
      assert calls[n].year in YearsOf(pack, calls);
    }
  }

  /** Two listings of the same modules are the same, when no two are for one year. */
  lemma {:induction false} ListingUnique(a: seq<Module>, b: seq<Module>)
    requires Ascending(a) && Distinct(a) && Ascending(b) && Distinct(b)
    requires forall m :: m in a <==> m in b
    requires forall m, n :: m in a && n in a && m.year == n.year ==> m == n
    ensures a == b
    decreases |a|
  {
    hide Ascending, Distinct;
    FirstIsMember(a);
    FirstIsMember(b);
    if a != [] {
      SmallestFirst(a, b);
      TailsAgree(a, b);
      ListingUnique(a[1..], b[1..]);
      assert a == [a[0]] + a[1..] && b == [b[0]] + b[1..];
    }
  }

  lemma TailsAgree(a: seq<Module>, b: seq<Module>)
    requires a != [] && b != [] && a[0] == b[0]
    requires Ascending(a) && Distinct(a) && Ascending(b) && Distinct(b)
    requires forall m :: m in a <==> m in b
    ensures Ascending(a[1..]) && Distinct(a[1..]) && Ascending(b[1..]) && Distinct(b[1..])
    ensures forall m :: m in a[1..] <==> m in b[1..]
    ensures forall m :: m in a[1..] ==> m in a
  {
    hide Ascending, Distinct;
    TailMembers(a);
    TailMembers(b);
  }

  lemma FirstIsMember(a: seq<Module>)
    ensures a != [] ==> a[0] in a
  {
  }

  lemma TailMembers(a: seq<Module>)
    requires a != [] && Distinct(a) && Ascending(a)
    ensures forall m :: m in a[1..] <==> m in a && m != a[0]
    ensures Distinct(a[1..]) && Ascending(a[1..])
  {
    assert a == [a[0]] + a[1..];
  }

  lemma SmallestFirst(a: seq<Module>, b: seq<Module>)
    requires a != [] && b != [] && Ascending(a) && Ascending(b)
    requires a[0] in b && b[0] in a
    requires forall m, n :: m in a && n in a && m.year == n.year ==> m == n
    ensures a[0] == b[0]
  {
    var i :| 0 <= i < |b| && b[i] == a[0];
    var j :| 0 <= j < |a| && a[j] == b[0];
    assert a[0].year <= a[j].year && b[0].year <= b[i].year;
  }

  /** What the years leave is one tree: files and barrels. */
  lemma OneTree(f: Files, g: Files, base: Files, pack: Pack, ys: set<int>)
    requires BarrelsApart(pack.barrels) && FilesApart(pack)
    requires Holds(f, base, pack, ys) && Holds(g, base, pack, ys) && Wired(f, pack) && Wired(g, pack)
    requires forall i :: 0 <= i < |pack.barrels| ==> NoTwins(f, pack.barrels[i])
    ensures f == g
  {
    hide BarrelsApart, FilesApart, Render, WithFiles, Modules;
    assert SameOutside(f, g, pack) by {
      hide IsBarrelPath;
      HeldAlike(f, g, base, pack, ys);
      HeldAlike(g, f, base, pack, ys);
    }
    forall i | 0 <= i < |pack.barrels|
      ensures pack.barrels[i].path in f && pack.barrels[i].path in g && f[pack.barrels[i].path] == g[pack.barrels[i].path]
    {
      SameBarrel(f, g, pack, i);
    }
    forall p ensures p in f <==> p in g {
    }
    forall p | p in f ensures f[p] == g[p] {
    }
  }

  lemma HeldAlike(f: Files, g: Files, base: Files, pack: Pack, ys: set<int>)
    requires Holds(f, base, pack, ys) && Holds(g, base, pack, ys)
    ensures forall p :: p in f && !IsBarrelPath(pack, p) ==> p in g && f[p] == g[p]
  {
    hide IsBarrelPath, Fresh;
    forall p | p in f && !IsBarrelPath(pack, p) ensures p in g && f[p] == g[p] {
      if p !in base {
        var y :| y in ys && p in Fresh(pack, y);
      }
    }
  }

  lemma SameMembers(ms: seq<Module>, ns: seq<Module>)
    requires Members(ms) == Members(ns)
    ensures forall m :: m in ms <==> m in ns
  {
    forall m: Module ensures m in ms <==> m in ns {
      assert m in ms <==> m in Members(ms);
      assert m in ns <==> m in Members(ns);
    }
  }

  lemma NoTwinMembers(ms: seq<Module>, files: Files, b: Barrel)
    requires IsListing(ms, files, b) && NoTwins(files, b)
    ensures forall m, n :: m in ms && n in ms && m.year == n.year ==> m == n
  {
    hide Modules;
    forall m: Module, n: Module | m in ms && n in ms && m.year == n.year ensures m == n {
      assert m in Members(ms) && n in Members(ms);
    }
  }

  lemma SameBarrel(f: Files, g: Files, pack: Pack, i: nat)
    requires BarrelsApart(pack.barrels) && SameOutside(f, g, pack) && i < |pack.barrels|
    requires WiredBarrel(f, pack.barrels[i]) && WiredBarrel(g, pack.barrels[i]) && NoTwins(f, pack.barrels[i])
    ensures f[pack.barrels[i].path] == g[pack.barrels[i].path]
  {
    hide Render, Modules;
    var b := pack.barrels[i];
    SameModules(f, g, pack, i);
    var ms :| IsListing(ms, f, b) && f[b.path] == Render(b, ms);
    var ns :| IsListing(ns, g, b) && g[b.path] == Render(b, ns);
    SameMembers(ms, ns);
    NoTwinMembers(ms, f, b);
    ListingUnique(ms, ns);
  }

  /**
   * Whatever the order and repetition of the calls: two histories over the
   * same years, from the same tree, end in the same tree.
   */
  lemma Confluence(h: seq<Files>, calls: seq<Call>, h': seq<Files>, calls': seq<Call>, pack: Pack)
    requires BarrelsApart(pack.barrels) && FilesApart(pack)
    requires IsHistory(h, pack, calls) && IsHistory(h', pack, calls') && h[0] == h'[0]
    requires YearsOf(pack, calls) == YearsOf(pack, calls') != {}
    requires forall i :: 0 <= i < |pack.barrels| ==> NoTwins(h[|calls|], pack.barrels[i])
    ensures h[|calls|] == h'[|calls'|]
  {
    hide Holds, IsCall, BarrelsApart, FilesApart, Wired, YearsOf, NoTwins;
    HistoryHolds(h, pack, calls);
    HistoryHolds(h', pack, calls');
    OneTree(h[|calls|], h'[|calls'|], h[0], pack, YearsOf(pack, calls));
  }

  /** A file that was there before, and is no barrel, is never changed. */
  lemma ExistingFilesStay(h: seq<Files>, calls: seq<Call>, pack: Pack, p: Path)
    requires BarrelsApart(pack.barrels) && FilesApart(pack) && IsHistory(h, pack, calls)
    requires p in h[0] && !IsBarrelPath(pack, p)
    ensures p in h[|calls|] && h[|calls|][p] == h[0][p]
  {
    hide IsCall, BarrelsApart, FilesApart, Wired, YearsOf, IsBarrelPath;
    HistoryHolds(h, pack, calls);
  }
}
