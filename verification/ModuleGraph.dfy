/** The walk over a program's import graph that a build makes: breadth first, each file once, each
    with an index reserved before it is compiled. */
module ModuleGraph {
  import opened Wrappers

  datatype Error<P> =
    | CannotCompile(path: P, message: string)
    | CannotResolve(source: string, path: P, message: string)
    | NotInstalled(name: string, path: P)

  /** What an import specifier names. */
  datatype Kind<T> = Std | Host | Relative(target: T) | Package(target: T) | UnknownPackage(name: string)

  datatype Import = Import(source: string, names: seq<string>)

  /** A module compiled under given options has the same imports under all of them. */
  datatype Compiled<!O> = Compiled(imports: seq<Import>, bytes: O -> seq<bv8>)

  /** The files of a program, seen through the compiler and the resolver. */
  datatype Project<!P, !T, !O> = Project(
    compile: P -> Result<Compiled<O>, string>,
    classify: (P, string) -> Kind<T>,
    resolve: T -> Result<P, string>,
    join: (string, string) -> string,
    parent: string -> string)

  /** A file in the order it is found: its path, its key in the archive and its logical directory. */
  datatype Found<P> = Found(path: P, key: string, dir: string)

  /** An import that leads to a file, and the key the file would get from it. */
  datatype Dep<P> = Dep(imp: Import, path: P, key: string)

  // ----- one module's imports -----

  function Key<P, T, O>(p: Project<P, T, O>, dir: string, kind: Kind<T>, source: string): string {
    if kind.Package? then p.join("pkg", source) else p.join(dir, source)
  }

  /** What one import adds: nothing, a file, or an error. */
  function DepOf<P, T, O>(p: Project<P, T, O>, f: Found<P>, imp: Import): Result<seq<Dep<P>>, Error<P>> {
    var kind := p.classify(f.path, imp.source);
    match kind
    case Std => Ok([])
    case Host => Ok([])
    case UnknownPackage(name) => Err(NotInstalled(name, f.path))
    case _ =>
      match p.resolve(kind.target)
      case Err(m) => Err(CannotResolve(imp.source, f.path, m))
      case Ok(path) => Ok([Dep(imp, path, Key(p, f.dir, kind, imp.source))])
  }

  /** The files the imports lead to, in order, or the first error among them. */
  function Deps<P, T, O>(p: Project<P, T, O>, f: Found<P>, imports: seq<Import>): Result<seq<Dep<P>>, Error<P>> {
    if imports == [] then Ok([])
    else
      var n := |imports| - 1;
      match Deps(p, f, imports[..n])
      case Err(e) => Err(e)
      case Ok(ds) => match DepOf(p, f, imports[n]) case Err(e) => Err(e) case Ok(d) => Ok(ds + d)
  }

  function DepsOf<P, T, O>(p: Project<P, T, O>, f: Found<P>): Result<seq<Dep<P>>, Error<P>> {
    match p.compile(f.path)
    case Err(m) => Err(CannotCompile(f.path, m))
    case Ok(c) => Deps(p, f, c.imports)
  }

  lemma {:induction false} FirstErrorStays<P, T, O>(p: Project<P, T, O>, f: Found<P>, imports: seq<Import>, k: nat)
    requires k <= |imports| && Deps(p, f, imports[..k]).Err?
    ensures Deps(p, f, imports) == Deps(p, f, imports[..k])
    decreases |imports|
  {
    if k < |imports| {
      var n := |imports| - 1;
      assert imports[..n][..k] == imports[..k];
      FirstErrorStays(p, f, imports[..n], k);
    } else {
      assert imports[..k] == imports;
    }
  }

  // ----- the list of files found -----

  ghost predicate Has<P>(found: seq<Found<P>>, path: P) {
    exists k :: 0 <= k < |found| && found[k].path == path
  }

  ghost predicate Once<P>(found: seq<Found<P>>) {
    forall j, k :: 0 <= j < k < |found| ==> found[j].path != found[k].path
  }

  /** Files not yet found are added at the end, in the order they are met. */
  ghost function AddAll<P, T, O>(p: Project<P, T, O>, found: seq<Found<P>>, ds: seq<Dep<P>>): seq<Found<P>> {
    if ds == [] then found
    else AddOne(p, AddAll(p, found, ds[..|ds| - 1]), ds[|ds| - 1])
  }

  ghost function AddOne<P, T, O>(p: Project<P, T, O>, found: seq<Found<P>>, d: Dep<P>): seq<Found<P>> {
    if Has(found, d.path) then found else found + [Found(d.path, d.key, p.parent(d.key))]
  }

  /** Every file the resolver can lead to is one of finitely many. */
  ghost predicate Finite<P, T(!new), O>(p: Project<P, T, O>, files: set<P>) {
    forall t :: p.resolve(t).Ok? ==> p.resolve(t).value in files
  }

  ghost predicate Within<P>(found: seq<Found<P>>, files: set<P>) {
    Once(found) && forall k :: 0 <= k < |found| ==> found[k].path in files
  }

  lemma {:induction false} FewFound<P>(found: seq<Found<P>>, files: set<P>)
    requires Within(found, files)
    ensures |found| <= |files|
    decreases |found|
  {
    if found != [] {
      var n := |found| - 1;
      FewFound(found[..n], files - {found[n].path});
    }
  }

  lemma {:induction false} DepsResolve<P, T(!new), O>(p: Project<P, T, O>, f: Found<P>, imports: seq<Import>, files: set<P>)
    requires Finite(p, files) && Deps(p, f, imports).Ok?
    ensures forall d :: d in Deps(p, f, imports).value ==> d.path in files
    decreases |imports|
  {
    if imports != [] {
      DepsResolve(p, f, imports[..|imports| - 1], files);
    }
  }

  lemma {:induction false} AddAllWithin<P, T, O>(p: Project<P, T, O>, found: seq<Found<P>>, ds: seq<Dep<P>>, files: set<P>)
    requires Within(found, files) && forall d :: d in ds ==> d.path in files
    ensures Within(AddAll(p, found, ds), files) && found <= AddAll(p, found, ds)
    ensures forall d :: d in ds ==> Has(AddAll(p, found, ds), d.path)
    decreases |ds|
  {
    if ds != [] {
      var n := |ds| - 1;
      AddAllWithin(p, found, ds[..n], files);
      var before, after := AddAll(p, found, ds[..n]), AddAll(p, found, ds);
      assert after == AddOne(p, before, ds[n]);
      forall d | d in ds ensures Has(after, d.path) {
        if d == ds[n] {
          AddsIt(p, before, d);
        } else {
          assert d in ds[..n];
          HasMore(before, after, d.path);
        }
      }
    }
  }

  lemma AddsIt<P, T, O>(p: Project<P, T, O>, found: seq<Found<P>>, d: Dep<P>)
    ensures Has(AddOne(p, found, d), d.path)
  {
    var after := AddOne(p, found, d);
    if !Has(found, d.path) {
      assert after[|found|].path == d.path;
    }
  }

  lemma HasMore<P>(found: seq<Found<P>>, more: seq<Found<P>>, path: P)
    requires found <= more && Has(found, path)
    ensures Has(more, path)
  {
    var k :| 0 <= k < |found| && found[k].path == path;
    assert more[k].path == path;
  }

  /** The walk: from a list whose first `i` files have been compiled, to the complete list. */
  ghost function Walk<P, T(!new), O>(p: Project<P, T, O>, files: set<P>, found: seq<Found<P>>,
      i: nat): Result<seq<Found<P>>, Error<P>>
    requires Finite(p, files) && Within(found, files) && i <= |found|
    decreases |files| - i
  {
    if i == |found| then Ok(found)
    else
      match DepsOf(p, found[i])
      case Err(e) => Err(e)
      case Ok(ds) =>
        DepsResolve(p, found[i], p.compile(found[i].path).value.imports, files);
        AddAllWithin(p, found, ds, files);
        FewFound(AddAll(p, found, ds), files);
        Walk(p, files, AddAll(p, found, ds), i + 1)
  }

  // ----- what the walk finds -----

  /** The file an import of `x` leads to. */
  ghost predicate ImportLeads<P, T, O>(p: Project<P, T, O>, x: P, imp: Import, y: P) {
    var kind := p.classify(x, imp.source);
    (kind.Relative? || kind.Package?) && p.resolve(kind.target) == Ok(y)
  }

  ghost predicate ImportBroken<P, T, O>(p: Project<P, T, O>, x: P, imp: Import) {
    var kind := p.classify(x, imp.source);
    kind.UnknownPackage? || ((kind.Relative? || kind.Package?) && p.resolve(kind.target).Err?)
  }

  ghost predicate Leads<P, T, O>(p: Project<P, T, O>, x: P, y: P) {
    p.compile(x).Ok? && exists imp :: imp in p.compile(x).value.imports && ImportLeads(p, x, imp, y)
  }

  ghost predicate Broken<P, T, O>(p: Project<P, T, O>, x: P) {
    p.compile(x).Err? || exists imp :: imp in p.compile(x).value.imports && ImportBroken(p, x, imp)
  }

  /** `x` is `n` imports away from the entry. */
  ghost predicate Away<P(!new), T, O>(p: Project<P, T, O>, entry: P, n: nat, x: P) {
    if n == 0 then x == entry else exists y :: Away(p, entry, n - 1, y) && Leads(p, y, x)
  }

  ghost predicate Reachable<P(!new), T, O>(p: Project<P, T, O>, entry: P, x: P) {
    exists n: nat :: Away(p, entry, n, x)
  }

  lemma {:induction false} DepsFail<P, T, O>(p: Project<P, T, O>, f: Found<P>, imports: seq<Import>)
    ensures Deps(p, f, imports).Err? <==> exists imp :: imp in imports && ImportBroken(p, f.path, imp)
    ensures Deps(p, f, imports).Err? ==> Deps(p, f, imports).error.path == f.path
    decreases |imports|
  {
    if imports != [] {
      var n := |imports| - 1;
      DepsFail(p, f, imports[..n]);
      assert imports == imports[..n] + [imports[n]];
      assert DepOf(p, f, imports[n]).Err? <==> ImportBroken(p, f.path, imports[n]);
      if Deps(p, f, imports[..n]).Err? {
        var imp :| imp in imports[..n] && ImportBroken(p, f.path, imp);
        assert imp in imports;
      } else if ImportBroken(p, f.path, imports[n]) {
        assert imports[n] in imports;
      }
    }
  }

  lemma {:induction false} DepsAre<P, T, O>(p: Project<P, T, O>, f: Found<P>, imports: seq<Import>)
    requires Deps(p, f, imports).Ok?
    ensures forall d :: d in Deps(p, f, imports).value ==> d.imp in imports && ImportLeads(p, f.path, d.imp, d.path)
    ensures forall imp, y :: imp in imports && ImportLeads(p, f.path, imp, y) ==>
      exists d :: d in Deps(p, f, imports).value && d.path == y
    decreases |imports|
  {
    if imports != [] {
      var n := |imports| - 1;
      DepsAre(p, f, imports[..n]);
      assert imports == imports[..n] + [imports[n]];
      var ds, d := Deps(p, f, imports[..n]).value, DepOf(p, f, imports[n]).value;
      forall imp, y | imp in imports && ImportLeads(p, f.path, imp, y)
        ensures exists d :: d in Deps(p, f, imports).value && d.path == y
      {
        if imp in imports[..n] {
          var d' :| d' in ds && d'.path == y;
          assert d' in ds + d;
        } else {
          assert d[0] in ds + d && d[0].path == y;
        }
      }
    }
  }

  lemma DepsOfAre<P, T, O>(p: Project<P, T, O>, f: Found<P>)
    ensures DepsOf(p, f).Err? <==> Broken(p, f.path)
    ensures DepsOf(p, f).Err? ==> DepsOf(p, f).error.path == f.path
    ensures DepsOf(p, f).Ok? ==> forall y :: Leads(p, f.path, y) <==> exists d :: d in DepsOf(p, f).value && d.path == y
  {
    if p.compile(f.path).Ok? {
      DepsFail(p, f, p.compile(f.path).value.imports);
      if DepsOf(p, f).Ok? {
        DepsAre(p, f, p.compile(f.path).value.imports);
      }
    }
  }

  /** All the files found are reachable, and the first `i` are sound and lead to found files only. */
  ghost predicate Explored<P(!new), T, O>(p: Project<P, T, O>, entry: P, found: seq<Found<P>>, i: nat)
    requires i <= |found|
  {
    && (forall k :: 0 <= k < |found| ==> Reachable(p, entry, found[k].path))
    && (forall k :: 0 <= k < i ==> !Broken(p, found[k].path))
    && (forall k, y :: 0 <= k < i && Leads(p, found[k].path, y) ==> Has(found, y))
  }

  lemma ReachMore<P(!new), T, O>(p: Project<P, T, O>, entry: P, x: P, y: P)
    requires Reachable(p, entry, x) && Leads(p, x, y)
    ensures Reachable(p, entry, y)
  {
    var n: nat :| Away(p, entry, n, x);
    assert Away(p, entry, n + 1, y);
  }

  lemma {:induction false} AddAllReachable<P(!new), T, O>(p: Project<P, T, O>, entry: P, found: seq<Found<P>>, ds: seq<Dep<P>>)
    requires forall k :: 0 <= k < |found| ==> Reachable(p, entry, found[k].path)
    requires forall d :: d in ds ==> Reachable(p, entry, d.path)
    ensures var all := AddAll(p, found, ds); forall k :: 0 <= k < |all| ==> Reachable(p, entry, all[k].path)
    decreases |ds|
  {
    if ds != [] {
      var n := |ds| - 1;
      AddAllReachable(p, entry, found, ds[..n]);
      assert ds[n] in ds;
      assert AddAll(p, found, ds) == AddOne(p, AddAll(p, found, ds[..n]), ds[n]);
    }
  }

  lemma ExploreOne<P(!new), T(!new), O>(p: Project<P, T, O>, files: set<P>, entry: P, found: seq<Found<P>>, i: nat)
    requires Finite(p, files) && Within(found, files) && i < |found| && Explored(p, entry, found, i) && DepsOf(p, found[i]).Ok?
    ensures var all := AddAll(p, found, DepsOf(p, found[i]).value);
      Within(all, files) && found <= all && Explored(p, entry, all, i + 1)
  {
    var f, ds := found[i], DepsOf(p, found[i]).value;
    DepsOfAre(p, f);
    DepsResolve(p, f, p.compile(f.path).value.imports, files);
    AddAllWithin(p, found, ds, files);
    forall d | d in ds ensures Reachable(p, entry, d.path) {
      ReachMore(p, entry, f.path, d.path);
    }
    AddAllReachable(p, entry, found, ds);
    LeadsStay(p, found, AddAll(p, found, ds), i);
  }

  /** When the next file leads to listed files only, so do all the files up to it. */
  lemma LeadsStay<P(!new), T, O>(p: Project<P, T, O>, found: seq<Found<P>>, all: seq<Found<P>>, i: nat)
    requires i < |found| && found <= all
    requires forall k, y :: 0 <= k < i && Leads(p, found[k].path, y) ==> Has(found, y)
    requires forall y :: Leads(p, found[i].path, y) ==> Has(all, y)
    ensures forall k, y :: 0 <= k < i + 1 && Leads(p, all[k].path, y) ==> Has(all, y)
  {
    forall k, y | 0 <= k < i + 1 && Leads(p, all[k].path, y) ensures Has(all, y) {
      assert all[k] == found[k];
      if k < i {
        HasMore(found, all, y);
      }
    }
  }

  lemma {:induction false} WalkExplores<P(!new), T(!new), O>(p: Project<P, T, O>, files: set<P>, entry: P,
      found: seq<Found<P>>, i: nat)
    requires Finite(p, files) && Within(found, files) && i <= |found| && Explored(p, entry, found, i)
    ensures match Walk(p, files, found, i)
      case Ok(all) => found <= all && Once(all) && Explored(p, entry, all, |all|)
      case Err(e) => Reachable(p, entry, e.path) && Broken(p, e.path)
    decreases |files| - i
  {
    FewFound(found, files);
    if i < |found| {
      DepsOfAre(p, found[i]);
      if DepsOf(p, found[i]).Ok? {
        ExploreOne(p, files, entry, found, i);
        WalkExplores(p, files, entry, AddAll(p, found, DepsOf(p, found[i]).value), i + 1);
      }
    }
  }

  lemma {:induction false} ClosedHasAll<P(!new), T, O>(p: Project<P, T, O>, entry: P, found: seq<Found<P>>, n: nat, x: P)
    requires Explored(p, entry, found, |found|) && Has(found, entry) && Away(p, entry, n, x)
    ensures Has(found, x)
  {
    if n > 0 {
      var y :| Away(p, entry, n - 1, y) && Leads(p, y, x);
      ClosedHasAll(p, entry, found, n - 1, y);
    }
  }

  /** The walk from the entry ends, with cycles and diamonds or without. It fails exactly when some
      reachable file cannot be compiled or has an import that leads nowhere, and it names such a
      file; otherwise it lists the reachable files and no others, each once, the entry first. */
  lemma WalkFindsReachable<P(!new), T(!new), O>(p: Project<P, T, O>, files: set<P>, entry: Found<P>)
    requires Finite(p, files) && entry.path in files
    ensures var r := Walk(p, files, [entry], 0);
      && (r.Err? <==> exists x :: Reachable(p, entry.path, x) && Broken(p, x))
      && (r.Err? ==> Reachable(p, entry.path, r.error.path) && Broken(p, r.error.path))
      && (r.Ok? ==>
           && r.value != [] && r.value[0] == entry && Once(r.value)
           && forall x :: Has(r.value, x) <==> Reachable(p, entry.path, x))
  {
    assert Away(p, entry.path, 0, entry.path);
    WalkExplores(p, files, entry.path, [entry], 0);
    var r := Walk(p, files, [entry], 0);
    if r.Ok? {
      assert r.value[0] == entry;
      forall x | Reachable(p, entry.path, x) ensures Has(r.value, x) {
        var n: nat :| Away(p, entry.path, n, x);
        ClosedHasAll(p, entry.path, r.value, n, x);
      }
    }
  }
}
