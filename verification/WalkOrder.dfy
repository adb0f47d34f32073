/** The order in which the walk lists files, and the keys it gives them: each file comes from the first listed file
    that leads to it, by the first import of that file that does, and files fewer imports away come first. */
module WalkOrder {
  import opened Wrappers
  import opened ModuleGraph

  /** Import `m` of `imports` is the first that leads from `x` to `y`. */
  ghost predicate FirstImport<P, T, O>(p: Project<P, T, O>, x: P, imports: seq<Import>, m: nat, y: P) {
    m < |imports| && ImportLeads(p, x, imports[m], y) && forall n :: 0 <= n < m ==> !ImportLeads(p, x, imports[n], y)
  }

  /** The key of a file met through an import of `f`: under `pkg` for a package, else relative to `f`. */
  function KeyThrough<P, T, O>(p: Project<P, T, O>, f: Found<P>, imp: Import): string {
    if p.classify(f.path, imp.source).Package? then p.join("pkg", imp.source) else p.join(f.dir, imp.source)
  }

  ghost predicate NamedThrough<P, T, O>(p: Project<P, T, O>, f: Found<P>, imports: seq<Import>, path: P, key: string) {
    exists m: nat :: FirstImport(p, f.path, imports, m, path) && key == KeyThrough(p, f, imports[m])
  }

  ghost predicate FirstDep<P>(ds: seq<Dep<P>>, m: nat, path: P) {
    m < |ds| && ds[m].path == path && forall n :: 0 <= n < m ==> ds[n].path != path
  }

  lemma NamedMore<P, T, O>(p: Project<P, T, O>, f: Found<P>, imports: seq<Import>, path: P, key: string, n: nat)
    requires n <= |imports| && NamedThrough(p, f, imports[..n], path, key)
    ensures NamedThrough(p, f, imports, path, key)
  {
    var m: nat :| FirstImport(p, f.path, imports[..n], m, path) && key == KeyThrough(p, f, imports[..n][m]);
    forall k | 0 <= k < m ensures !ImportLeads(p, f.path, imports[k], path) {
      assert imports[..n][k] == imports[k];
    }
    assert FirstImport(p, f.path, imports, m, path);
  }

  /** The first of the files met under a path has its key from the first import that leads there. */
  lemma {:induction false} FirstDepIsNamed<P, T, O>(p: Project<P, T, O>, f: Found<P>, imports: seq<Import>, m: nat, path: P)
    requires Deps(p, f, imports).Ok? && FirstDep(Deps(p, f, imports).value, m, path)
    ensures NamedThrough(p, f, imports, path, Deps(p, f, imports).value[m].key)
    decreases |imports|
  {
    var n := |imports| - 1;
    var ds, d := Deps(p, f, imports[..n]).value, DepOf(p, f, imports[n]).value;
    if m < |ds| {
      forall k | 0 <= k < m ensures ds[k].path != path {
        assert ds[k] == (ds + d)[k];
      }
      FirstDepIsNamed(p, f, imports[..n], m, path);
      NamedMore(p, f, imports, path, ds[m].key, n);
    } else {
      assert (ds + d)[m] == d[0];
      forall e | e in ds ensures e.path != path {
        var k :| 0 <= k < |ds| && ds[k] == e;
        assert (ds + d)[k] == e;
      }
      NoneBefore(p, f, imports[..n], path);
      forall k | 0 <= k < n ensures !ImportLeads(p, f.path, imports[k], path) {
        assert imports[..n][k] == imports[k];
      }
      assert FirstImport(p, f.path, imports, n, path);
    }
  }

  lemma NoneBefore<P, T, O>(p: Project<P, T, O>, f: Found<P>, imports: seq<Import>, path: P)
    requires Deps(p, f, imports).Ok? && forall d :: d in Deps(p, f, imports).value ==> d.path != path
    ensures forall k :: 0 <= k < |imports| ==> !ImportLeads(p, f.path, imports[k], path)
  {
    DepsAre(p, f, imports);
  }

  // ----- what one file adds to the list -----

  /** The file at `k` was added for the first of `ds` under its path. */
  ghost predicate AddedFor<P, T, O>(p: Project<P, T, O>, found: seq<Found<P>>, ds: seq<Dep<P>>, g: Found<P>, m: nat) {
    FirstDep(ds, m, g.path) && g == Found(ds[m].path, ds[m].key, p.parent(ds[m].key)) && !Has(found, g.path)
  }

  lemma {:induction false} Added<P, T, O>(p: Project<P, T, O>, found: seq<Found<P>>, ds: seq<Dep<P>>, k: nat) returns (m: nat)
    requires |found| <= k < |AddAll(p, found, ds)|
    ensures AddedFor(p, found, ds, AddAll(p, found, ds)[k], m)
    decreases |ds|
  {
    var n := |ds| - 1;
    var before, all := AddAll(p, found, ds[..n]), AddAll(p, found, ds);
    assert all == AddOne(p, before, ds[n]);
    AddAllKeeps(p, found, ds[..n]);
    if k < |before| {
      m := Added(p, found, ds[..n], k);
      assert ds[..n][m] == ds[m];
    } else {
      m := n;
      forall j | 0 <= j < n ensures ds[j].path != ds[n].path {
        assert Has(before, ds[..n][j].path);
      }
      if Has(found, ds[n].path) {
        HasMore(found, before, ds[n].path);
      }
    }
  }

  lemma {:induction false} AddAllKeeps<P, T, O>(p: Project<P, T, O>, found: seq<Found<P>>, ds: seq<Dep<P>>)
    ensures found <= AddAll(p, found, ds)
    ensures forall j :: 0 <= j < |ds| ==> Has(AddAll(p, found, ds), ds[j].path)
    decreases |ds|
  {
    if ds != [] {
      var n := |ds| - 1;
      AddAllKeeps(p, found, ds[..n]);
      var before, all := AddAll(p, found, ds[..n]), AddAll(p, found, ds);
      assert all == AddOne(p, before, ds[n]);
      AddsIt(p, before, ds[n]);
      forall j | 0 <= j < n ensures Has(all, ds[j].path) {
        HasMore(before, all, ds[..n][j].path);
      }
    }
  }

  // ----- where each file comes from -----

  /** File `k` comes from file `j`: the first in the list that leads to it, and by its first import that does. */
  ghost predicate ComesFrom<P, T, O>(p: Project<P, T, O>, found: seq<Found<P>>, k: nat, j: nat)
    requires k < |found|
  {
    && j < k && p.compile(found[j].path).Ok? && Leads(p, found[j].path, found[k].path)
    && (forall i :: 0 <= i < j ==> !Leads(p, found[i].path, found[k].path))
    && NamedThrough(p, found[j], p.compile(found[j].path).value.imports, found[k].path, found[k].key)
    && found[k].dir == p.parent(found[k].key)
  }

  /** Every file but the entry comes from one of the first `i`, and later files from later ones. */
  ghost predicate InOrder<P, T, O>(p: Project<P, T, O>, found: seq<Found<P>>, from: seq<nat>, i: nat) {
    && |from| == |found| && i <= |found|
    && (forall k :: 1 <= k < |found| ==> from[k] < i && ComesFrom(p, found, k, from[k]))
    && (forall j, k :: 1 <= j <= k < |found| ==> from[j] <= from[k])
  }

  lemma NewComesFrom<P(!new), T(!new), O>(p: Project<P, T, O>, entry: P, found: seq<Found<P>>, i: nat, k: nat)
    requires i < |found| && Explored(p, entry, found, i) && DepsOf(p, found[i]).Ok?
    requires var all := AddAll(p, found, DepsOf(p, found[i]).value); |found| <= k < |all| && found <= all
    ensures ComesFrom(p, AddAll(p, found, DepsOf(p, found[i]).value), k, i)
  {
    var f, ds := found[i], DepsOf(p, found[i]).value;
    var all := AddAll(p, found, ds);
    var m := Added(p, found, ds, k);
    FirstDepIsNamed(p, f, p.compile(f.path).value.imports, m, all[k].path);
    DepsOfAre(p, f);
    assert ds[m] in ds;
    forall j | 0 <= j < i ensures !Leads(p, all[j].path, all[k].path) {
      assert all[j] == found[j];
    }
  }

  lemma ComesFromStays<P, T, O>(p: Project<P, T, O>, found: seq<Found<P>>, all: seq<Found<P>>, k: nat, j: nat)
    requires found <= all && k < |found| && ComesFrom(p, found, k, j)
    ensures ComesFrom(p, all, k, j)
  {
    assert all[k] == found[k] && all[j] == found[j];
    forall i | 0 <= i < j ensures !Leads(p, all[i].path, all[k].path) {
      assert all[i] == found[i];
    }
  }

  lemma OrderGrows<P(!new), T(!new), O>(p: Project<P, T, O>, entry: P, found: seq<Found<P>>, from: seq<nat>, i: nat)
    requires 1 <= |found| && i < |found| && Explored(p, entry, found, i) && DepsOf(p, found[i]).Ok? && InOrder(p, found, from, i)
    ensures var all := AddAll(p, found, DepsOf(p, found[i]).value);
            found <= all && InOrder(p, all, from + seq(|all| - |found|, _ => i), i + 1)
  {
    var ds := DepsOf(p, found[i]).value;
    var all := AddAll(p, found, ds);
    AddAllKeeps(p, found, ds);
    var from' := from + seq(|all| - |found|, _ => i);
    forall k | 1 <= k < |all| ensures from'[k] < i + 1 && ComesFrom(p, all, k, from'[k]) {
      if k < |found| {
        ComesFromStays(p, found, all, k, from[k]);
      } else {
        NewComesFrom(p, entry, found, i, k);
      }
    }
  }

  lemma WalkSteps<P(!new), T(!new), O>(p: Project<P, T, O>, files: set<P>, found: seq<Found<P>>, i: nat, more: seq<Found<P>>)
    requires Finite(p, files) && Within(found, files) && Within(more, files) && i < |found| && i < |more|
    requires Walk(p, files, found, i).Ok? && DepsOf(p, found[i]).Ok? ==> more == AddAll(p, found, DepsOf(p, found[i]).value)
    ensures Walk(p, files, found, i).Ok? ==> DepsOf(p, found[i]).Ok? && Walk(p, files, found, i) == Walk(p, files, more, i + 1)
  {
  }

  lemma {:induction false} WalkInOrder<P(!new), T(!new), O>(p: Project<P, T, O>, files: set<P>, entry: P,
      found: seq<Found<P>>, from: seq<nat>, i: nat) returns (all: seq<nat>)
    requires Finite(p, files) && Within(found, files) && i <= |found| && Explored(p, entry, found, i)
    requires 1 <= |found| && InOrder(p, found, from, i) && Walk(p, files, found, i).Ok?
    ensures var r := Walk(p, files, found, i).value; InOrder(p, r, all, |r|)
    decreases |files| - i
  {
    FewFound(found, files);
    if i == |found| {
      all := from;
    } else {
      var more := AddAll(p, found, DepsOf(p, found[i]).value);
      ExploreOne(p, files, entry, found, i);
      OrderGrows(p, entry, found, from, i);
      WalkSteps(p, files, found, i, more);
      all := WalkInOrder(p, files, entry, more, from + seq(|more| - |found|, _ => i), i + 1);
    }
  }

  // ----- breadth first -----

  /** `x` is at most `n` imports away from the entry. */
  ghost predicate Near<P(!new), T, O>(p: Project<P, T, O>, entry: P, n: nat, x: P) {
    exists m: nat :: m <= n && Away(p, entry, m, x)
  }

  lemma NearMore<P(!new), T, O>(p: Project<P, T, O>, entry: P, n: nat, x: P, y: P)
    requires Near(p, entry, n, x) && Leads(p, x, y)
    ensures Near(p, entry, n + 1, y)
  {
    var m: nat :| m <= n && Away(p, entry, m, x);
    assert Away(p, entry, m + 1, y);
  }

  lemma {:induction false} NearFirst<P(!new), T(!new), O>(p: Project<P, T, O>, entry: P, found: seq<Found<P>>, from: seq<nat>,
      n: nat, j: nat, k: nat)
    requires InOrder(p, found, from, |found|) && Explored(p, entry, found, |found|) && Once(found)
    requires j <= k < |found| && found[0].path == entry && Near(p, entry, n, found[k].path)
    ensures Near(p, entry, n, found[j].path)
    decreases n
  {
    if j == 0 {
      assert Away(p, entry, 0, entry);
    } else {
      var m: nat :| m <= n && Away(p, entry, m, found[k].path);
      assert m > 0;
      var y :| Away(p, entry, m - 1, y) && Leads(p, y, found[k].path);
      assert Has(found, entry);
      ClosedHasAll(p, entry, found, m - 1, y);
      var i :| 0 <= i < |found| && found[i].path == y;
      assert Near(p, entry, n - 1, found[i].path);
      assert from[j] <= from[k] <= i;
      NearFirst(p, entry, found, from, n - 1, from[j], i);
      NearMore(p, entry, n - 1, found[from[j]].path, found[j].path);
    }
  }

  /** The order of the list. Every file but the entry comes from the first file in the list that leads to it, and has
      its key from that file's first import that does; later files come from later ones; and a file fewer imports
      away from the entry comes before one that is further. */
  lemma WalkIsBreadthFirst<P(!new), T(!new), O>(p: Project<P, T, O>, files: set<P>, entry: Found<P>)
    requires Finite(p, files) && entry.path in files && Walk(p, files, [entry], 0).Ok?
    ensures var found := Walk(p, files, [entry], 0).value;
            && (exists from :: InOrder(p, found, from, |found|))
            && forall n: nat, j, k :: 0 <= j <= k < |found| && Near(p, entry.path, n, found[k].path) ==>
                 Near(p, entry.path, n, found[j].path)
  {
    assert Away(p, entry.path, 0, entry.path);
    var from := WalkInOrder(p, files, entry.path, [entry], [0], 0);
    WalkExplores(p, files, entry.path, [entry], 0);
    var found := Walk(p, files, [entry], 0).value;
    assert found[0] == entry;
    forall n: nat, j, k | 0 <= j <= k < |found| && Near(p, entry.path, n, found[k].path)
      ensures Near(p, entry.path, n, found[j].path)
    {
      NearFirst(p, entry.path, found, from, n, j, k);
    }
  }
}
