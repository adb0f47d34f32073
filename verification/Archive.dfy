/** The two builds that walk the import graph: the archive, with its import edges, and the list of
    module keys and paths. Each keeps its own queue and its own table of reserved indices. */
module Archive {
  import opened Wrappers
  import opened ModuleGraph

  /** An import, pointed at the archive index of its file. */
  datatype Edge = Edge(imp: Import, target: nat)

  datatype Bundle = Bundle(modules: seq<(string, seq<bv8>)>, edges: seq<seq<Edge>>)

  /** The table gives every file found its place in the list. */
  ghost predicate Indexes<P(!new)>(seen: map<P, nat>, found: seq<Found<P>>) {
    && |seen| == |found|
    && (forall k :: 0 <= k < |found| ==> found[k].path in seen && seen[found[k].path] == k)
    && (forall x :: x in seen ==> Has(found, x))
  }

  lemma IndexesOnce<P(!new)>(seen: map<P, nat>, found: seq<Found<P>>, path: P)
    requires Indexes(seen, found)
    ensures Once(found) && (path in seen <==> Has(found, path))
    ensures path in seen ==> seen[path] < |found| && found[seen[path]].path == path
  {
    forall j, k | 0 <= j < k < |found| ensures found[j].path != found[k].path {
      assert seen[found[j].path] == j && seen[found[k].path] == k;
    }
  }

  ghost predicate EdgesTo<P>(found: seq<Found<P>>, ds: seq<Dep<P>>, es: seq<Edge>) {
    |es| == |ds| && forall k :: 0 <= k < |ds| ==> EdgeTo(found, ds[k], es[k])
  }

  ghost predicate EdgeTo<P>(found: seq<Found<P>>, d: Dep<P>, e: Edge) {
    e.imp == d.imp && e.target < |found| && found[e.target].path == d.path
  }

  lemma EdgesStay<P>(found: seq<Found<P>>, more: seq<Found<P>>, ds: seq<Dep<P>>, es: seq<Edge>)
    requires EdgesTo(found, ds, es) && found <= more
    ensures EdgesTo(more, ds, es)
  {
    forall k | 0 <= k < |ds| ensures EdgeTo(more, ds[k], es[k]) {
      assert EdgeTo(found, ds[k], es[k]);
    }
  }

  /** After the imports that lead to `ds`, the table gives every file its place in the list, and the
      list has grown by the files that were added to the queue. */
  ghost predicate Met<P(!new), T, O>(p: Project<P, T, O>, was: seq<Found<P>>, ds: seq<Dep<P>>, seen: map<P, nat>,
      added: seq<Found<P>>) {
    Indexes(seen, AddAll(p, was, ds)) && AddAll(p, was, ds) == was + added
  }

  /** The same, with the edges of those imports. */
  ghost predicate Linked<P(!new), T, O>(p: Project<P, T, O>, was: seq<Found<P>>, ds: seq<Dep<P>>, seen: map<P, nat>,
      added: seq<Found<P>>, es: seq<Edge>) {
    Met(p, was, ds, seen, added) && EdgesTo(was + added, ds, es)
  }

  lemma MeetOne<P(!new), T, O>(p: Project<P, T, O>, was: seq<Found<P>>, ds: seq<Dep<P>>, seen: map<P, nat>,
      added: seq<Found<P>>, d: Dep<P>)
    requires Met(p, was, ds, seen, added)
    ensures d.path in seen ==> Met(p, was, ds + [d], seen, added)
    ensures d.path !in seen ==>
      Met(p, was, ds + [d], seen[d.path := |seen|], added + [Found(d.path, d.key, p.parent(d.key))])
  {
    var found := AddAll(p, was, ds);
    assert (ds + [d])[..|ds|] == ds;
    assert AddAll(p, was, ds + [d]) == AddOne(p, found, d);
    IndexesOnce(seen, found, d.path);
    if d.path !in seen {
      var f := Found(d.path, d.key, p.parent(d.key));
      assert was + (added + [f]) == found + [f];
      var seen' := seen[d.path := |seen|];
      forall x | x in seen' ensures Has(found + [f], x) {
        if x == d.path {
          assert (found + [f])[|found|].path == x;
        } else {
          HasMore(found, found + [f], x);
        }
      }
    }
  }

  lemma DepsMore<P, T, O>(p: Project<P, T, O>, f: Found<P>, imports: seq<Import>, k: nat)
    requires k < |imports| && Deps(p, f, imports[..k]).Ok?
    ensures Deps(p, f, imports[..k + 1]) ==
      match DepOf(p, f, imports[k]) case Err(e) => Err(e) case Ok(d) => Ok(Deps(p, f, imports[..k]).value + d)
  {
    assert imports[..k + 1][..k] == imports[..k];
  }

  /** Where an import leads: nothing to archive, or a file and the key it would get. */
  method Locate<P, T, O>(p: Project<P, T, O>, f: Found<P>, imp: Import) returns (r: Result<seq<Dep<P>>, Error<P>>)
    ensures r == DepOf(p, f, imp) && (r.Ok? ==> |r.value| <= 1)
  {
    var kind := p.classify(f.path, imp.source);
    match kind
    case Std => return Ok([]);
    case Host => return Ok([]);
    case UnknownPackage(name) => return Err(NotInstalled(name, f.path));
    case _ =>
      var resolved := p.resolve(kind.target);
      match resolved
      case Err(m) => return Err(CannotResolve(imp.source, f.path, m));
      case Ok(path) =>
        var key := if kind.Package? then p.join("pkg", imp.source) else p.join(f.dir, imp.source);
        return Ok([Dep(imp, path, key)]);
  }

  /** The index of a file met: the one it has, or the next free one, reserved now. */
  method Reserve<P(==, !new), T, O>(p: Project<P, T, O>, d: Dep<P>, seen0: map<P, nat>, queued: seq<Found<P>>,
      ghost was: seq<Found<P>>, ghost ds: seq<Dep<P>>, ghost es: seq<Edge>)
    returns (seen: map<P, nat>, added: seq<Found<P>>, target: nat)
    requires Linked(p, was, ds, seen0, queued, es)
    ensures Linked(p, was, ds + [d], seen, added, es + [Edge(d.imp, target)])
  {
    IndexesOnce(seen0, was + queued, d.path);
    MeetOne(p, was, ds, seen0, queued, d);
    if d.path in seen0 {
      seen, added, target := seen0, queued, seen0[d.path];
    } else {
      target := |seen0|;
      seen := seen0[d.path := target];
      added := queued + [Found(d.path, d.key, p.parent(d.key))];
    }
    EdgesMore(was + queued, was + added, ds, es, d, target);
  }

  lemma EdgesMore<P>(found: seq<Found<P>>, more: seq<Found<P>>, ds: seq<Dep<P>>, es: seq<Edge>, d: Dep<P>, target: nat)
    requires EdgesTo(found, ds, es) && found <= more && target < |more| && more[target].path == d.path
    ensures EdgesTo(more, ds + [d], es + [Edge(d.imp, target)])
  {
    EdgesStay(found, more, ds, es);
    assert EdgeTo(more, d, Edge(d.imp, target));
  }

  /** The archive build's loop over one module's imports. */
  method Resolve<P(==, !new), T, O>(p: Project<P, T, O>, f: Found<P>, imports: seq<Import>, seen0: map<P, nat>,
      ghost was: seq<Found<P>>)
    returns (r: Result<seq<Edge>, Error<P>>, seen: map<P, nat>, added: seq<Found<P>>)
    requires Indexes(seen0, was)
    ensures match r
      case Err(e) => Deps(p, f, imports) == Err(e)
      case Ok(es) =>
        Deps(p, f, imports).Ok? && Linked(p, was, Deps(p, f, imports).value, seen, added, es)
  {
    seen, added := seen0, [];
    var es: seq<Edge> := [];
    ghost var ds: seq<Dep<P>> := [];
    assert was + [] == was;
    for k := 0 to |imports|
      invariant Deps(p, f, imports[..k]) == Ok(ds) && Linked(p, was, ds, seen, added, es)
    {
      var dep := Locate(p, f, imports[k]);
      DepsMore(p, f, imports, k);
      match dep
      case Err(e) =>
        FirstErrorStays(p, f, imports, k + 1);
        return Err(e), seen, added;
      case Ok(d) =>
        if d != [] {
          var target;
          seen, added, target := Reserve(p, d[0], seen, added, was, ds, es);
          es := es + [Edge(d[0].imp, target)];
          assert d == [d[0]];
        } else {
          assert ds + d == ds;
        }
        ds := ds + d;
    }
    assert imports[..|imports|] == imports;
    return Ok(es), seen, added;
  }

  // ----- the archive -----

  /** The first `i` files are archived, each at its index, with edges into the list. */
  ghost predicate Archived<P, T, O>(p: Project<P, T, O>, options: O, found: seq<Found<P>>, i: nat, b: Bundle) {
    && i <= |found| && |b.modules| == i && |b.edges| == i
    && forall k :: 0 <= k < i ==> ArchivedAt(p, options, found, found[k], b.modules[k], b.edges[k])
  }

  ghost predicate ArchivedAt<P, T, O>(p: Project<P, T, O>, options: O, found: seq<Found<P>>, f: Found<P>,
      m: (string, seq<bv8>), es: seq<Edge>) {
    && p.compile(f.path).Ok? && m == (f.key, p.compile(f.path).value.bytes(options))
    && DepsOf(p, f).Ok? && EdgesTo(found, DepsOf(p, f).value, es)
  }

  lemma ArchiveOne<P, T, O>(p: Project<P, T, O>, options: O, found: seq<Found<P>>, more: seq<Found<P>>, i: nat,
      b: Bundle, m: (string, seq<bv8>), es: seq<Edge>)
    requires Archived(p, options, found, i, b) && i < |found| && found <= more && ArchivedAt(p, options, more, found[i], m, es)
    ensures Archived(p, options, more, i + 1, Bundle(b.modules + [m], b.edges + [es]))
  {
    var b' := Bundle(b.modules + [m], b.edges + [es]);
    forall k | 0 <= k < i + 1 ensures ArchivedAt(p, options, more, more[k], b'.modules[k], b'.edges[k]) {
      if k < i {
        assert ArchivedAt(p, options, found, found[k], b.modules[k], b.edges[k]);
        EdgesStay(found, more, DepsOf(p, found[k]).value, b.edges[k]);
      }
    }
  }

  /** The walk from the entry has reached this list, with its first `i` files compiled. */
  ghost predicate Walking<P(!new), T(!new), O>(p: Project<P, T, O>, files: set<P>, entry: Found<P>, found: seq<Found<P>>, i: nat)
    requires Finite(p, files) && entry.path in files
  {
    Within(found, files) && |found| <= |files| && i <= |found| && Walk(p, files, found, i) == Walk(p, files, [entry], 0)
  }

  lemma WalkStarts<P(!new), T(!new), O>(p: Project<P, T, O>, files: set<P>, entry: Found<P>)
    requires Finite(p, files) && entry.path in files
    ensures Walking(p, files, entry, [entry], 0) && Indexes(map[entry.path := 0], [entry])
  {
    FewFound([entry], files);
    assert [entry][0].path == entry.path;
    assert Has([entry], entry.path);
  }

  lemma WalkEnds<P(!new), T(!new), O>(p: Project<P, T, O>, files: set<P>, entry: Found<P>, found: seq<Found<P>>, i: nat)
    requires Finite(p, files) && entry.path in files && Walking(p, files, entry, found, i) && found[i..] == []
    ensures i == |found| && Walk(p, files, [entry], 0) == Ok(found)
  {
    assert |found[i..]| == |found| - i;
  }

  lemma WalkFails<P(!new), T(!new), O>(p: Project<P, T, O>, files: set<P>, entry: Found<P>, found: seq<Found<P>>, i: nat)
    requires Finite(p, files) && entry.path in files && Walking(p, files, entry, found, i)
    requires i < |found| && DepsOf(p, found[i]).Err?
    ensures Walk(p, files, [entry], 0) == Err(DepsOf(p, found[i]).error)
  {
  }

  lemma WalkGoesOn<P(!new), T(!new), O>(p: Project<P, T, O>, files: set<P>, entry: Found<P>, found: seq<Found<P>>,
      i: nat, added: seq<Found<P>>)
    requires Finite(p, files) && entry.path in files && Walking(p, files, entry, found, i)
    requires i < |found| && DepsOf(p, found[i]).Ok? && AddAll(p, found, DepsOf(p, found[i]).value) == found + added
    ensures Walking(p, files, entry, found + added, i + 1) && (found + added)[i + 1..] == found[i..][1..] + added
  {
    var ds := DepsOf(p, found[i]).value;
    DepsResolve(p, found[i], p.compile(found[i].path).value.imports, files);
    AddAllWithin(p, found, ds, files);
    FewFound(found + added, files);
  }

  /** One turn of the archive build: compile a file and resolve its imports. */
  method CompileOne<P(==, !new), T, O>(p: Project<P, T, O>, options: O, item: Found<P>, seen0: map<P, nat>,
      ghost found: seq<Found<P>>)
    returns (r: Result<((string, seq<bv8>), seq<Edge>), Error<P>>, seen: map<P, nat>, added: seq<Found<P>>)
    requires Indexes(seen0, found)
    ensures match r
      case Err(e) => DepsOf(p, item) == Err(e)
      case Ok((m, es)) =>
        && ArchivedAt(p, options, found + added, item, m, es)
        && AddAll(p, found, DepsOf(p, item).value) == found + added && Indexes(seen, found + added)
  {
    var compiled := p.compile(item.path);
    if compiled.Err? {
      return Err(CannotCompile(item.path, compiled.error)), seen0, [];
    }
    var these;
    these, seen, added := Resolve(p, item, compiled.value.imports, seen0, found);
    if these.Err? {
      return Err(these.error), seen, added;
    }
    r := Ok(((item.key, compiled.value.bytes(options)), these.value));
  }

  /** Builds the archive of everything the entry needs: module `k` is the `k`-th file of the walk,
      under its key, and every edge points at the index of the file its import leads to. */
  method CompileArchive<P(==, !new), T(!new), O>(p: Project<P, T, O>, options: O, entry: Found<P>, ghost files: set<P>)
    returns (r: Result<Bundle, Error<P>>)
    requires Finite(p, files) && entry.path in files
    ensures match r
      case Err(e) => Walk(p, files, [entry], 0) == Err(e)
      case Ok(b) =>
        var w := Walk(p, files, [entry], 0);
        w.Ok? && Archived(p, options, w.value, |w.value|, b)
  {
    var modules: seq<(string, seq<bv8>)>, edges: seq<seq<Edge>> := [], [];
    var queue := [entry];
    var seen := map[entry.path := 0];
    ghost var found := [entry];
    ghost var i := 0;
    WalkStarts(p, files, entry);
    while queue != []
      invariant Walking(p, files, entry, found, i) && queue == found[i..] && Indexes(seen, found)
      invariant Archived(p, options, found, i, Bundle(modules, edges))
      decreases |files| - i
    {
      var item := queue[0];
      queue := queue[1..];
      var one, added;
      one, seen, added := CompileOne(p, options, item, seen, found);
      if one.Err? {
        WalkFails(p, files, entry, found, i);
        return Err(one.error);
      }
      var (m, these) := one.value;
      ArchiveOne(p, options, found, found + added, i, Bundle(modules, edges), m, these);
      modules, edges := modules + [m], edges + [these];
      WalkGoesOn(p, files, entry, found, i, added);
      queue := queue + added;
      found, i := found + added, i + 1;
    }
    WalkEnds(p, files, entry, found, i);
    return Ok(Bundle(modules, edges));
  }

  // ----- the list of keys and paths -----

  /** The list build's loop over one module's imports: it keeps no edges. */
  method Meet<P(==, !new), T, O>(p: Project<P, T, O>, f: Found<P>, imports: seq<Import>, seen0: map<P, nat>,
      ghost was: seq<Found<P>>)
    returns (error: seq<Error<P>>, seen: map<P, nat>, added: seq<Found<P>>)
    requires Indexes(seen0, was)
    ensures if error != [] then Deps(p, f, imports) == Err(error[0])
            else Deps(p, f, imports).Ok? && Met(p, was, Deps(p, f, imports).value, seen, added)
  {
    seen, added := seen0, [];
    ghost var ds: seq<Dep<P>> := [];
    assert was + [] == was;
    for k := 0 to |imports|
      invariant Deps(p, f, imports[..k]) == Ok(ds) && Met(p, was, ds, seen, added)
    {
      var dep := Locate(p, f, imports[k]);
      DepsMore(p, f, imports, k);
      match dep
      case Err(e) =>
        FirstErrorStays(p, f, imports, k + 1);
        return [e], seen, added;
      case Ok(d) =>
        if d != [] {
          MeetOne(p, was, ds, seen, added, d[0]);
          if d[0].path !in seen {
            var reserved := |seen|;
            seen := seen[d[0].path := reserved];
            added := added + [Found(d[0].path, d[0].key, p.parent(d[0].key))];
          }
          assert d == [d[0]];
        } else {
          assert ds + d == ds;
        }
        ds := ds + d;
    }
    assert imports[..|imports|] == imports;
    error := [];
  }

  ghost predicate Listed<P>(found: seq<Found<P>>, i: nat, list: seq<(string, P)>) {
    i == |list| <= |found| && forall k :: 0 <= k < i ==> list[k] == (found[k].key, found[k].path)
  }

  lemma ListOne<P>(found: seq<Found<P>>, i: nat, list: seq<(string, P)>, added: seq<Found<P>>)
    requires Listed(found, i, list) && i < |found|
    ensures Listed(found + added, i + 1, list + [(found[i].key, found[i].path)])
  {
  }

  /** Lists the keys and paths of everything the entry needs, in the order the archive has them. */
  method ModuleSet<P(==, !new), T(!new), O>(p: Project<P, T, O>, entry: Found<P>, ghost files: set<P>)
    returns (r: Result<seq<(string, P)>, Error<P>>)
    requires Finite(p, files) && entry.path in files
    ensures match r
      case Err(e) => Walk(p, files, [entry], 0) == Err(e)
      case Ok(list) => var w := Walk(p, files, [entry], 0); w.Ok? && Listed(w.value, |w.value|, list)
  {
    var list: seq<(string, P)> := [];
    var queue := [entry];
    var seen := map[entry.path := 0];
    ghost var found := [entry];
    ghost var i := 0;
    WalkStarts(p, files, entry);
    while queue != []
      invariant Walking(p, files, entry, found, i) && queue == found[i..] && Indexes(seen, found)
      invariant Listed(found, i, list)
      decreases |files| - i
    {
      var item := queue[0];
      queue := queue[1..];
      var compiled := p.compile(item.path);
      if compiled.Err? {
        WalkFails(p, files, entry, found, i);
        return Err(CannotCompile(item.path, compiled.error));
      }
      var error, added;
      error, seen, added := Meet(p, item, compiled.value.imports, seen, found);
      if error != [] {
        WalkFails(p, files, entry, found, i);
        return Err(error[0]);
      }
      ListOne(found, i, list, added);
      list := list + [(item.key, item.path)];
      WalkGoesOn(p, files, entry, found, i, added);
      queue := queue + added;
      found, i := found + added, i + 1;
    }
    WalkEnds(p, files, entry, found, i);
    return Ok(list);
  }

  /** The two builds agree: they fail together with the same error, and otherwise list the same keys
      in the same order. */
  method BuildBoth<P(==, !new), T(!new), O>(p: Project<P, T, O>, options: O, entry: Found<P>, ghost files: set<P>)
    returns (a: Result<Bundle, Error<P>>, l: Result<seq<(string, P)>, Error<P>>)
    requires Finite(p, files) && entry.path in files
    ensures a.Err? <==> l.Err?
    ensures a.Err? ==> a.error == l.error
    ensures a.Ok? ==> |a.value.modules| == |l.value| && forall k :: 0 <= k < |l.value| ==> a.value.modules[k].0 == l.value[k].0
  {
    a := CompileArchive(p, options, entry, files);
    l := ModuleSet(p, entry, files);
    if a.Ok? {
      ghost var found := Walk(p, files, [entry], 0).value;
      forall k | 0 <= k < |l.value| ensures a.value.modules[k].0 == l.value[k].0 {
        assert ArchivedAt(p, options, found, found[k], a.value.modules[k], a.value.edges[k]);
      }
    }
  }
}
