/** The lexical scope chain: scopes shared by reference, looked up outward through their parents. */
module Scopes {
  import opened Wrappers

  datatype AssignError = Undefined | Immutable

  datatype Binding<V> = Binding(value: V, mutable: bool)

  /** A scope; `defers` names the list of deferred calls it owns, if it bounds an activation. */
  datatype Scope<V> = Scope(vars: map<string, Binding<V>>, parent: Option<nat>, defers: Option<nat>)

  /** All the scopes made so far, and how many defer lists. A handle is a scope's index, so handles
      to one scope share it; a scope's parent was made before it. */
  datatype Store<V> = Store(scopes: seq<Scope<V>>, lists: nat)
  {
    ghost predicate Valid() {
      && (forall i :: 0 <= i < |scopes| && scopes[i].parent.Some? ==> scopes[i].parent.value < i)
      && (forall i :: 0 <= i < |scopes| && scopes[i].defers.Some? ==> scopes[i].defers.value < lists)
    }
  }

  /** The nearest scope, from `i` outward, that satisfies `has`. */
  ghost function Nearest<V>(s: Store<V>, i: nat, has: Scope<V> -> bool): (r: Option<nat>)
    requires s.Valid() && i < |s.scopes|
    ensures r.Some? ==> r.value <= i && has(s.scopes[r.value])
  {
    if has(s.scopes[i]) then Some(i)
    else if s.scopes[i].parent.None? then None
    else Nearest(s, s.scopes[i].parent.value, has)
  }

  ghost function Binds<V>(name: string): Scope<V> -> bool {
    (s: Scope<V>) => name in s.vars
  }

  ghost function Bounds<V>(): Scope<V> -> bool {
    (s: Scope<V>) => s.defers.Some?
  }

  /** The scope a name resolves to. */
  ghost function Home<V>(s: Store<V>, i: nat, name: string): (r: Option<nat>)
    requires s.Valid() && i < |s.scopes|
    ensures r.Some? ==> r.value <= i && name in s.scopes[r.value].vars
  {
    Nearest(s, i, Binds(name))
  }

  ghost function Lookup<V>(s: Store<V>, i: nat, name: string): Option<V>
    requires s.Valid() && i < |s.scopes|
  {
    match Home(s, i, name)
    case None => None
    case Some(h) => Some(s.scopes[h].vars[name].value)
  }

  ghost function DeferScope<V>(s: Store<V>, i: nat): Option<nat>
    requires s.Valid() && i < |s.scopes|
  {
    match Nearest(s, i, Bounds())
    case None => None
    case Some(h) => s.scopes[h].defers
  }

  /** The whole environment of a scope as one map: inner bindings over outer ones. */
  ghost function Flat<V>(s: Store<V>, i: nat): map<string, Binding<V>>
    requires s.Valid() && i < |s.scopes|
  {
    match s.scopes[i].parent
    case None => s.scopes[i].vars
    case Some(p) => Flat(s, p) + s.scopes[i].vars
  }

  lemma {:induction false} LookupIsFlat<V>(s: Store<V>, i: nat, name: string)
    requires s.Valid() && i < |s.scopes|
    ensures name in Flat(s, i) <==> Home(s, i, name).Some?
    ensures name in Flat(s, i) ==> Flat(s, i)[name] == s.scopes[Home(s, i, name).value].vars[name]
    ensures Lookup(s, i, name) == if name in Flat(s, i) then Some(Flat(s, i)[name].value) else None
    decreases i
  {
    if name !in s.scopes[i].vars && s.scopes[i].parent.Some? {
      LookupIsFlat(s, s.scopes[i].parent.value, name);
    }
  }

  // ----- the operations, as changes of the store -----

  datatype Op<V> =
    | Child(i: nat)
    | Define(i: nat, name: string, value: V, mutable: bool)
    | Assign(i: nat, name: string, value: V)
    | InstallDefers(i: nat)

  ghost function Bound<V>(s: Store<V>, i: nat, name: string, b: Binding<V>): Store<V>
    requires i < |s.scopes|
  {
    s.(scopes := s.scopes[i := s.scopes[i].(vars := s.scopes[i].vars[name := b])])
  }

  /** What assigning gives: the scope whose binding changes, or why none does. */
  ghost function Target<V>(s: Store<V>, i: nat, name: string): (r: Option<nat>)
    requires s.Valid() && i < |s.scopes|
    ensures r.Some? ==> r.value <= i && name in s.scopes[r.value].vars && s.scopes[r.value].vars[name].mutable
  {
    match Home(s, i, name)
    case None => None
    case Some(h) => if s.scopes[h].vars[name].mutable then Some(h) else None
  }

  ghost function Apply<V>(s: Store<V>, op: Op<V>): (t: Store<V>)
    requires s.Valid()
    ensures t.Valid() && |s.scopes| <= |t.scopes|
  {
    if op.i >= |s.scopes| then s
    else match op
      case Child(i) => s.(scopes := s.scopes + [Scope(map[], Some(i), None)])
      case Define(i, name, v, m) => if name in s.scopes[i].vars then s else Bound(s, i, name, Binding(v, m))
      case Assign(i, name, v) =>
        (match Target(s, i, name)
         case None => s
         case Some(h) => Bound(s, h, name, Binding(v, true)))
      case InstallDefers(i) => s.(scopes := s.scopes[i := s.scopes[i].(defers := Some(s.lists))], lists := s.lists + 1)
  }

  // ----- the operations in place -----

  /** The scopes, behind their handles. */
  class Environments<V> {
    var scopes: seq<Scope<V>>
    var lists: nat

    ghost function Value(): Store<V>
      reads this
    {
      Store(scopes, lists)
    }

    constructor ()
      ensures Value() == Store([Scope(map[], None, None)], 0) && Value().Valid()
    {
      scopes, lists := [Scope(map[], None, None)], 0;
    }

    method NewChild(i: nat) returns (c: nat)
      requires Value().Valid() && i < |scopes|
      modifies this
      ensures Value() == Apply(old(Value()), Child(i)) && c == |old(scopes)|
    {
      c := |scopes|;
      scopes := scopes + [Scope(map[], Some(i), None)];
    }

    method DefineIn(i: nat, name: string, value: V, mutable: bool) returns (ok: bool)
      requires Value().Valid() && i < |scopes|
      modifies this
      ensures Value() == Apply(old(Value()), Define(i, name, value, mutable))
      ensures ok <==> name !in old(scopes)[i].vars
    {
      if name in scopes[i].vars {
        return false;
      }
      scopes := scopes[i := scopes[i].(vars := scopes[i].vars[name := Binding(value, mutable)])];
      return true;
    }

    method Get(i: nat, name: string) returns (r: Option<V>)
      requires Value().Valid() && i < |scopes|
      ensures r == Lookup(Value(), i, name)
      decreases i
    {
      if name in scopes[i].vars {
        return Some(scopes[i].vars[name].value);
      }
      match scopes[i].parent
      case None => return None;
      case Some(p) => r := Get(p, name);
    }

    method AssignFrom(i: nat, name: string, value: V) returns (error: Option<AssignError>)
      requires Value().Valid() && i < |scopes|
      modifies this
      ensures Value() == Apply(old(Value()), Assign(i, name, value))
      ensures error == (match Home(old(Value()), i, name)
        case None => Some(Undefined)
        case Some(h) => if old(scopes)[h].vars[name].mutable then None else Some(Immutable))
      decreases i
    {
      if name in scopes[i].vars {
        if !scopes[i].vars[name].mutable {
          return Some(Immutable);
        }
        scopes := scopes[i := scopes[i].(vars := scopes[i].vars[name := scopes[i].vars[name].(value := value)])];
        return None;
      }
      match scopes[i].parent
      case None => return Some(Undefined);
      case Some(p) => error := AssignFrom(p, name, value);
    }

    method InstallDeferScope(i: nat) returns (list: nat)
      requires Value().Valid() && i < |scopes|
      modifies this
      ensures Value() == Apply(old(Value()), InstallDefers(i)) && list == old(lists)
    {
      list := lists;
      lists := lists + 1;
      scopes := scopes[i := scopes[i].(defers := Some(list))];
    }

    method FindDeferScope(i: nat) returns (r: Option<nat>)
      requires Value().Valid() && i < |scopes|
      ensures r == DeferScope(Value(), i)
      decreases i
    {
      if scopes[i].defers.Some? {
        return scopes[i].defers;
      }
      match scopes[i].parent
      case None => return None;
      case Some(p) => r := FindDeferScope(p);
    }
  }

  // ----- one operation, seen from every scope -----

  /** The same scopes with the same parents, and the same ones satisfying `has`. */
  ghost predicate SameChains<V>(s: Store<V>, t: Store<V>, has: Scope<V> -> bool) {
    && |s.scopes| <= |t.scopes|
    && forall i :: 0 <= i < |s.scopes| ==> SameAt(s.scopes[i], t.scopes[i], has)
  }

  ghost predicate SameAt<V>(a: Scope<V>, b: Scope<V>, has: Scope<V> -> bool) {
    a.parent == b.parent && has(a) == has(b)
  }

  lemma {:induction false} NearestSame<V>(s: Store<V>, t: Store<V>, i: nat, has: Scope<V> -> bool)
    requires s.Valid() && t.Valid() && i < |s.scopes| && SameChains(s, t, has)
    ensures Nearest(s, i, has) == Nearest(t, i, has)
    decreases i
  {
    assert SameAt(s.scopes[i], t.scopes[i], has);
    if !has(s.scopes[i]) && s.scopes[i].parent.Some? {
      NearestSame(s, t, s.scopes[i].parent.value, has);
    }
  }

  /** An assignment changes one binding, and is seen under that name by exactly the scopes that
      resolve the name to the same binding. */
  lemma AssignSeen<V>(s: Store<V>, i: nat, name: string, v: V, j: nat, other: string)
    requires s.Valid() && i < |s.scopes| && j < |s.scopes| && Target(s, i, name).Some?
    ensures Home(Apply(s, Assign(i, name, v)), j, other) == Home(s, j, other)
    ensures Lookup(Apply(s, Assign(i, name, v)), j, other) ==
      if other == name && Home(s, j, name) == Home(s, i, name) then Some(v) else Lookup(s, j, other)
  {
    var t := Apply(s, Assign(i, name, v));
    assert SameChains(s, t, Binds(other));
    NearestSame(s, t, j, Binds(other));
  }

  /** A failed assignment changes nothing, and fails exactly on an unbound or immutable name. */
  lemma AssignFails<V>(s: Store<V>, i: nat, name: string, v: V)
    requires s.Valid() && i < |s.scopes|
    ensures Target(s, i, name).None? <==> (name in Flat(s, i) ==> !Flat(s, i)[name].mutable)
    ensures Target(s, i, name).None? ==> Apply(s, Assign(i, name, v)) == s
  {
    LookupIsFlat(s, i, name);
  }

  /** `h` is on the chain from `j`, with nothing that satisfies `has` nearer. */
  ghost predicate Sees<V>(s: Store<V>, j: nat, h: nat, has: Scope<V> -> bool)
    requires s.Valid() && j < |s.scopes|
  {
    j == h || (!has(s.scopes[j]) && s.scopes[j].parent.Some? && Sees(s, s.scopes[j].parent.value, h, has))
  }

  /** Only scope `h` changes, and afterwards it satisfies `has`. */
  ghost predicate Gains<V>(s: Store<V>, t: Store<V>, h: nat, has: Scope<V> -> bool) {
    && h < |s.scopes| == |t.scopes| && t.scopes[h].parent == s.scopes[h].parent && has(t.scopes[h])
    && forall i :: 0 <= i < |s.scopes| && i != h ==> t.scopes[i] == s.scopes[i]
  }

  lemma {:induction false} NearestGains<V>(s: Store<V>, t: Store<V>, j: nat, h: nat, has: Scope<V> -> bool)
    requires s.Valid() && t.Valid() && j < |s.scopes| && Gains(s, t, h, has)
    ensures Nearest(t, j, has) == if Sees(s, j, h, has) then Some(h) else Nearest(s, j, has)
    decreases j
  {
    if j != h && !has(s.scopes[j]) && s.scopes[j].parent.Some? {
      NearestGains(s, t, s.scopes[j].parent.value, h, has);
    }
  }

  /** A new binding, mutable or not as asked, is seen by exactly the scopes that reach it before another of its
      name, and nothing else changes. */
  lemma DefineSeen<V>(s: Store<V>, i: nat, name: string, v: V, m: bool, j: nat, other: string)
    requires s.Valid() && i < |s.scopes| && j < |s.scopes| && name !in s.scopes[i].vars
    ensures Lookup(Apply(s, Define(i, name, v, m)), j, other) ==
      if other == name && Sees(s, j, i, Binds(name)) then Some(v) else Lookup(s, j, other)
    ensures Sees(s, j, i, Binds(name)) ==>
      var flat := Flat(Apply(s, Define(i, name, v, m)), j); name in flat && flat[name] == Binding(v, m)
  {
    var t := Apply(s, Define(i, name, v, m));
    assert Gains(s, t, i, Binds(name));
    NearestGains(s, t, j, i, Binds(name));
    LookupIsFlat(t, j, name);
    if other != name {
      assert SameChains(s, t, Binds(other));
      NearestSame(s, t, j, Binds(other));
    }
  }

  /** A name the scope already binds cannot be defined there again. */
  lemma DefineFails<V>(s: Store<V>, i: nat, name: string, v: V, m: bool)
    requires s.Valid() && i < |s.scopes| && name in s.scopes[i].vars
    ensures Apply(s, Define(i, name, v, m)) == s
  {
  }

  /** A new activation's defer list serves exactly the scopes inside it and not inside a nearer one;
      lookups do not change. */
  lemma DefersSeen<V>(s: Store<V>, i: nat, j: nat, name: string)
    requires s.Valid() && i < |s.scopes| && j < |s.scopes|
    ensures DeferScope(Apply(s, InstallDefers(i)), j) == if Sees(s, j, i, Bounds()) then Some(s.lists) else DeferScope(s, j)
    ensures Lookup(Apply(s, InstallDefers(i)), j, name) == Lookup(s, j, name)
  {
    var t := Apply(s, InstallDefers(i));
    assert Gains(s, t, i, Bounds());
    NearestGains(s, t, j, i, Bounds());
    assert SameChains(s, t, Binds(name));
    NearestSame(s, t, j, Binds(name));
  }

  /** A child sees what its parent sees, and the other scopes see what they saw. */
  lemma ChildSees<V>(s: Store<V>, i: nat, name: string, j: nat)
    requires s.Valid() && i < |s.scopes| && j < |s.scopes|
    ensures Lookup(Apply(s, Child(i)), |s.scopes|, name) == Lookup(s, i, name)
    ensures DeferScope(Apply(s, Child(i)), |s.scopes|) == DeferScope(s, i)
    ensures Lookup(Apply(s, Child(i)), j, name) == Lookup(s, j, name)
    ensures DeferScope(Apply(s, Child(i)), j) == DeferScope(s, j)
  {
    var t := Apply(s, Child(i));
    assert SameChains(s, t, Binds(name)) && SameChains(s, t, Bounds());
    NearestSame(s, t, i, Binds(name));
    NearestSame(s, t, i, Bounds());
    NearestSame(s, t, j, Binds(name));
    NearestSame(s, t, j, Bounds());
  }

  // ----- whole runs -----

  ghost function Exec<V>(s: Store<V>, ops: seq<Op<V>>): (t: Store<V>)
    requires s.Valid()
    ensures t.Valid()
    decreases |ops|
  {
    if ops == [] then s else Apply(Exec(s, ops[..|ops| - 1]), ops[|ops| - 1])
  }

  /** `t` still has every binding of `s`, as mutable as it was, and the immutable ones unchanged. */
  ghost predicate Keeps<V>(s: Store<V>, t: Store<V>) {
    && |s.scopes| <= |t.scopes|
    && forall h, name :: 0 <= h < |s.scopes| && name in s.scopes[h].vars ==>
      KeptAt(s.scopes[h], t.scopes[h], name)
  }

  ghost predicate KeptAt<V>(a: Scope<V>, b: Scope<V>, name: string)
    requires name in a.vars
  {
    && name in b.vars && a.parent == b.parent && b.vars[name].mutable == a.vars[name].mutable
    && (!a.vars[name].mutable ==> b.vars[name].value == a.vars[name].value)
  }

  lemma ApplyKeeps<V>(s: Store<V>, op: Op<V>)
    requires s.Valid()
    ensures Keeps(s, Apply(s, op))
  {
  }

  lemma KeepsOn<V>(s: Store<V>, t: Store<V>, u: Store<V>)
    requires Keeps(s, t) && Keeps(t, u)
    ensures Keeps(s, u)
  {
    forall h, name | 0 <= h < |s.scopes| && name in s.scopes[h].vars ensures KeptAt(s.scopes[h], u.scopes[h], name) {
      assert KeptAt(s.scopes[h], t.scopes[h], name);
      assert KeptAt(t.scopes[h], u.scopes[h], name);
    }
  }

  /** Over any run of operations no binding is lost, none changes its mutability, and no immutable
      binding changes its value. */
  lemma {:induction false} RunKeeps<V>(s: Store<V>, ops: seq<Op<V>>)
    requires s.Valid()
    ensures Keeps(s, Exec(s, ops))
    decreases |ops|
  {
    if ops != [] {
      var n := |ops| - 1;
      RunKeeps(s, ops[..n]);
      ApplyKeeps(Exec(s, ops[..n]), ops[n]);
      KeepsOn(s, Exec(s, ops[..n]), Exec(s, ops));
    }
  }

  ghost predicate NeverDefines<V>(ops: seq<Op<V>>, name: string) {
    forall k :: 0 <= k < |ops| && ops[k].Define? ==> ops[k].name != name
  }

  lemma {:induction false} RunResolvesSame<V>(s: Store<V>, ops: seq<Op<V>>, name: string)
    requires s.Valid() && NeverDefines(ops, name)
    ensures SameChains(s, Exec(s, ops), Binds(name))
    decreases |ops|
  {
    if ops != [] {
      var n := |ops| - 1;
      RunResolvesSame(s, ops[..n], name);
      var t, u := Exec(s, ops[..n]), Exec(s, ops);
      assert u == Apply(t, ops[n]);
      assert SameChains(t, u, Binds(name));
      forall i | 0 <= i < |s.scopes| ensures SameAt(s.scopes[i], u.scopes[i], Binds(name)) {
        assert SameAt(s.scopes[i], t.scopes[i], Binds(name));
        assert SameAt(t.scopes[i], u.scopes[i], Binds(name));
      }
    }
  }

  /** From every scope, a name that means a constant means that constant after any run that defines
      nothing else of the name. */
  lemma ConstantsLast<V>(s: Store<V>, ops: seq<Op<V>>, i: nat, name: string)
    requires s.Valid() && i < |s.scopes| && name in Flat(s, i) && !Flat(s, i)[name].mutable && NeverDefines(ops, name)
    ensures i < |Exec(s, ops).scopes| && Lookup(Exec(s, ops), i, name) == Some(Flat(s, i)[name].value)
  {
    LookupIsFlat(s, i, name);
    RunResolvesSame(s, ops, name);
    NearestSame(s, Exec(s, ops), i, Binds(name));
    RunKeeps(s, ops);
    var h := Home(s, i, name).value;
    assert KeptAt(s.scopes[h], Exec(s, ops).scopes[h], name);
  }
}
