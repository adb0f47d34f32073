/** The two generator engines against each other, over whole runs of any program. */
module Engines {
  import opened Wrappers
  import opened Coroutines
  import opened Runs
  import TreeWalker
  import FiberVm

  ghost predicate AllowedRun<C, V, E>(p: Program<C, V, E>, main: C, n: nat) {
    forall m :: 0 <= m < n ==> Allowed(p, Run(p, Start(main), m))
  }

  lemma VmRuns<C, V, E>(p: Program<C, V, E>, main: C, n: nat)
    ensures FiberVm.Alike(Iter(FiberVm.VmStep(p), FiberVm.VmStart(main), n), Run(p, Start(main), n))
  {
    var alike := (t: FiberVm.Vm<C, V, E>, s: State<C, V, E>) => FiberVm.Alike(t, s);
    forall x, y | alike(x, y) ensures alike(FiberVm.VmStep(p)(x), Step(p)(y)) {
      FiberVm.VmAlike(p, x, y);
    }
    InStep(FiberVm.VmStep(p), Step(p), alike, (s: State<C, V, E>) => true, FiberVm.VmStart(main), Start(main), n);
  }

  lemma TreeRuns<C, V, E>(p: Program<C, V, E>, main: C, n: nat)
    requires AllowedRun(p, main, n)
    ensures TreeWalker.Alike(Iter(TreeWalker.TreeStep(p), TreeWalker.TreeStart(main), n), Run(p, Start(main), n))
  {
    var alike := (t: TreeWalker.Tree<C, V, E>, s: State<C, V, E>) => TreeWalker.Alike(t, s);
    var allowed := (s: State<C, V, E>) => Allowed(p, s);
    forall x, y | alike(x, y) && allowed(y) ensures alike(TreeWalker.TreeStep(p)(x), Step(p)(y)) {
      TreeWalker.TreeAlike(p, x, y);
    }
    forall m | 0 <= m < n ensures allowed(Iter(Step(p), Start(main), m)) {
      assert Allowed(p, Run(p, Start(main), m));
    }
    InStep(TreeWalker.TreeStep(p), Step(p), alike, allowed, TreeWalker.TreeStart(main), Start(main), n);
  }

  /** For any program the engines run the same code with the same handles open, give every resume the
      same outcome, and leave the stack of current generators equal to the nesting of polls. */
  lemma EnginesAgree<C, V, E>(p: Program<C, V, E>, main: C, n: nat)
    requires AllowedRun(p, main, n)
    ensures var t := Iter(TreeWalker.TreeStep(p), TreeWalker.TreeStart(main), n);
            var v := Iter(FiberVm.VmStep(p), FiberVm.VmStart(main), n);
            && t.trace == v.trace && t.codes == v.codes && t.polls == v.polls
            && t.current == t.polls && Pending(t.trace) == Some(t.current)
  {
    TreeRuns(p, main, n);
    VmRuns(p, main, n);
    AnswersNest(p, main, n);
  }

  /** Running both engines side by side gives one trace. */
  method RunBoth<C, V(0), E(0)>(p: Program<C, V, E>, main: C, n: nat) returns (tree: seq<Event<V, E>>, vm: seq<Event<V, E>>)
    requires AllowedRun(p, main, n)
    ensures tree == vm == Run(p, Start(main), n).trace
  {
    var interpreter := new TreeWalker.Interpreter<C, V, E>(main);
    interpreter.Acts(p, n);
    var machine := new FiberVm.Machine<C, V, E>(main);
    machine.Acts(p, n);
    TreeRuns(p, main, n);
    VmRuns(p, main, n);
    return interpreter.trace, machine.trace;
  }

  // ----- programs that leave running generators alone are allowed -----

  /** The next act resumes or closes a generator that is running. */
  predicate Meddles<C, V, E>(p: Program<C, V, E>, s: State<C, V, E>) {
    s.codes != [] && var a := p.act(Last(s.codes)); (a.Resume? || a.Close?) && a.h in s.polls
  }

  ghost predicate Polite<C, V, E>(p: Program<C, V, E>, main: C, n: nat) {
    forall m :: 0 <= m < n ==> !Meddles(p, Run(p, Start(main), m))
  }

  predicate Clean<C>(slot: Slot<C>) {
    match slot
    case Suspended(_, cut) => !cut
    case Running(poked, cut) => !poked && !cut
    case _ => true
  }

  /** No generator was meddled with, and those running are those being polled. */
  ghost predicate AllClean<C, V, E>(s: State<C, V, E>) {
    s.Valid() && forall h :: 0 <= h < |s.slots| ==> Clean(s.slots[h]) && (s.slots[h].Running? ==> h in s.polls)
  }

  lemma PollsPop(polls: seq<nat>, h: nat)
    requires polls != [] && h in polls && h != Last(polls)
    ensures h in ButLast(polls)
  {
    var k :| 0 <= k < |polls| && polls[k] == h;
    assert ButLast(polls)[k] == h;
  }

  lemma StillPolled<C, V, E>(p: Program<C, V, E>, s: State<C, V, E>, h: nat)
    requires AllClean(s) && !Meddles(p, s) && h < |Next(p, s).slots| && Next(p, s).slots[h].Running?
    ensures h in Next(p, s).polls
  {
    if h < |s.slots| && s.slots[h].Running? && |Next(p, s).polls| < |s.polls| {
      PollsPop(s.polls, h);
    }
  }

  lemma StaysClean<C, V, E>(p: Program<C, V, E>, s: State<C, V, E>, h: nat)
    requires AllClean(s) && !Meddles(p, s) && h < |Next(p, s).slots|
    ensures Clean(Next(p, s).slots[h])
  {
  }

  lemma NextClean<C, V, E>(p: Program<C, V, E>, s: State<C, V, E>)
    requires AllClean(s) && !Meddles(p, s)
    ensures AllClean(Next(p, s))
  {
    NextValid(p, s);
    var t := Next(p, s);
    forall h | 0 <= h < |t.slots| ensures Clean(t.slots[h]) && (t.slots[h].Running? ==> h in t.polls) {
      StaysClean(p, s, h);
      if t.slots[h].Running? {
        StillPolled(p, s, h);
      }
    }
  }

  /** A program that never resumes or closes a generator from inside its own run is allowed. */
  lemma PoliteIsAllowed<C, V, E>(p: Program<C, V, E>, main: C, n: nat)
    requires Polite(p, main, n)
    ensures AllowedRun(p, main, n)
  {
    forall m | 0 <= m < n ensures Allowed(p, Run(p, Start(main), m)) {
      PoliteStaysClean(p, main, m);
    }
  }

  lemma PoliteStaysClean<C, V, E>(p: Program<C, V, E>, main: C, n: nat)
    requires forall m :: 0 <= m < n ==> !Meddles(p, Run(p, Start(main), m))
    ensures AllClean(Run(p, Start(main), n))
  {
    var clean := (s: State<C, V, E>) => AllClean(s);
    var polite := (s: State<C, V, E>) => !Meddles(p, s);
    forall x | clean(x) && polite(x) ensures clean(Step(p)(x)) {
      NextClean(p, x);
    }
    forall m | 0 <= m < n ensures polite(Iter(Step(p), Start(main), m)) {
      assert !Meddles(p, Run(p, Start(main), m));
    }
    KeptWhile(Step(p), clean, polite, Start(main), n);
  }

  // ----- and only allowed runs keep the engines together -----

  /** After a disallowed act one engine is inside a body that the other has left or not entered. */
  lemma DisallowedParts<C, V, E>(p: Program<C, V, E>, t: TreeWalker.Tree<C, V, E>, v: FiberVm.Vm<C, V, E>, s: State<C, V, E>)
    requires TreeWalker.Alike(t, s) && FiberVm.Alike(v, s) && !Allowed(p, s)
    ensures TreeWalker.TreeNext(p, t).trace != FiberVm.VmNext(p, v).trace
    ensures |TreeWalker.TreeNext(p, t).polls| == |FiberVm.VmNext(p, v).polls| + 1
  {
    match p.act(Last(s.codes)) {
      case Yield(_) =>
        var h := Last(s.polls);
        assert TreeWalker.Cells(t.gens[h], s.slots[h]);
        assert |TreeWalker.TreeNext(p, t).trace| != |FiberVm.VmNext(p, v).trace|;
      case Resume(h, _) =>
        assert TreeWalker.Cells(t.gens[h], s.slots[h]) && FiberVm.Cells(v.gens[h], s.slots[h]);
        assert |TreeWalker.TreeNext(p, t).trace| != |FiberVm.VmNext(p, v).trace|;
    }
  }

  ghost predicate Together<C, V, E>(p: Program<C, V, E>, main: C, m: nat) {
    Iter(TreeWalker.TreeStep(p), TreeWalker.TreeStart(main), m).trace == Iter(FiberVm.VmStep(p), FiberVm.VmStart(main), m).trace
  }

  /** The engines show the same trace after every act exactly when every act is allowed. */
  lemma TogetherIffAllowed<C, V, E>(p: Program<C, V, E>, main: C, n: nat)
    ensures (forall m :: 0 <= m <= n ==> Together(p, main, m)) <==> AllowedRun(p, main, n)
  {
    if AllowedRun(p, main, n) {
      forall m | 0 <= m <= n ensures Together(p, main, m) {
        EnginesAgree(p, main, m);
      }
    } else {
      var m := FirstDisallowed(p, main, n);
      TreeRuns(p, main, m);
      VmRuns(p, main, m);
      DisallowedParts(p, Iter(TreeWalker.TreeStep(p), TreeWalker.TreeStart(main), m),
                      Iter(FiberVm.VmStep(p), FiberVm.VmStart(main), m), Run(p, Start(main), m));
      assert !Together(p, main, m + 1);
    }
  }

  lemma {:induction false} FirstDisallowed<C, V, E>(p: Program<C, V, E>, main: C, n: nat) returns (m: nat)
    requires !AllowedRun(p, main, n)
    ensures m < n && AllowedRun(p, main, m) && !Allowed(p, Run(p, Start(main), m))
  {
    if AllowedRun(p, main, n - 1) {
      m := n - 1;
    } else {
      m := FirstDisallowed(p, main, n - 1);
    }
  }
}
