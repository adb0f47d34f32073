/** Two programs whose generators meddle with themselves, act by act on both engines. */
module Meddlers {
  import opened Wrappers
  import opened Coroutines
  import opened Runs
  import T = TreeWalker
  import V = FiberVm

  /** Code is a counter. The main code makes a generator and resumes it twice; its body first does
      `meddle` to its own handle and then yields 1 and 2. */
  function Meddling(meddle: Act<int, int, int>): Program<int, int, int> {
    Program(
      (c: int) =>
        if c == 0 then Make(10)
        else if c == 1 || c == 2 then Resume(0, c)
        else if c == 10 then meddle
        else if c == 11 then Yield(1)
        else if c == 12 then Yield(2)
        else Return,
      (c: int, _: Reply<int, int>) => c + 1)
  }

  type Trace = seq<Event<int, int>>

  const ENTERED: Trace := [Asked(0, 1)]
  const RESUMED: Trace := [Asked(0, 1), Asked(0, 5), Told(0, Done)]
  const CLOSED: Trace := [Asked(0, 1), Shut(0)]
  const ASKED_AGAIN: Trace := [Asked(0, 1), Shut(0), Told(0, Item(1)), Asked(0, 2)]

  const TREE_MADE: T.Tree<int, int, int> := T.Tree([T.Gen(Some(T.Unpolled(10)), None, None, false)], [], [1], [], [])
  const VM_MADE: V.Vm<int, int, int> := V.Vm([V.Gen(Some(V.Ready(10)), false, false)], [1], [], [])

  /** The tree-walker with its one generator started: two codes when the body is being polled. */
  function TreeAt(body: Option<T.Future<int>>, out: Option<int>, inp: Option<int>, codes: seq<int>, trace: Trace)
    : T.Tree<int, int, int>
  {
    var polls := if |codes| == 2 then [0] else [];
    T.Tree([T.Gen(body, out, inp, true)], polls, codes, polls, trace)
  }

  /** The VM with its one generator started. */
  function VmAt(fiber: Option<V.Fiber<int>>, done: bool, codes: seq<int>, trace: Trace): V.Vm<int, int, int> {
    V.Vm([V.Gen(fiber, true, done)], codes, if |codes| == 2 then [0] else [], trace)
  }

  /** Five acts in a row. */
  lemma FiveActs<S>(f: S -> S, a: S, b: S, c: S, d: S, e: S, last: S)
    requires f(a) == b && f(b) == c && f(c) == d && f(d) == e && f(e) == last
    ensures Iter(f, a, 5)
         == last
  {
    assert Iter(f, a, 1) == b && Iter(f, a, 2) == c && Iter(f, a, 3) == d && Iter(f, a, 4) == e;
  }

  /** A body that resumes itself: the tree-walker feeds that input to the next yield, whose value is
      lost; the VM's consumer gets it. */
  lemma SelfResumeDiffers()
    ensures var p := Meddling(Resume(0, 5));
            var tree := Iter(T.TreeStep(p), T.TreeStart(0), 5).trace;
            var vm := Iter(V.VmStep(p), V.VmStart(0), 5).trace;
            |tree| > 3 && |vm| > 3 && tree[3] == Told(0, Item(2)) && vm[3] == Told(0, Item(1))
  {
    TreeSelfResume();
    VmSelfResume();
  }

  lemma TreeSelfResume()
    ensures Iter(T.TreeStep(Meddling(Resume(0, 5))), T.TreeStart(0), 5)
         == TreeAt(Some(T.AtYield(12)), None, None, [2], RESUMED + [Told(0, Item(2))])
  {
    TreeMakes(Resume(0, 5));
    TreeEnters(Resume(0, 5));
    TreeResumesItself();
    TreeYieldGoesOn(Resume(0, 5));
    TreeYieldsNext(Resume(0, 5));
    FiveActs(T.TreeStep(Meddling(Resume(0, 5))), T.TreeStart(0), TREE_MADE,
             TreeAt(None, None, None, [1, 10], ENTERED),
             TreeAt(None, None, Some(5), [1, 11], RESUMED),
             TreeAt(None, Some(1), None, [1, 12], RESUMED),
             TreeAt(Some(T.AtYield(12)), None, None, [2], RESUMED + [Told(0, Item(2))]));
  }

  lemma VmSelfResume()
    ensures Iter(V.VmStep(Meddling(Resume(0, 5))), V.VmStart(0), 5)
         == VmAt(None, false, [2, 12], RESUMED + [Told(0, Item(1)), Asked(0, 2)])
  {
    VmMakes(Resume(0, 5));
    VmEnters(Resume(0, 5));
    VmResumesItself();
    VmYields(Resume(0, 5));
    VmReenters(Resume(0, 5));
    FiveActs(V.VmStep(Meddling(Resume(0, 5))), V.VmStart(0), VM_MADE,
             VmAt(None, false, [1, 10], ENTERED),
             VmAt(None, false, [1, 11], RESUMED),
             VmAt(Some(V.WantsValue(11)), false, [2], RESUMED + [Told(0, Item(1))]),
             VmAt(None, false, [2, 12], RESUMED + [Told(0, Item(1)), Asked(0, 2)]));
  }

  /** A body that closes itself and yields: the tree-walker puts the body back, so the next resume
      goes on with it; to the VM the generator is over. */
  lemma SelfCloseDiffers()
    ensures var p := Meddling(Close(0));
            var tree := Iter(T.TreeStep(p), T.TreeStart(0), 6).trace;
            var vm := Iter(V.VmStep(p), V.VmStart(0), 6).trace;
            |tree| > 4 && |vm| > 4 && tree[4] == Told(0, Item(2)) && vm[4] == Told(0, Done)
  {
    TreeSelfClose();
    TreeYieldsAgain(Close(0));
    VmSelfClose();
    VmMainStops(Close(0));
  }

  lemma TreeSelfClose()
    ensures Iter(T.TreeStep(Meddling(Close(0))), T.TreeStart(0), 5)
         == TreeAt(None, None, None, [2, 12], ASKED_AGAIN)
  {
    TreeMakes(Close(0));
    TreeEnters(Close(0));
    TreeClosesItself();
    TreeBodyIsPutBack(Close(0));
    TreeReenters(Close(0));
    FiveActs(T.TreeStep(Meddling(Close(0))), T.TreeStart(0), TREE_MADE,
             TreeAt(None, None, None, [1, 10], ENTERED),
             TreeAt(None, None, None, [1, 11], CLOSED),
             TreeAt(Some(T.AtYield(11)), None, None, [2], CLOSED + [Told(0, Item(1))]),
             TreeAt(None, None, None, [2, 12], ASKED_AGAIN));
  }

  lemma VmSelfClose()
    ensures Iter(V.VmStep(Meddling(Close(0))), V.VmStart(0), 5)
         == VmAt(Some(V.WantsValue(11)), true, [3], ASKED_AGAIN + [Told(0, Done)])
  {
    VmMakes(Close(0));
    VmEnters(Close(0));
    VmClosesItself();
    VmYieldsClosed(Close(0));
    VmIsOver(Close(0));
    FiveActs(V.VmStep(Meddling(Close(0))), V.VmStart(0), VM_MADE,
             VmAt(None, false, [1, 10], ENTERED),
             VmAt(None, true, [1, 11], CLOSED),
             VmAt(Some(V.WantsValue(11)), true, [2], CLOSED + [Told(0, Item(1))]),
             VmAt(Some(V.WantsValue(11)), true, [3], ASKED_AGAIN + [Told(0, Done)]));
  }

  // ----- their acts, one by one -----

  lemma TreeMakes(meddle: Act<int, int, int>)
    ensures T.TreeStep(Meddling(meddle))(T.TreeStart(0))
         == TREE_MADE
  {
  }

  lemma TreeEnters(meddle: Act<int, int, int>)
    ensures T.TreeStep(Meddling(meddle))(TREE_MADE)
         == TreeAt(None, None, None, [1, 10], ENTERED)
  {
  }

  lemma TreeResumesItself()
    ensures T.TreeStep(Meddling(Resume(0, 5)))(TreeAt(None, None, None, [1, 10], ENTERED))
         == TreeAt(None, None, Some(5), [1, 11], RESUMED)
  {
  }

  lemma TreeYieldGoesOn(meddle: Act<int, int, int>)
    ensures T.TreeStep(Meddling(meddle))(TreeAt(None, None, Some(5), [1, 11], RESUMED))
         == TreeAt(None, Some(1), None, [1, 12], RESUMED)
  {
  }

  lemma TreeYieldsNext(meddle: Act<int, int, int>)
    ensures T.TreeStep(Meddling(meddle))(TreeAt(None, Some(1), None, [1, 12], RESUMED))
         == TreeAt(Some(T.AtYield(12)), None, None, [2], RESUMED + [Told(0, Item(2))])
  {
  }

  lemma TreeClosesItself()
    ensures T.TreeStep(Meddling(Close(0)))(TreeAt(None, None, None, [1, 10], ENTERED))
         == TreeAt(None, None, None, [1, 11], CLOSED)
  {
  }

  lemma TreeBodyIsPutBack(meddle: Act<int, int, int>)
    ensures T.TreeStep(Meddling(meddle))(TreeAt(None, None, None, [1, 11], CLOSED))
         == TreeAt(Some(T.AtYield(11)), None, None, [2], CLOSED + [Told(0, Item(1))])
  {
  }

  lemma TreeReenters(meddle: Act<int, int, int>)
    ensures T.TreeStep(Meddling(meddle))(TreeAt(Some(T.AtYield(11)), None, None, [2], CLOSED + [Told(0, Item(1))]))
         == TreeAt(None, None, None, [2, 12], ASKED_AGAIN)
  {
  }

  lemma TreeYieldsAgain(meddle: Act<int, int, int>)
    ensures T.TreeStep(Meddling(meddle))(TreeAt(None, None, None, [2, 12], ASKED_AGAIN))
         == TreeAt(Some(T.AtYield(12)), None, None, [3], ASKED_AGAIN + [Told(0, Item(2))])
  {
  }

  lemma VmMakes(meddle: Act<int, int, int>)
    ensures V.VmStep(Meddling(meddle))(V.VmStart(0))
         == VM_MADE
  {
  }

  lemma VmEnters(meddle: Act<int, int, int>)
    ensures V.VmStep(Meddling(meddle))(VM_MADE)
         == VmAt(None, false, [1, 10], ENTERED)
  {
  }

  lemma VmResumesItself()
    ensures V.VmStep(Meddling(Resume(0, 5)))(VmAt(None, false, [1, 10], ENTERED))
         == VmAt(None, false, [1, 11], RESUMED)
  {
  }

  lemma VmYields(meddle: Act<int, int, int>)
    ensures V.VmStep(Meddling(meddle))(VmAt(None, false, [1, 11], RESUMED))
         == VmAt(Some(V.WantsValue(11)), false, [2], RESUMED + [Told(0, Item(1))])
  {
  }

  lemma VmReenters(meddle: Act<int, int, int>)
    ensures V.VmStep(Meddling(meddle))(VmAt(Some(V.WantsValue(11)), false, [2], RESUMED + [Told(0, Item(1))]))
         == VmAt(None, false, [2, 12], RESUMED + [Told(0, Item(1)), Asked(0, 2)])
  {
  }

  lemma VmClosesItself()
    ensures V.VmStep(Meddling(Close(0)))(VmAt(None, false, [1, 10], ENTERED))
         == VmAt(None, true, [1, 11], CLOSED)
  {
  }

  lemma VmYieldsClosed(meddle: Act<int, int, int>)
    ensures V.VmStep(Meddling(meddle))(VmAt(None, true, [1, 11], CLOSED))
         == VmAt(Some(V.WantsValue(11)), true, [2], CLOSED + [Told(0, Item(1))])
  {
  }

  lemma VmIsOver(meddle: Act<int, int, int>)
    ensures V.VmStep(Meddling(meddle))(VmAt(Some(V.WantsValue(11)), true, [2], CLOSED + [Told(0, Item(1))]))
         == VmAt(Some(V.WantsValue(11)), true, [3], ASKED_AGAIN + [Told(0, Done)])
  {
  }

  lemma VmMainStops(meddle: Act<int, int, int>)
    ensures V.VmStep(Meddling(meddle))(VmAt(Some(V.WantsValue(11)), true, [3], ASKED_AGAIN + [Told(0, Done)]))
         == VmAt(Some(V.WantsValue(11)), true, [3], ASKED_AGAIN + [Told(0, Done)])
  {
  }
}
