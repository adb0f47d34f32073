/** The bytecode VM's generators: a suspended fiber, taken out while it runs and put back at a yield. */
module FiberVm {
  import opened Wrappers
  import opened Coroutines
  import opened Runs

  /** A fiber ready to run, or one whose yield expression still wants its value on the stack. */
  datatype Fiber<C> = Ready(code: C) | WantsValue(code: C)

  datatype Gen<C> = Gen(fiber: Option<Fiber<C>>, started: bool, done: bool)

  datatype Vm<C, V, E> = Vm(gens: seq<Gen<C>>, codes: seq<C>, polls: seq<nat>, trace: seq<Event<V, E>>)
  {
    predicate Shaped() {
      |codes| == |polls| + 1 && (polls != [] ==> Last(polls) < |gens|)
    }
  }

  /** Pushing a value where the fiber's yield expects it. */
  function Push<C, V, E>(p: Program<C, V, E>, f: Fiber<C>, x: V): Fiber<C> {
    match f
    case Ready(_) => f
    case WantsValue(c) => Ready(p.go(c, Got(x)))
  }

  // ----- one act, as the handle's methods perform it -----

  /** The innermost run ends, and the resume that started it puts the fiber back or not. */
  function Leaving<C, V, E>(p: Program<C, V, E>, t: Vm<C, V, E>, g: Gen<C>, r: Outcome<V, E>): Vm<C, V, E>
    requires t.Shaped() && t.polls != []
  {
    var h := Last(t.polls);
    Vm(t.gens[h := g], Hand(p, ButLast(t.codes), Answer(r)), ButLast(t.polls), t.trace + [Told(h, r)])
  }

  function ResumingVm<C, V, E>(p: Program<C, V, E>, t: Vm<C, V, E>, h: nat, x: V): Vm<C, V, E>
    requires t.Shaped() && h < |t.gens|
  {
    var g, asked := t.gens[h], t.trace + [Asked(h, x)];
    if g.done || g.fiber.None? then t.(codes := Hand(p, t.codes, Answer(Done)), trace := asked + [Told(h, Done)])
    else
      var fiber := if g.started then Push(p, g.fiber.value, x) else g.fiber.value;
      Vm(t.gens[h := Gen(None, true, g.done)], t.codes + [fiber.code], t.polls + [h], asked)
  }

  function VmNext<C, V, E>(p: Program<C, V, E>, t: Vm<C, V, E>): Vm<C, V, E> {
    if !t.Shaped() then t
    else match p.act(Last(t.codes))
      case Yield(v) =>
        if t.polls == [] then t
        else Leaving(p, t, t.gens[Last(t.polls)].(fiber := Some(WantsValue(Last(t.codes)))), Item(v))
      case Return => if t.polls == [] then t else Leaving(p, t, t.gens[Last(t.polls)].(done := true), Done)
      case Fail(e) => if t.polls == [] then t else Leaving(p, t, t.gens[Last(t.polls)].(done := true), Failed(e))
      case Resume(h, x) => if h < |t.gens| then ResumingVm(p, t, h, x) else t
      case Close(h) =>
        if h < |t.gens|
        then t.(gens := t.gens[h := t.gens[h].(fiber := None, done := true)], codes := Hand(p, t.codes, Unit),
            trace := t.trace + [Shut(h)])
        else t
      case Make(c) =>
        t.(gens := t.gens + [Gen(Some(Ready(c)), false, false)], codes := Hand(p, t.codes, Made(|t.gens|)))
  }

  ghost function VmStep<C, V, E>(p: Program<C, V, E>): Vm<C, V, E> -> Vm<C, V, E> {
    t => VmNext(p, t)
  }

  function VmStart<C, V, E>(main: C): Vm<C, V, E> {
    Vm([], [main], [], [])
  }

  // ----- the same, in place -----

  class Machine<C, V(0), E(0)> {
    var gens: seq<Gen<C>>
    var codes: seq<C>
    var polls: seq<nat>
    var trace: seq<Event<V, E>>

    ghost function Value(): Vm<C, V, E>
      reads this
    {
      Vm(gens, codes, polls, trace)
    }

    constructor (main: C)
      ensures Value() == VmStart(main)
    {
      gens, codes, polls, trace := [], [main], [], [];
    }

    /** The innermost code goes on with a reply. */
    method Reply(p: Program<C, V, E>, r: Reply<V, E>)
      requires codes != []
      modifies this`codes
      ensures codes == Hand(p, old(codes), r)
    {
      codes := codes[..|codes| - 1] + [p.go(codes[|codes| - 1], r)];
    }

    /** The run of the innermost fiber returns to the resume that started it. */
    method EndRun(p: Program<C, V, E>, r: Outcome<V, E>)
      requires Value().Shaped() && polls != []
      modifies this
      ensures var t := old(Value()); var g := t.gens[Last(t.polls)];
        Value() == Leaving(p, t, if r.Item? then g.(fiber := Some(WantsValue(Last(t.codes)))) else g.(done := true), r)
    {
      var h := polls[|polls| - 1];
      match r {
        case Item(_) => gens := gens[h := gens[h].(fiber := Some(WantsValue(codes[|codes| - 1])))];
        case _ => gens := gens[h := gens[h].(done := true)];
      }
      trace := trace + [Told(h, r)];
      polls := polls[..|polls| - 1];
      codes := codes[..|codes| - 1];
      Reply(p, Answer(r));
    }

    method ResumeVm(p: Program<C, V, E>, h: nat, x: V)
      requires Value().Shaped() && h < |gens|
      modifies this
      ensures Value() == ResumingVm(p, old(Value()), h, x)
    {
      trace := trace + [Asked(h, x)];
      if gens[h].done || gens[h].fiber.None? {
        trace := trace + [Told(h, Done)];
        Reply(p, Answer(Done));
        return;
      }
      var fiber := gens[h].fiber.value;
      gens := gens[h := gens[h].(fiber := None)];
      if gens[h].started {
        fiber := Push(p, fiber, x);
      } else {
        gens := gens[h := gens[h].(started := true)];
      }
      codes, polls := codes + [fiber.code], polls + [h];
    }

    method Act(p: Program<C, V, E>)
      modifies this
      ensures Value() == VmNext(p, old(Value()))
    {
      if |codes| != |polls| + 1 || (polls != [] && polls[|polls| - 1] >= |gens|) {
        return;
      }
      match p.act(codes[|codes| - 1])
      case Yield(v) => if polls != [] { EndRun(p, Item(v)); }
      case Return => if polls != [] { EndRun(p, Done); }
      case Fail(e) => if polls != [] { EndRun(p, Failed(e)); }
      case Resume(h, x) => if h < |gens| { ResumeVm(p, h, x); }
      case Close(h) =>
        if h < |gens| {
          gens := gens[h := gens[h].(done := true)];
          gens := gens[h := gens[h].(fiber := None)];
          trace := trace + [Shut(h)];
          Reply(p, Unit);
        }
      case Make(c) =>
        var made := |gens|;
        gens := gens + [Gen(Some(Ready(c)), false, false)];
        Reply(p, Made(made));
    }

    method Acts(p: Program<C, V, E>, n: nat)
      modifies this
      ensures Value() == Iter(VmStep(p), old(Value()), n)
    {
      for i := 0 to n
        invariant Value() == Iter(VmStep(p), old(Value()), i)
      {
        Act(p);
      }
    }
  }

  // ----- it does what the generators are to do -----

  /** The cells of a handle in each state. */
  ghost predicate Cells<C>(g: Gen<C>, slot: Slot<C>) {
    match slot
    case Fresh(c) => g == Gen(Some(Ready(c)), false, false)
    case Suspended(c, cut) => g == Gen(Some(WantsValue(c)), true, cut)
    case Running(_, cut) => g == Gen(None, true, cut)
    case Over => g.fiber == None && g.done
  }

  ghost predicate Alike<C, V, E>(t: Vm<C, V, E>, s: State<C, V, E>) {
    && s.Valid() && t.codes == s.codes && t.polls == s.polls && t.trace == s.trace
    && |t.gens| == |s.slots| && forall h :: 0 <= h < |t.gens| ==> Cells(t.gens[h], s.slots[h])
  }

  lemma ResumeAlike<C, V, E>(p: Program<C, V, E>, t: Vm<C, V, E>, s: State<C, V, E>, h: nat, x: V)
    requires Alike(t, s) && h < |s.slots| && p.act(Last(s.codes)) == Resume(h, x)
    ensures Alike(VmNext(p, t), Next(p, s))
  {
    NextValid(p, s);
  }

  lemma VmAlike<C, V, E>(p: Program<C, V, E>, t: Vm<C, V, E>, s: State<C, V, E>)
    requires Alike(t, s)
    ensures Alike(VmNext(p, t), Next(p, s))
  {
    NextValid(p, s);
    match p.act(Last(s.codes)) {
      case Resume(h, x) => if h < |s.slots| { ResumeAlike(p, t, s, h, x); }
      case _ =>
    }
  }
}
