/** The tree-walker's generators: a body future polled by its consumer. The handle's cells pass the
    values, and a stack of the handles being polled tells a `yield` which handle is its own. */
module TreeWalker {
  import opened Wrappers
  import opened Coroutines
  import opened Runs

  /** A body not yet polled, or one that waits inside a `yield` for an input. */
  datatype Future<C> = Unpolled(code: C) | AtYield(code: C)

  datatype Gen<C, V> = Gen(body: Option<Future<C>>, out: Option<V>, inp: Option<V>, started: bool)

  /** `current` is the thread's stack of current generators; `polls` is the native nesting of polls. */
  datatype Tree<C, V, E> = Tree(gens: seq<Gen<C, V>>, current: seq<nat>, codes: seq<C>, polls: seq<nat>, trace: seq<Event<V, E>>)
  {
    predicate Shaped() {
      |codes| == |polls| + 1 && (polls != [] ==> Last(polls) < |gens|) && (current != [] ==> Last(current) < |gens|)
    }
  }

  // ----- one act, as the handle's methods perform it -----

  /** The poll of the innermost body ends: its guard pops the stack, and its consumer is told. */
  function Leaving<C, V, E>(p: Program<C, V, E>, t: Tree<C, V, E>, gens: seq<Gen<C, V>>, r: Outcome<V, E>): Tree<C, V, E>
    requires t.Shaped() && t.polls != [] && t.current != []
  {
    Tree(gens, ButLast(t.current), Hand(p, ButLast(t.codes), Answer(r)), ButLast(t.polls), t.trace + [Told(Last(t.polls), r)])
  }

  /** `yield` hands its value to the current generator, and goes straight on if an input is there. */
  function Yielding<C, V, E>(p: Program<C, V, E>, t: Tree<C, V, E>, v: V): Tree<C, V, E>
    requires t.Shaped()
  {
    if t.current == [] || t.polls == [] then t
    else
      var g, h := Last(t.current), Last(t.polls);
      match t.gens[g].inp
      case Some(x) => t.(gens := t.gens[g := t.gens[g].(out := Some(v), inp := None)], codes := Hand(p, t.codes, Got(x)))
      case None =>
        var gens := t.gens[g := t.gens[g].(out := Some(v))];
        var kept := gens[h].(body := Some(AtYield(Last(t.codes))));
        match kept.out
        case Some(w) => Leaving(p, t, gens[h := kept.(out := None)], Item(w))
        case None => t
  }

  function ResumingBody<C, V, E>(p: Program<C, V, E>, t: Tree<C, V, E>, h: nat, x: V): Tree<C, V, E>
    requires t.Shaped() && h < |t.gens|
  {
    var g := if t.gens[h].started then t.gens[h].(inp := Some(x)) else t.gens[h].(started := true);
    var asked := t.trace + [Asked(h, x)];
    match g.body
    case None =>
      t.(gens := t.gens[h := g], codes := Hand(p, t.codes, Answer(Done)), trace := asked + [Told(h, Done)])
    case Some(Unpolled(c)) =>
      Tree(t.gens[h := g.(body := None)], t.current + [h], t.codes + [c], t.polls + [h], asked)
    case Some(AtYield(c)) =>
      match g.inp
      case Some(v) => Tree(t.gens[h := g.(body := None, inp := None)], t.current + [h], t.codes + [p.go(c, Got(v))],
          t.polls + [h], asked)
      case None => t
  }

  function TreeNext<C, V, E>(p: Program<C, V, E>, t: Tree<C, V, E>): Tree<C, V, E> {
    if !t.Shaped() then t
    else match p.act(Last(t.codes))
      case Yield(v) => Yielding(p, t, v)
      case Return => if t.polls == [] || t.current == [] then t else Leaving(p, t, t.gens, Done)
      case Fail(e) => if t.polls == [] || t.current == [] then t else Leaving(p, t, t.gens, Failed(e))
      case Resume(h, x) => if h < |t.gens| then ResumingBody(p, t, h, x) else t
      case Close(h) =>
        if h < |t.gens|
        then t.(gens := t.gens[h := t.gens[h].(body := None)], codes := Hand(p, t.codes, Unit), trace := t.trace + [Shut(h)])
        else t
      case Make(c) =>
        t.(gens := t.gens + [Gen(Some(Unpolled(c)), None, None, false)], codes := Hand(p, t.codes, Made(|t.gens|)))
  }

  ghost function TreeStep<C, V, E>(p: Program<C, V, E>): Tree<C, V, E> -> Tree<C, V, E> {
    t => TreeNext(p, t)
  }

  function TreeStart<C, V, E>(main: C): Tree<C, V, E> {
    Tree([], [], [main], [], [])
  }

  // ----- the same, in place -----

  class Interpreter<C, V(0), E(0)> {
    var gens: seq<Gen<C, V>>
    var current: seq<nat>
    var codes: seq<C>
    var polls: seq<nat>
    var trace: seq<Event<V, E>>

    ghost function Value(): Tree<C, V, E>
      reads this
    {
      Tree(gens, current, codes, polls, trace)
    }

    constructor (main: C)
      ensures Value() == TreeStart(main)
    {
      gens, current, codes, polls, trace := [], [], [main], [], [];
    }

    /** The innermost code goes on with a reply. */
    method Reply(p: Program<C, V, E>, r: Reply<V, E>)
      requires codes != []
      modifies this`codes
      ensures codes == Hand(p, old(codes), r)
    {
      codes := codes[..|codes| - 1] + [p.go(codes[|codes| - 1], r)];
    }

    /** The guard drops, the poll returns, and the consumer's resume with it. */
    method EndPoll(p: Program<C, V, E>, r: Outcome<V, E>)
      requires Value().Shaped() && polls != [] && current != []
      modifies this`current, this`codes, this`polls, this`trace
      ensures Value() == Leaving(p, old(Value()), old(gens), r)
    {
      current := current[..|current| - 1];
      trace := trace + [Told(polls[|polls| - 1], r)];
      polls := polls[..|polls| - 1];
      codes := codes[..|codes| - 1];
      Reply(p, Answer(r));
    }

    method YieldValue(p: Program<C, V, E>, v: V)
      requires Value().Shaped()
      modifies this
      ensures Value() == Yielding(p, old(Value()), v)
    {
      if current == [] || polls == [] {
        return;
      }
      var g, h, code := current[|current| - 1], polls[|polls| - 1], codes[|codes| - 1];
      var before := gens;
      gens := gens[g := gens[g].(out := Some(v))];
      match gens[g].inp
      case Some(x) =>
        gens := gens[g := gens[g].(inp := None)];
        Reply(p, Got(x));
      case None =>
        gens := gens[h := gens[h].(body := Some(AtYield(code)))];
        match gens[h].out
        case Some(w) =>
          gens := gens[h := gens[h].(out := None)];
          EndPoll(p, Item(w));
        case None =>
          gens := before;
    }

    method ResumeBody(p: Program<C, V, E>, h: nat, x: V)
      requires Value().Shaped() && h < |gens|
      modifies this
      ensures Value() == ResumingBody(p, old(Value()), h, x)
    {
      var before, asked := gens, trace;
      if gens[h].started {
        gens := gens[h := gens[h].(inp := Some(x))];
      } else {
        gens := gens[h := gens[h].(started := true)];
      }
      trace := trace + [Asked(h, x)];
      match gens[h].body
      case None =>
        trace := trace + [Told(h, Done)];
        Reply(p, Answer(Done));
      case Some(future) =>
        gens := gens[h := gens[h].(body := None)];
        match future
        case Unpolled(c) =>
          current, polls, codes := current + [h], polls + [h], codes + [c];
        case AtYield(c) =>
          match gens[h].inp
          case Some(v) =>
            gens := gens[h := gens[h].(inp := None)];
            current, polls, codes := current + [h], polls + [h], codes + [p.go(c, Got(v))];
          case None =>
            gens, trace := before, asked;
    }

    method Act(p: Program<C, V, E>)
      modifies this
      ensures Value() == TreeNext(p, old(Value()))
    {
      if |codes| != |polls| + 1 || (polls != [] && polls[|polls| - 1] >= |gens|) || (current != []
          && current[|current| - 1] >= |gens|) {
        return;
      }
      match p.act(codes[|codes| - 1])
      case Yield(v) => YieldValue(p, v);
      case Return => if polls != [] && current != [] { EndPoll(p, Done); }
      case Fail(e) => if polls != [] && current != [] { EndPoll(p, Failed(e)); }
      case Resume(h, x) => if h < |gens| { ResumeBody(p, h, x); }
      case Close(h) =>
        if h < |gens| {
          gens := gens[h := gens[h].(body := None)];
          trace := trace + [Shut(h)];
          Reply(p, Unit);
        }
      case Make(c) =>
        var made := |gens|;
        gens := gens + [Gen(Some(Unpolled(c)), None, None, false)];
        Reply(p, Made(made));
    }

    method Acts(p: Program<C, V, E>, n: nat)
      modifies this
      ensures Value() == Iter(TreeStep(p), old(Value()), n)
    {
      for i := 0 to n
        invariant Value() == Iter(TreeStep(p), old(Value()), i)
      {
        Act(p);
      }
    }
  }

  // ----- it does what the generators are to do -----

  /** The cells of a handle in each state. */
  ghost predicate Cells<C, V>(g: Gen<C, V>, slot: Slot<C>) {
    match slot
    case Fresh(c) => g == Gen(Some(Unpolled(c)), None, None, false)
    case Suspended(c, _) => g == Gen(Some(AtYield(c)), None, None, true)
    case Running(poked, _) => g.body == None && g.out == None && g.started && g.inp.Some? == poked
    case Over => g.body == None
  }

  /** The stack of current generators is the nesting of polls. */
  ghost predicate Alike<C, V, E>(t: Tree<C, V, E>, s: State<C, V, E>) {
    && s.Valid() && t.codes == s.codes && t.polls == s.polls && t.trace == s.trace
    && t.current == t.polls
    && |t.gens| == |s.slots| && forall h :: 0 <= h < |t.gens| ==> Cells(t.gens[h], s.slots[h])
  }

  lemma YieldAlike<C, V, E>(p: Program<C, V, E>, t: Tree<C, V, E>, s: State<C, V, E>, v: V)
    requires Alike(t, s) && p.act(Last(s.codes)) == Yield(v) && Allowed(p, s)
    ensures Alike(TreeNext(p, t), Next(p, s))
  {
    NextValid(p, s);
  }

  lemma ResumeAlike<C, V, E>(p: Program<C, V, E>, t: Tree<C, V, E>, s: State<C, V, E>, h: nat, x: V)
    requires Alike(t, s) && h < |s.slots| && p.act(Last(s.codes)) == Resume(h, x) && Allowed(p, s)
    ensures Alike(TreeNext(p, t), Next(p, s))
  {
    NextValid(p, s);
  }

  lemma TreeAlike<C, V, E>(p: Program<C, V, E>, t: Tree<C, V, E>, s: State<C, V, E>)
    requires Alike(t, s) && Allowed(p, s)
    ensures Alike(TreeNext(p, t), Next(p, s))
  {
    NextValid(p, s);
    match p.act(Last(s.codes)) {
      case Yield(v) => YieldAlike(p, t, s, v);
      case Resume(h, x) => if h < |s.slots| { ResumeAlike(p, t, s, h, x); }
      case _ =>
    }
  }
}
