/** What the generators of a program do, whatever engine runs them: a consumer resumes a handle, the
    body runs until it yields, returns or fails, and bodies may themselves resume other handles. */
module Coroutines {
  import opened Wrappers
  import opened Runs

  /** What a resume tells its caller. */
  datatype Outcome<V, E> = Item(v: V) | Done | Failed(e: E)

  /** What running code does next; handles are numbered in the order they are made. */
  datatype Act<C, V, E> =
    | Yield(v: V)
    | Return
    | Fail(e: E)
    | Resume(h: nat, input: V)
    | Close(h: nat)
    | Make(body: C)

  /** What it gets back: the input of the next resume, a resume's outcome, nothing, or a handle. */
  datatype Reply<V, E> = Got(v: V) | Answer(r: Outcome<V, E>) | Unit | Made(h: nat)

  /** Any deterministic code: what it does in a state, and where a reply takes it. */
  datatype Program<!C, !V, !E> = Program(act: C -> Act<C, V, E>, go: (C, Reply<V, E>) -> C)

  datatype Event<V, E> = Asked(h: nat, input: V) | Told(h: nat, r: Outcome<V, E>) | Shut(h: nat)

  /** A generator: not started, waiting at a yield, running, or over. While it runs it may be resumed
      again (`poked`) or closed (`cut`), which the engines do not treat alike. */
  datatype Slot<C> = Fresh(code: C) | Suspended(code: C, cut: bool) | Running(poked: bool, cut: bool) | Over

  /** `codes` holds the main code and then, for each handle in `polls`, the body being run for it. */
  datatype State<C, V, E> = State(slots: seq<Slot<C>>, codes: seq<C>, polls: seq<nat>, trace: seq<Event<V, E>>)
  {
    predicate Shaped() {
      |codes| == |polls| + 1 && (polls != [] ==> Last(polls) < |slots|)
    }

    ghost predicate Valid() {
      && |codes| == |polls| + 1
      && (forall k :: 0 <= k < |polls| ==> polls[k] < |slots| && slots[polls[k]].Running?)
      && (forall j, k :: 0 <= j < k < |polls| ==> polls[j] != polls[k])
    }
  }

  function Last<T>(s: seq<T>): T
    requires s != []
  {
    s[|s| - 1]
  }

  function ButLast<T>(s: seq<T>): seq<T>
    requires s != []
  {
    s[..|s| - 1]
  }

  /** The innermost code goes on with a reply. */
  function Hand<C, V, E>(p: Program<C, V, E>, codes: seq<C>, r: Reply<V, E>): seq<C>
    requires codes != []
  {
    ButLast(codes) + [p.go(Last(codes), r)]
  }

  /** The innermost body stops, and its caller is told why. */
  function Leave<C, V, E>(p: Program<C, V, E>, s: State<C, V, E>, slot: Slot<C>, r: Outcome<V, E>): State<C, V, E>
    requires s.Shaped() && s.polls != []
  {
    var h := Last(s.polls);
    State(s.slots[h := slot], Hand(p, ButLast(s.codes), Answer(r)), ButLast(s.polls), s.trace + [Told(h, r)])
  }

  function Enter<C, V, E>(s: State<C, V, E>, h: nat, code: C): State<C, V, E>
    requires h < |s.slots|
  {
    s.(slots := s.slots[h := Running(false, false)], codes := s.codes + [code], polls := s.polls + [h])
  }

  function Resumed<C, V, E>(p: Program<C, V, E>, s: State<C, V, E>, h: nat, x: V): State<C, V, E>
    requires s.Shaped() && h < |s.slots|
  {
    var asked := s.(trace := s.trace + [Asked(h, x)]);
    var over := asked.(codes := Hand(p, s.codes, Answer(Done)), trace := asked.trace + [Told(h, Done)]);
    match s.slots[h]
    case Fresh(c) => Enter(asked, h, c)
    case Suspended(c, cut) => if cut then over else Enter(asked, h, p.go(c, Got(x)))
    case Running(_, cut) => over.(slots := s.slots[h := Running(true, cut)])
    case Over => over
  }

  function Closing<C>(slot: Slot<C>): Slot<C> {
    match slot
    case Running(poked, _) => Running(poked, true)
    case _ => Over
  }

  function Parking<C>(slot: Slot<C>, code: C): Slot<C> {
    match slot
    case Running(_, cut) => Suspended(code, cut)
    case _ => Suspended(code, false)
  }

  /** One act of the innermost code. The main code stops at its own return, failure or yield. */
  function Next<C, V, E>(p: Program<C, V, E>, s: State<C, V, E>): (t: State<C, V, E>) {
    if !s.Shaped() then s
    else match p.act(Last(s.codes))
      case Yield(v) =>
        if s.polls == [] then s else Leave(p, s, Parking(s.slots[Last(s.polls)], Last(s.codes)), Item(v))
      case Return => if s.polls == [] then s else Leave(p, s, Over, Done)
      case Fail(e) => if s.polls == [] then s else Leave(p, s, Over, Failed(e))
      case Resume(h, x) => if h < |s.slots| then Resumed(p, s, h, x) else s
      case Close(h) =>
        if h < |s.slots|
        then s.(slots := s.slots[h := Closing(s.slots[h])], codes := Hand(p, s.codes, Unit), trace := s.trace + [Shut(h)])
        else s
      case Make(c) => s.(slots := s.slots + [Fresh(c)], codes := Hand(p, s.codes, Made(|s.slots|)))
  }

  lemma LeaveValid<C, V, E>(p: Program<C, V, E>, s: State<C, V, E>, slot: Slot<C>, r: Outcome<V, E>)
    requires s.Valid() && s.polls != []
    ensures Leave(p, s, slot, r).Valid()
  {
  }

  lemma ResumedValid<C, V, E>(p: Program<C, V, E>, s: State<C, V, E>, h: nat, x: V)
    requires s.Valid() && h < |s.slots|
    ensures Resumed(p, s, h, x).Valid()
  {
  }

  lemma NextValid<C, V, E>(p: Program<C, V, E>, s: State<C, V, E>)
    requires s.Valid()
    ensures Next(p, s).Valid()
  {
    match p.act(Last(s.codes)) {
      case Yield(v) =>
        if s.polls != [] {
          LeaveValid(p, s, Parking(s.slots[Last(s.polls)], Last(s.codes)), Item(v));
        }
      case Return => if s.polls != [] { LeaveValid(p, s, Over, Done); }
      case Fail(e) => if s.polls != [] { LeaveValid(p, s, Over, Failed(e)); }
      case Resume(h, x) => if h < |s.slots| { ResumedValid(p, s, h, x); }
      case Close(h) =>
      case Make(_) =>
    }
  }

  /** The two acts whose meaning is up to the engine: a yield by a body that was resumed while it
      ran, and a resume of one that was closed while it ran. */
  predicate Allowed<C, V, E>(p: Program<C, V, E>, s: State<C, V, E>) {
    s.Shaped() ==>
      match p.act(Last(s.codes))
      case Yield(_) => s.polls != [] && s.slots[Last(s.polls)].Running? ==> !s.slots[Last(s.polls)].poked
      case Resume(h, _) => h < |s.slots| && s.slots[h].Suspended? ==> !s.slots[h].cut
      case _ => true
  }

  function Start<C, V, E>(main: C): (s: State<C, V, E>) {
    State([], [main], [], [])
  }

  ghost function Step<C, V, E>(p: Program<C, V, E>): State<C, V, E> -> State<C, V, E> {
    s => Next(p, s)
  }

  /** The state after `n` acts. */
  ghost function Run<C, V, E>(p: Program<C, V, E>, s: State<C, V, E>, n: nat): State<C, V, E> {
    Iter(Step(p), s, n)
  }

  // ----- resumes and their answers nest -----

  /** The handles asked and not yet told, in order; `None` when an answer is not for the last one asked. */
  function Pending<V, E>(trace: seq<Event<V, E>>): Option<seq<nat>> {
    if trace == [] then Some([])
    else match Pending(ButLast(trace))
      case None => None
      case Some(open) =>
        match Last(trace)
        case Asked(h, _) => Some(open + [h])
        case Told(h, _) => if open != [] && Last(open) == h then Some(ButLast(open)) else None
        case Shut(_) => Some(open)
  }

  lemma PendingMore<V, E>(trace: seq<Event<V, E>>, e: Event<V, E>)
    requires Pending(trace).Some?
    ensures e.Asked? ==> Pending(trace + [e]) == Some(Pending(trace).value + [e.h])
    ensures e.Shut? ==> Pending(trace + [e]) == Pending(trace)
    ensures e.Told? && Pending(trace).value != [] && Last(Pending(trace).value) == e.h ==>
      Pending(trace + [e]) == Some(ButLast(Pending(trace).value))
  {
    assert ButLast(trace + [e]) == trace;
  }

  ghost predicate Nested<C, V, E>(s: State<C, V, E>) {
    s.Valid() && Pending(s.trace) == Some(s.polls)
  }

  lemma LeaveNests<C, V, E>(p: Program<C, V, E>, s: State<C, V, E>, slot: Slot<C>, r: Outcome<V, E>)
    requires Nested(s) && s.polls != []
    ensures Pending(Leave(p, s, slot, r).trace) == Some(Leave(p, s, slot, r).polls)
  {
    PendingMore(s.trace, Told(Last(s.polls), r));
  }

  lemma ResumedNests<C, V, E>(p: Program<C, V, E>, s: State<C, V, E>, h: nat, x: V)
    requires Nested(s) && h < |s.slots|
    ensures Pending(Resumed(p, s, h, x).trace) == Some(Resumed(p, s, h, x).polls)
  {
    PendingMore(s.trace, Asked(h, x));
    PendingMore(s.trace + [Asked(h, x)], Told(h, Done));
    assert ButLast(s.polls + [h]) == s.polls;
  }

  lemma NextNests<C, V, E>(p: Program<C, V, E>, s: State<C, V, E>)
    requires Nested(s)
    ensures Pending(Next(p, s).trace) == Some(Next(p, s).polls)
  {
    match p.act(Last(s.codes)) {
      case Yield(v) =>
        if s.polls != [] {
          LeaveNests(p, s, Parking(s.slots[Last(s.polls)], Last(s.codes)), Item(v));
        }
      case Return => if s.polls != [] { LeaveNests(p, s, Over, Done); }
      case Fail(e) => if s.polls != [] { LeaveNests(p, s, Over, Failed(e)); }
      case Resume(h, x) => if h < |s.slots| { ResumedNests(p, s, h, x); }
      case Close(h) => PendingMore(s.trace, Shut(h));
      case Make(_) =>
    }
  }

  /** At every point of every run each answer went to the latest unanswered resume, of the handle
      whose body gave it, and the bodies being run are those of the resumes still unanswered. */
  lemma AnswersNest<C, V, E>(p: Program<C, V, E>, main: C, n: nat)
    ensures var s: State<C, V, E> := Run(p, Start(main), n); Pending(s.trace) == Some(s.polls)
  {
    forall x: State<C, V, E> | Nested(x) ensures Nested(Step(p)(x)) {
      NextNests(p, x);
      NextValid(p, x);
    }
    Kept(Step(p), (x: State<C, V, E>) => Nested(x), Start(main), n);
  }

  // ----- what happens to one handle -----

  /** The next act is to resume or close handle `h`. */
  predicate Touches<C, V, E>(p: Program<C, V, E>, s: State<C, V, E>, h: nat) {
    s.codes != [] && var a := p.act(Last(s.codes)); (a.Resume? || a.Close?) && a.h == h
  }

  /** The handle is in this state, which is not running. */
  ghost predicate Rests<C, V, E>(s: State<C, V, E>, h: nat, slot: Slot<C>) {
    s.Valid() && h < |s.slots| && s.slots[h] == slot && !slot.Running?
  }

  lemma OthersLeaveAlone<C, V, E>(p: Program<C, V, E>, s: State<C, V, E>, h: nat, slot: Slot<C>)
    requires Rests(s, h, slot) && !Touches(p, s, h)
    ensures Rests(Next(p, s), h, slot)
  {
    NextValid(p, s);
  }

  ghost predicate Untouched<C, V, E>(p: Program<C, V, E>, s: State<C, V, E>, n: nat, h: nat) {
    forall m :: 0 <= m < n ==> !Touches(p, Run(p, s, m), h)
  }

  lemma StaysPut<C, V, E>(p: Program<C, V, E>, s: State<C, V, E>, n: nat, h: nat, slot: Slot<C>)
    requires Rests(s, h, slot) && Untouched(p, s, n, h)
    ensures Rests(Run(p, s, n), h, slot)
  {
    forall x: State<C, V, E> | Rests(x, h, slot) && !Touches(p, x, h) ensures Rests(Step(p)(x), h, slot) {
      OthersLeaveAlone(p, x, h, slot);
    }
    forall m | 0 <= m < n ensures !Touches(p, Iter(Step(p), s, m), h) {
      assert !Touches(p, Run(p, s, m), h);
    }
    KeptWhile(Step(p), (x: State<C, V, E>) => Rests(x, h, slot), (x: State<C, V, E>) => !Touches(p, x, h), s, n);
  }

  /** However much later and whatever ran in between, the next resume of a handle gives its input to
      the yield the handle stopped at, and runs the body from there. */
  lemma InputReachesYield<C, V, E>(p: Program<C, V, E>, s: State<C, V, E>, n: nat, x: V)
    requires s.Valid() && s.polls != [] && p.act(Last(s.codes)).Yield? && !s.slots[Last(s.polls)].cut
    requires Untouched(p, Next(p, s), n, Last(s.polls))
    requires var t := Run(p, Next(p, s), n); t.codes != [] && p.act(Last(t.codes)) == Resume(Last(s.polls), x)
    ensures var t := Next(p, Run(p, Next(p, s), n));
      t.polls != [] && Last(t.polls) == Last(s.polls) && t.codes != [] && Last(t.codes) == p.go(Last(s.codes), Got(x))
  {
    var h := Last(s.polls);
    NextValid(p, s);
    StaysPut(p, Next(p, s), n, h, Suspended(Last(s.codes), false));
  }

  /** The first resume runs the body from its start and drops its input. */
  lemma FirstInputIgnored<C, V, E>(p: Program<C, V, E>, s: State<C, V, E>, c: C, n: nat, x: V)
    requires s.Valid() && p.act(Last(s.codes)) == Make(c)
    requires Untouched(p, Next(p, s), n, |s.slots|)
    requires var t := Run(p, Next(p, s), n); t.codes != [] && p.act(Last(t.codes)) == Resume(|s.slots|, x)
    ensures var t := Next(p, Run(p, Next(p, s), n));
      t.polls != [] && Last(t.polls) == |s.slots| && t.codes != [] && Last(t.codes) == c
  {
    NextValid(p, s);
    StaysPut(p, Next(p, s), n, |s.slots|, Fresh(c));
  }

  /** A body that returns or fails is over, and so is a generator closed while it does not run. */
  lemma EndedIsOver<C, V, E>(p: Program<C, V, E>, s: State<C, V, E>)
    requires s.Valid()
    ensures var a := p.act(Last(s.codes));
      && ((a.Return? || a.Fail?) && s.polls != [] ==> Rests(Next(p, s), Last(s.polls), Over))
      && (a.Close? && a.h < |s.slots| && !s.slots[a.h].Running? ==> Rests(Next(p, s), a.h, Over))
  {
    NextValid(p, s);
  }

  /** Making a generator answers with the number under which it has been made, and runs nothing of it. */
  lemma MadeIsFresh<C, V, E>(p: Program<C, V, E>, s: State<C, V, E>, c: C)
    requires s.Valid() && p.act(Last(s.codes)) == Make(c)
    ensures var t := Next(p, s);
      && t.polls == s.polls && t.codes == ButLast(s.codes) + [p.go(Last(s.codes), Made(|s.slots|))]
      && |s.slots| < |t.slots| && t.slots[|s.slots|] == Fresh(c) && t.trace == s.trace
      && forall h :: 0 <= h < |s.slots| ==> t.slots[h] == s.slots[h]
  {
  }

  /** Resuming a generator that is running answers done at once and enters nothing. */
  lemma ReentryIsDone<C, V, E>(p: Program<C, V, E>, s: State<C, V, E>, h: nat, x: V)
    requires s.Valid() && p.act(Last(s.codes)) == Resume(h, x) && h in s.polls
    ensures var t := Next(p, s);
      && t.polls == s.polls && t.codes == ButLast(s.codes) + [p.go(Last(s.codes), Answer(Done))]
      && t.trace == s.trace + [Asked(h, x)] + [Told(h, Done)]
  {
    var k :| 0 <= k < |s.polls| && s.polls[k] == h;
    assert s.slots[s.polls[k]].Running?;
  }

  lemma OverStays<C, V, E>(p: Program<C, V, E>, s: State<C, V, E>, h: nat)
    requires Rests(s, h, Over)
    ensures Rests(Next(p, s), h, Over)
  {
    if Touches(p, s, h) {
      NextValid(p, s);
    } else {
      OthersLeaveAlone(p, s, h, Over);
    }
  }

  /** Once over, a handle is over for good, and resuming it answers done at once and runs nothing. */
  lemma OverForGood<C, V, E>(p: Program<C, V, E>, s: State<C, V, E>, n: nat, h: nat)
    requires Rests(s, h, Over)
    ensures Rests(Run(p, s, n), h, Over)
    ensures var t := Run(p, s, n); var a := p.act(Last(t.codes));
      a.Resume? && a.h == h ==>
        && Next(p, t).polls == t.polls && Next(p, t).slots == t.slots
        && Next(p, t).codes == ButLast(t.codes) + [p.go(Last(t.codes), Answer(Done))]
        && Next(p, t).trace == t.trace + [Asked(h, a.input)] + [Told(h, Done)]
  {
    forall x: State<C, V, E> | Rests(x, h, Over) ensures Rests(Step(p)(x), h, Over) {
      OverStays(p, x, h);
    }
    Kept(Step(p), (x: State<C, V, E>) => Rests(x, h, Over), s, n);
  }

  // ----- what a resume gives its caller -----

  /** The resume made in `s` of handle `h` is still open in `x`: its caller waits as it was. */
  ghost predicate Waits<C, V, E>(s: State<C, V, E>, h: nat, x: State<C, V, E>) {
    && s.Valid() && x.Valid() && |s.polls| < |x.polls|
    && x.polls[..|s.polls| + 1] == s.polls + [h] && x.codes[..|s.codes|] == s.codes
  }

  lemma WaitsFirst<C, V, E>(p: Program<C, V, E>, s: State<C, V, E>, h: nat, x: V)
    requires s.Valid() && p.act(Last(s.codes)) == Resume(h, x) && |s.polls| < |Next(p, s).polls|
    ensures Waits(s, h, Next(p, s))
  {
    NextValid(p, s);
  }

  lemma WaitsOn<C, V, E>(p: Program<C, V, E>, s: State<C, V, E>, h: nat, x: State<C, V, E>)
    requires Waits(s, h, x) && |s.polls| < |Next(p, x).polls|
    ensures Waits(s, h, Next(p, x))
  {
    NextValid(p, x);
  }

  /** The resume is open for `n` acts after it was made. */
  ghost predicate OpenFor<C, V, E>(p: Program<C, V, E>, s: State<C, V, E>, n: nat) {
    forall m :: 0 <= m <= n ==> |s.polls| < |Run(p, Next(p, s), m).polls|
  }

  lemma StaysOpen<C, V, E>(p: Program<C, V, E>, s: State<C, V, E>, h: nat, x: V, n: nat)
    requires s.Valid() && p.act(Last(s.codes)) == Resume(h, x) && OpenFor(p, s, n)
    ensures Waits(s, h, Run(p, Next(p, s), n))
  {
    assert |s.polls| < |Run(p, Next(p, s), 0).polls|;
    WaitsFirst(p, s, h, x);
    WaitsWhileOpen(p, s, h, Next(p, s), n);
  }

  lemma WaitsWhileOpen<C, V, E>(p: Program<C, V, E>, s: State<C, V, E>, h: nat, first: State<C, V, E>, n: nat)
    requires Waits(s, h, first) && forall m :: 0 <= m <= n ==> |s.polls| < |Run(p, first, m).polls|
    ensures Waits(s, h, Run(p, first, n))
  {
    var waits, open := (y: State<C, V, E>) => Waits(s, h, y), (y: State<C, V, E>) => |s.polls| < |Next(p, y).polls|;
    forall y | waits(y) && open(y) ensures waits(Step(p)(y)) {
      WaitsOn(p, s, h, y);
    }
    forall m | 0 <= m < n ensures open(Iter(Step(p), first, m)) {
      assert |s.polls| < |Run(p, first, m + 1).polls|;
    }
    KeptWhile(Step(p), waits, open, first, n);
  }

  /** The innermost code yields, returns or fails. */
  predicate Stops<C, V, E>(p: Program<C, V, E>, s: State<C, V, E>) {
    s.codes != [] && var a := p.act(Last(s.codes)); a.Yield? || a.Return? || a.Fail?
  }

  /** Whatever the body and the bodies it resumes do in between, a resume gives its caller what its own body comes to:
      the value yielded, done at the return, or the failure; and the caller goes on from where it resumed. */
  lemma OutcomeReachesCaller<C, V, E>(p: Program<C, V, E>, s: State<C, V, E>, h: nat, x: V, n: nat)
    requires s.Valid() && p.act(Last(s.codes)) == Resume(h, x) && OpenFor(p, s, n)
    requires |Run(p, Next(p, s), n).polls| == |s.polls| + 1
    requires Stops(p, Run(p, Next(p, s), n))
    ensures var t := Run(p, Next(p, s), n);
            var outcome := match p.act(Last(t.codes)) case Yield(v) => Item(v) case Fail(e) => Failed(e) case _ => Done;
            && Next(p, t).polls == s.polls
            && Next(p, t).codes == ButLast(s.codes) + [p.go(Last(s.codes), Answer(outcome))]
            && Next(p, t).trace == t.trace + [Told(h, outcome)]
  {
    StaysOpen(p, s, h, x, n);
    var t := Run(p, Next(p, s), n);
    assert t.polls == s.polls + [h] && ButLast(t.codes) == s.codes;
  }
}
