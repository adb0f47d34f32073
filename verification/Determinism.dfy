/** The determinism context: what every seam does in Record and in Replay, strict and
    lenient, first as one rule over values, then seam by seam as the context's methods run. */
module Determinism {
  import opened Wrappers
  import opened Events
  import opened Rng
  import opened GroupLog

  datatype Mode = Record | Replay

  /** Who installed the context. */
  datatype Origin = Workflow | CliTrace

  datatype Divergence = Exhausted(at: nat, wanted: string) | Mismatch(at: nat, expected: string, got: string)

  /** Virtual time: the wall clock and the time since the start. */
  datatype Clock = Clock(now: Double, monotonic: Double)

  datatype Context = Context(
    mode: Mode,
    strict: bool,
    pending: Option<Divergence>,
    clock: Clock,
    rng: bv64,
    cursor: nat,
    events: seq<Event>,
    group: Option<Log>,
    prng: Generator)

  /** How an actor's isolate answers a call. */
  datatype ActorReply = Reply(bytes: Bytes) | ReplyPanic(message: string)

  /** The world beyond the seams at one step: what each boundary would answer if it were really
      crossed, and what happens to the log's file. */
  datatype World = World(
    actor: ActorReply,
    generator: BoundaryOutcome,
    foreignRet: FfiRet,
    foreignOut: seq<(nat, Bytes)>,
    traced: TraceOutcome,
    io: Io)
  {
    function Answer(r: Request): (a: Answer)
      requires !r.IsValue()
      ensures Fits(r, a)
    {
      match r
      case CallActor(_) => Outcome(match actor case Reply(b) => Data(b) case ReplyPanic(m) => Panicked(m))
      case ResumeGenerator => Outcome(generator)
      case CallForeign => Foreign(foreignRet, foreignOut)
      case _ => Traced(traced)
    }
  }

  function Recording(strict: bool, seed: bv64, start: Double, prng: Generator): Context {
    Context(Record, strict, None, Clock(start, ZERO), Seeded(seed), 0, [], None, prng)
  }

  function Replaying(strict: bool, seed: bv64, start: Double, events: seq<Event>, prng: Generator): Context {
    Context(Replay, strict, None, Clock(start, ZERO), Seeded(seed), 0, events, None, prng)
  }

  // ----- the rule every value seam follows -----

  /** A fresh draw, as Record mode makes it. */
  function Draw(c: Context, r: Request): (Answer, Context)
    requires r.IsValue()
  {
    match r
    case WantClock => (Number(c.clock.now), c)
    case WantMonotonic => (Number(c.clock.monotonic), c)
    case WantRandom => var (v, s) := c.prng.unit(c.rng); (Number(v), c.(rng := s))
    case WantBytes(n) => var (b, s) := c.prng.bytes(c.rng, n); (Raw(b), c.(rng := s))
  }

  /** What keeps the program going after a mismatch: never the recorded value. */
  function Sentinel(c: Context, r: Request): (Answer, Context)
    requires r.IsValue()
  {
    if r.WantBytes? then Draw(c, r)
    else if r.WantMonotonic? && c.strict then (Number(c.clock.monotonic), c)
    else (Number(c.clock.now), c)
  }

  /** Pumping: nothing without an appender, and then always well. */
  function Pumped(c: Context, io: Io): (bool, Context) {
    match c.group
    case None => (true, c)
    case Some(l) => var (ok, l') := PumpFrom(l, c.events, io); (ok, c.(group := Some(l')))
  }

  function TryPush(c: Context, e: Event, io: Io): (bool, Context) {
    Pumped(c.(events := c.events + [e]), io)
  }

  /** The seams do not look at whether the log took the event. */
  function Push(c: Context, e: Event, io: Io): Context {
    TryPush(c, e, io).1
  }

  function DrawAndRecord(c: Context, r: Request, io: Io): (res: (Answer, Context))
    requires r.IsValue()
    ensures Fits(r, res.0)
  {
    var (a, drawn) := Draw(c, r);
    (a, Push(drawn, Recorded(r, a), io))
  }

  /** A replayed clock read moves the virtual clock with it. */
  function Observed(clock: Clock, r: Request, a: Answer): Clock {
    if a.Number? && r.WantClock? then clock.(now := a.value)
    else if a.Number? && r.WantMonotonic? then clock.(monotonic := a.value)
    else clock
  }

  function Diverge(c: Context, d: Divergence): Context {
    if c.pending.None? then c.(pending := Some(d)) else c
  }

  /** What stands at the cursor, as far as `r` is concerned. */
  function AtCursor(c: Context, r: Request): Option<Answer> {
    if c.cursor < |c.events| then Replayed(r, c.events[c.cursor]) else None
  }

  function Complaint(c: Context, r: Request): Divergence {
    if c.cursor < |c.events| then Mismatch(c.cursor, WantedKind(r), KindName(c.events[c.cursor]))
    else Exhausted(c.cursor, WantedKind(r))
  }

  function Consumed(c: Context, r: Request, a: Answer): Context {
    c.(cursor := c.cursor + 1, clock := Observed(c.clock, r, a))
  }

  function ServeValue(c: Context, r: Request, io: Io): (res: (Answer, Context))
    requires r.IsValue()
    ensures Fits(r, res.0)
  {
    if c.mode == Record then DrawAndRecord(c, r, io)
    else if AtCursor(c, r).Some? then (AtCursor(c, r).value, Consumed(c, r, AtCursor(c, r).value))
    else if c.strict then Sentinel(Diverge(c, Complaint(c, r)), r)
    else if c.cursor < |c.events| then Sentinel(c.(cursor := c.cursor + 1), r)
    else DrawAndRecord(c.(mode := Record), r, io)
  }

  /** A boundary's replay: the recorded answer, or nothing with the event left in place. */
  function ReplayBoundary(c: Context, r: Request): (Option<Answer>, Context)
    requires !r.IsValue()
  {
    if AtCursor(c, r).Some? then (AtCursor(c, r), c.(cursor := c.cursor + 1))
    else if c.strict && r.IsTraced() then (None, Diverge(c, Complaint(c, r)))
    else (None, c)
  }

  /** A boundary as its caller drives it: replay when it can, otherwise cross for real and
      record only in Record mode; a traced call never crosses in Replay. */
  function ServeBoundary(c: Context, r: Request, w: World): (res: (Answer, Context))
    requires !r.IsValue()
    ensures res.0 == Diverged || Fits(r, res.0)
  {
    if c.mode == Record then (w.Answer(r), Push(c, Recorded(r, w.Answer(r)), w.io))
    else
      var (found, c') := ReplayBoundary(c, r);
      if found.Some? then (found.value, c')
      else if r.IsTraced() then (Diverged, c')
      else (w.Answer(r), c')
  }

  function Serve(c: Context, r: Request, w: World): (Answer, Context)
  {
    if r.IsValue() then ServeValue(c, r, w.io) else ServeBoundary(c, r, w)
  }

  // ----- the context itself -----

  class DeterminismContext {
    var mode: Mode
    const origin: Origin
    const strict: bool
    var pendingDivergence: Option<Divergence>
    var clock: Clock
    const rng: SeededRng
    const seed: bv64
    var cursor: nat
    var events: seq<Event>
    var group: GroupAppender?

    ghost function View(): Context
      reads this, rng, group
    {
      Context(mode, strict, pendingDivergence, clock, rng.state, cursor, events,
              if group == null then None else Some(group.View()), XORSHIFT)
    }

    constructor Start(mode: Mode, origin: Origin, seed: bv64, startMs: Double, events: seq<Event>)
      ensures View() == Context(mode, origin == CliTrace, None, Clock(startMs, ZERO), Seeded(seed), 0, events, None, XORSHIFT)
      ensures fresh(rng) && group == null && this.origin == origin && this.seed == seed
    {
      this.mode := mode;
      this.origin := origin;
      this.strict := origin == CliTrace;
      this.pendingDivergence := None;
      this.clock := Clock(startMs, ZERO);
      this.rng := new SeededRng(seed);
      this.seed := seed;
      this.cursor := 0;
      this.events := events;
      this.group := null;
    }

    method SetGroupAppender(appender: GroupAppender)
      modifies this`group
      ensures group == appender
      ensures View() == old(View()).(group := Some(appender.View()))
    {
      group := appender;
    }

    method TakeDivergence() returns (d: Option<Divergence>)
      modifies this`pendingDivergence
      ensures d == old(pendingDivergence)
      ensures View() == old(View()).(pending := None)
    {
      d := pendingDivergence;
      pendingDivergence := None;
    }

    method SetDivergence(d: Divergence)
      modifies this`pendingDivergence
      ensures View() == Diverge(old(View()), d)
    {
      if pendingDivergence.None? {
        pendingDivergence := Some(d);
      }
    }

    /** The single recording point. */
    method RecordEvent(e: Event, io: Io) returns (ok: bool)
      modifies this`events, group
      ensures (ok, View()) == TryPush(old(View()), e, io)
    {
      events := events + [e];
      ok := Pump(io);
    }

    method Pump(io: Io) returns (ok: bool)
      modifies group
      ensures (ok, View()) == Pumped(old(View()), io)
    {
      if group == null {
        return true;
      }
      ok := group.DoPumpFrom(events, io);
    }

    method FinishGroup(terminal: Bytes, io: Io) returns (ok: bool)
      modifies this`group, group
      ensures group == null
      ensures View() == old(View()).(group := None)
      ensures old(group) != null ==> (ok, old(group).View()) == Finish(old(group.View()), terminal, io)
    {
      if group == null {
        return true;
      }
      var appender := group;
      group := null;
      ok := appender.DoFinish(terminal, io);
    }

    method PeekEvent() returns (e: Option<Event>)
      ensures e == if cursor < |events| then Some(events[cursor]) else None
    {
      e := if cursor < |events| then Some(events[cursor]) else None;
    }

    method NextEvent() returns (e: Option<Event>)
      modifies this`cursor
      ensures e == if old(cursor) < |events| then Some(events[old(cursor)]) else None
      ensures cursor == old(cursor) + if e.Some? then 1 else 0
    {
      e := PeekEvent();
      if e.Some? {
        cursor := cursor + 1;
      }
    }

    /** Read the wall clock. */
    method ClockNowMs(io: Io) returns (v: Double)
      modifies this, rng, group
      ensures group == old(group)
      ensures (Number(v), View()) == ServeValue(old(View()), WantClock, io)
    {
      match mode {
        case Record =>
          v := clock.now;
          var _ := RecordEvent(ClockRead(v), io);
        case Replay =>
          if strict {
            v := StrictClock();
          } else {
            v := LenientClock(io);
          }
      }
    }

    method StrictClock() returns (v: Double)
      requires mode == Replay && strict
      modifies this
      ensures group == old(group)
      ensures forall io :: (Number(v), View()) == ServeValue(old(View()), WantClock, io)
    {
      var e := PeekEvent();
      match e {
        case Some(ClockRead(value)) =>
          cursor := cursor + 1;
          clock := clock.(now := value);
          v := value;
        case Some(other) =>
          SetDivergence(Mismatch(cursor, "ClockRead", KindName(other)));
          v := clock.now;
        case None =>
          SetDivergence(Exhausted(cursor, "ClockRead"));
          v := clock.now;
      }
    }

    method LenientClock(io: Io) returns (v: Double)
      requires mode == Replay && !strict
      modifies this, group
      ensures group == old(group)
      ensures (Number(v), View()) == ServeValue(old(View()), WantClock, io)
    {
      var e := NextEvent();
      match e {
        case Some(ClockRead(value)) =>
          clock := clock.(now := value);
          v := value;
        case Some(other) =>
          v := clock.now;
        case None =>
          mode := Record;
          v := clock.now;
          var _ := RecordEvent(ClockRead(v), io);
      }
    }

    /** Read the monotonic clock. */
    method ClockMonotonicMs(io: Io) returns (v: Double)
      modifies this, rng, group
      ensures group == old(group)
      ensures (Number(v), View()) == ServeValue(old(View()), WantMonotonic, io)
    {
      match mode {
        case Record =>
          v := clock.monotonic;
          var _ := RecordEvent(MonotonicRead(v), io);
        case Replay =>
          if strict {
            v := StrictMonotonic();
          } else {
            v := LenientMonotonic(io);
          }
      }
    }

    method StrictMonotonic() returns (v: Double)
      requires mode == Replay && strict
      modifies this
      ensures group == old(group)
      ensures forall io :: (Number(v), View()) == ServeValue(old(View()), WantMonotonic, io)
    {
      var e := PeekEvent();
      match e {
        case Some(MonotonicRead(value)) =>
          cursor := cursor + 1;
          clock := clock.(monotonic := value);
          v := value;
        case Some(other) =>
          SetDivergence(Mismatch(cursor, "MonotonicRead", KindName(other)));
          v := clock.monotonic;
        case None =>
          SetDivergence(Exhausted(cursor, "MonotonicRead"));
          v := clock.monotonic;
      }
    }

    method LenientMonotonic(io: Io) returns (v: Double)
      requires mode == Replay && !strict
      modifies this, group
      ensures group == old(group)
      ensures (Number(v), View()) == ServeValue(old(View()), WantMonotonic, io)
    {
      var e := NextEvent();
      match e {
        case Some(MonotonicRead(value)) =>
          clock := clock.(monotonic := value);
          v := value;
        case Some(other) =>
          v := clock.now;
        case None =>
          mode := Record;
          v := clock.monotonic;
          var _ := RecordEvent(MonotonicRead(v), io);
      }
    }

    /** Draw the next unit-interval number. */
    method NextRandomF64(io: Io) returns (v: Double)
      modifies this, rng, group
      ensures group == old(group)
      ensures (Number(v), View()) == ServeValue(old(View()), WantRandom, io)
    {
      match mode {
        case Record =>
          v := DrawRandom(io);
        case Replay =>
          if strict {
            v := StrictRandom();
          } else {
            v := LenientRandom(io);
          }
      }
    }

    method DrawRandom(io: Io) returns (v: Double)
      modifies this`events, rng, group
      ensures (Number(v), View()) == DrawAndRecord(old(View()), WantRandom, io)
    {
      v := rng.NextF64();
      var _ := RecordEvent(RandomRead(v), io);
    }

    method StrictRandom() returns (v: Double)
      requires mode == Replay && strict
      modifies this
      ensures group == old(group)
      ensures forall io :: (Number(v), View()) == ServeValue(old(View()), WantRandom, io)
    {
      var e := PeekEvent();
      match e {
        case Some(RandomRead(value)) =>
          cursor := cursor + 1;
          v := value;
        case Some(other) =>
          SetDivergence(Mismatch(cursor, "RandomRead", KindName(other)));
          v := clock.now;
        case None =>
          SetDivergence(Exhausted(cursor, "RandomRead"));
          v := clock.now;
      }
    }

    method LenientRandom(io: Io) returns (v: Double)
      requires mode == Replay && !strict
      modifies this, rng, group
      ensures group == old(group)
      ensures (Number(v), View()) == ServeValue(old(View()), WantRandom, io)
    {
      var e := NextEvent();
      match e {
        case Some(RandomRead(value)) =>
          v := value;
        case Some(other) =>
          v := clock.now;
        case None =>
          mode := Record;
          v := DrawRandom(io);
      }
    }

    /** Draw `buf.Length` bytes into `buf`. */
    method NextSeededBytes(buf: array<bv8>, io: Io)
      modifies this, rng, group, buf
      ensures group == old(group)
      ensures (Raw(buf[..]), View()) == ServeValue(old(View()), WantBytes(buf.Length), io)
    {
      match mode {
        case Record =>
          DrawBytes(buf, io);
        case Replay =>
          if strict {
            StrictBytes(buf);
          } else {
            LenientBytes(buf, io);
          }
      }
    }

    method DrawBytes(buf: array<bv8>, io: Io)
      modifies this`events, rng, group, buf
      ensures (Raw(buf[..]), View()) == DrawAndRecord(old(View()), WantBytes(buf.Length), io)
    {
      rng.FillBytes(buf);
      var _ := RecordEvent(BytesRead(buf[..]), io);
    }

    method StrictBytes(buf: array<bv8>)
      requires mode == Replay && strict
      modifies this, rng, buf
      ensures group == old(group)
      ensures forall io :: (Raw(buf[..]), View()) == ServeValue(old(View()), WantBytes(buf.Length), io)
    {
      var e := PeekEvent();
      if e.Some? && e.value.BytesRead? && |e.value.bytes| == buf.Length {
        cursor := cursor + 1;
        CopyWhole(buf, e.value.bytes);
      } else if e.Some? {
        SetDivergence(Mismatch(cursor, "BytesRead", KindName(e.value)));
        rng.FillBytes(buf);
      } else {
        SetDivergence(Exhausted(cursor, "BytesRead"));
        rng.FillBytes(buf);
      }
    }

    method LenientBytes(buf: array<bv8>, io: Io)
      requires mode == Replay && !strict
      modifies this, rng, group, buf
      ensures group == old(group)
      ensures (Raw(buf[..]), View()) == ServeValue(old(View()), WantBytes(buf.Length), io)
    {
      var e := PeekEvent();
      if e.None? {
        mode := Record;
        DrawBytes(buf, io);
      } else {
        LenientRecorded(buf, io);
      }
    }

    /** With an event at the cursor: its bytes if it has as many, else bytes drawn. */
    method LenientRecorded(buf: array<bv8>, ghost io: Io)
      requires mode == Replay && !strict && cursor < |events|
      modifies this, rng, buf
      ensures group == old(group)
      ensures (Raw(buf[..]), View()) == ServeValue(old(View()), WantBytes(buf.Length), io)
    {
      var e := NextEvent();
      if e.value.BytesRead? && |e.value.bytes| == buf.Length {
        CopyWhole(buf, e.value.bytes);
      } else {
        rng.FillBytes(buf);
      }
    }

    // ----- the boundary seams: a record half and a replay half -----

    method RecordActorCall(name: string, outcome: BoundaryOutcome, io: Io)
      modifies this`events, group
      ensures View() == Push(old(View()), ActorCallFor(name, outcome), io)
      ensures outcome != Done ==> View() == Push(old(View()), Recorded(CallActor(name), Outcome(outcome)), io)
    {
      var reply: Bytes, panic: Option<string> := [], None;
      match outcome {
        case Data(b) => reply := b;
        case Done =>
        case Panicked(msg) => panic := Some(msg);
      }
      var _ := RecordEvent(ActorCall(name, reply, panic), io);
    }

    method ReplayActorCall(name: string) returns (found: Option<BoundaryOutcome>)
      modifies this`cursor
      ensures View() == ReplayBoundary(old(View()), CallActor(name)).1
      ensures ReplayBoundary(old(View()), CallActor(name)).0
           == match found case Some(o) => Some(Outcome(o)) case None => None
    {
      var e := PeekEvent();
      if e.Some? && e.value.ActorCall? {
        if e.value.method_ != name {
          return None;
        }
        cursor := cursor + 1;
        return Some(match e.value.panic case Some(msg) => Panicked(msg) case None => Data(e.value.reply));
      }
      return None;
    }

    method RecordGeneratorYield(outcome: BoundaryOutcome, io: Io)
      modifies this`events, group
      ensures View() == Push(old(View()), Recorded(ResumeGenerator, Outcome(outcome)), io)
    {
      var yielded: Option<Bytes>, panic: Option<string> := None, None;
      match outcome {
        case Data(b) => yielded := Some(b);
        case Done =>
        case Panicked(msg) => panic := Some(msg);
      }
      var _ := RecordEvent(GeneratorYield(yielded, panic), io);
    }

    method ReplayGeneratorYield() returns (found: Option<BoundaryOutcome>)
      modifies this`cursor
      ensures View() == ReplayBoundary(old(View()), ResumeGenerator).1
      ensures ReplayBoundary(old(View()), ResumeGenerator).0
           == match found case Some(o) => Some(Outcome(o)) case None => None
    {
      var e := PeekEvent();
      if e.Some? && e.value.GeneratorYield? {
        cursor := cursor + 1;
        return Some(
          match e.value.panic
          case Some(msg) => Panicked(msg)
          case None => match e.value.yielded case Some(b) => Data(b) case None => Done);
      }
      return None;
    }

    method RecordFfiCall(ret: FfiRet, outParams: seq<(nat, Bytes)>, io: Io)
      modifies this`events, group
      ensures View() == Push(old(View()), Recorded(CallForeign, Foreign(ret, outParams)), io)
    {
      var _ := RecordEvent(FfiCall(ret, outParams), io);
    }

    method ReplayFfiCall() returns (found: Option<(FfiRet, seq<(nat, Bytes)>)>)
      modifies this`cursor
      ensures View() == ReplayBoundary(old(View()), CallForeign).1
      ensures ReplayBoundary(old(View()), CallForeign).0
           == match found case Some((ret, outs)) => Some(Foreign(ret, outs)) case None => None
    {
      var e := PeekEvent();
      if e.Some? && e.value.FfiCall? {
        cursor := cursor + 1;
        return Some((e.value.ret, e.value.outParams));
      }
      return None;
    }

    method RecordStdlibCall(mod: string, func: string, argsHash: nat, outcome: TraceOutcome, io: Io)
      modifies this`events, group
      ensures View() == Push(old(View()), Recorded(CallStdlib(mod, func, argsHash), Traced(outcome)), io)
    {
      var _ := RecordEvent(StdlibCall(mod, func, argsHash, outcome), io);
    }

    method ReplayStdlibCall(mod: string, func: string, argsHash: nat) returns (found: Option<TraceOutcome>)
      modifies this`cursor, this`pendingDivergence
      ensures View() == ReplayBoundary(old(View()), CallStdlib(mod, func, argsHash)).1
      ensures ReplayBoundary(old(View()), CallStdlib(mod, func, argsHash)).0
           == match found case Some(o) => Some(Traced(o)) case None => None
    {
      var e := PeekEvent();
      if e.Some? && e.value.StdlibCall? {
        if e.value.module_ == mod && e.value.func == func && e.value.argsHash == argsHash {
          cursor := cursor + 1;
          return Some(e.value.outcome);
        }
        if strict {
          SetDivergence(Mismatch(cursor, "StdlibCall", "StdlibCall"));
        }
      } else if e.Some? {
        if strict {
          SetDivergence(Mismatch(cursor, "StdlibCall", KindName(e.value)));
        }
      } else if strict {
        SetDivergence(Exhausted(cursor, "StdlibCall"));
      }
      return None;
    }

    method RecordNativeCall(vid: nat, name: string, argsHash: nat, outcome: TraceOutcome, io: Io)
      modifies this`events, group
      ensures View() == Push(old(View()), Recorded(CallNative(vid, name, argsHash), Traced(outcome)), io)
    {
      var _ := RecordEvent(NativeCall(vid, name, argsHash, outcome), io);
    }

    method ReplayNativeCall(vid: nat, name: string, argsHash: nat) returns (found: Option<TraceOutcome>)
      modifies this`cursor, this`pendingDivergence
      ensures View() == ReplayBoundary(old(View()), CallNative(vid, name, argsHash)).1
      ensures ReplayBoundary(old(View()), CallNative(vid, name, argsHash)).0
           == match found case Some(o) => Some(Traced(o)) case None => None
    {
      var e := PeekEvent();
      if e.Some? && e.value.NativeCall? {
        if e.value.vid == vid && e.value.method_ == name && e.value.argsHash == argsHash {
          cursor := cursor + 1;
          return Some(e.value.outcome);
        }
        if strict {
          SetDivergence(Mismatch(cursor, "NativeCall", "NativeCall"));
        }
      } else if e.Some? {
        if strict {
          SetDivergence(Mismatch(cursor, "NativeCall", KindName(e.value)));
        }
      } else if strict {
        SetDivergence(Exhausted(cursor, "NativeCall"));
      }
      return None;
    }
  }

  method CopyWhole(buf: array<bv8>, bytes: Bytes)
    requires |bytes| == buf.Length
    modifies buf
    ensures buf[..] == bytes
  {
    CopyInto(buf, 0, bytes);
    assert buf[..] == buf[..|bytes|];
  }
}
