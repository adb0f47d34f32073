/** What the determinism seams exchange: the recorded events, the requests a program makes
    of its seams, and the answers it gets back. */
module Events {
  import opened Wrappers

  type Bytes = seq<bv8>

  /** A finite double: its significand times two to its exponent. */
  datatype Double = Double(significand: int, exponent: int)

  const ZERO := Double(0, 0)

  /** How an interaction with another isolate ended, as it crosses back to the caller. */
  datatype BoundaryOutcome = Data(bytes: Bytes) | Done | Panicked(message: string)

  /** The marshalled return of a foreign call. */
  datatype FfiRet = FfiInt(i: int) | FfiFloat(f: Double) | FfiVoid

  /** The recorded outcome of an effectful stdlib or native-handle call. */
  datatype TraceOutcome =
    | Result(encoded: Bytes)
    | Panic(message: string)
    | Propagate(encoded: Bytes)
    | Handle(kindTag: bv8, handleId: nat, fields: Bytes)

  datatype Event =
    | ClockRead(value: Double)
    | RandomRead(value: Double)
    | BytesRead(bytes: Bytes)
    | MonotonicRead(value: Double)
    | TimerSet(wake: Double)
    | ActivityCompleted(name: string, argsHash: nat, resultJson: string)
    | ActorCall(method_: string, reply: Bytes, panic: Option<string>)
    | FfiCall(ret: FfiRet, outParams: seq<(nat, Bytes)>)
    | GeneratorYield(yielded: Option<Bytes>, panic: Option<string>)
    | StdlibCall(module_: string, func: string, argsHash: nat, outcome: TraceOutcome)
    | NativeCall(vid: nat, method_: string, argsHash: nat, outcome: TraceOutcome)
  {
    /** What the four value seams record. */
    predicate IsReading() {
      ClockRead? || RandomRead? || BytesRead? || MonotonicRead?
    }
  }

  /** One crossing of a seam, as the running program asks for it. */
  datatype Request =
    | WantClock
    | WantMonotonic
    | WantRandom
    | WantBytes(count: nat)
    | CallActor(method_: string)
    | ResumeGenerator
    | CallForeign
    | CallStdlib(module_: string, func: string, argsHash: nat)
    | CallNative(vid: nat, method_: string, argsHash: nat)
  {
    /** The four seams the context answers by itself, with no outside call behind them. */
    predicate IsValue() {
      WantClock? || WantMonotonic? || WantRandom? || WantBytes?
    }

    predicate IsTraced() {
      CallStdlib? || CallNative?
    }
  }

  /** What a seam hands back. `Diverged` is a traced call that strict replay refused. */
  datatype Answer =
    | Number(value: Double)
    | Raw(bytes: Bytes)
    | Outcome(boundary: BoundaryOutcome)
    | Foreign(ret: FfiRet, outParams: seq<(nat, Bytes)>)
    | Traced(outcome: TraceOutcome)
    | Diverged

  function KindName(e: Event): string {
    match e
    case ClockRead(_) => "ClockRead"
    case RandomRead(_) => "RandomRead"
    case BytesRead(_) => "BytesRead"
    case MonotonicRead(_) => "MonotonicRead"
    case TimerSet(_) => "TimerSet"
    case ActivityCompleted(_, _, _) => "ActivityCompleted"
    case ActorCall(_, _, _) => "ActorCall"
    case FfiCall(_, _) => "FfiCall"
    case GeneratorYield(_, _) => "GeneratorYield"
    case StdlibCall(_, _, _, _) => "StdlibCall"
    case NativeCall(_, _, _, _) => "NativeCall"
  }

  /** The kind of event a request is recorded as. */
  function WantedKind(r: Request): string {
    match r
    case WantClock => "ClockRead"
    case WantMonotonic => "MonotonicRead"
    case WantRandom => "RandomRead"
    case WantBytes(_) => "BytesRead"
    case CallActor(_) => "ActorCall"
    case ResumeGenerator => "GeneratorYield"
    case CallForeign => "FfiCall"
    case CallStdlib(_, _, _) => "StdlibCall"
    case CallNative(_, _, _) => "NativeCall"
  }

  /** Whether `a` is the kind of answer `r` gets when it is served. */
  predicate Fits(r: Request, a: Answer) {
    match r
    case WantBytes(n) => a.Raw? && |a.bytes| == n
    case CallActor(_) => a.Outcome? && !a.boundary.Done?
    case ResumeGenerator => a.Outcome?
    case CallForeign => a.Foreign?
    case CallStdlib(_, _, _) => a.Traced?
    case CallNative(_, _, _) => a.Traced?
    case _ => a.Number?
  }

  /** The event that records the answer `a` to `r`. */
  function Recorded(r: Request, a: Answer): Event
    requires Fits(r, a)
  {
    match r
    case WantClock => ClockRead(a.value)
    case WantMonotonic => MonotonicRead(a.value)
    case WantRandom => RandomRead(a.value)
    case WantBytes(_) => BytesRead(a.bytes)
    case CallActor(m) => ActorCallFor(m, a.boundary)
    case ResumeGenerator => GeneratorYieldFor(a.boundary)
    case CallForeign => FfiCall(a.ret, a.outParams)
    case CallStdlib(m, f, h) => StdlibCall(m, f, h, a.outcome)
    case CallNative(v, m, h) => NativeCall(v, m, h, a.outcome)
  }

  /** An actor call has no "done"; it is written as an empty reply. */
  function ActorCallFor(m: string, o: BoundaryOutcome): Event {
    match o
    case Data(b) => ActorCall(m, b, None)
    case Done => ActorCall(m, [], None)
    case Panicked(msg) => ActorCall(m, [], Some(msg))
  }

  function GeneratorYieldFor(o: BoundaryOutcome): Event {
    match o
    case Data(b) => GeneratorYield(Some(b), None)
    case Done => GeneratorYield(None, None)
    case Panicked(msg) => GeneratorYield(None, Some(msg))
  }

  /** What `e` answers `r` with on replay, or nothing when it was recorded for another request. */
  function Replayed(r: Request, e: Event): Option<Answer> {
    match (r, e)
    case (WantClock, ClockRead(v)) => Some(Number(v))
    case (WantMonotonic, MonotonicRead(v)) => Some(Number(v))
    case (WantRandom, RandomRead(v)) => Some(Number(v))
    case (WantBytes(n), BytesRead(b)) => if |b| == n then Some(Raw(b)) else None
    case (CallActor(m), ActorCall(rm, b, p)) =>
      if rm != m then None
      else Some(Outcome(match p case Some(msg) => Panicked(msg) case None => Data(b)))
    case (ResumeGenerator, GeneratorYield(v, p)) =>
      Some(Outcome(
        match p
        case Some(msg) => Panicked(msg)
        case None => match v case Some(b) => Data(b) case None => Done))
    case (CallForeign, FfiCall(ret, outs)) => Some(Foreign(ret, outs))
    case (CallStdlib(m, f, h), StdlibCall(rm, rf, rh, o)) =>
      if rm == m && rf == f && rh == h then Some(Traced(o)) else None
    case (CallNative(v, m, h), NativeCall(rv, rm, rh, o)) =>
      if rv == v && rm == m && rh == h then Some(Traced(o)) else None
    case _ => None
  }

  /** Recording and replaying one crossing are inverse, whatever the crossing was, and an
      event answers no request of another kind or another signature. */
  lemma RecordedReplays(r: Request, a: Answer, other: Request)
    requires Fits(r, a)
    ensures Replayed(r, Recorded(r, a)) == Some(a)
    ensures KindName(Recorded(r, a)) == WantedKind(r)
    ensures Replayed(other, Recorded(r, a)).Some? <==> other == r
  {
  }

  lemma ReplayedFits(r: Request, e: Event)
    requires Replayed(r, e).Some?
    ensures Fits(r, Replayed(r, e).value)
    ensures KindName(e) == WantedKind(r)
  {
  }

  /** The one outcome an actor's log entry cannot hold. */
  lemma ActorOutcomeSurvives(m: string, o: BoundaryOutcome)
    ensures Replayed(CallActor(m), ActorCallFor(m, o)) == Some(Outcome(o)) <==> o != Done
  {
  }
}
