/** A streaming worker's generator: the producer runs in another isolate, and each demand that
    crosses to it is recorded, so that a replay can answer the consumer without the producer. */
module Worker {
  import opened Wrappers
  import opened Events
  import opened GroupLog
  import opened Determinism

  /** How values cross: as bytes, with a side table of shared parts that the log does not keep. */
  datatype Codec<!V, !S> = Codec(
    nil: V,
    encode: V -> Result<(Bytes, S), string>,
    decode: Bytes -> Result<V, string>,
    decodeShared: (Bytes, S) -> Result<V, string>)

  /** One demand's answer from the producer. */
  datatype Crossing<S> = Yields(bytes: Bytes, shared: S) | Ends | Breaks(message: string)

  /** Any producer: its state, an encoded input and its shared parts give an answer and a new state. */
  type Producer<!D, !S> = (D, Bytes, S) -> (Crossing<S>, D)

  datatype Outcome<V> = Item(v: V) | Finished | Panics(message: string)

  /** The consumer's side of the generator. */
  datatype Stream<D> = Stream(driver: Option<D>, started: bool, done: bool)

  function Shown<V>(c: Result<V, string>): Outcome<V> {
    match c
    case Ok(v) => Item(v)
    case Err(m) => Panics(m)
  }

  /** What the log keeps of an answer. */
  function Kept<S>(c: Crossing<S>): BoundaryOutcome {
    match c
    case Yields(b, _) => Data(b)
    case Ends => BoundaryOutcome.Done
    case Breaks(m) => Panicked(m)
  }

  // ----- one resume -----

  function Injected<V, S, D>(codec: Codec<V, S>, h: Stream<D>, input: V): V {
    if h.started then input else codec.nil
  }

  /** The recorded answer, shown to the consumer. */
  function FromLog<V, S, D>(codec: Codec<V, S>, h: Stream<D>, o: BoundaryOutcome): (Outcome<V>, Stream<D>) {
    match o
    case Data(b) => (Shown(codec.decode(b)), h.(started := true))
    case Done => (Finished, h.(started := true, done := true))
    case Panicked(m) => (Panics(m), h.(started := true, done := true))
  }

  /** The producer's answer, shown to the consumer; `d` is the producer's state after it. */
  function FromProducer<V, S, D>(codec: Codec<V, S>, h: Stream<D>, a: Crossing<S>, d: D): (Outcome<V>, Stream<D>) {
    match a
    case Yields(b, s) => (Shown(codec.decodeShared(b, s)), Stream(Some(d), true, h.done))
    case Ends => (Finished, Stream(None, true, true))
    case Breaks(m) => (Panics(m), Stream(None, true, true))
  }

  function Cross<V, S, D>(codec: Codec<V, S>, producer: Producer<D, S>, h: Stream<D>, c: Context, input: V, io: Io)
    : (Outcome<V>, Stream<D>, Context)
  {
    match codec.encode(Injected(codec, h, input))
    case Err(m) => (Panics(m), h.(started := true), c)
    case Ok((bytes, shared)) =>
      match h.driver
      case None => (Finished, h.(started := true), c)
      case Some(d) =>
        var (a, d') := producer(d, bytes, shared);
        var c' := if c.mode == Record then Push(c, GeneratorYieldFor(Kept(a)), io) else c;
        var (out, h') := FromProducer(codec, h, a, d');
        (out, h', c')
  }

  function ResumeWorker<V, S, D>(codec: Codec<V, S>, producer: Producer<D, S>, h: Stream<D>, c: Context, input: V, io: Io)
    : (Outcome<V>, Stream<D>, Context)
  {
    if h.done then (Finished, h, c)
    else if c.mode == Replay && AtCursor(c, ResumeGenerator).Some? then
      var (out, h') := FromLog(codec, h, Answered(c));
      (out, h', c.(cursor := c.cursor + 1))
    else Cross(codec, producer, h, c, input, io)
  }

  /** The boundary outcome at the cursor. */
  function Answered(c: Context): BoundaryOutcome {
    match AtCursor(c, ResumeGenerator)
    case Some(Outcome(o)) => o
    case _ => BoundaryOutcome.Done
  }

  class WorkerHandle<!V, !S, D(0)> {
    const codec: Codec<V, S>
    const producer: Producer<D, S>
    var driver: Option<D>
    var started: bool
    var done: bool

    ghost function View(): Stream<D>
      reads this
    {
      Stream(driver, started, done)
    }

    constructor (codec: Codec<V, S>, producer: Producer<D, S>, driver: D)
      ensures this.codec == codec && this.producer == producer && View() == Stream(Some(driver), false, false)
    {
      this.codec, this.producer := codec, producer;
      this.driver, this.started, this.done := Some(driver), false, false;
    }

    method Close()
      modifies this
      ensures View() == Stream(None, old(started), true)
    {
      done := true;
      driver := None;
    }

    method Resume(ctx: DeterminismContext, input: V, io: Io) returns (out: Outcome<V>)
      modifies this, ctx`cursor, ctx`events, ctx.group
      ensures (out, View(), ctx.View()) == ResumeWorker(codec, producer, old(View()), old(ctx.View()), input, io)
    {
      if done {
        return Finished;
      }
      if ctx.mode == Replay {
        ghost var before := ctx.View();
        var found := ctx.ReplayGeneratorYield();
        if found.Some? {
          assert Answered(before) == found.value;
          started := true;
          match found.value
          case Data(b) =>
            return Shown(codec.decode(b));
          case Done =>
            done := true;
            return Finished;
          case Panicked(m) =>
            done := true;
            return Panics(m);
        }
      }
      out := CrossOver(ctx, input, io);
    }

    method CrossOver(ctx: DeterminismContext, input: V, io: Io) returns (out: Outcome<V>)
      modifies this, ctx`events, ctx.group
      ensures (out, View(), ctx.View()) == Cross(codec, producer, old(View()), old(ctx.View()), input, io)
    {
      var inject := if started then input else codec.nil;
      started := true;
      match codec.encode(inject)
      case Err(m) =>
        return Panics(m);
      case Ok((bytes, shared)) =>
        match driver
        case None =>
          return Finished;
        case Some(d) =>
          driver := None;
          var (answer, d') := producer(d, bytes, shared);
          if ctx.mode == Record {
            ctx.RecordGeneratorYield(Kept(answer), io);
          }
          match answer
          case Yields(b, s) =>
            driver := Some(d');
            return Shown(codec.decodeShared(b, s));
          case Ends =>
            done := true;
            return Finished;
          case Breaks(m) =>
            done := true;
            return Panics(m);
    }
  }
}
