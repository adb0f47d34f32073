/** Whole conversations with a worker's generator: recorded once, and replayed without its producer. */
module WorkerReplay {
  import opened Wrappers
  import opened Events
  import opened GroupLog
  import opened Determinism
  import opened Worker
  import Runs

  datatype Op<V> = Send(input: V) | Shut

  /** A deterministic consumer: what it has seen decides what it does next, or that it stops. */
  type Consumer<!V> = seq<Outcome<V>> -> Option<Op<V>>

  datatype Talk<V, D> = Talk(outs: seq<Outcome<V>>, stream: Stream<D>, ctx: Context)

  datatype Setup<!V, !S, !D> = Setup(codec: Codec<V, S>, producer: Producer<D, S>, consumer: Consumer<V>, io: nat -> Io)

  function Does<V, S, D>(w: Setup<V, S, D>, t: Talk<V, D>, op: Op<V>): (Outcome<V>, Stream<D>, Context) {
    match op
    case Send(v) => ResumeWorker(w.codec, w.producer, t.stream, t.ctx, v, w.io(|t.outs|))
    case Shut => (Finished, Stream(None, t.stream.started, true), t.ctx)
  }

  function Next<V, S, D>(w: Setup<V, S, D>, t: Talk<V, D>): Talk<V, D> {
    match w.consumer(t.outs)
    case None => t
    case Some(op) => var (out, stream, ctx) := Does(w, t, op); Talk(t.outs + [out], stream, ctx)
  }

  ghost function Step<V, S, D>(w: Setup<V, S, D>): Talk<V, D> -> Talk<V, D> {
    t => Next(w, t)
  }

  /** `n` operations of the consumer, on a generator not yet started. */
  ghost function Run<V, S, D>(w: Setup<V, S, D>, d: D, c: Context, n: nat): Talk<V, D> {
    Runs.Iter(Step(w), Talk([], Stream(Some(d), false, false), c), n)
  }

  // ----- what the log can and cannot give back -----

  /** The next operation asks the producer for something. */
  predicate Demands<V, S, D>(w: Setup<V, S, D>, t: Talk<V, D>) {
    w.consumer(t.outs).Some? && w.consumer(t.outs).value.Send? && !t.stream.done
  }

  /** The encoder's message, when the input of the next demand cannot be sent. */
  function Refusal<V, S, D>(w: Setup<V, S, D>, t: Talk<V, D>): Option<string> {
    if !Demands(w, t) then None
    else match w.codec.encode(Injected(w.codec, t.stream, w.consumer(t.outs).value.input))
      case Err(m) => Some(m)
      case Ok(_) => None
  }

  /** What the producer answers next. */
  function Crossed<V, S, D>(w: Setup<V, S, D>, t: Talk<V, D>): Option<Crossing<S>> {
    if !Demands(w, t) || t.stream.driver.None? then None
    else match w.codec.encode(Injected(w.codec, t.stream, w.consumer(t.outs).value.input))
      case Err(_) => None
      case Ok((bytes, shared)) => Some(w.producer(t.stream.driver.value, bytes, shared).0)
  }

  /** The bytes alone say what the bytes and the shared parts say. */
  ghost predicate Plain<V, S, D>(w: Setup<V, S, D>, t: Talk<V, D>) {
    match Crossed(w, t)
    case Some(Yields(b, s)) => w.codec.decode(b) == w.codec.decodeShared(b, s)
    case _ => true
  }

  /** The log can retell the next operation: a yield is plain, and after a refused input no more
      answers were recorded. */
  ghost predicate Retold<V, S, D>(w: Setup<V, S, D>, t: Talk<V, D>, log: seq<Event>) {
    Plain(w, t) && (Refusal(w, t).Some? ==> t.ctx.events == log)
  }

  ghost predicate RetoldRun<V, S, D>(w: Setup<V, S, D>, d: D, c: Context, n: nat) {
    forall m :: 0 <= m < n ==> Retold(w, Run(w, d, c, m), Run(w, d, c, n).ctx.events)
  }

  /** What the consumer is shown for a recorded answer. */
  function Told<V, S>(codec: Codec<V, S>, e: Event): Outcome<V> {
    match Replayed(ResumeGenerator, e)
    case Some(Outcome(o)) => FromLog(codec, Stream<int>.Stream(None, false, false), o).0
    case _ => Finished
  }

  /** A refusal does not read like the next recorded answer. */
  ghost predicate NoEcho<V, S, D>(w: Setup<V, S, D>, t: Talk<V, D>, log: seq<Event>) {
    Refusal(w, t).Some? && |t.ctx.events| < |log| ==> Told(w.codec, log[|t.ctx.events|]) != Panics(Refusal(w, t).value)
  }

  ghost predicate NoEchoes<V, S, D>(w: Setup<V, S, D>, d: D, c: Context, n: nat) {
    forall m :: 0 <= m < n ==> NoEcho(w, Run(w, d, c, m), Run(w, d, c, n).ctx.events)
  }

  // ----- a recording conversation and its replay keep in step -----

  /** A recording handle that is not done still has its driver. */
  ghost predicate Recording<V, D>(t: Talk<V, D>) {
    t.ctx.mode == Record && (!t.stream.done ==> t.stream.driver.Some?)
  }

  /** `r` replays `t`: the consumer saw the same, the log is consumed as far as `t` wrote it, and the
      replay's own driver `d` has not been used. */
  ghost predicate Follows<V, D>(r: Talk<V, D>, t: Talk<V, D>, start: Context, d: D) {
    && Recording(t) && start.mode == Replay
    && r.outs == t.outs && r.stream.started == t.stream.started && r.stream.done == t.stream.done
    && (!t.stream.done ==> r.stream.driver == Some(d))
    && t.ctx.events <= start.events
    && r.ctx == start.(cursor := |t.ctx.events|)
  }

  /** A recorded operation appends the event of its crossing, if it made one. */
  lemma RecordStep<V, S, D>(w: Setup<V, S, D>, t: Talk<V, D>)
    requires Recording(t) && Refusal(w, t).None?
    ensures Recording(Next(w, t))
    ensures Next(w, t).ctx.events == match Crossed(w, t)
      case None => t.ctx.events
      case Some(a) => t.ctx.events + [GeneratorYieldFor(Kept(a))]
    ensures Demands(w, t) <==> Crossed(w, t).Some?
    ensures match Crossed(w, t)
      case None => true
      case Some(a) =>
        var out := match a case Yields(b, s) => Shown(w.codec.decodeShared(b,
            s)) case Ends => Finished case Breaks(m) => Panics(m);
        && Next(w, t).outs == t.outs + [out]
        && Next(w, t).stream.started && Next(w, t).stream.done == !a.Yields?
  {
  }

  /** A refused input panics and leaves no event. */
  lemma RefusedStep<V, S, D>(w: Setup<V, S, D>, t: Talk<V, D>)
    requires t.ctx.mode == Record && Refusal(w, t).Some?
    ensures Next(w, t) == Talk(t.outs + [Panics(Refusal(w, t).value)], t.stream.(started := true), t.ctx)
  {
  }

  lemma ReplayStep<V, S, D>(w: Setup<V, S, D>, r: Talk<V, D>)
    requires Demands(w, r) && r.ctx.mode == Replay
    requires r.ctx.cursor < |r.ctx.events| && r.ctx.events[r.ctx.cursor].GeneratorYield?
    ensures var e := r.ctx.events[r.ctx.cursor];
      Next(w, r) == Talk(r.outs + [Told(w.codec, e)], Stream(r.stream.driver, true, e.yielded.None? || e.panic.Some?),
                         r.ctx.(cursor := r.ctx.cursor + 1))
  {
  }

  /** At the end of the log a refused input is refused again. */
  lemma ReplayRefused<V, S, D>(w: Setup<V, S, D>, r: Talk<V, D>)
    requires r.ctx.mode == Replay && r.ctx.cursor >= |r.ctx.events| && Refusal(w, r).Some?
    ensures Next(w, r) == Talk(r.outs + [Panics(Refusal(w, r).value)], r.stream.(started := true), r.ctx)
  {
  }

  lemma ToldIs<V, S>(codec: Codec<V, S>, a: Crossing<S>)
    ensures Told(codec, GeneratorYieldFor(Kept(a))) ==
      match a case Yields(b, _) => Shown(codec.decode(b)) case Ends => Finished case Breaks(m) => Panics(m)
  {
  }

  /** One operation, recorded and replayed, with the replay's own producer and log. */
  lemma StepFollows<V, S, D>(w: Setup<V, S, D>, w': Setup<V, S, D>, r: Talk<V, D>, t: Talk<V, D>, start: Context, d: D)
    requires w'.codec == w.codec && w'.consumer == w.consumer
    requires Follows(r, t, start, d) && Retold(w, t, start.events) && Next(w, t).ctx.events <= start.events
    ensures Follows(Next(w', r), Next(w, t), start, d)
  {
    if Refusal(w, t).Some? {
      RefusedStep(w, t);
      ReplayRefused(w', r);
    } else {
      RecordStep(w, t);
      if Crossed(w, t).Some? {
        var a := Crossed(w, t).value;
        assert start.events[|t.ctx.events|] == Next(w, t).ctx.events[|t.ctx.events|] == GeneratorYieldFor(Kept(a));
        ReplayStep(w', r);
        ToldIs(w.codec, a);
      }
    }
  }

  /** An operation that the log cannot retell is retold as something else. */
  lemma LostDiffers<V, S, D>(w: Setup<V, S, D>, w': Setup<V, S, D>, r: Talk<V, D>, t: Talk<V, D>, start: Context, d: D)
    requires w'.codec == w.codec && w'.consumer == w.consumer
    requires Follows(r, t, start, d) && !Retold(w, t, start.events) && NoEcho(w, t, start.events)
    requires Next(w, t).ctx.events <= start.events
    requires |t.ctx.events| < |start.events| ==> start.events[|t.ctx.events|].GeneratorYield?
    ensures |Next(w, t).outs| == |Next(w', r).outs| == |t.outs| + 1
    ensures Next(w, t).outs[|t.outs|] != Next(w', r).outs[|t.outs|]
  {
    if Refusal(w, t).Some? {
      RefusedStep(w, t);
      ReplayStep(w', r);
    } else {
      RecordStep(w, t);
      var a := Crossed(w, t).value;
      assert start.events[|t.ctx.events|] == Next(w, t).ctx.events[|t.ctx.events|] == GeneratorYieldFor(Kept(a));
      ReplayStep(w', r);
      ToldIs(w.codec, a);
    }
  }

  lemma NextGrows<V, S, D>(w: Setup<V, S, D>, t: Talk<V, D>)
    ensures t.outs <= Next(w, t).outs && t.ctx.events <= Next(w, t).ctx.events
  {
  }

  lemma {:induction false} RunGrows<V, S, D>(w: Setup<V, S, D>, d: D, c: Context, m: nat, n: nat)
    requires m <= n
    ensures Run(w, d, c, m).outs <= Run(w, d, c, n).outs
    ensures Run(w, d, c, m).ctx.events <= Run(w, d, c, n).ctx.events
  {
    if m < n {
      RunGrows(w, d, c, m, n - 1);
      NextGrows(w, Run(w, d, c, n - 1));
    }
  }

  /** What a conversation adds to the log is its answers. */
  lemma {:induction false} LogIsAnswers<V, S, D>(w: Setup<V, S, D>, d: D, c: Context, n: nat)
    requires c.mode == Record
    ensures Recording(Run(w, d, c, n)) && c.events <= Run(w, d, c, n).ctx.events
    ensures forall k :: |c.events| <= k < |Run(w, d, c, n).ctx.events| ==> Run(w, d, c, n).ctx.events[k].GeneratorYield?
  {
    if n > 0 {
      LogIsAnswers(w, d, c, n - 1);
      var t := Run(w, d, c, n - 1);
      assert Run(w, d, c, n) == Next(w, t);
      if Refusal(w, t).Some? {
        RefusedStep(w, t);
      } else {
        RecordStep(w, t);
      }
    }
  }

  // ----- what crosses -----

  /** The consumer has asked the producer for something before operation `n`. */
  ghost predicate Asked<V, S, D>(w: Setup<V, S, D>, d: D, c: Context, n: nat) {
    exists m :: 0 <= m < n && Demands(w, Run(w, d, c, m))
  }

  lemma {:induction false} StartedOnceAsked<V, S, D>(w: Setup<V, S, D>, d: D, c: Context, n: nat)
    ensures Run(w, d, c, n).stream.started <==> Asked(w, d, c, n)
  {
    if n > 0 {
      StartedOnceAsked(w, d, c, n - 1);
      var t := Run(w, d, c, n - 1);
      assert Run(w, d, c, n) == Next(w, t);
      StartsWhenAsked(w, t);
      assert Asked(w, d, c, n) <==> Asked(w, d, c, n - 1) || Demands(w, t);
    }
  }

  lemma StartsWhenAsked<V, S, D>(w: Setup<V, S, D>, t: Talk<V, D>)
    ensures Next(w, t).stream.started <==> t.stream.started || Demands(w, t)
  {
  }

  /** The producer is asked, and `carried` with it: if that cannot be encoded, the consumer is shown the encoder's
      message and the producer stays where it is; otherwise the consumer is shown the producer's answer to it, and
      the producer goes on from there until it ends or breaks. */
  ghost predicate Carries<V, S, D>(w: Setup<V, S, D>, t: Talk<V, D>, t': Talk<V, D>, carried: V) {
    && t.stream.driver.Some?
    && match w.codec.encode(carried)
       case Err(m) => t'.outs == t.outs + [Panics(m)] && t'.stream == t.stream.(started := true)
       case Ok((bytes, shared)) =>
         match w.producer(t.stream.driver.value, bytes, shared)
         case (Yields(b, s), d') =>
           t'.outs == t.outs + [Shown(w.codec.decodeShared(b, s))] && t'.stream == Stream(Some(d'), true, false)
         case (Ends, _) => t'.outs == t.outs + [Finished] && t'.stream == Stream(None, true, true)
         case (Breaks(m), _) => t'.outs == t.outs + [Panics(m)] && t'.stream == Stream(None, true, true)
  }

  /** What a recorded demand does, wherever it comes in a conversation: it carries nil if it is the first one,
      whatever the consumer sent, and what the consumer sends with it if it is a later one. */
  lemma DemandCarries<V, S, D>(w: Setup<V, S, D>, d: D, c: Context, n: nat)
    requires c.mode == Record && Demands(w, Run(w, d, c, n))
    ensures var t := Run(w, d, c, n);
            Carries(w, t, Run(w, d, c, n + 1), if Asked(w, d, c, n) then w.consumer(t.outs).value.input else w.codec.nil)
  {
    StartedOnceAsked(w, d, c, n);
    LogIsAnswers(w, d, c, n);
    var t := Run(w, d, c, n);
    assert Run(w, d, c, n + 1) == Next(w, t);
    DemandSteps(w, t);
  }

  lemma DemandSteps<V, S, D>(w: Setup<V, S, D>, t: Talk<V, D>)
    requires Demands(w, t) && t.stream.driver.Some?
    requires t.ctx.mode == Record || Retells(t.ctx).None?
    ensures Carries(w, t, Next(w, t), if t.stream.started then w.consumer(t.outs).value.input else w.codec.nil)
    ensures t.ctx.mode == Replay ==> Next(w, t).ctx == t.ctx
  {
  }

  /** The operation at which a conversation is over: the consumer closes the generator, or the producer ends or breaks. */
  predicate Closes<V, S, D>(w: Setup<V, S, D>, t: Talk<V, D>) {
    w.consumer(t.outs) == Some(Shut) || (Crossed(w, t).Some? && !Crossed(w, t).value.Yields?)
  }

  /** Nothing comes after that: whatever the consumer still asks for, it is told the generator is finished, and
      neither the log nor the handle changes. */
  lemma {:induction false} OverIsOver<V, S, D>(w: Setup<V, S, D>, d: D, c: Context, m: nat, n: nat)
    requires c.mode == Record && m < n && Closes(w, Run(w, d, c, m))
    ensures var over, later := Run(w, d, c, m + 1), Run(w, d, c, n);
            && over.stream.driver.None? && over.stream.done
            && over.outs <= later.outs && later.ctx == over.ctx && later.stream == over.stream
            && forall k :: |over.outs| <= k < |later.outs| ==> later.outs[k] == Finished
  {
    LogIsAnswers(w, d, c, m);
    assert Run(w, d, c, m + 1) == Next(w, Run(w, d, c, m));
    if m + 1 < n {
      OverIsOver(w, d, c, m, n - 1);
      OverStays(w, Run(w, d, c, n - 1));
      assert Run(w, d, c, n) == Next(w, Run(w, d, c, n - 1));
    }
  }

  lemma OverStays<V, S, D>(w: Setup<V, S, D>, t: Talk<V, D>)
    requires t.stream.done && t.stream.driver.None?
    ensures var t' := Next(w, t);
            && t'.ctx == t.ctx && t'.stream == t.stream
            && (t'.outs == t.outs || t'.outs == t.outs + [Finished])
  {
  }

  // ----- replaying any log, complete or not -----

  /** The recorded answer the cursor stands at. */
  function Retells(c: Context): Option<Event> {
    if c.cursor < |c.events| && c.events[c.cursor].GeneratorYield? then Some(c.events[c.cursor]) else None
  }

  /** What a demand does in a replay of any log. While the cursor stands at a recorded answer, the consumer is shown
      that one and the producer is left alone; anywhere else the producer is asked as it is in a first run. Either
      way the log is not written to. */
  lemma ReplayCarries<V, S, D>(w: Setup<V, S, D>, d: D, c: Context, n: nat)
    requires c.mode == Replay && Demands(w, Run(w, d, c, n))
    ensures var t, t' := Run(w, d, c, n), Run(w, d, c, n + 1);
            && t.ctx == c.(cursor := t.ctx.cursor)
            && match Retells(t.ctx)
               case Some(e) =>
                 && t'.outs == t.outs + [Told(w.codec, e)] && t'.stream.driver == t.stream.driver
                 && t'.ctx == c.(cursor := t.ctx.cursor + 1)
               case None =>
                 && t'.ctx == t.ctx
                 && Carries(w, t, t', if Asked(w, d, c, n) then w.consumer(t.outs).value.input else w.codec.nil)
  {
    StartedOnceAsked(w, d, c, n);
    ReplayKeepsLog(w, d, c, n);
    var t := Run(w, d, c, n);
    assert Run(w, d, c, n + 1) == Next(w, t);
    if Retells(t.ctx).Some? {
      ReplayStep(w, t);
    } else {
      DemandSteps(w, t);
    }
  }

  /** A replay moves the cursor and nothing else of its context. */
  lemma {:induction false} ReplayKeepsLog<V, S, D>(w: Setup<V, S, D>, d: D, c: Context, n: nat)
    requires c.mode == Replay
    ensures var t := Run(w, d, c, n);
            t.ctx == c.(cursor := t.ctx.cursor) && (!t.stream.done ==> t.stream.driver.Some?)
  {
    if n > 0 {
      ReplayKeepsLog(w, d, c, n - 1);
      ReplayMoves(w, Run(w, d, c, n - 1));
      assert Run(w, d, c, n) == Next(w, Run(w, d, c, n - 1));
    }
  }

  lemma ReplayMoves<V, S, D>(w: Setup<V, S, D>, t: Talk<V, D>)
    requires t.ctx.mode == Replay && (!t.stream.done ==> t.stream.driver.Some?)
    ensures var t' := Next(w, t);
            t'.ctx == t.ctx.(cursor := t'.ctx.cursor) && (!t'.stream.done ==> t'.stream.driver.Some?)
  {
    if Demands(w, t) {
      if Retells(t.ctx).Some? {
        ReplayStep(w, t);
      } else {
        DemandSteps(w, t);
      }
    }
  }

  // ----- replaying a complete log -----

  /** The replay starts from the complete log of the recorded conversation. */
  ghost predicate Complete<V, S, D>(w: Setup<V, S, D>, d: D, c: Context, start: Context, n: nat) {
    c.mode == Record && start.mode == Replay && start.cursor == |c.events| && start.events == Run(w, d, c, n).ctx.events
  }

  lemma NextWithin<V, S, D>(w: Setup<V, S, D>, d: D, c: Context, k: nat, n: nat)
    requires k < n
    ensures Next(w, Run(w, d, c, k)).ctx.events <= Run(w, d, c, n).ctx.events
  {
    RunGrows(w, d, c, k + 1, n);
  }

  /** The next operation can be followed with the log of `start`. */
  ghost predicate Follow<V, S, D>(w: Setup<V, S, D>, t: Talk<V, D>, start: Context) {
    Retold(w, t, start.events) && Next(w, t).ctx.events <= start.events
  }

  lemma RunFollows<V, S, D>(w: Setup<V, S, D>, d: D, c: Context, w': Setup<V, S, D>, d': D, start: Context, n: nat, m: nat)
    requires w'.codec == w.codec && w'.consumer == w.consumer && Complete(w, d, c, start, n) && m <= n
    requires forall k :: 0 <= k < m ==> Retold(w, Run(w, d, c, k), start.events)
    ensures Follows(Run(w', d', start, m), Run(w, d, c, m), start, d')
  {
    var t: Talk<V, D> := Talk([], Stream(Some(d), false, false), c);
    forall k | 0 <= k < m ensures Follow(w, Runs.Iter(Step(w), t, k), start) {
      assert Retold(w, Run(w, d, c, k), start.events);
      NextWithin(w, d, c, k, n);
    }
    RunGrows(w, d, c, 0, n);
    IterFollows(w, w', Talk([], Stream(Some(d'), false, false), start), t, start, d', m);
  }

  lemma IterFollows<V, S, D>(w: Setup<V, S, D>, w': Setup<V, S, D>, r: Talk<V, D>, t: Talk<V, D>, start: Context, d: D, m: nat)
    requires w'.codec == w.codec && w'.consumer == w.consumer && Follows(r, t, start, d)
    requires forall k :: 0 <= k < m ==> Follow(w, Runs.Iter(Step(w), t, k), start)
    ensures Follows(Runs.Iter(Step(w'), r, m), Runs.Iter(Step(w), t, m), start, d)
  {
    var follows := (x: Talk<V, D>, y: Talk<V, D>) => Follows(x, y, start, d);
    var allowed := (y: Talk<V, D>) => Follow(w, y, start);
    forall x, y | follows(x, y) && allowed(y) ensures follows(Step(w')(x), Step(w)(y)) {
      StepFollows(w, w', x, y, start, d);
    }
    Runs.InStep(Step(w'), Step(w), follows, allowed, r, t, m);
  }

  lemma {:induction false} FirstLost<V, S, D>(w: Setup<V, S, D>, d: D, c: Context, log: seq<Event>, n: nat) returns (m: nat)
    requires !forall k :: 0 <= k < n ==> Retold(w, Run(w, d, c, k), log)
    ensures m < n && !Retold(w, Run(w, d, c, m), log) && forall k :: 0 <= k < m ==> Retold(w, Run(w, d, c, k), log)
  {
    m := 0;
    while Retold(w, Run(w, d, c, m), log)
      invariant m < n && forall k :: 0 <= k < m ==> Retold(w, Run(w, d, c, k), log)
      decreases n - m
    {
      m := m + 1;
    }
  }

  lemma DifferForGood<T>(a: seq<T>, b: seq<T>, as': seq<T>, bs': seq<T>, k: nat)
    requires a <= as' && b <= bs' && k < |a| && k < |b| && a[k] != b[k]
    ensures as' != bs'
  {
    assert as'[k] == a[k] && bs'[k] == b[k];
  }

  lemma NextShown<V, S, D>(w: Setup<V, S, D>, d: D, c: Context, m: nat, n: nat)
    requires m < n
    ensures Next(w, Run(w, d, c, m)).outs <= Run(w, d, c, n).outs
  {
    RunGrows(w, d, c, m + 1, n);
  }

  /** The log of `start` as operation `m` finds it. */
  lemma LogAtStep<V, S, D>(w: Setup<V, S, D>, d: D, c: Context, start: Context, n: nat, m: nat)
    requires Complete(w, d, c, start, n) && m < n
    ensures var seen := |Run(w, d, c, m).ctx.events|; seen < |start.events| ==> start.events[seen].GeneratorYield?
    ensures Next(w, Run(w, d, c, m)).ctx.events <= start.events
  {
    RunGrows(w, d, c, 0, m);
    LogIsAnswers(w, d, c, n);
    NextWithin(w, d, c, m, n);
  }

  lemma RunDiffers<V, S, D>(w: Setup<V, S, D>, d: D, c: Context, w': Setup<V, S, D>, d': D, start: Context, n: nat, m: nat)
    requires w'.codec == w.codec && w'.consumer == w.consumer && Complete(w, d, c, start, n) && m < n
    requires Follows(Run(w', d', start, m), Run(w, d, c, m), start, d')
    requires !Retold(w, Run(w, d, c, m), start.events) && NoEcho(w, Run(w, d, c, m), start.events)
    ensures Run(w', d', start, n).outs != Run(w, d, c, n).outs
  {
    LogAtStep(w, d, c, start, n, m);
    NextShown(w, d, c, m, n);
    NextShown(w', d', start, m, n);
    var t, r := Run(w, d, c, m), Run(w', d', start, m);
    LostDiffers(w, w', r, t, start, d');
    DifferForGood(Next(w', r).outs, Next(w, t).outs, Run(w', d', start, n).outs, Run(w, d, c, n).outs, |t.outs|);
  }

  /** Replaying the complete log of any conversation, with any other producer behind it. When every yield
      can be rebuilt from its bytes alone and no refused input is followed by a recorded answer, the
      consumer is shown the same values, end and panics, the whole log is used and the producer is not.
      When no refusal reads like the answer recorded next, this is also the only case in which the
      consumer is shown the same. */
  lemma WorkerReplays<V, S, D>(w: Setup<V, S, D>, d: D, c: Context, w': Setup<V, S, D>, d': D, start: Context, n: nat)
    requires w'.codec == w.codec && w'.consumer == w.consumer && Complete(w, d, c, start, n)
    ensures RetoldRun(w, d, c, n) ==>
      && Run(w', d', start, n).outs == Run(w, d, c, n).outs
      && Run(w', d', start, n).ctx == start.(cursor := |start.events|)
      && (!Run(w', d', start, n).stream.done ==> Run(w', d', start, n).stream.driver == Some(d'))
    ensures NoEchoes(w, d, c, n) ==>
      (Run(w', d', start, n).outs == Run(w, d, c, n).outs <==> RetoldRun(w, d, c, n))
  {
    if RetoldRun(w, d, c, n) {
      RunFollows(w, d, c, w', d', start, n, n);
    } else if NoEchoes(w, d, c, n) {
      var m := FirstLost(w, d, c, start.events, n);
      RunFollows(w, d, c, w', d', start, n, m);
      assert NoEcho(w, Run(w, d, c, m), start.events);
      RunDiffers(w, d, c, w', d', start, n, m);
    }
  }

  // ----- consumers that send what can be sent, and one that does not -----

  ghost predicate PlainRun<V, S, D>(w: Setup<V, S, D>, d: D, c: Context, n: nat) {
    forall m :: 0 <= m < n ==> Plain(w, Run(w, d, c, m))
  }

  /** The consumer never sends what cannot be sent. */
  ghost predicate SendsSendable<V(!new), S, D>(w: Setup<V, S, D>) {
    w.codec.encode(w.codec.nil).Ok? && forall outs :: SendableAt(w, outs)
  }

  ghost predicate SendableAt<V, S, D>(w: Setup<V, S, D>, outs: seq<Outcome<V>>) {
    w.consumer(outs).Some? && w.consumer(outs).value.Send? ==> w.codec.encode(w.consumer(outs).value.input).Ok?
  }

  /** Its conversations replay exactly when every yield can be rebuilt from its bytes alone. */
  lemma SendableIsFaithful<V(!new), S, D>(w: Setup<V, S, D>, d: D, c: Context, w': Setup<V, S, D>, d': D, start: Context, n: nat)
    requires w'.codec == w.codec && w'.consumer == w.consumer && Complete(w, d, c, start, n) && SendsSendable(w)
    ensures Run(w', d', start, n).outs == Run(w, d, c, n).outs <==> PlainRun(w, d, c, n)
  {
    forall m | 0 <= m < n ensures Refusal(w, Run(w, d, c, m)).None? {
      assert SendableAt(w, Run(w, d, c, m).outs);
    }
    forall m | 0 <= m < n ensures NoEcho(w, Run(w, d, c, m), start.events)
      && (Retold(w, Run(w, d, c, m), start.events) <==> Plain(w, Run(w, d, c, m))) {
      assert Refusal(w, Run(w, d, c, m)).None?;
    }
    WorkerReplays(w, d, c, w', d', start, n);
  }

  /** A producer that yields `b` for ever, asked three times, the second time with `x`. */
  function ThreeDemands<V, S>(codec: Codec<V, S>, b: Bytes, s: S, x: V, io: Io): Setup<V, S, int> {
    Setup(codec, (d: int, _: Bytes, _: S) => (Yields(b, s), d),
          (outs: seq<Outcome<V>>) => if |outs| == 1 then Some(Send(x)) else if |outs| < 3 then Some(Send(codec.nil)) else None,
          (k: nat) => io)
  }

  /** That conversation replays exactly when `x` can be sent: otherwise its refusal is not in the log,
      and the replay shows the third answer in its place. */
  lemma UnsendableIsLost<V(!new), S>(codec: Codec<V, S>, b: Bytes, s: S, x: V, io: Io, c: Context, start: Context)
    requires codec.encode(codec.nil).Ok? && codec.decode(b).Ok? && codec.decodeShared(b, s) == codec.decode(b)
    requires Complete(ThreeDemands(codec, b, s, x, io), 0, c, start, 3)
    ensures var w := ThreeDemands(codec, b, s, x, io);
      Run(w, 0, start, 3).outs == Run(w, 0, c, 3).outs <==> codec.encode(x).Ok?
  {
    var w := ThreeDemands(codec, b, s, x, io);
    if codec.encode(x).Ok? {
      forall outs ensures SendableAt(w, outs) {
      }
      SendableIsFaithful(w, 0, c, w, 0, start, 3);
    } else {
      RefusedThenAnswered(w, b, s, x, c);
      forall m | 0 <= m < 3 ensures NoEcho(w, Run(w, 0, c, m), start.events) {
        assert m == 0 || m == 1 || m == 2;
      }
      assert !Retold(w, Run(w, 0, c, 1), start.events);
      WorkerReplays(w, 0, c, w, 0, start, 3);
    }
  }

  lemma RefusedThenAnswered<V, S>(w: Setup<V, S, int>, b: Bytes, s: S, x: V, c: Context)
    requires w == ThreeDemands(w.codec, b, s, x, w.io(0)) && c.mode == Record
    requires w.codec.encode(w.codec.nil).Ok? && w.codec.decode(b).Ok? && w.codec.encode(x).Err?
    ensures Refusal(w, Run(w, 0, c, 0)).None? && Refusal(w, Run(w, 0, c, 1)).Some? && Refusal(w, Run(w, 0, c, 2)).None?
    ensures Run(w, 0, c, 1).ctx.events == c.events + [GeneratorYieldFor(Data(b))]
    ensures Run(w, 0, c, 3).ctx.events == c.events + [GeneratorYieldFor(Data(b))] + [GeneratorYieldFor(Data(b))]
    ensures Told(w.codec, GeneratorYieldFor(Data(b))).Item?
  {
    var t0 := Run(w, 0, c, 0);
    RecordStep(w, t0);
    var t1 := Run(w, 0, c, 1);
    assert t1 == Next(w, t0);
    RefusedStep(w, t1);
    var t2 := Run(w, 0, c, 2);
    assert t2 == Next(w, t1);
    RecordStep(w, t2);
    assert Run(w, 0, c, 3) == Next(w, t2);
    ToldIs(w.codec, Yields(b, s));
  }
}
