/** What every seam answers, told from the history of the run alone: which answers the log gave, what the
    clocks showed last, and how far the generator has been drawn. */
module Readings {
  import opened Wrappers
  import opened Events
  import opened Rng
  import opened GroupLog
  import opened Determinism
  import opened Replay
  import opened CrashResume

  /** Where an answer comes from: the log, the seam itself, or neither, because the log had another event
      or none. */
  datatype Source = FromLog(answer: Answer) | Live | Refused

  datatype Step = Step(request: Request, source: Source)

  /** How much of the log has been used, and whether the context records by now. */
  datatype Place = Place(used: nat, recording: bool)

  function SourceAt(strict: bool, log: seq<Event>, p: Place, r: Request): Source {
    if p.recording then Live
    else if p.used < |log| then (match Replayed(r, log[p.used]) case Some(a) => FromLog(a) case None => Refused)
    else if r.IsValue() && !strict then Live
    else Refused
  }

  /** An event is used by the request it answers; a lenient value seam uses up another's event, too. */
  function PlaceAfter(strict: bool, log: seq<Event>, p: Place, r: Request): Place {
    match SourceAt(strict, log, p, r)
    case FromLog(_) => p.(used := p.used + 1)
    case Live => p.(recording := true)
    case Refused => if r.IsValue() && !strict then p.(used := p.used + 1) else p
  }

  /** The requests with the sources of their answers, and the place after them. */
  function History(strict: bool, log: seq<Event>, p: Place, rs: seq<Request>): (res: (seq<Step>, Place))
    ensures |res.0| == |rs|
  {
    if rs == [] then ([], p)
    else
      var r := rs[|rs| - 1];
      var (h, q) := History(strict, log, p, rs[..|rs| - 1]);
      (h + [Step(r, SourceAt(strict, log, q, r))], PlaceAfter(strict, log, q, r))
  }

  /** The last reading of a clock that the log gave; `first` when it gave none. */
  function LastRead(h: seq<Step>, clock: Request, first: Double): Double {
    if h == [] then first
    else
      var s := h[|h| - 1];
      if s.request == clock && s.source.FromLog? && s.source.answer.Number? then s.source.answer.value
      else LastRead(h[..|h| - 1], clock, first)
  }

  /** What the clocks show after `h`, in a run that began in `c`. */
  function Clocks(c: Context, h: seq<Step>): Clock {
    Clock(LastRead(h, WantClock, c.clock.now), LastRead(h, WantMonotonic, c.clock.monotonic))
  }

  /** The generator after one step: moved by random numbers drawn live, and by bytes that the log did not
      give. */
  function DrawnOnce(prng: Prng, x: bv64, s: Step): bv64 {
    if s.source.FromLog? then x
    else if s.request.WantBytes? then prng.bytes(x, s.request.count).1
    else if s.request.WantRandom? && s.source.Live? then prng.unit(x).1
    else x
  }

  function Drawn(prng: Prng, x: bv64, h: seq<Step>): bv64 {
    if h == [] then x else DrawnOnce(prng, Drawn(prng, x, h[..|h| - 1]), h[|h| - 1])
  }

  /** What the request of `s` is answered after `h`, in a run that began in `c`. */
  function Reading(c: Context, h: seq<Step>, s: Step, w: World): Answer {
    var clock, x := Clocks(c, h), Drawn(c.prng, c.rng, h);
    if s.source.FromLog? then s.source.answer
    else if !s.request.IsValue() then
      if s.source.Refused? && s.request.IsTraced() then Diverged else w.Answer(s.request)
    else match s.request
      case WantBytes(n) => Raw(c.prng.bytes(x, n).0)
      case WantClock => Number(clock.now)
      case WantMonotonic => Number(if s.source.Live? || c.strict then clock.monotonic else clock.now)
      case _ => Number(if s.source.Live? then c.prng.unit(x).0 else clock.now)
  }

  function StartPlace(c: Context): Place {
    Place(c.cursor, c.mode == Record)
  }

  function HistoryFrom(c: Context, rs: seq<Request>): (h: seq<Step>)
    ensures |h| == |rs|
  {
    History(c.strict, c.events, StartPlace(c), rs).0
  }

  // ----- the context keeps nothing but its history -----

  /** Where a run from `c` with history `h` stands. */
  ghost predicate Stands(c: Context, now: Context, h: seq<Step>, p: Place) {
    && now.strict == c.strict && now.prng == c.prng
    && (now.mode == Record <==> p.recording)
    && (!p.recording ==> now.events == c.events && now.cursor == p.used)
    && now.clock == Clocks(c, h)
    && now.rng == Drawn(c.prng, c.rng, h)
  }

  lemma OneMore(c: Context, h: seq<Step>, s: Step)
    ensures Clocks(c, h + [s]) ==
      if s.source.FromLog? && s.source.answer.Number? && s.request.WantClock? then Clocks(c, h).(now := s.source.answer.value)
      else if s.source.FromLog? && s.source.answer.Number? && s.request.WantMonotonic? then
        Clocks(c, h).(monotonic := s.source.answer.value)
      else Clocks(c, h)
    ensures Drawn(c.prng, c.rng, h + [s]) == DrawnOnce(c.prng, Drawn(c.prng, c.rng, h), s)
  {
    assert (h + [s])[..|h|] == h;
  }

  /** From a context that stands after `h`, the answer and the context that the history asks for. */
  ghost predicate Follows(c: Context, h: seq<Step>, p: Place, r: Request, w: World, res: (Answer, Context)) {
    var s := Step(r, SourceAt(c.strict, c.events, p, r));
    res.0 == Reading(c, h, s, w) && Stands(c, res.1, h + [s], PlaceAfter(c.strict, c.events, p, r))
  }

  lemma LogFollows(c: Context, now: Context, h: seq<Step>, p: Place, r: Request, w: World)
    requires Stands(c, now, h, p) && now.mode == Replay && AtCursor(now, r).Some?
    ensures Follows(c, h, p, r, w, Serve(now, r, w))
  {
    OneMore(c, h, Step(r, SourceAt(c.strict, c.events, p, r)));
  }

  /** Recording an answer changes the log only. */
  lemma PushStands(c: Context, now: Context, h: seq<Step>, p: Place, e: Event, io: Io)
    requires Stands(c, now, h, p) && p.recording
    ensures Stands(c, Push(now, e, io), h, p)
  {
  }

  lemma DrawnStands(c: Context, now: Context, h: seq<Step>, p: Place, r: Request, w: World)
    requires Stands(c, now, h, p) && r.IsValue() && SourceAt(c.strict, c.events, p, r).Live?
    ensures var (a, drawn) := Draw(now.(mode := Record), r);
            a == Reading(c, h, Step(r, Live), w) && Stands(c, drawn, h + [Step(r, Live)], p.(recording := true))
  {
    OneMore(c, h, Step(r, Live));
  }

  lemma DrawFollows(c: Context, now: Context, h: seq<Step>, p: Place, r: Request, w: World)
    requires Stands(c, now, h, p) && r.IsValue() && SourceAt(c.strict, c.events, p, r).Live?
    ensures Follows(c, h, p, r, w, DrawAndRecord(now.(mode := Record), r, w.io))
  {
    DrawnStands(c, now, h, p, r, w);
    var (a, drawn) := Draw(now.(mode := Record), r);
    PushStands(c, drawn, h + [Step(r, Live)], p.(recording := true), Recorded(r, a), w.io);
  }

  /** What keeps a refused program going. */
  lemma SentinelFollows(c: Context, now: Context, h: seq<Step>, r: Request, w: World)
    requires now.strict == c.strict && now.prng == c.prng && r.IsValue()
    requires now.clock == Clocks(c, h) && now.rng == Drawn(c.prng, c.rng, h)
    ensures var x := DrawnOnce(c.prng, Drawn(c.prng, c.rng, h), Step(r, Refused));
            Sentinel(now, r) == (Reading(c, h, Step(r, Refused), w), now.(rng := x))
  {
  }

  /** The context as a refusal leaves it, before anything keeps the program going. */
  function Met(now: Context, r: Request): Context {
    if now.strict then Diverge(now, Complaint(now, r)) else now.(cursor := now.cursor + 1)
  }

  lemma RefusalServes(now: Context, r: Request, io: Io)
    requires r.IsValue() && now.mode == Replay && AtCursor(now, r).None? && (now.strict || now.cursor < |now.events|)
    ensures ServeValue(now, r, io) == Sentinel(Met(now, r), r)
  {
  }

  lemma MetStands(c: Context, now: Context, h: seq<Step>, p: Place, r: Request, x: bv64)
    requires Stands(c, now, h, p) && !p.recording && x == DrawnOnce(c.prng, Drawn(c.prng, c.rng, h), Step(r, Refused))
    ensures Stands(c, Met(now, r).(rng := x), h + [Step(r, Refused)], if c.strict then p else p.(used := p.used + 1))
  {
    OneMore(c, h, Step(r, Refused));
  }

  lemma RefusalFollows(c: Context, now: Context, h: seq<Step>, p: Place, r: Request, w: World)
    requires Stands(c, now, h, p) && r.IsValue() && SourceAt(c.strict, c.events, p, r).Refused?
    ensures Follows(c, h, p, r, w, ServeValue(now, r, w.io))
  {
    RefusalServes(now, r, w.io);
    SentinelFollows(c, Met(now, r), h, r, w);
    MetStands(c, now, h, p, r, DrawnOnce(c.prng, Drawn(c.prng, c.rng, h), Step(r, Refused)));
  }

  /** A boundary changes no clock and draws nothing. */
  lemma BoundaryOne(c: Context, now: Context, h: seq<Step>, p: Place, r: Request, source: Source)
    requires Stands(c, now, h, p) && !r.IsValue() && !source.FromLog?
    ensures Stands(c, now, h + [Step(r, source)], p)
  {
    OneMore(c, h, Step(r, source));
  }

  lemma BoundaryFollows(c: Context, now: Context, h: seq<Step>, p: Place, r: Request, w: World)
    requires Stands(c, now, h, p) && !r.IsValue() && (now.mode == Record || AtCursor(now, r).None?)
    ensures Follows(c, h, p, r, w, ServeBoundary(now, r, w))
  {
    var source := SourceAt(c.strict, c.events, p, r);
    BoundaryOne(c, now, h, p, r, source);
    if now.mode == Record {
      PushStands(c, now, h + [Step(r, Live)], p, Recorded(r, w.Answer(r)), w.io);
      assert p.(recording := true) == p;
    } else {
      assert source == Refused;
    }
  }

  lemma ServeFollows(c: Context, now: Context, h: seq<Step>, p: Place, r: Request, w: World)
    requires Stands(c, now, h, p)
    ensures Follows(c, h, p, r, w, Serve(now, r, w))
  {
    if now.mode == Replay && AtCursor(now, r).Some? {
      LogFollows(c, now, h, p, r, w);
    } else if !r.IsValue() {
      BoundaryFollows(c, now, h, p, r, w);
    } else if SourceAt(c.strict, c.events, p, r).Live? {
      DrawFollows(c, now, h, p, r, w);
      assert now.mode == Record ==> now.(mode := Record) == now;
    } else {
      RefusalFollows(c, now, h, p, r, w);
    }
  }

  ghost predicate StandsAt(seams: Seams, c: Context, w: World, now: Context, h: seq<Step>, p: Place, r: Request, k: nat) {
    Stands(c, now, h, p) ==> Follows(c, h, p, r, w, seams(now, r, k))
  }

  lemma {:induction false} RunStands(seams: Seams, ws: nat -> World, c: Context, rs: seq<Request>)
    requires forall now, h, p, r, k: nat :: StandsAt(seams, c, ws(k), now, h, p, r, k)
    ensures var (h, p) := History(c.strict, c.events, StartPlace(c), rs);
            Stands(c, ServeAll(seams, c, rs).1, h, p)
  {
    if rs != [] {
      var n := |rs| - 1;
      RunStands(seams, ws, c, rs[..n]);
      var (h, p) := History(c.strict, c.events, StartPlace(c), rs[..n]);
      assert StandsAt(seams, c, ws(n), ServeAll(seams, c, rs[..n]).1, h, p, rs[n], n);
    }
  }

  lemma {:induction false} ServeAllGrows(seams: Seams, c: Context, rs: seq<Request>, k: nat)
    requires k < |rs|
    ensures ServeAll(seams, c, rs).0[k] == seams(ServeAll(seams, c, rs[..k]).1, rs[k], k).0
    decreases |rs|
  {
    var n := |rs| - 1;
    if k < n {
      ServeAllGrows(seams, c, rs[..n], k);
      assert rs[..n][..k] == rs[..k];
    }
  }

  lemma SeamsStand(ws: nat -> World, c: Context)
    ensures forall now, h, p, r, k: nat :: StandsAt(SeamsIn(ws), c, ws(k), now, h, p, r, k)
  {
    forall now, h, p, r, k: nat ensures StandsAt(SeamsIn(ws), c, ws(k), now, h, p, r, k) {
      if Stands(c, now, h, p) {
        ServeFollows(c, now, h, p, r, ws(k));
      }
    }
  }

  /** Whatever is asked of a context, in whatever order, over all nine seams: every answer is what the
      history before it says, and so is the context. The clocks show what the log last gave them and stand
      still otherwise; the generator has moved by the draws made and by nothing else; a refused request gets
      nothing of the event it found. */
  lemma EveryAnswer(ws: nat -> World, c: Context, rs: seq<Request>, k: nat)
    requires k < |rs|
    ensures var (h, p) := History(c.strict, c.events, StartPlace(c), rs[..k]);
            && Stands(c, ServeAll(SeamsIn(ws), c, rs[..k]).1, h, p)
            && ServeAll(SeamsIn(ws), c, rs).0[k] == Reading(c, h, Step(rs[k], SourceAt(c.strict, c.events, p, rs[k])), ws(k))
  {
    SeamsStand(ws, c);
    AnswerFollows(SeamsIn(ws), ws, c, rs, k);
  }

  lemma AnswerFollows(seams: Seams, ws: nat -> World, c: Context, rs: seq<Request>, k: nat)
    requires k < |rs| && forall now, h, p, r, k: nat :: StandsAt(seams, c, ws(k), now, h, p, r, k)
    ensures var (h, p) := History(c.strict, c.events, StartPlace(c), rs[..k]);
            && Stands(c, ServeAll(seams, c, rs[..k]).1, h, p)
            && ServeAll(seams, c, rs).0[k] == Reading(c, h, Step(rs[k], SourceAt(c.strict, c.events, p, rs[k])), ws(k))
  {
    RunStands(seams, ws, c, rs[..k]);
    ServeAllGrows(seams, c, rs, k);
    var (h, p) := History(c.strict, c.events, StartPlace(c), rs[..k]);
    assert StandsAt(seams, c, ws(k), ServeAll(seams, c, rs[..k]).1, h, p, rs[k], k);
  }

  // ----- the requests of a program -----

  /** What `p` asked to be answered `xs`. */
  function Asked(p: Program, xs: seq<Answer>): (rs: seq<Request>)
    ensures |rs| == |xs|
  {
    seq(|xs|, k requires 0 <= k < |xs| => match p(xs[..k]) case Some(r) => r case None => WantClock)
  }

  lemma {:induction false} RunServes(p: Program, seams: Seams, c: Context, n: nat)
    ensures var (xs, c') := Run(p, seams, c, n);
            && ServeAll(seams, c, Asked(p, xs)) == (xs, c')
            && forall k :: 0 <= k < |xs| ==> p(xs[..k]) == Some(Asked(p, xs)[k])
  {
    if n > 0 {
      RunServes(p, seams, c, n - 1);
      var (xs, c') := Run(p, seams, c, n - 1);
      if p(xs).Some? {
        var (a, next) := seams(c', p(xs).value, |xs|);
        var ys := xs + [a];
        forall k | 0 <= k <= |xs| ensures ys[..k] == xs[..k] && p(ys[..k]).Some? {
          assert xs[..|xs|] == xs;
        }
        assert Asked(p, ys) == Asked(p, xs) + [p(xs).value];
        assert Asked(p, ys)[..|xs|] == Asked(p, xs);
      }
    }
  }

  /** The generator after everything in `rs` that draws has drawn. */
  function Draws(prng: Prng, x: bv64, rs: seq<Request>): bv64 {
    if rs == [] then x
    else
      var before := Draws(prng, x, rs[..|rs| - 1]);
      match rs[|rs| - 1]
      case WantRandom => prng.unit(before).1
      case WantBytes(n) => prng.bytes(before, n).1
      case _ => before
  }

  /** The answer to `r` when the clocks show `now` and `monotonic` and the generator is at `x`. */
  predicate ReadsLive(r: Request, a: Answer, now: Double, monotonic: Double, prng: Prng, x: bv64) {
    match r
    case WantClock => a == Number(now)
    case WantMonotonic => a == Number(monotonic)
    case WantRandom => a == Number(prng.unit(x).0)
    case WantBytes(n) => a == Raw(prng.bytes(x, n).0)
    case _ => true
  }

  /** A live answer moves no clock, and draws. */
  lemma LiveOne(c: Context, h: seq<Step>, r: Request, x: bv64, rs: seq<Request>)
    requires Drawn(c.prng, c.rng, h) == Draws(c.prng, x, rs)
    ensures Clocks(c, h + [Step(r, Live)]) == Clocks(c, h)
    ensures Drawn(c.prng, c.rng, h + [Step(r, Live)]) == Draws(c.prng, x, rs + [r])
  {
    OneMore(c, h, Step(r, Live));
    assert (rs + [r])[..|rs|] == rs;
  }

  /** From `from` on everything is drawn live. */
  lemma {:induction false} LiveFrom(c: Context, h: seq<Step>, rs: seq<Request>, from: nat)
    requires from <= |h| == |rs|
    requires forall i :: from <= i < |h| ==> h[i] == Step(rs[i], Live)
    ensures Clocks(c, h) == Clocks(c, h[..from])
    ensures Drawn(c.prng, c.rng, h) == Draws(c.prng, Drawn(c.prng, c.rng, h[..from]), rs[from..])
    decreases |h|
  {
    if from < |h| {
      var n := |h| - 1;
      LiveFrom(c, h[..n], rs[..n], from);
      assert h == h[..n] + [h[n]] && h[..n][..from] == h[..from];
      assert rs[from..] == rs[..n][from..] + [rs[n]];
      LiveOne(c, h[..n], rs[n], Drawn(c.prng, c.rng, h[..from]), rs[..n][from..]);
    } else {
      assert h[..from] == h;
    }
  }

  lemma {:induction false} RecordingIsLive(strict: bool, log: seq<Event>, p: Place, rs: seq<Request>)
    requires p.recording
    ensures var (h, q) := History(strict, log, p, rs);
            q.recording && forall k :: 0 <= k < |rs| ==> h[k] == Step(rs[k], Live)
  {
    if rs != [] {
      RecordingIsLive(strict, log, p, rs[..|rs| - 1]);
    }
  }

  /** A live reading. */
  lemma LiveReads(c: Context, h: seq<Step>, r: Request, w: World, x: bv64)
    requires Drawn(c.prng, c.rng, h) == x
    ensures ReadsLive(r, Reading(c, h, Step(r, Live), w), Clocks(c, h).now, Clocks(c, h).monotonic, c.prng, x)
    ensures !r.IsValue() ==> Reading(c, h, Step(r, Live), w) == w.Answer(r)
  {
  }

  lemma RecordedReads(ws: nat -> World, c: Context, rs: seq<Request>, k: nat)
    requires c.mode == Record && k < |rs|
    ensures var a := ServeAll(SeamsIn(ws), c, rs).0[k];
            && ReadsLive(rs[k], a, c.clock.now, c.clock.monotonic, c.prng, Draws(c.prng, c.rng, rs[..k]))
            && (!rs[k].IsValue() ==> a == ws(k).Answer(rs[k]))
  {
    EveryAnswer(ws, c, rs, k);
    RecordingIsLive(c.strict, c.events, StartPlace(c), rs[..k]);
    LiveFrom(c, HistoryFrom(c, rs[..k]), rs[..k], 0);
    LiveReads(c, HistoryFrom(c, rs[..k]), rs[k], ws(k), Draws(c.prng, c.rng, rs[..k]));
  }

  /** A first run. Every reading of the wall clock is the start time and every reading of the monotonic clock
      is zero; random numbers and bytes are the successive draws of the seeded generator; every boundary
      answers what the world behind it did. */
  lemma RecordingReads(p: Program, ws: nat -> World, strict: bool, seed: bv64, start: Double, prng: Generator,
      group: Option<Log>, n: nat, k: nat)
    requires k < |Run(p, SeamsIn(ws), Recording(strict, seed, start, prng).(group := group), n).0|
    ensures var xs := Run(p, SeamsIn(ws), Recording(strict, seed, start, prng).(group := group), n).0;
            var r := Asked(p, xs)[k];
            && p(xs[..k]) == Some(r)
            && ReadsLive(r, xs[k], start, ZERO, prng, Draws(prng, Seeded(seed), Asked(p, xs)[..k]))
            && (!r.IsValue() ==> xs[k] == ws(k).Answer(r))
  {
    var c := Recording(strict, seed, start, prng).(group := group);
    RunServes(p, SeamsIn(ws), c, n);
    RecordedReads(ws, c, Asked(p, Run(p, SeamsIn(ws), c, n).0), k);
  }

  // ----- after a replayed log -----

  /** The last reading of the wall clock in `events`; `first` when there is none. */
  function LastClock(events: seq<Event>, first: Double): Double {
    if events == [] then first
    else match events[|events| - 1]
      case ClockRead(v) => v
      case _ => LastClock(events[..|events| - 1], first)
  }

  function LastMonotonic(events: seq<Event>, first: Double): Double {
    if events == [] then first
    else match events[|events| - 1]
      case MonotonicRead(v) => v
      case _ => LastMonotonic(events[..|events| - 1], first)
  }

  /** What the clocks of `c` show once `events` have been replayed. */
  function ClocksAfter(c: Context, events: seq<Event>): Clock {
    Clock(LastClock(events, c.clock.now), LastMonotonic(events, c.clock.monotonic))
  }

  lemma UsedOne(c: Context, h: seq<Step>, events: seq<Event>, r: Request, e: Event)
    requires Clocks(c, h) == ClocksAfter(c, events) && Replayed(r, e).Some?
    ensures var s := Step(r, FromLog(Replayed(r, e).value));
            Clocks(c, h + [s]) == ClocksAfter(c, events + [e]) && Drawn(c.prng, c.rng, h + [s]) == Drawn(c.prng, c.rng, h)
  {
    OneMore(c, h, Step(r, FromLog(Replayed(r, e).value)));
    assert (events + [e])[..|events|] == events;
  }

  lemma InStepOne(c: Context, h: seq<Step>, events: seq<Event>, r: Request)
    requires |events| < |c.events| && c.events[..|events|] == events && Replayed(r, c.events[|events|]).Some?
    requires Clocks(c, h) == ClocksAfter(c, events)
    ensures var s := Step(r, SourceAt(c.strict, c.events, Place(|events|, false), r));
            && s.source.FromLog? && Replayed(r, c.events[|events|]) == Some(s.source.answer)
            && Clocks(c, h + [s]) == ClocksAfter(c, c.events[..|events| + 1])
            && Drawn(c.prng, c.rng, h + [s]) == Drawn(c.prng, c.rng, h)
  {
    UsedOne(c, h, events, r, c.events[|events|]);
    assert c.events[..|events| + 1] == events + [c.events[|events|]];
  }

  /** As long as every request finds its own event, each uses one, and nothing is drawn. */
  lemma {:induction false} InStepHistory(c: Context, rs: seq<Request>)
    requires c.mode == Replay && c.cursor == 0 && |rs| <= |c.events|
    requires forall i :: 0 <= i < |rs| ==> InStep(c.events, rs, i)
    ensures var (h, p) := History(c.strict, c.events, StartPlace(c), rs);
            && p == Place(|rs|, false)
            && Clocks(c, h) == ClocksAfter(c, c.events[..|rs|]) && Drawn(c.prng, c.rng, h) == c.rng
  {
    if rs != [] {
      var n := |rs| - 1;
      forall i | 0 <= i < n ensures InStep(c.events, rs[..n], i) {
        assert InStep(c.events, rs, i);
      }
      InStepHistory(c, rs[..n]);
      assert InStep(c.events, rs, n);
      InStepOne(c, HistoryFrom(c, rs[..n]), c.events[..n], rs[n]);
    }
  }

  /** After it, value requests are served live. */
  lemma {:induction false} TailIsLive(c: Context, rs: seq<Request>)
    requires c.mode == Replay && !c.strict && c.cursor == 0 && |c.events| <= |rs|
    requires forall i :: 0 <= i < |c.events| ==> InStep(c.events, rs, i)
    requires forall i :: 0 <= i < |rs| ==> rs[i].IsValue()
    ensures var (h, p) := History(false, c.events, StartPlace(c), rs);
            && p == Place(|c.events|, |rs| > |c.events|)
            && h[..|c.events|] == HistoryFrom(c, rs[..|c.events|])
            && forall i :: |c.events| <= i < |rs| ==> h[i] == Step(rs[i], Live)
  {
    var n := |c.events|;
    if |rs| == n {
      InStepHistory(c, rs);
      assert rs[..n] == rs;
    } else {
      var front := rs[..|rs| - 1];
      forall i | 0 <= i < n ensures InStep(c.events, front, i) {
        assert InStep(c.events, rs, i);
      }
      TailIsLive(c, front);
      assert front[..n] == rs[..n];
    }
  }

  lemma RetoldReads(ws: nat -> World, c: Context, rs: seq<Request>, k: nat)
    requires c.mode == Replay && c.cursor == 0 && k < |rs| && k < |c.events|
    requires forall i :: 0 <= i < |rs| && i < |c.events| ==> InStep(c.events, rs, i)
    ensures Replayed(rs[k], c.events[k]) == Some(ServeAll(SeamsIn(ws), c, rs).0[k])
  {
    EveryAnswer(ws, c, rs, k);
    forall i | 0 <= i < k ensures InStep(c.events, rs[..k], i) {
      assert InStep(c.events, rs, i);
    }
    InStepHistory(c, rs[..k]);
    assert InStep(c.events, rs, k);
  }

  lemma TailReads(ws: nat -> World, c: Context, rs: seq<Request>, k: nat)
    requires c.mode == Replay && !c.strict && c.cursor == 0 && |c.events| <= k < |rs|
    requires forall i :: 0 <= i < |c.events| ==> InStep(c.events, rs, i)
    requires forall i :: 0 <= i < |rs| ==> rs[i].IsValue()
    ensures ReadsLive(rs[k], ServeAll(SeamsIn(ws), c, rs).0[k], LastClock(c.events, c.clock.now),
              LastMonotonic(c.events, c.clock.monotonic), c.prng, Draws(c.prng, c.rng, rs[|c.events|..k]))
  {
    EveryAnswer(ws, c, rs, k);
    forall i | 0 <= i < |c.events| ensures InStep(c.events, rs[..k], i) {
      assert InStep(c.events, rs, i);
    }
    TailHistory(c, rs[..k]);
    assert rs[|c.events|..k] == rs[..k][|c.events|..];
    LiveReads(c, HistoryFrom(c, rs[..k]), rs[k], ws(k), Draws(c.prng, c.rng, rs[|c.events|..k]));
  }

  lemma TailHistory(c: Context, rs: seq<Request>)
    requires c.mode == Replay && !c.strict && c.cursor == 0 && |c.events| <= |rs|
    requires forall i :: 0 <= i < |c.events| ==> InStep(c.events, rs, i)
    requires forall i :: 0 <= i < |rs| ==> rs[i].IsValue()
    ensures var (h, p) := History(false, c.events, StartPlace(c), rs);
            && p == Place(|c.events|, |rs| > |c.events|)
            && Clocks(c, h) == ClocksAfter(c, c.events) && Drawn(c.prng, c.rng, h) == Draws(c.prng, c.rng, rs[|c.events|..])
  {
    TailIsLive(c, rs);
    forall i | 0 <= i < |c.events| ensures InStep(c.events, rs[..|c.events|], i) {
      assert InStep(c.events, rs, i);
    }
    WholeLog(c, rs[..|c.events|]);
    LiveFrom(c, HistoryFrom(c, rs), rs, |c.events|);
  }

  lemma WholeLog(c: Context, rs: seq<Request>)
    requires c.mode == Replay && c.cursor == 0 && |rs| == |c.events|
    requires forall i :: 0 <= i < |rs| ==> InStep(c.events, rs, i)
    ensures Clocks(c, HistoryFrom(c, rs)) == ClocksAfter(c, c.events) && Drawn(c.prng, c.rng, HistoryFrom(c, rs)) == c.rng
  {
    InStepHistory(c, rs);
    assert c.events[..|rs|] == c.events;
  }

  /** The requests of a run that begins in a log it is told by find their own events there. */
  lemma AskedInStep(p: Program, ws: nat -> World, c: Context, n: nat)
    requires Told(p, c.events) && c.mode == Replay && c.cursor == 0
    ensures var rs := Asked(p, Run(p, SeamsIn(ws), c, n).0);
            forall i :: 0 <= i < |rs| && i < |c.events| ==> InStep(c.events, rs, i)
  {
    var xs, told := Run(p, SeamsIn(ws), c, n).0, Retell(p, c.events);
    var m := if n < |c.events| then n else |c.events|;
    SeamsSound(ws);
    assert c.events[0..|c.events|] == c.events;
    ReplayRun(p, SeamsIn(ws), c, c.events, told, m);
    RunGrows(p, SeamsIn(ws), c, m, n);
    RunServes(p, SeamsIn(ws), c, n);
    forall i | 0 <= i < |xs| && i < |c.events| ensures InStep(c.events, Asked(p, xs), i) {
      assert ExplainsAt(p, c.events[i], told, i);
      assert xs[..i] == told[..i];
    }
  }

  /** A workflow resumed from the log `events`. It is retold the log; from its end on, every reading of the
      wall clock is the last one in the log, or the start time if there is none, and likewise for the
      monotonic clock and zero; random numbers and bytes are the successive draws of a generator that the
      replay has not moved. */
  lemma ResumeReads(p: Program, ws: nat -> World, seed: bv64, start: Double, events: seq<Event>, prng: Generator,
      group: Option<Log>, n: nat, k: nat)
    requires OverValues(p) && Told(p, events)
    requires k < |Run(p, SeamsIn(ws), Replaying(false, seed, start, events, prng).(group := group), n).0|
    ensures var xs := Run(p, SeamsIn(ws), Replaying(false, seed, start, events, prng).(group := group), n).0;
            var rs := Asked(p, xs);
            && p(xs[..k]) == Some(rs[k])
            && if k < |events| then xs[k] == Retell(p, events)[k]
               else ReadsLive(rs[k], xs[k], LastClock(events, start), LastMonotonic(events, ZERO), prng,
                              Draws(prng, Seeded(seed), rs[|events|..k]))
  {
    var c := Replaying(false, seed, start, events, prng).(group := group);
    AskedInStep(p, ws, c, n);
    RunServes(p, SeamsIn(ws), c, n);
    var xs := Run(p, SeamsIn(ws), c, n).0;
    var rs := Asked(p, xs);
    forall i | 0 <= i < |rs| ensures rs[i].IsValue() {
      assert p(xs[..i]) == Some(rs[i]);
    }
    if k < |events| {
      RetoldReads(ws, c, rs, k);
      assert ExplainsAt(p, events[k], Retell(p, events), k);
      RetoldPrefix(p, ws, c, n, k);
    } else {
      TailReads(ws, c, rs, k);
    }
  }

  lemma RetoldPrefix(p: Program, ws: nat -> World, c: Context, n: nat, k: nat)
    requires Told(p, c.events) && c.mode == Replay && c.cursor == 0
    requires k < |Run(p, SeamsIn(ws), c, n).0| && k < |c.events|
    ensures Run(p, SeamsIn(ws), c, n).0[..k] == Retell(p, c.events)[..k]
  {
    SeamsSound(ws);
    assert c.events[0..|c.events|] == c.events;
    ReplayRun(p, SeamsIn(ws), c, c.events, Retell(p, c.events), k);
    RunGrows(p, SeamsIn(ws), c, k, if k < n then n else k);
  }

  // ----- a resumed workflow draws again from the start -----

  lemma {:induction false} NothingDrawn(prng: Prng, x: bv64, rs: seq<Request>)
    requires forall r :: r in rs ==> !r.WantRandom? && !r.WantBytes?
    ensures Draws(prng, x, rs) == x
  {
    if rs != [] {
      NothingDrawn(prng, x, rs[..|rs| - 1]);
    }
  }

  lemma {:induction false} DrawsOnward(prng: Prng, x: bv64, rs: seq<Request>, more: seq<Request>)
    ensures Draws(prng, x, rs + more) == Draws(prng, Draws(prng, x, rs), more)
    decreases |more|
  {
    if more == [] {
      assert rs + more == rs;
    } else {
      var n := |more| - 1;
      DrawsOnward(prng, x, rs, more[..n]);
      assert (rs + more)[..|rs + more| - 1] == rs + more[..n];
    }
  }

  lemma DrawsAfterLog(prng: Prng, x: bv64, events: seq<Event>, rs: seq<Request>)
    requires |events| <= |rs| && forall i :: 0 <= i < |events| ==> InStep(events, rs, i)
    requires forall i :: 0 <= i < |events| ==> !events[i].RandomRead? && !events[i].BytesRead?
    ensures Draws(prng, x, rs) == Draws(prng, x, rs[|events|..])
  {
    var log := rs[..|events|];
    forall r | r in log ensures !r.WantRandom? && !r.WantBytes? {
      var i :| 0 <= i < |log| && log[i] == r;
      assert InStep(events, rs, i);
    }
    NothingDrawn(prng, x, log);
    DrawsOnward(prng, x, log, rs[|events|..]);
    assert log + rs[|events|..] == rs;
  }

  /** When nothing was drawn before the crash, the resumed workflow draws on as the uninterrupted one would. */
  lemma ResumeDrawsOn(p: Program, ws: nat -> World, seed: bv64, start: Double, events: seq<Event>, prng: Generator,
      group: Option<Log>, n: nat, k: nat)
    requires OverValues(p) && Told(p, events)
    requires forall i :: 0 <= i < |events| ==> !events[i].RandomRead? && !events[i].BytesRead?
    requires k < |Run(p, SeamsIn(ws), Replaying(false, seed, start, events, prng).(group := group), n).0| && |events| <= k
    ensures var xs := Run(p, SeamsIn(ws), Replaying(false, seed, start, events, prng).(group := group), n).0;
            var rs := Asked(p, xs);
            ReadsLive(rs[k], xs[k], LastClock(events, start), LastMonotonic(events, ZERO), prng,
                      Draws(prng, Seeded(seed), rs[..k]))
  {
    var c := Replaying(false, seed, start, events, prng).(group := group);
    ResumeReads(p, ws, seed, start, events, prng, group, n, k);
    AskedInStep(p, ws, c, n);
    var rs := Asked(p, Run(p, SeamsIn(ws), c, n).0);
    forall i | 0 <= i < |events| ensures InStep(events, rs[..k], i) {
      assert InStep(events, rs, i);
    }
    DrawsAfterLog(prng, Seeded(seed), events, rs[..k]);
    assert rs[..k][|events|..] == rs[|events|..k];
  }

  lemma RunOne(p: Program, seams: Seams, c: Context, n: nat)
    requires p(Run(p, seams, c, n).0).Some?
    ensures var (xs, c') := Run(p, seams, c, n);
            var (a, next) := seams(c', p(xs).value, |xs|);
            Run(p, seams, c, n + 1) == (xs + [a], next)
  {
  }

  lemma DrawsBytes(c: Context, n: nat, io: Io)
    requires c.group.None?
    ensures var (b, x) := c.prng.bytes(c.rng, n);
            DrawAndRecord(c, WantBytes(n), io) == (Raw(b), c.(rng := x, events := c.events + [BytesRead(b)]))
  {
  }

  /** Two draws in a row, from a context that serves the first with `a` and then stands at `next`. */
  lemma TwoDraws(p: Program, seams: Seams, c: Context, n: nat, a: Answer, next: Context)
    requires p([]) == Some(WantBytes(n)) && p([a]) == Some(WantBytes(n)) && seams(c, WantBytes(n), 0) == (a, next)
    ensures Run(p, seams, c, 1) == ([a], next) && Run(p, seams, c, 2).0 == [a, seams(next, WantBytes(n), 1).0]
  {
    assert Run(p, seams, c, 0) == ([], c);
    RunOne(p, seams, c, 0);
    assert [] + [a] == [a];
    assert Run(p, seams, c, 1) == ([a], next);
    RunOne(p, seams, c, 1);
  }

  /** Otherwise it need not. A workflow that draws `n` bytes and again `n` bytes, crashed in between and resumed under
      the seed of its log, is given the same bytes twice; without the crash it is given two successive draws. The
      answers are the same if and only if those are. */
  lemma ResumeRepeatsDraw(p: Program, ws: nat -> World, seed: bv64, start: Double, prng: Generator, n: nat)
    requires OverValues(p) && p([]) == Some(WantBytes(n)) && forall a :: p([a]) == Some(WantBytes(n))
    ensures var c := Recording(false, seed, start, prng);
            var events := Run(p, SeamsIn(ws), c, 1).1.events;
            var resumed := Run(p, SeamsIn(ws), Replaying(false, seed, start, events, prng), 2).0;
            var (first, x) := prng.bytes(Seeded(seed), n);
            && resumed == [Raw(first), Raw(first)]
            && Run(p, SeamsIn(ws), c, 2).0 == [Raw(first), Raw(prng.bytes(x, n).0)]
  {
    var c := Recording(false, seed, start, prng);
    var (first, x) := prng.bytes(Seeded(seed), n);
    var next := c.(rng := x, events := [BytesRead(first)]);
    DrawsBytes(c, n, ws(0).io);
    assert c.events + [BytesRead(first)] == [BytesRead(first)];
    TwoDraws(p, SeamsIn(ws), c, n, Raw(first), next);
    DrawsBytes(next, n, ws(1).io);
    ResumedDraws(p, ws, Replaying(false, seed, start, [BytesRead(first)], prng), n, first);
  }

  lemma ResumedDraws(p: Program, ws: nat -> World, r: Context, n: nat, first: Bytes)
    requires p([]) == Some(WantBytes(n)) && p([Raw(first)]) == Some(WantBytes(n)) && |first| == n
    requires r.mode == Replay && !r.strict && r.cursor == 0 && r.events == [BytesRead(first)] && r.group.None?
    ensures Run(p, SeamsIn(ws), r, 2).0 == [Raw(first), Raw(r.prng.bytes(r.rng, n).0)]
  {
    assert Replayed(WantBytes(n), r.events[0]) == Some(Raw(first));
    TwoDraws(p, SeamsIn(ws), r, n, Raw(first), r.(cursor := 1));
    DrawsBytes(r.(cursor := 1, mode := Record), n, ws(1).io);
  }

  /** For the language's own generator they are not, under the seed 1. */
  lemma FirstDrawsDiffer()
    ensures var (first, x) := Fill(1, 8); first != Fill(x, 8).0
  {
    var s := NextState(1);
    assert s == 0x2000001;
    assert NextState(s) == 0x4004000802801;
    assert (WordOf(s) >> 8) & 0xFF == 0xDD;
    assert (WordOf(NextState(s)) >> 8) & 0xFF == 0x65;
    assert Fill(1, 8).0[1] == ((WordOf(s) >> 8) & 0xFF) as bv8;
    assert Fill(s, 8).0[1] == ((WordOf(NextState(s)) >> 8) & 0xFF) as bv8;
  }

  // ----- strict replay -----

  lemma StrictOne(c: Context, h: seq<Step>, used: nat, r: Request)
    requires used <= |c.events| && Clocks(c, h) == ClocksAfter(c, c.events[..used])
    ensures var p := Place(used, false);
            var used' := if used < |c.events| && Replayed(r, c.events[used]).Some? then used + 1 else used;
            && PlaceAfter(true, c.events, p, r) == Place(used', false) && used' <= |c.events|
            && Clocks(c, h + [Step(r, SourceAt(true, c.events, p, r))]) == ClocksAfter(c, c.events[..used'])
  {
    if used < |c.events| && Replayed(r, c.events[used]).Some? {
      UsedNext(c, h, used, r);
    } else {
      OneMore(c, h, Step(r, Refused));
    }
  }

  lemma UsedNext(c: Context, h: seq<Step>, used: nat, r: Request)
    requires used < |c.events| && Clocks(c, h) == ClocksAfter(c, c.events[..used]) && Replayed(r, c.events[used]).Some?
    ensures Clocks(c, h + [Step(r, FromLog(Replayed(r, c.events[used]).value))]) == ClocksAfter(c, c.events[..used + 1])
  {
    UsedOne(c, h, c.events[..used], r, c.events[used]);
    assert c.events[..used + 1] == c.events[..used] + [c.events[used]];
  }

  /** Strictly replayed, the log has been used by the requests it answered. */
  lemma {:induction false} StrictHistory(c: Context, rs: seq<Request>)
    requires c.mode == Replay && c.strict && c.cursor == 0
    ensures var (h, p) := History(true, c.events, StartPlace(c), rs);
            var used := Answered(c.events, rs);
            p == Place(used, false) && used <= |c.events| && Clocks(c, h) == ClocksAfter(c, c.events[..used])
  {
    if rs != [] {
      var n := |rs| - 1;
      StrictHistory(c, rs[..n]);
      StrictOne(c, HistoryFrom(c, rs[..n]), Answered(c.events, rs[..n]), rs[n]);
    }
  }

  /** Strict replay, whatever is asked over the nine seams. A request that finds its own event at the cursor is
      answered from it. Any other keeps the program going with what the clocks last showed or with fresh
      bytes, a traced call with a divergence, and a boundary by crossing it. */
  lemma StrictReads(ws: nat -> World, c: Context, rs: seq<Request>, k: nat)
    requires c.mode == Replay && c.strict && c.cursor == 0 && k < |rs|
    ensures var a, r, used := ServeAll(SeamsIn(ws), c, rs).0[k], rs[k], Answered(c.events, rs[..k]);
            if used < |c.events| && Replayed(r, c.events[used]).Some? then a == Replayed(r, c.events[used]).value
            else
              && used <= |c.events|
              && (r.WantClock? || r.WantRandom? ==> a == Number(LastClock(c.events[..used], c.clock.now)))
              && (r.WantMonotonic? ==> a == Number(LastMonotonic(c.events[..used], c.clock.monotonic)))
              && (r.IsTraced() ==> a == Diverged)
              && (!r.IsValue() && !r.IsTraced() ==> a == ws(k).Answer(r))
  {
    EveryAnswer(ws, c, rs, k);
    StrictHistory(c, rs[..k]);
  }
}
