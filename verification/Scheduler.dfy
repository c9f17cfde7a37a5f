/** Host time to emulated time: the tick budget of the main loop, the automatic cycle adjustment
    and fast forward. Times are milliseconds unless named otherwise. */
module Scheduler {

  const LOWER_LIMIT := 200
  const UPPER_LIMIT := 2000000

  /** Settings the loop only reads: a cycle limit (none if not positive) and the used percentage. */
  datatype Config = Config(limit: int, percent: nat)

  datatype State = State(
    remain: int,       // ticks still to run
    last: int,         // host time of the last refill
    added: int,        // size of the last refill
    done: int,
    scheduled: int,
    locked: bool,      // fast forward
    slept: int,        // microseconds slept that do not make up a tick yet
    cycleMax: int,
    auto: bool,        // automatic adjustment is on
    parked: bool,      // ... or will be again after fast forward
    ioDelay: nat)

  // ---- the adjustment -------------------------------------------------------

  function Min(a: int, b: int): int { if a < b then a else b }

  function Max(a: int, b: int): int { if a < b then b else a }

  /** `ticksScheduled * (CPU_CyclePercUsed * 1024 / 100) / ticksDone` */
  function RawRatio(scheduled: nat, done: nat, percent: nat): nat
    requires done >= 1
  {
    scheduled * (percent * 1024 / 100) / done
  }

  /** Truncation of a nonnegative double. */
  function Trunc(x: real): (n: int)
    requires x >= 0.0
    ensures 0 <= n && n as real <= x < n as real + 1.0
  {
    x.Floor
  }

  /** The ratio after the correction for I/O delay (`keep` is the share that was not delay) and after
      the three caps. */
  function FinalRatio(raw: nat, keep: real, scheduled: int, done: int, added: int, cycleMax: int): (r: int)
    requires 0.0 <= keep <= 1.0
    ensures 0 <= r
  {
    var r1 := Share(raw, keep);
    var r2 := if scheduled >= 100 && done < 10 && r1 > 16384 then 16384 else r1;
    var r3 := if scheduled >= 100 && done < 10 && r2 > 5120 && cycleMax > 50000 then 5120 else r2;
    if added > 15 && 5 <= scheduled <= 20 && r3 > 800 then 800 else r3
  }

  /** The factor of the downward formula; a ratio of zero divides by zero, and an infinite
      denominator makes the factor zero. */
  function Factor(ratio: nat, keep: real): (r: real)
    requires ratio <= 1024 && 0.0 < keep <= 1.0
    ensures 0.0 <= r <= 1.0
  {
    if ratio == 0 then 0.0
    else
      var inverse := 1024.0 / ratio as real;
      FactorBound(1.0 + keep, keep + inverse, ratio as real);
      (1.0 + keep) / (keep + inverse)
  }

  lemma FactorBound(n: real, d: real, ratio: real)
    requires 0.0 < ratio <= 1024.0 && n > 0.0
    requires d == n - 1.0 + 1024.0 / ratio
    ensures d >= n && 0.0 <= n / d <= 1.0
  {
    assert 1024.0 / ratio >= 1.0;
  }

  lemma Product(c: real, r: real)
    requires c >= 0.0 && 0.0 <= r <= 1.0
    ensures 0.0 <= c * r <= c
  {
  }

  /** A share of a whole number, truncated. */
  function Share(c: nat, r: real): (n: int)
    requires 0.0 <= r <= 1.0
    ensures 0 <= n <= c && n as real <= c as real * r < n as real + 1.0
  {
    Product(c as real, r);
    Trunc(c as real * r)
  }

  function ScaledDown(cycleMax: nat, ratio: nat, keep: real): (n: int)
    requires ratio <= 1024 && 0.0 < keep <= 1.0
    ensures 1 <= n <= cycleMax + 1
  {
    1 + Share(cycleMax, Factor(ratio, keep))
  }

  /** `(ratio - 1024) * keep + 1024`, truncated: the ratio of the upward formula. */
  function Blend(ratio: nat, keep: real): (w: int)
    requires ratio > 1024 && 0.0 < keep <= 1.0
    ensures 1024 <= w <= ratio
  {
    Share(ratio - 1024, keep) + 1024
  }

  function ScaledUp(cycleMax: nat, ratio: nat, keep: real): (n: int)
    requires ratio > 1024 && 0.0 < keep <= 1.0
    ensures cycleMax <= n
  {
    AtLeastHalf(cycleMax, Blend(ratio, keep));
    1 + cycleMax / 2 + cycleMax * Blend(ratio, keep) / 2048
  }

  lemma AtLeastHalf(c: nat, w: nat)
    requires w >= 1024
    ensures c * w / 2048 >= c / 2
  {
    assert c * w >= c * 1024;
    Monotone(c * 1024, c * w);
  }

  lemma Monotone(x: nat, y: nat)
    requires x <= y
    ensures x / 2048 <= y / 2048
  {
  }

  datatype Proposal = Proposal(ratio: nat, cycleMax: int)

  /** What one adjustment proposes, before the skip rules and the upper limit. With no cycles
      scheduled, or with at least that many lost to I/O delay, the current value is kept. */
  function Propose(cycleMax: nat, scheduled: nat, done: nat, added: int, percent: nat, ioDelay: nat): (p: Proposal)
    requires done >= 1
    ensures LOWER_LIMIT <= p.cycleMax
  {
    var raw := RawRatio(scheduled, done, percent);
    var cproc := cycleMax * scheduled;
    if cproc > 0 && ioDelay < cproc then
      var keep := Keep(ioDelay, cproc);
      var ratio := FinalRatio(raw, keep, scheduled, done, added, cycleMax);
      var n := if ratio <= 1024 then ScaledDown(cycleMax, ratio, keep) else ScaledUp(cycleMax, ratio, keep);
      Proposal(ratio, Max(n, LOWER_LIMIT))
    else Proposal(raw, Max(cycleMax, LOWER_LIMIT))
  }

  /** `1 - CPU_IODelayRemoved / cproc` */
  function Keep(ioDelay: nat, cproc: nat): (keep: real)
    requires ioDelay < cproc
    ensures 0.0 < keep <= 1.0 && keep * cproc as real == (cproc - ioDelay) as real
  {
    assert 0.0 <= ioDelay as real / cproc as real < 1.0;
    1.0 - ioDelay as real / cproc as real
  }

  /** Very low ratios are taken for drop-outs and skipped. */
  predicate Applies(ratio: int, done: int) {
    ratio > 10 && (ratio > 120 || done < 700)
  }

  function Adjusted(cycleMax: nat, scheduled: nat, done: nat, added: int, cfg: Config, ioDelay: nat): int
    requires done >= 1
  {
    var p := Propose(cycleMax, scheduled, done, added, cfg.percent, ioDelay);
    if !Applies(p.ratio, done) then cycleMax
    else Min(p.cycleMax, if cfg.limit > 0 then cfg.limit else UPPER_LIMIT)
  }

  /** Direction: an adjustment whose final ratio is at most 1024 raises the cycles by at most one, one
      with a larger ratio never lowers them, whatever the I/O-delay correction. */
  lemma Direction(cycleMax: nat, scheduled: nat, done: nat, added: int, percent: nat, ioDelay: nat)
    requires done >= 1 && cycleMax >= LOWER_LIMIT
    ensures var p := Propose(cycleMax, scheduled, done, added, percent, ioDelay);
            && (p.ratio <= 1024 ==> p.cycleMax <= cycleMax + 1)
            && (p.ratio > 1024 ==> p.cycleMax >= cycleMax)
  {
  }

  // ---- the values, without division -----------------------------------------

  /** `CPU_CyclePercUsed * 1024 / 100` */
  function Weight(cfg: Config): nat {
    cfg.percent * 1024 / 100
  }

  lemma FloorBounds(x: nat, d: nat)
    requires d > 0
    ensures x / d * d <= x < (x / d + 1) * d
  {
  }

  /** The ratio is the scheduled share of the time done, in units of 1/1024, of the wanted percentage. */
  lemma RawRatioIs(scheduled: nat, done: nat, cfg: Config)
    requires done >= 1
    ensures Weight(cfg) * 100 <= cfg.percent * 1024 < (Weight(cfg) + 1) * 100
    ensures var r := RawRatio(scheduled, done, cfg.percent);
            r * done <= scheduled * Weight(cfg) < (r + 1) * done
  {
    FloorBounds(scheduled * Weight(cfg), done);
  }

  /** The factor of the downward formula is `ratio * (1 + keep) / (keep * ratio + 1024)`. */
  lemma FactorIs(ratio: nat, keep: real)
    requires 1 <= ratio <= 1024 && 0.0 < keep <= 1.0
    ensures Factor(ratio, keep) * (keep * ratio as real + 1024.0) == ratio as real * (1.0 + keep)
  {
    var x := ratio as real;
    var d := keep + 1024.0 / x;
    assert d * x == keep * x + 1024.0 by {
      assert 1024.0 / x * x == 1024.0;
    }
    var f := Factor(ratio, keep);
    assert f * d == 1.0 + keep;
    Reorder(f, d, x);
  }

  lemma Reorder(f: real, d: real, x: real)
    ensures f * (d * x) == f * d * x
  {
  }

  lemma RatioAtFull(c: real, f: real, d: real)
    ensures c * f * d == c * (f * d)
  {
  }

  lemma Scale(a: real, b: real, d: real)
    requires d > 0.0
    ensures a <= b ==> a * d <= b * d
    ensures a < b ==> a * d < b * d
  {
  }

  /** The new cycles of the downward formula, to the last unit: `n - 1` is the whole part of
      `cycleMax * ratio * (1 + keep) / (keep * ratio + 1024)`. */
  lemma ScaledDownIs(cycleMax: nat, ratio: nat, keep: real)
    requires ratio <= 1024 && 0.0 < keep <= 1.0
    ensures ratio == 0 ==> ScaledDown(cycleMax, ratio, keep) == 1
    ensures ratio >= 1 ==>
              var n, d := ScaledDown(cycleMax, ratio, keep), keep * ratio as real + 1024.0;
              (n - 1) as real * d <= cycleMax as real * (ratio as real * (1.0 + keep)) < n as real * d
  {
    if ratio >= 1 {
      var n, d := ScaledDown(cycleMax, ratio, keep), keep * ratio as real + 1024.0;
      var c, f := cycleMax as real, Factor(ratio, keep);
      FactorIs(ratio, keep);
      assert d > 0.0 by { Product(ratio as real, keep); }
      RatioAtFull(c, f, d);
      Scale((n - 1) as real, c * f, d);
      Scale(c * f, n as real, d);
    }
  }

  /** It slows the machine down exactly when the cycles are large enough for the distance to full use. */
  lemma ScaledDownLowersIff(cycleMax: nat, ratio: nat, keep: real)
    requires 1 <= ratio <= 1024 && 0.0 < keep <= 1.0
    ensures ScaledDown(cycleMax, ratio, keep) < cycleMax
            <==> cycleMax as real * (1024.0 - ratio as real) > keep * ratio as real + 1024.0
  {
    var n, d := ScaledDown(cycleMax, ratio, keep), keep * ratio as real + 1024.0;
    var c, x := cycleMax as real, ratio as real;
    ScaledDownIs(cycleMax, ratio, keep);
    assert d > 0.0 by { Product(x, keep); }
    Distance(c, x, keep);
    BelowIff(n, cycleMax, d, c * (1024.0 - x));
  }

  lemma BelowIff(n: int, c: int, d: real, e: real)
    requires d > 0.0 && (n - 1) as real * d <= c as real * d - e < n as real * d
    ensures n < c <==> e > d
  {
    assert (c as real - 1.0) * d == c as real * d - d;
    if n < c {
      Scale(n as real, c as real - 1.0, d);
    } else {
      Scale(c as real - 1.0, (n - 1) as real, d);
    }
  }

  lemma Distance(c: real, x: real, keep: real)
    ensures c * (x * (1.0 + keep)) == c * (keep * x + 1024.0) - c * (1024.0 - x)
  {
    assert x * (1.0 + keep) == keep * x + 1024.0 - (1024.0 - x);
  }

  /** The new cycles of the upward formula: half of the old ones, rounded down, and the rest in proportion to
      the ratio less the I/O delay. */
  lemma ScaledUpIs(cycleMax: nat, ratio: nat, keep: real)
    requires ratio > 1024 && 0.0 < keep <= 1.0
    ensures var w := Blend(ratio, keep);
            && (w - 1024) as real <= (ratio - 1024) as real * keep < (w - 1023) as real
            && var rest := ScaledUp(cycleMax, ratio, keep) - 1 - cycleMax / 2;
               rest * 2048 <= cycleMax * w < (rest + 1) * 2048
  {
    FloorBounds(cycleMax * Blend(ratio, keep), 2048);
  }

  /** Half of full use takes a third off 3000 cycles, twice full use adds half of them. */
  lemma ProposalExamples(cfg: Config)
    requires cfg.percent == 100
    ensures Propose(3000, 100, 200, 0, 100, 0) == Proposal(512, 2001)
    ensures Propose(3000, 100, 50, 0, 100, 0) == Proposal(2048, 4501)
  {
    assert RawRatio(100, 200, 100) == 512 && RawRatio(100, 50, 100) == 2048 && Keep(0, 300000) == 1.0;
    assert Share(512, 1.0) == 512 && Share(2048, 1.0) == 2048;
    ScaledDownIs(3000, 512, 1.0);
    ScaledUpIs(3000, 2048, 1.0);
  }

  lemma FactorMono(ratio: nat, ratio': nat, keep: real)
    requires ratio <= ratio' <= 1024 && 0.0 < keep <= 1.0
    ensures Factor(ratio, keep) <= Factor(ratio', keep)
  {
    if ratio > 0 {
      QuotientMono(1024.0, ratio' as real, 1024.0, ratio as real);
      QuotientMono(1.0 + keep, keep + 1024.0 / ratio as real, 1.0 + keep, keep + 1024.0 / ratio' as real);
    }
  }

  /** A larger ratio never proposes fewer cycles in either formula, and from one to the other at most one. */
  lemma FormulasMono(cycleMax: nat, ratio: nat, ratio': nat, keep: real)
    requires ratio <= ratio' && 0.0 < keep <= 1.0
    ensures ratio' <= 1024 ==> ScaledDown(cycleMax, ratio, keep) <= ScaledDown(cycleMax, ratio', keep)
    ensures ratio > 1024 ==> ScaledUp(cycleMax, ratio, keep) <= ScaledUp(cycleMax, ratio', keep)
    ensures ratio <= 1024 < ratio' ==> ScaledDown(cycleMax, ratio, keep) <= ScaledUp(cycleMax, ratio', keep) + 1
  {
    if ratio' <= 1024 {
      FactorMono(ratio, ratio', keep);
      ShareMono(cycleMax, Factor(ratio, keep), cycleMax, Factor(ratio', keep));
    } else if ratio > 1024 {
      ScaledUpMono(cycleMax, ratio', keep, cycleMax, ratio, keep);
    }
  }

  // ---- machine range --------------------------------------------------------

  const INT32_MAX := 0x7fff_ffff

  lemma DivBound(n: nat, d: nat)
    requires d >= 1
    ensures n / d <= n
  {
  }

  lemma RawBound(scheduled: nat, done: nat, percent: nat)
    requires done >= 1 && scheduled < 120 && percent <= 105
    ensures RawRatio(scheduled, done, percent) <= 127925
  {
    assert percent * 1024 / 100 <= 1075;
    ProductBound(scheduled, 119, percent * 1024 / 100, 1075);
    DivBound(scheduled * (percent * 1024 / 100), done);
  }

  lemma ProductBound(x: nat, a: nat, y: nat, b: nat)
    requires x <= a && y <= b
    ensures x * y <= a * b
  {
    assert x * y <= a * y <= a * b;
  }

  lemma RatioBound(raw: nat, keep: real, scheduled: int, done: int, added: int, cycleMax: int)
    requires 0.0 <= keep <= 1.0
    ensures FinalRatio(raw, keep, scheduled, done, added, cycleMax) <= raw
  {
  }

  /** No 32-bit cast of an adjustment overflows, nor does a 64-bit product, and the proposal itself
      fits, for every state the invariant below allows. */
  lemma CastsFit(cycleMax: nat, scheduled: nat, done: nat, added: int, percent: nat, ioDelay: nat)
    requires done >= 1 && scheduled < 120 && percent <= 105 && cycleMax <= UPPER_LIMIT
    ensures RawRatio(scheduled, done, percent) <= INT32_MAX
    ensures cycleMax * scheduled <= 240_000_000
    ensures Propose(cycleMax, scheduled, done, added, percent, ioDelay).cycleMax <= INT32_MAX
    ensures forall ratio: nat, keep: real :: 1024 < ratio <= 127925 && 0.0 < keep <= 1.0 ==>
              cycleMax * Blend(ratio, keep) <= 2000000 * 127925
  {
    RawBound(scheduled, done, percent);
    ProductBound(cycleMax, 2000000, scheduled, 120);
    forall ratio: nat, keep: real | 1024 < ratio <= 127925 && 0.0 < keep <= 1.0
      ensures cycleMax * Blend(ratio, keep) <= 2000000 * 127925
      ensures ScaledUp(cycleMax, ratio, keep) <= INT32_MAX
    {
      ProductBound(cycleMax, 2000000, Blend(ratio, keep), 127925);
    }
    var cproc := cycleMax * scheduled;
    if cproc > 0 && ioDelay < cproc {
      RatioBound(RawRatio(scheduled, done, percent), Keep(ioDelay, cproc), scheduled, done, added, cycleMax);
    }
  }

  // ---- steps ----------------------------------------------------------------

  /** C++ `%` and `/` on the nonnegative sleep counter. */
  function Sleep(s: State, sleptUs: nat): State
    requires s.slept >= 0
  {
    var total := s.slept + sleptUs;
    s.(scheduled := s.scheduled + s.added, added := 0,
       done := Max(s.done - (if total >= 1000 then total / 1000 else 0), 0),
       slept := if total >= 1000 then total % 1000 else total)
  }

  /** The ticks since the last refill, at most 20 of them to run. */
  function Advance(s: State, now: int): State {
    s.(scheduled := s.scheduled + s.added, done := s.done + (now - s.last),
       remain := Min(now - s.last, 20), added := Min(now - s.last, 20), last := now)
  }

  /** The tail of `increaseticks` in automatic mode. */
  function Tune(s: State, cfg: Config): State
    requires s.scheduled >= 0 && s.cycleMax >= 0
  {
    if s.scheduled >= 100 || s.done >= 100 || (s.added > 15 && s.scheduled >= 5) then
      s.(cycleMax := Adjusted(s.cycleMax, s.scheduled, Max(s.done, 1), s.added, cfg, s.ioDelay),
         ioDelay := 0, done := 0, scheduled := 0)
    else if s.added > 15 then s.(cycleMax := Max(s.cycleMax / 3, LOWER_LIMIT))
    else s
  }

  /** `increaseticks`: `now` is the host time, `sleptUs` what the one-millisecond sleep took. */
  function Refill(s: State, cfg: Config, now: int, sleptUs: nat): State
    requires s.slept >= 0 && s.scheduled >= 0 && s.added >= 0 && s.cycleMax >= 0
  {
    if s.locked then s.(remain := 5, last := now, added := 0, done := 0, scheduled := 0)
    else if now <= s.last then Sleep(s, sleptUs)
    else if s.auto then Tune(Advance(s, now), cfg)
    else Advance(s, now)
  }

  /** `DOSBOX_UnlockSpeed` */
  function Unlock(s: State, pressed: bool): State {
    if pressed then
      if s.auto then s.(locked := true, parked := true, auto := false, cycleMax := Max(s.cycleMax / 3, 1000))
      else s.(locked := true)
    else if s.parked then s.(locked := false, parked := false, auto := true)
    else s.(locked := false)
  }

  /** Everything that touches the counters. A tick runs only while some remain and the refill only
      when none do; presentation takes its time off `done`; a screen reset clears the counters. Automatic
      adjustment is switched on when a program enters protected mode and off when it ends, which also
      sets the cycles; neither clears the counters. */
  datatype Event =
    | Tick
    | IncreaseTicks(now: int, sleptUs: nat)
    | FastForward(pressed: bool)
    | Presented(ticks: nat)
    | IoDelay(cycles: nat)
    | ResetAutoAdjust
    | SetMode(auto: bool, cycles: nat)

  predicate Possible(s: State, e: Event) {
    match e
    case Tick => s.remain > 0
    case IncreaseTicks(now, _) => s.remain <= 0 && now >= s.last
    case _ => true
  }

  /** What holds between any two events in every mode. */
  predicate Base(s: State) {
    0 <= s.slept < 1000 && s.remain >= 0 && 0 <= s.added <= 20 && 0 <= s.scheduled && 0 <= s.cycleMax
  }

  function Step(s: State, cfg: Config, e: Event): (r: State)
    requires Base(s) && Possible(s, e)
    ensures Base(r)
  {
    match e
    case Tick => s.(remain := s.remain - 1)
    case IncreaseTicks(now, sleptUs) => Refill(s, cfg, now, sleptUs)
    case FastForward(pressed) => Unlock(s, pressed)
    case Presented(ticks) => s.(done := s.done - ticks)
    case IoDelay(cycles) => s.(ioDelay := s.ioDelay + cycles)
    case ResetAutoAdjust => s.(ioDelay := 0, done := 0, scheduled := 0)
    case SetMode(auto, cycles) => s.(auto := auto, cycleMax := cycles)
  }

  /** The runs of the loop from a state, in any mode and with any changes of mode. */
  ghost predicate IsRun(s: State, cfg: Config, es: seq<Event>)
    requires Base(s)
    decreases |es|
  {
    es == [] || (Possible(s, es[0]) && IsRun(Step(s, cfg, es[0]), cfg, es[1..]))
  }

  ghost function End(s: State, cfg: Config, es: seq<Event>): (r: State)
    requires Base(s) && IsRun(s, cfg, es)
    ensures Base(r)
    decreases |es|
  {
    if es == [] then s else End(Step(s, cfg, es[0]), cfg, es[1..])
  }

  // ---- conservation ---------------------------------------------------------

  /** Books kept beside the state: ticks delivered to the timers, ticks dropped by the cap of 20,
      and the number of refills made in fast forward. */
  datatype Books = Books(delivered: nat, dropped: nat, boosts: nat)

  function Record(s: State, b: Books, e: Event): Books
    requires Possible(s, e)
  {
    match e
    case Tick => b.(delivered := b.delivered + 1)
    case IncreaseTicks(now, _) =>
      if s.locked then b.(boosts := b.boosts + 1)
      else if now <= s.last then b
      else b.(dropped := b.dropped + Max(now - s.last - 20, 0))
    case _ => b
  }

  /** How far delivered and pending ticks lead the host time since `start`. */
  function Lead(s: State, b: Books, start: int): int {
    b.delivered + s.remain + b.dropped - (s.last - start)
  }

  ghost function EndBooks(s: State, cfg: Config, b: Books, es: seq<Event>): Books
    requires Base(s) && IsRun(s, cfg, es)
    decreases |es|
  {
    if es == [] then b else EndBooks(Step(s, cfg, es[0]), cfg, Record(s, b, es[0]), es[1..])
  }

  lemma StepLead(s: State, cfg: Config, b: Books, e: Event, start: int)
    requires Base(s) && Possible(s, e)
    ensures var s', b' := Step(s, cfg, e), Record(s, b, e);
            && s'.last >= s.last
            && Lead(s', b', start) - Lead(s, b, start) <= 5 * (b'.boosts - b.boosts)
            && (b'.boosts == b.boosts ==> Lead(s', b', start) == Lead(s, b, start))
  {
  }

  lemma {:induction false} RunLead(s: State, cfg: Config, b: Books, es: seq<Event>, start: int)
    requires Base(s) && IsRun(s, cfg, es)
    ensures var s', b' := End(s, cfg, es), EndBooks(s, cfg, b, es);
            && s'.last >= s.last && b'.boosts >= b.boosts
            && Lead(s', b', start) - Lead(s, b, start) <= 5 * (b'.boosts - b.boosts)
            && (b'.boosts == b.boosts ==> Lead(s', b', start) == Lead(s, b, start))
    decreases |es|
  {
    if es != [] {
      StepLead(s, cfg, b, es[0], start);
      RunLead(Step(s, cfg, es[0]), cfg, Record(s, b, es[0]), es[1..], start);
    }
  }

  /** Over every run from an idle start, in every mode: without fast forward, delivered + pending + dropped
      ticks are exactly the host time that has passed, so emulated time never runs ahead; with it, they lead
      by at most five per fast-forward refill. */
  lemma TickConservation(s: State, cfg: Config, es: seq<Event>)
    requires Base(s) && s.remain == 0 && IsRun(s, cfg, es)
    ensures var s', b := End(s, cfg, es), EndBooks(s, cfg, Books(0, 0, 0), es);
            && b.delivered + s'.remain + b.dropped <= s'.last - s.last + 5 * b.boosts
            && (b.boosts == 0 ==> b.delivered + s'.remain + b.dropped == s'.last - s.last)
            && (b.boosts == 0 ==> b.delivered <= s'.last - s.last)
  {
    RunLead(s, cfg, Books(0, 0, 0), es, s.last);
  }

  // ---- fixed cycles ---------------------------------------------------------

  /** Neither on nor to be on again after fast forward. */
  predicate IsFixed(s: State) {
    !s.auto && !s.parked
  }

  ghost predicate KeepsMode(es: seq<Event>) {
    forall i :: 0 <= i < |es| ==> !es[i].SetMode?
  }

  /** Without automatic adjustment nothing but a change of mode touches the cycles. */
  lemma {:induction false} FixedKeepsCycles(s: State, cfg: Config, es: seq<Event>)
    requires Base(s) && IsRun(s, cfg, es) && IsFixed(s) && KeepsMode(es)
    ensures IsFixed(End(s, cfg, es)) && End(s, cfg, es).cycleMax == s.cycleMax
    decreases |es|
  {
    if es != [] {
      assert !es[0].SetMode?;
      FixedKeepsCycles(Step(s, cfg, es[0]), cfg, es[1..]);
    }
  }

  // ---- bounds in automatic mode ---------------------------------------------

  /** Automatic adjustment is on, or parked for fast forward. */
  predicate InAuto(s: State) {
    s.auto || (s.parked && s.locked)
  }

  /** The ticks that the next refill counts as scheduled. */
  function Due(s: State): int {
    s.scheduled + s.added
  }

  predicate CountersOk(s: State) {
    Due(s) < 120 && s.done < 100
  }

  predicate CyclesOk(s: State, cfg: Config) {
    Floor(cfg) <= s.cycleMax <= Ceiling(cfg)
  }

  predicate Inv(s: State, cfg: Config) {
    Base(s) && InAuto(s) && CountersOk(s) && CyclesOk(s, cfg)
  }

  /** The lowest value the cycles can reach: a smaller limit has precedence over the lower limit of 200. */
  function Floor(cfg: Config): int {
    if 0 < cfg.limit < LOWER_LIMIT then cfg.limit else LOWER_LIMIT
  }

  /** The highest value the cycles can reach: entering fast forward may lift them to 1000 even
      above a smaller limit. */
  function Ceiling(cfg: Config): int {
    if cfg.limit > 0 then Max(cfg.limit, 1000) else UPPER_LIMIT
  }

  lemma AdjustedInRange(s: State, cfg: Config, done: nat)
    requires s.scheduled >= 0 && CyclesOk(s, cfg) && done >= 1
    ensures Floor(cfg) <= Adjusted(s.cycleMax, s.scheduled, done, s.added, cfg, s.ioDelay) <= Ceiling(cfg)
  {
  }

  /** The lower limit of 200 holds after an applied adjustment if and only if no limit below it is set. */
  lemma LowerLimitIff(cycleMax: nat, scheduled: nat, done: nat, added: int, cfg: Config, ioDelay: nat)
    requires done >= 1 && Applies(Propose(cycleMax, scheduled, done, added, cfg.percent, ioDelay).ratio, done)
    ensures Adjusted(cycleMax, scheduled, done, added, cfg, ioDelay) >= LOWER_LIMIT
            <==> cfg.limit <= 0 || cfg.limit >= LOWER_LIMIT
  {
  }

  /** Every step but a change of mode keeps the bounds. */
  lemma StepKeepsInv(s: State, cfg: Config, e: Event)
    requires Inv(s, cfg) && Possible(s, e) && !e.SetMode?
    ensures Inv(Step(s, cfg, e), cfg)
  {
    if e.IncreaseTicks? && !s.locked && e.now > s.last {
      var a := Advance(s, e.now);
      AdjustedInRange(a, cfg, Max(a.done, 1));
    }
  }

  /** Whatever the counters were when automatic mode was switched on, the first refill that adds ticks
      brings them into their bounds. */
  lemma RefillRecovers(s: State, cfg: Config, e: Event)
    requires Base(s) && s.auto && !s.locked && e.IncreaseTicks? && Possible(s, e) && e.now > s.last
    ensures CountersOk(Step(s, cfg, e))
  {
  }

  /** A refill reaches the adjustment. */
  predicate Adjusts(s: State, e: Event) {
    && e.IncreaseTicks? && !s.locked && s.auto && e.now > s.last
    && var a := Advance(s, e.now); (a.scheduled >= 100 || a.done >= 100 || (a.added > 15 && a.scheduled >= 5))
  }

  /** The two casts to 32 bits in an adjustment keep their values: that of the ratio and that of the new
      cycles. */
  predicate Fits(s: State, cfg: Config, e: Event)
    requires Base(s)
  {
    Adjusts(s, e) ==>
      var a := Advance(s, e.now);
      && RawRatio(a.scheduled, Max(a.done, 1), cfg.percent) <= INT32_MAX
      && Propose(a.cycleMax, a.scheduled, Max(a.done, 1), a.added, cfg.percent, a.ioDelay).cycleMax <= INT32_MAX
  }

  ghost predicate AllFit(s: State, cfg: Config, es: seq<Event>)
    requires Base(s) && IsRun(s, cfg, es)
    decreases |es|
  {
    es == [] || (Fits(s, cfg, es[0]) && AllFit(Step(s, cfg, es[0]), cfg, es[1..]))
  }

  predicate ConfigOk(cfg: Config) {
    cfg.percent <= 105 && cfg.limit <= UPPER_LIMIT
  }

  /** With few ticks due the casts fit, however long the refill took. */
  lemma FewDueFit(s: State, cfg: Config, e: Event)
    requires Base(s) && ConfigOk(cfg) && Due(s) < 120 && s.cycleMax <= UPPER_LIMIT
    ensures Fits(s, cfg, e)
  {
    if Adjusts(s, e) {
      var a := Advance(s, e.now);
      CastsFit(a.cycleMax, a.scheduled, Max(a.done, 1), a.added, cfg.percent, a.ioDelay);
    }
  }

  /** Over every run in automatic mode that starts within the bounds, no cast overflows. */
  lemma {:induction false} ReachableCastsFit(s: State, cfg: Config, es: seq<Event>)
    requires Inv(s, cfg) && ConfigOk(cfg) && IsRun(s, cfg, es) && KeepsMode(es)
    ensures AllFit(s, cfg, es) && Inv(End(s, cfg, es), cfg)
    decreases |es|
  {
    if es != [] {
      FewDueFit(s, cfg, es[0]);
      StepKeepsInv(s, cfg, es[0]);
      ReachableCastsFit(Step(s, cfg, es[0]), cfg, es[1..]);
    }
  }

  // ---- switching automatic mode on ------------------------------------------

  /** Every refill outside fast forward finds the counters within their bounds. */
  ghost predicate AllBounded(s: State, cfg: Config, es: seq<Event>)
    requires Base(s) && IsRun(s, cfg, es)
    decreases |es|
  {
    es == [] ||
    ((es[0].IncreaseTicks? && !s.locked ==> CountersOk(s)) && AllBounded(Step(s, cfg, es[0]), cfg, es[1..]))
  }

  lemma {:induction false} RunConcat(s: State, cfg: Config, a: seq<Event>, b: seq<Event>)
    requires Base(s) && IsRun(s, cfg, a) && IsRun(End(s, cfg, a), cfg, b)
    ensures IsRun(s, cfg, a + b) && End(s, cfg, a + b) == End(End(s, cfg, a), cfg, b)
    ensures AllFit(s, cfg, a + b) ==> AllFit(End(s, cfg, a), cfg, b)
    ensures AllBounded(s, cfg, a + b) ==> AllBounded(End(s, cfg, a), cfg, b)
    decreases |a|
  {
    if a == [] {
      assert a + b == b;
    } else {
      RunConcat(Step(s, cfg, a[0]), cfg, a[1..], b);
      assert (a + b)[0] == a[0] && (a + b)[1..] == a[1..] + b;
    }
  }

  lemma RunOne(s: State, cfg: Config, e: Event)
    requires Base(s) && Possible(s, e)
    ensures IsRun(s, cfg, [e]) && End(s, cfg, [e]) == Step(s, cfg, e)
    ensures AllFit(s, cfg, [e]) <==> Fits(s, cfg, e)
    ensures AllBounded(s, cfg, [e]) <==> (e.IncreaseTicks? && !s.locked ==> CountersOk(s))
  {
    assert [e][1..] == [];
  }

  /** Outside fast forward the pending ticks can be run. */
  lemma {:induction false} Drain(s: State, cfg: Config) returns (es: seq<Event>)
    requires Base(s)
    ensures IsRun(s, cfg, es) && KeepsMode(es) && End(s, cfg, es) == s.(remain := 0)
    decreases s.remain
  {
    if s.remain == 0 {
      es := [];
    } else {
      var rest := Drain(Step(s, cfg, Tick), cfg);
      es := [Tick] + rest;
      assert es[1..] == rest;
    }
  }

  /** Then a long sleep takes `done` down to zero; the ticks due stay due. */
  function Settled(s: State): State {
    s.(remain := 0, done := 0, scheduled := Due(s), added := 0)
  }

  lemma SleepSettles(s: State, cfg: Config)
    requires Base(s) && s.remain == 0 && !s.locked
    ensures Step(s, cfg, IncreaseTicks(s.last, 1000 * Max(s.done, 0))) == Settled(s)
  {
    var d := Max(s.done, 0);
    assert (s.slept + 1000 * d) / 1000 == d && (s.slept + 1000 * d) % 1000 == s.slept;
  }

  lemma Settle(s: State, cfg: Config) returns (es: seq<Event>)
    requires Base(s) && !s.locked
    ensures IsRun(s, cfg, es) && KeepsMode(es) && End(s, cfg, es) == Settled(s)
  {
    var first := Drain(s, cfg);
    var e := IncreaseTicks(s.last, 1000 * Max(s.done, 0));
    SleepSettles(s.(remain := 0), cfg);
    RunOne(s.(remain := 0), cfg, e);
    RunConcat(s, cfg, first, [e]);
    es := first + [e];
  }

  lemma StepKeepsCounters(s: State, cfg: Config, e: Event)
    requires Base(s) && InAuto(s) && CountersOk(s) && Possible(s, e) && !e.SetMode?
    ensures InAuto(Step(s, cfg, e)) && CountersOk(Step(s, cfg, e))
  {
  }

  lemma {:induction false} CountersStay(s: State, cfg: Config, es: seq<Event>)
    requires Base(s) && InAuto(s) && CountersOk(s) && IsRun(s, cfg, es) && KeepsMode(es)
    ensures AllBounded(s, cfg, es)
    decreases |es|
  {
    if es != [] {
      StepKeepsCounters(s, cfg, es[0]);
      CountersStay(Step(s, cfg, es[0]), cfg, es[1..]);
    }
  }

  /** Fast forward, if it is on at the switch, can end at once. */
  lemma Release(s: State, cfg: Config) returns (es: seq<Event>)
    requires Base(s) && s.auto
    ensures IsRun(s, cfg, es) && KeepsMode(es)
    ensures End(s, cfg, es).(parked := s.parked) == s.(locked := false)
  {
    if s.locked {
      RunOne(s, cfg, FastForward(false));
      es := [FastForward(false)];
    } else {
      es := [];
    }
  }

  lemma Unbounded(s: State, cfg: Config) returns (es: seq<Event>)
    requires Base(s) && s.auto && !CountersOk(s)
    ensures IsRun(s, cfg, es) && KeepsMode(es) && !AllBounded(s, cfg, es)
  {
    var first := Release(s, cfg);
    var t := End(s, cfg, first);
    var second := Drain(t, cfg);
    var e := IncreaseTicks(s.last, 0);
    RunOne(t.(remain := 0), cfg, e);
    RunConcat(t, cfg, second, [e]);
    RunConcat(s, cfg, first, second + [e]);
    es := first + (second + [e]);
  }

  /** After automatic mode was switched on, less than 120 ticks are scheduled and less than 100 done at
      every refill of every run, if and only if that is so at the switch: nothing clears the counters. */
  lemma SwitchBoundsIff(s: State, cfg: Config)
    requires Base(s) && s.auto
    ensures (forall es :: IsRun(s, cfg, es) && KeepsMode(es) ==> AllBounded(s, cfg, es)) <==> CountersOk(s)
  {
    if CountersOk(s) {
      forall es | IsRun(s, cfg, es) && KeepsMode(es) ensures AllBounded(s, cfg, es) {
        CountersStay(s, cfg, es);
      }
    } else {
      var es := Unbounded(s, cfg);
    }
  }

  /** What must hold at the switch: the ticks due make no ratio beyond 32 bits even if they are counted as
      done in one tick, and no new cycles beyond 32 bits if they are counted as done in ten, from where the
      caps on the ratio no longer apply. Fast forward can lift the cycles to 1000 before that. */
  predicate SwitchOk(s: State, cfg: Config)
    requires Base(s)
  {
    && Due(s) * Weight(cfg) <= INT32_MAX
    && (Due(s) >= 100 ==>
          Propose(Max(s.cycleMax, 1000), Due(s), 10, 10, cfg.percent, s.ioDelay).cycleMax <= INT32_MAX)
  }

  // The proposal grows with the cycles and shrinks with the time done and the I/O delay.

  lemma ProductMono(a: real, b: real, c: real, d: real)
    requires 0.0 <= a <= c && 0.0 <= b <= d
    ensures a * b <= c * d
  {
    assert a * b <= c * b;
    assert c * b <= c * d;
  }

  lemma ShareMono(n: nat, r: real, n': nat, r': real)
    requires n <= n' && 0.0 <= r <= r' <= 1.0
    ensures Share(n, r) <= Share(n', r')
  {
    ProductMono(n as real, r, n' as real, r');
  }

  lemma QuotientMono(a: real, b: real, c: real, d: real)
    requires 0.0 <= a <= c && 0.0 < d <= b
    ensures a / b <= c / d
  {
    assert a / b <= c / b;
    assert c / b <= c / d by {
      assert (c / b) * b == c && (c / d) * d == c;
      ProductMono(c / d, d, c / d, b);
    }
  }

  lemma KeepMono(io: nat, cproc: nat, io': nat, cproc': nat)
    requires io <= io' < cproc' <= cproc
    ensures Keep(io', cproc') <= Keep(io, cproc)
  {
    QuotientMono(io as real, cproc as real, io' as real, cproc' as real);
  }

  lemma BlendMono(ratio: nat, keep: real, ratio': nat, keep': real)
    requires 1024 < ratio' <= ratio && 0.0 < keep' <= keep <= 1.0
    ensures Blend(ratio', keep') <= Blend(ratio, keep)
  {
    ShareMono(ratio' - 1024, keep', ratio - 1024, keep);
  }

  lemma ScaledUpMono(c: nat, ratio: nat, keep: real, c': nat, ratio': nat, keep': real)
    requires c' <= c && 1024 < ratio' <= ratio && 0.0 < keep' <= keep <= 1.0
    ensures ScaledUp(c', ratio', keep') <= ScaledUp(c, ratio, keep)
  {
    BlendMono(ratio, keep, ratio', keep');
    ProductBound(c', c, Blend(ratio', keep'), Blend(ratio, keep));
    Monotone(c' * Blend(ratio', keep'), c * Blend(ratio, keep));
  }

  lemma QuotientShrinks(n: nat, d: nat, d': nat)
    requires 1 <= d <= d'
    ensures n / d' <= n / d
  {
    if n / d' > n / d {
      ProductBound(d, d', n / d + 1, n / d');
      assert false;
    }
  }

  /** The proposal from `due` ticks done in at least ten, against that for exactly ten. */
  lemma ProposalMono(due: nat, percent: nat, c: nat, io: nat, c': nat, io': nat, done: nat, added: int)
    requires due >= 100 && c' <= c && io <= io' && done >= 10 && c >= 1000
    ensures Propose(c', due, done, added, percent, io').cycleMax
            <= Max(Propose(c, due, 10, 10, percent, io).cycleMax, c + 1)
  {
    ProductBound(c', c, due, due);
    var cproc, cproc' := c * due, c' * due;
    if 0 < cproc' && io' < cproc' {
      KeepMono(io, cproc, io', cproc');
      var keep, keep' := Keep(io, cproc), Keep(io', cproc');
      var weight := percent * 1024 / 100;
      QuotientShrinks(due * weight, 10, done);
      var raw, raw' := RawRatio(due, 10, percent), RawRatio(due, done, percent);
      ShareMono(raw', keep', raw, keep);
      var ratio, ratio' := Share(raw, keep), Share(raw', keep');
      assert FinalRatio(raw, keep, due, 10, 10, c) == ratio;
      assert FinalRatio(raw', keep', due, done, added, c') == ratio';
      if ratio' > 1024 {
        ScaledUpMono(c, ratio, keep, c', ratio', keep');
      }
    }
  }

  /** Below ten the caps on the ratio bound the new cycles. */
  lemma CappedFits(due: nat, percent: nat, c: nat, io: nat, done: nat, added: int)
    requires due >= 100 && c <= UPPER_LIMIT && 1 <= done < 10
    ensures Propose(c, due, done, added, percent, io).cycleMax <= INT32_MAX
  {
    var cproc := c * due;
    if 0 < cproc && io < cproc {
      var keep := Keep(io, cproc);
      var ratio := FinalRatio(RawRatio(due, done, percent), keep, due, done, added, c);
      assert ratio <= 16384;
      if ratio > 1024 {
        ProductBound(c, UPPER_LIMIT, Blend(ratio, keep), 16384);
      }
    }
  }

  lemma ManyDueFit(s: State, cfg: Config, e: Event, c: nat, io: nat)
    requires Base(s) && Due(s) >= 100 && s.cycleMax <= c <= UPPER_LIMIT && c >= 1000 && s.ioDelay >= io
    requires Due(s) * Weight(cfg) <= INT32_MAX
    requires Propose(c, Due(s), 10, 10, cfg.percent, io).cycleMax <= INT32_MAX
    ensures Fits(s, cfg, e)
  {
    if Adjusts(s, e) {
      var a := Advance(s, e.now);
      var done := Max(a.done, 1);
      DivBound(a.scheduled * Weight(cfg), done);
      if done < 10 {
        CappedFits(a.scheduled, cfg.percent, a.cycleMax, a.ioDelay, done, a.added);
      } else {
        ProposalMono(a.scheduled, cfg.percent, c, io, a.cycleMax, a.ioDelay, done, a.added);
      }
    }
  }

  // Before the first refill that adds ticks the ticks due stay what they were at the switch.

  /** As at the switch, but for more I/O delay and, after fast forward, other cycles. */
  predicate AsSwitched(s: State, due: nat, c: nat, io: nat) {
    Base(s) && InAuto(s) && Due(s) == due && s.cycleMax <= c && s.ioDelay >= io
  }

  /** After it only few ticks are ever due. */
  predicate Recovered(s: State) {
    Base(s) && InAuto(s) && Due(s) < 120 && s.cycleMax <= UPPER_LIMIT
  }

  lemma StepKeepsRecovered(s: State, cfg: Config, e: Event)
    requires Recovered(s) && ConfigOk(cfg) && Possible(s, e) && !e.SetMode?
    ensures Recovered(Step(s, cfg, e))
  {
  }

  lemma StepFromSwitch(s: State, cfg: Config, e: Event, due: nat, c: nat, io: nat)
    requires AsSwitched(s, due, c, io) && 1000 <= c <= UPPER_LIMIT && ConfigOk(cfg) && Possible(s, e) && !e.SetMode?
    ensures AsSwitched(Step(s, cfg, e), due, c, io) || Recovered(Step(s, cfg, e))
  {
  }

  lemma {:induction false} RecoveredFits(s: State, cfg: Config, es: seq<Event>)
    requires Recovered(s) && ConfigOk(cfg) && IsRun(s, cfg, es) && KeepsMode(es)
    ensures AllFit(s, cfg, es)
    decreases |es|
  {
    if es != [] {
      FewDueFit(s, cfg, es[0]);
      StepKeepsRecovered(s, cfg, es[0]);
      RecoveredFits(Step(s, cfg, es[0]), cfg, es[1..]);
    }
  }

  lemma {:induction false} SwitchedFits(s: State, cfg: Config, es: seq<Event>, due: nat, c: nat, io: nat)
    requires AsSwitched(s, due, c, io) && 1000 <= c <= UPPER_LIMIT && ConfigOk(cfg)
    requires due * Weight(cfg) <= INT32_MAX
    requires due >= 100 ==> Propose(c, due, 10, 10, cfg.percent, io).cycleMax <= INT32_MAX
    requires IsRun(s, cfg, es) && KeepsMode(es)
    ensures AllFit(s, cfg, es)
    decreases |es|
  {
    if es != [] {
      if due < 100 {
        FewDueFit(s, cfg, es[0]);
      } else {
        ManyDueFit(s, cfg, es[0], c, io);
      }
      StepFromSwitch(s, cfg, es[0], due, c, io);
      var next := Step(s, cfg, es[0]);
      if Recovered(next) {
        RecoveredFits(next, cfg, es[1..]);
      } else {
        SwitchedFits(next, cfg, es[1..], due, c, io);
      }
    }
  }

  /** Pressing and releasing fast forward lifts low cycles to 1000. */
  lemma Lift(s: State, cfg: Config) returns (es: seq<Event>)
    requires Base(s) && s.auto && !s.locked
    ensures IsRun(s, cfg, es) && KeepsMode(es)
    ensures var t := End(s, cfg, es);
            t.(parked := s.parked) == s.(cycleMax := Max(s.cycleMax, 1000))
  {
    if s.cycleMax >= 1000 {
      es := [];
    } else {
      var t := Step(s, cfg, FastForward(true));
      RunOne(s, cfg, FastForward(true));
      RunOne(t, cfg, FastForward(false));
      RunConcat(s, cfg, [FastForward(true)], [FastForward(false)]);
      es := [FastForward(true)] + [FastForward(false)];
    }
  }

  /** A refill of `n` ticks after a long sleep. */
  lemma AfterSettling(s: State, cfg: Config, n: nat) returns (es: seq<Event>)
    requires Base(s) && !s.locked && n > 0
    ensures IsRun(s, cfg, es) && KeepsMode(es)
    ensures AllFit(s, cfg, es) ==> Fits(Settled(s), cfg, IncreaseTicks(s.last + n, 0))
  {
    var first := Settle(s, cfg);
    var e := IncreaseTicks(s.last + n, 0);
    RunOne(Settled(s), cfg, e);
    RunConcat(s, cfg, first, [e]);
    es := first + [e];
  }

  lemma RatioOverflows(s: State, cfg: Config) returns (es: seq<Event>)
    requires Base(s) && s.auto && !s.locked && ConfigOk(cfg) && Due(s) * Weight(cfg) > INT32_MAX
    ensures IsRun(s, cfg, es) && KeepsMode(es) && !AllFit(s, cfg, es)
  {
    es := AfterSettling(s, cfg, 1);
    var t, e := Settled(s), IncreaseTicks(s.last + 1, 0);
    if Due(s) < 100 {
      ProductBound(Due(s), 100, Weight(cfg), 1075);
    }
    assert Adjusts(t, e);
    assert RawRatio(Due(s), 1, cfg.percent) == Due(s) * Weight(cfg);
  }

  lemma CyclesOverflow(s: State, cfg: Config) returns (es: seq<Event>)
    requires Base(s) && s.auto && !s.locked && Due(s) >= 100
    requires Propose(Max(s.cycleMax, 1000), Due(s), 10, 10, cfg.percent, s.ioDelay).cycleMax > INT32_MAX
    ensures IsRun(s, cfg, es) && KeepsMode(es) && !AllFit(s, cfg, es)
  {
    var first := Lift(s, cfg);
    var t := End(s, cfg, first);
    var rest := AfterSettling(t, cfg, 10);
    assert Adjusts(Settled(t), IncreaseTicks(t.last + 10, 0));
    RunConcat(s, cfg, first, rest);
    es := first + rest;
  }

  lemma Overflows(s: State, cfg: Config) returns (es: seq<Event>)
    requires Base(s) && s.auto && !s.locked && ConfigOk(cfg) && !SwitchOk(s, cfg)
    ensures IsRun(s, cfg, es) && KeepsMode(es) && !AllFit(s, cfg, es)
  {
    if Due(s) * Weight(cfg) > INT32_MAX {
      es := RatioOverflows(s, cfg);
    } else {
      es := CyclesOverflow(s, cfg);
    }
  }

  /** The exact condition at the switch: no cast of any adjustment overflows, in any run until the mode is
      changed again, if and only if `SwitchOk` holds when automatic mode is switched on. */
  lemma SwitchCastsFitIff(s: State, cfg: Config)
    requires Base(s) && s.auto && s.cycleMax <= UPPER_LIMIT && ConfigOk(cfg)
    ensures (forall es :: IsRun(s, cfg, es) && KeepsMode(es) ==> AllFit(s, cfg, es)) <==> SwitchOk(s, cfg)
  {
    if SwitchOk(s, cfg) {
      forall es | IsRun(s, cfg, es) && KeepsMode(es) ensures AllFit(s, cfg, es) {
        SwitchedFits(s, cfg, es, Due(s), Max(s.cycleMax, 1000), s.ioDelay);
      }
    } else {
      var first := Release(s, cfg);
      var t := End(s, cfg, first);
      var rest := Overflows(t, cfg);
      RunConcat(s, cfg, first, rest);
      assert KeepsMode(first + rest) && !AllFit(s, cfg, first + rest);
    }
  }

  // With fixed cycles the counters grow without bound.

  /** A tick that is delivered and then slept off counts as scheduled. */
  lemma FixedTick(s: State, cfg: Config) returns (es: seq<Event>)
    requires Base(s) && IsFixed(s) && !s.locked && s.remain == 0 && s.added == 0 && s.done == 0
    ensures IsRun(s, cfg, es) && End(s, cfg, es) == s.(last := s.last + 1, scheduled := s.scheduled + 1)
  {
    var a, b, c := IncreaseTicks(s.last + 1, 0), Tick, IncreaseTicks(s.last + 1, 1000);
    var t := Step(s, cfg, a);
    var u := Step(t, cfg, b);
    assert (u.slept + 1000) / 1000 == 1 && (u.slept + 1000) % 1000 == u.slept;
    RunOne(s, cfg, a);
    RunOne(t, cfg, b);
    RunOne(u, cfg, c);
    RunConcat(s, cfg, [a], [b]);
    RunConcat(s, cfg, [a] + [b], [c]);
    es := [a] + [b] + [c];
  }

  lemma {:induction false} FixedTicks(s: State, cfg: Config, n: nat) returns (es: seq<Event>)
    requires Base(s) && IsFixed(s) && !s.locked && s.remain == 0 && s.added == 0 && s.done == 0
    ensures IsRun(s, cfg, es) && End(s, cfg, es) == s.(last := s.last + n, scheduled := s.scheduled + n)
    decreases n
  {
    if n == 0 {
      es := [];
    } else {
      var first := FixedTick(s, cfg);
      var rest := FixedTicks(s.(last := s.last + 1, scheduled := s.scheduled + 1), cfg, n - 1);
      RunConcat(s, cfg, first, rest);
      es := first + rest;
    }
  }

  /** So the ratio does overflow: after 35 minutes with fixed cycles, which the default setting starts with,
      a program enters protected mode. */
  lemma OverflowAfterFixed(s: State, cfg: Config) returns (es: seq<Event>)
    requires Base(s) && IsFixed(s) && !s.locked && s.remain == 0 && s.added == 0 && s.done == 0
    requires cfg.percent == 100 && ConfigOk(cfg)
    ensures IsRun(s, cfg, es) && !AllFit(s, cfg, es)
  {
    var first := FixedTicks(s, cfg, 2_100_000);
    var t := End(s, cfg, first);
    var on := SetMode(true, t.cycleMax);
    RunOne(t, cfg, on);
    RunConcat(s, cfg, first, [on]);
    ProductBound(2_100_000, Due(t), 1024, 1024);
    var rest := RatioOverflows(Step(t, cfg, on), cfg);
    RunConcat(s, cfg, first + [on], rest);
    es := first + [on] + rest;
  }

  // ---- the loop -------------------------------------------------------------

  class Loop {
    const cfg: Config
    var ticksRemain: int
    var ticksLast: int
    var ticksAdded: int
    var ticksDone: int
    var ticksScheduled: int
    var ticksLocked: bool
    var timeSlept: int
    var cycleMax: int
    var autoAdjust: bool
    var parkedAdjust: bool
    var ioDelayRemoved: nat

    ghost function View(): State
      reads this
    {
      State(ticksRemain, ticksLast, ticksAdded, ticksDone, ticksScheduled, ticksLocked, timeSlept, cycleMax,
            autoAdjust, parkedAdjust, ioDelayRemoved)
    }

    constructor (cfg: Config, now: int, auto: bool, cycles: nat)
      ensures Base(View()) && View().remain == 0 && this.cfg == cfg && autoAdjust == auto && cycleMax == cycles
      ensures auto && Floor(cfg) <= cycles <= Ceiling(cfg) ==> Inv(View(), cfg)
    {
      this.cfg := cfg;
      ticksRemain, ticksLast, ticksAdded, ticksDone, ticksScheduled := 0, now, 0, 0, 0;
      ticksLocked, timeSlept, cycleMax, autoAdjust, parkedAdjust, ioDelayRemoved := false, 0, cycles, auto, false, 0;
    }

    /** The idle branch of `Normal_Loop`; `again` tells whether the loop goes on. */
    method Idle(now: int, sleptUs: nat) returns (again: bool)
      requires Base(View()) && now >= ticksLast
      modifies this
      ensures again == (old(ticksRemain) > 0)
      ensures View() == Step(old(View()), cfg, if again then Tick else IncreaseTicks(now, sleptUs))
    {
      if ticksRemain > 0 {
        ticksRemain := ticksRemain - 1;
        again := true;
      } else {
        Refilled(now, sleptUs);
        again := false;
      }
    }

    method Refilled(now: int, sleptUs: nat)
      requires Base(View())
      modifies this
      ensures View() == Refill(old(View()), cfg, now, sleptUs)
    {
      if ticksLocked {
        ticksRemain, ticksLast, ticksAdded, ticksDone, ticksScheduled := 5, now, 0, 0, 0;
        return;
      }
      ticksScheduled := ticksScheduled + ticksAdded;
      if now <= ticksLast {
        ticksAdded := 0;
        timeSlept := timeSlept + sleptUs;
        if timeSlept >= 1000 {
          ticksDone := ticksDone - timeSlept / 1000;
          timeSlept := timeSlept % 1000;
        }
        if ticksDone < 0 {
          ticksDone := 0;
        }
        return;
      }
      ticksRemain := now - ticksLast;
      ticksLast := now;
      ticksDone := ticksDone + ticksRemain;
      if ticksRemain > 20 {
        ticksRemain := 20;
      }
      ticksAdded := ticksRemain;
      if autoAdjust {
        Tuned();
      }
    }

    method Tuned()
      requires ticksScheduled >= 0 && cycleMax >= 0
      modifies `ticksDone, `ticksScheduled, `cycleMax, `ioDelayRemoved
      ensures View() == Tune(old(View()), cfg)
    {
      if ticksScheduled >= 100 || ticksDone >= 100 || (ticksAdded > 15 && ticksScheduled >= 5) {
        if ticksDone < 1 {
          ticksDone := 1;
        }
        var ratio, newMax := Proposed();
        if ratio > 10 {
          if ratio > 120 || ticksDone < 700 {
            cycleMax := newMax;
            if cfg.limit > 0 {
              if cycleMax > cfg.limit {
                cycleMax := cfg.limit;
              }
            } else if cycleMax > UPPER_LIMIT {
              cycleMax := UPPER_LIMIT;
            }
          }
        }
        ioDelayRemoved, ticksDone, ticksScheduled := 0, 0, 0;
      } else if ticksAdded > 15 {
        cycleMax := cycleMax / 3;
        if cycleMax < LOWER_LIMIT {
          cycleMax := LOWER_LIMIT;
        }
      }
    }

    method Proposed() returns (ratio: int, newMax: int)
      requires ticksScheduled >= 0 && ticksDone >= 1 && cycleMax >= 0
      ensures ratio >= 0
      ensures Proposal(ratio, newMax)
              == Propose(cycleMax, ticksScheduled, ticksDone, ticksAdded, cfg.percent, ioDelayRemoved)
    {
      ratio := ticksScheduled * (cfg.percent * 1024 / 100) / ticksDone;
      newMax := cycleMax;
      var cproc := cycleMax * ticksScheduled;
      if cproc > 0 && ioDelayRemoved < cproc {
        var keep := 1.0 - ioDelayRemoved as real / cproc as real;
        assert keep == Keep(ioDelayRemoved, cproc);
        ratio := Corrected(ratio, keep);
        newMax := Formula(ratio, keep);
      }
      if newMax < LOWER_LIMIT {
        newMax := LOWER_LIMIT;
      }
    }

    /** The correction for I/O delay and the three caps. */
    method Corrected(raw: nat, keep: real) returns (ratio: int)
      requires 0.0 <= keep <= 1.0
      ensures ratio == FinalRatio(raw, keep, ticksScheduled, ticksDone, ticksAdded, cycleMax)
    {
      ratio := (raw as real * keep).Floor;
      assert ratio == Share(raw, keep);
      if ticksScheduled >= 100 && ticksDone < 10 && ratio > 16384 {
        ratio := 16384;
      }
      if ticksScheduled >= 100 && ticksDone < 10 && ratio > 5120 && cycleMax > 50000 {
        ratio := 5120;
      }
      if ticksAdded > 15 && ticksScheduled >= 5 && ticksScheduled <= 20 && ratio > 800 {
        ratio := 800;
      }
    }

    /** The two formulas, for ratios up to 1024 and above. */
    method Formula(ratio: nat, keep: real) returns (newMax: int)
      requires cycleMax >= 0 && 0.0 < keep <= 1.0
      ensures newMax == if ratio <= 1024 then ScaledDown(cycleMax, ratio, keep) else ScaledUp(cycleMax, ratio, keep)
    {
      if ratio <= 1024 {
        newMax := DownFormula(ratio, keep);
      } else {
        newMax := UpFormula(ratio, keep);
      }
    }

    method DownFormula(ratio: nat, keep: real) returns (newMax: int)
      requires cycleMax >= 0 && 0.0 < keep <= 1.0 && ratio <= 1024
      ensures newMax == ScaledDown(cycleMax, ratio, keep)
    {
      var r := 0.0;
      if ratio > 0 {
        r := (1.0 + keep) / (keep + 1024.0 / ratio as real);
      }
      assert r == Factor(ratio, keep);
      newMax := 1 + (cycleMax as real * r).Floor;
    }

    method UpFormula(ratio: nat, keep: real) returns (newMax: int)
      requires cycleMax >= 0 && 0.0 < keep <= 1.0 && ratio > 1024
      ensures newMax == ScaledUp(cycleMax, ratio, keep)
    {
      var over := (ratio as real - 1024.0) * keep;
      var w := (over + 1024.0).Floor;
      assert over == (ratio - 1024) as real * keep && w == over.Floor + 1024;
      newMax := 1 + cycleMax / 2 + cycleMax * w / 2048;
    }

    method UnlockSpeed(pressed: bool)
      requires Base(View())
      modifies `ticksLocked, `parkedAdjust, `autoAdjust, `cycleMax
      ensures View() == Unlock(old(View()), pressed)
    {
      if pressed {
        ticksLocked := true;
        if autoAdjust {
          parkedAdjust, autoAdjust := true, false;
          cycleMax := cycleMax / 3;
          if cycleMax < 1000 {
            cycleMax := 1000;
          }
        }
      } else {
        ticksLocked := false;
        if parkedAdjust {
          parkedAdjust, autoAdjust := false, true;
        }
      }
    }
  }
}
