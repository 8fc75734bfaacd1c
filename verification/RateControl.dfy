/** The offer period controller (ratecontrol.c). Times are microseconds, smoothed values are real numbers. */
module RateControl {
  import opened Common
  import opened Transactions

  const PERIOD_MIN := 5000
  const PERIOD_MAX := 1_000_000
  const OFFER_ACCEPT_SMOOTHING := 0.9
  const OFFER_ACCEPT_MIN := 0.3
  const ACC_TO_ACK_MAX := 0.3
  const RATE_UP := 0.2
  const RATE_DOWN := 0.1

  datatype Timeval = Timeval(sec: int, usec: int)

  function TvToInt(tv: Timeval): int {
    tv.sec * 1_000_000 + tv.usec
  }

  function IntToTv(t: nat): Timeval {
    Timeval(t / 1_000_000, t % 1_000_000)
  }

  ghost predicate Normalised(tv: Timeval) {
    0 <= tv.sec && 0 <= tv.usec < 1_000_000
  }

  /** A normalised timeval and its microseconds determine each other. */
  lemma {:induction false} TimevalRoundTrip(t: nat, tv: Timeval)
    ensures Normalised(IntToTv(t)) && TvToInt(IntToTv(t)) == t
    ensures Normalised(tv) ==> TvToInt(tv) >= 0 && IntToTv(TvToInt(tv)) == tv
    ensures TvToInt(tv) == 1_000_000 * tv.sec + tv.usec
  {
    if Normalised(tv) {
      Division(TvToInt(tv), tv.sec, tv.usec, 1_000_000);
    }
  }

  /** `initial` and `last` are 0 until they are set. */
  datatype Control = Control(period: int, initial: int, last: int, offerAccept: real, accToAck: real)

  /** log, of which only strict monotonicity matters. */
  ghost predicate Increasing(ln: int -> real) {
    forall a, b {:trigger ln(a), ln(b)} :: 0 < a < b ==> ln(a) < ln(b)
  }

  function Abs(x: real): real {
    if x < 0.0 then -x else x
  }

  function MaxReal(a: real, b: real): real {
    if a > b then a else b
  }

  function MinReal(a: real, b: real): real {
    if a < b then a else b
  }

  function Initial(c: Control): int {
    if c.initial == 0 then c.period else c.initial
  }

  function Elapsed(c: Control, now: int): int {
    if c.last != 0 then Min(now - c.last, PERIOD_MAX) else c.period
  }

  /** Dividing by 1 + rate * dt / 10^6 makes sense. */
  predicate Dividing(rate: real, dt: int) {
    1.0 + rate * (dt as real) / 1_000_000.0 > 0.0
  }

  function Shrunk(p: int, rate: real, dt: int): int
    requires Dividing(rate, dt)
  {
    MaxReal(PERIOD_MIN as real, (p as real) / (1.0 + rate * (dt as real) / 1_000_000.0)).Floor
  }

  function Grown(p: int, rate: real, dt: int): int {
    MinReal(PERIOD_MAX as real, (p as real) * (1.0 + rate * (dt as real) / 1_000_000.0)).Floor
  }

  /** Lines 92-108: the four branches. */
  function NewPeriod(c: Control, ln: int -> real, dt: nat): int {
    var dPeriod := ln(c.period) - ln(Initial(c));
    var dAccToAck := (c.accToAck - ACC_TO_ACK_MAX) / ACC_TO_ACK_MAX;
    FactorPositive(RATE_DOWN, dt);
    FactorPositive(RATE_DOWN * (1.0 + Abs(dPeriod)), dt);
    if dPeriod < 0.0 then
      if c.offerAccept - OFFER_ACCEPT_MIN > 0.0 && dAccToAck < 0.0 then Shrunk(c.period, RATE_DOWN, dt)
      else Grown(c.period, RATE_UP * (1.0 + Abs(dPeriod)), dt)
    else
      if dAccToAck > 0.0 then Grown(c.period, RATE_UP, dt)
      else Shrunk(c.period, RATE_DOWN * (1.0 + Abs(dPeriod)), dt)
  }

  lemma {:induction false} FactorPositive(rate: real, dt: nat)
    requires rate >= 0.0
    ensures 1.0 + rate * (dt as real) / 1_000_000.0 >= 1.0 && Dividing(rate, dt)
  {
    assert rate * (dt as real) >= 0.0;
  }

  function Updated(c: Control, ln: int -> real, now: int): Control
    requires Elapsed(c, now) >= 0
  {
    c.(period := NewPeriod(c, ln, Elapsed(c, now)), initial := Initial(c), last := now)
  }

  // ---------------------------------------------------------------- what one update does

  lemma {:induction false} QuotientBetween(p: real, d: real, top: real)
    requires p >= 0.0 && 1.0 <= d <= top
    ensures p / top <= p / d <= p
  {
    var (q, r) := (p / d, p / top);
    assert q * d == p && r * top == p && q >= 0.0;
    assert q * (d - 1.0) >= 0.0;
    assert q * (top - d) >= 0.0;
    assert (q - r) * top >= 0.0;
  }

  lemma {:induction false} ShrunkBetween(p: int, rate: real, dt: nat)
    requires PERIOD_MIN <= p && rate >= 0.0
    ensures Dividing(rate, dt)
    ensures PERIOD_MIN <= Shrunk(p, rate, dt) <= p
    ensures rate <= 0.1 && dt <= PERIOD_MAX ==> Shrunk(p, rate, dt) as real > (p as real) / 1.1 - 1.0
  {
    FactorPositive(rate, dt);
    var d := 1.0 + rate * (dt as real) / 1_000_000.0;
    QuotientBetween(p as real, d, d);
    if rate <= 0.1 && dt <= PERIOD_MAX {
      ProductBelow(rate, dt as real, 0.1, 1_000_000.0);
      QuotientBetween(p as real, d, 1.1);
    }
  }

  lemma {:induction false} NonNegative(a: real, b: real)
    requires a >= 0.0 && b >= 0.0
    ensures a * b >= 0.0
  {
  }

  lemma {:induction false} ProductBelow(a: real, b: real, aTop: real, bTop: real)
    requires 0.0 <= a <= aTop && 0.0 <= b <= bTop
    ensures a * b <= aTop * bTop
  {
    assert a * b <= aTop * b;
    assert aTop * b <= aTop * bTop;
  }

  lemma {:induction false} GrownBetween(p: int, rate: real, dt: nat)
    requires 0 <= p <= PERIOD_MAX && rate >= 0.0
    ensures p <= Grown(p, rate, dt) <= PERIOD_MAX
    ensures rate <= 0.2 && dt <= PERIOD_MAX ==> Grown(p, rate, dt) as real <= (p as real) * 1.2
  {
    FactorPositive(rate, dt);
    var f := 1.0 + rate * (dt as real) / 1_000_000.0;
    var x := (p as real) * f;
    NonNegative(p as real, f - 1.0);
    assert x - p as real == (p as real) * (f - 1.0);
    if rate <= 0.2 && dt <= PERIOD_MAX {
      ProductBelow(rate, dt as real, 0.2, 1_000_000.0);
      ProductBelow(p as real, f, p as real, 1.2);
    }
  }

  /** The quotient, cut to whole microseconds, but not below 5 ms. */
  lemma {:induction false} ShrunkExact(p: int, rate: real, dt: nat)
    requires 0 <= p && rate >= 0.0
    ensures Dividing(rate, dt)
    ensures var (f, q) := (1.0 + rate * (dt as real) / 1_000_000.0, Shrunk(p, rate, dt));
            if p as real <= 5000.0 * f then q == 5000 else q as real * f <= p as real < (q + 1) as real * f
  {
    FactorPositive(rate, dt);
    Quotient(p as real, 1.0 + rate * (dt as real) / 1_000_000.0, Shrunk(p, rate, dt));
  }

  lemma {:induction false} Quotient(p: real, f: real, q: int)
    requires f >= 1.0 && q == (MaxReal(PERIOD_MIN as real, p / f)).Floor
    ensures if p <= 5000.0 * f then q == 5000 else q as real * f <= p < (q + 1) as real * f
  {
    var x := p / f;
    assert x * f == p;
    if p <= 5000.0 * f {
      Ordered(5000.0, x, f);
    } else {
      Ordered(x, 5000.0, f);
      assert q as real <= x < (q + 1) as real;
      assert (x - q as real) * f >= 0.0;
      assert ((q + 1) as real - x) * f > 0.0;
    }
  }

  lemma {:induction false} Ordered(a: real, b: real, f: real)
    requires f > 0.0
    ensures a < b ==> a * f < b * f
  {
  }

  /** The product, cut to whole microseconds, but not above one second. */
  lemma {:induction false} GrownExact(p: int, rate: real, dt: nat)
    ensures var (x, q) := ((p as real) * (1.0 + rate * (dt as real) / 1_000_000.0), Grown(p, rate, dt));
            if x >= 1_000_000.0 then q == 1_000_000 else q as real <= x < (q + 1) as real
  {
  }

  ghost predicate InRange(p: int) {
    PERIOD_MIN <= p <= PERIOD_MAX
  }

  /** The controller's settings are in range and its clock readings are in the past. */
  ghost predicate Sane(c: Control, now: int) {
    InRange(c.period) && (c.initial == 0 || InRange(c.initial)) && 0 <= c.last <= now && 0.0 <= c.offerAccept <= 1.0
  }

  /** One update keeps the period in range and moves it only where its branch says: below the initial period it
      shrinks, at most by the factor 1.1 up to truncation, if offers are accepted and acks are fast, and grows
      otherwise; from the initial period on it grows, at most by the factor 1.2, if acks are slow, and shrinks
      otherwise. */
  lemma {:induction false} UpdateDirection(c: Control, ln: int -> real, now: int)
    requires Sane(c, now) && Increasing(ln)
    ensures 0 <= Elapsed(c, now) <= PERIOD_MAX && Sane(Updated(c, ln, now), now)
    ensures var (p, p') := (c.period, Updated(c, ln, now).period);
            if p < Initial(c) then
              if c.offerAccept > OFFER_ACCEPT_MIN && c.accToAck < ACC_TO_ACK_MAX
              then p' <= p && p' as real > (p as real) / 1.1 - 1.0
              else p <= p'
            else
              if c.accToAck > ACC_TO_ACK_MAX then p <= p' && p' as real <= (p as real) * 1.2
              else p' <= p
  {
    var dt := Elapsed(c, now);
    var dPeriod := ln(c.period) - ln(Initial(c));
    assert dPeriod < 0.0 <==> c.period < Initial(c);
    var steep := 1.0 + Abs(dPeriod);
    ShrunkBetween(c.period, RATE_DOWN, dt);
    ShrunkBetween(c.period, RATE_DOWN * steep, dt);
    GrownBetween(c.period, RATE_UP, dt);
    GrownBetween(c.period, RATE_UP * steep, dt);
  }

  /** `q` is `p` divided or multiplied by `f`, cut to whole microseconds and to the range from 5 ms to one second. */
  ghost predicate Moved(p: real, shrinks: bool, f: real, q: int) {
    if shrinks then if p <= 5000.0 * f then q == 5000 else q as real * f <= p < (q + 1) as real * f
    else if p * f >= 1_000_000.0 then q == 1_000_000 else q as real <= p * f < (q + 1) as real
  }

  lemma {:induction false} MovedExact(p: int, rate: real, dt: nat, shrinks: bool)
    requires 0 <= p && rate >= 0.0
    ensures Dividing(rate, dt)
    ensures Moved(p as real, shrinks, 1.0 + rate * (dt as real) / 1_000_000.0,
                  if shrinks then Shrunk(p, rate, dt) else Grown(p, rate, dt))
  {
    hide Shrunk, Grown;
    ShrunkExact(p, rate, dt);
    GrownExact(p, rate, dt);
  }

  /** How far one update moves the period: by the elapsed time, at most a second, and by a rate per second that the two
      estimates and the distance from the initial period decide. */
  lemma {:induction false} UpdateAmount(c: Control, ln: int -> real, now: int)
    requires Sane(c, now) && Increasing(ln)
    ensures Elapsed(c, now) >= 0
    ensures var p := c.period as real;
            var init := if c.initial == 0 then c.period else c.initial;
            var dt := if c.last == 0 then p else if now - c.last < 1_000_000 then (now - c.last) as real
              else 1_000_000.0;
            var gap := if c.period < init then ln(init) - ln(c.period) else ln(c.period) - ln(init);
            var shrinks := if c.period < init then c.offerAccept > 0.3 && c.accToAck < 0.3 else c.accToAck <= 0.3;
            var rate := if shrinks then if c.period < init then 0.1 else 0.1 * (1.0 + gap)
                        else if c.period < init then 0.2 * (1.0 + gap) else 0.2;
            var q := Updated(c, ln, now).period;
            && Updated(c, ln, now) == c.(period := q, initial := init, last := now)
            && Moved(p, shrinks, 1.0 + rate * dt / 1_000_000.0, q)
  {
    hide NewPeriod, Shrunk, Grown, Dividing, Moved;
    var dt := Elapsed(c, now);
    var init := Initial(c);
    var gap := if c.period < init then ln(init) - ln(c.period) else ln(c.period) - ln(init);
    var shrinks := if c.period < init then c.offerAccept > 0.3 && c.accToAck < 0.3 else c.accToAck <= 0.3;
    var rate := if shrinks then if c.period < init then 0.1 else 0.1 * (1.0 + gap)
                else if c.period < init then 0.2 * (1.0 + gap) else 0.2;
    Branch(c, ln, dt, gap, shrinks, rate);
    MovedExact(c.period, rate, dt, shrinks);
  }

  lemma {:induction false} Branch(c: Control, ln: int -> real, dt: nat, gap: real, shrinks: bool, rate: real)
    requires InRange(c.period) && (c.initial == 0 || InRange(c.initial)) && Increasing(ln)
    requires var init := Initial(c);
             && gap == (if c.period < init then ln(init) - ln(c.period) else ln(c.period) - ln(init))
             && (shrinks <==> if c.period < init then c.offerAccept > 0.3 && c.accToAck < 0.3 else c.accToAck <= 0.3)
             && rate == (if shrinks then if c.period < init then 0.1 else 0.1 * (1.0 + gap)
                         else if c.period < init then 0.2 * (1.0 + gap) else 0.2)
    ensures gap >= 0.0 && rate >= 0.0 && Dividing(rate, dt)
    ensures NewPeriod(c, ln, dt) == if shrinks then Shrunk(c.period, rate, dt) else Grown(c.period, rate, dt)
  {
    hide Shrunk, Grown, Dividing;
    var dPeriod := ln(c.period) - ln(Initial(c));
    assert dPeriod < 0.0 <==> c.period < Initial(c);
    assert Abs(dPeriod) == gap;
    FactorPositive(rate, dt);
  }

  lemma {:induction false} UpdateSane(c: Control, ln: int -> real, now: int)
    requires Sane(c, now) && Increasing(ln)
    ensures 0 <= Elapsed(c, now) <= PERIOD_MAX
    ensures Sane(Updated(c, ln, now), now) && 0 <= NewPeriod(c, ln, Elapsed(c, now))
  {
    hide NewPeriod;
    UpdateDirection(c, ln, now);
  }

  lemma {:induction false} SteepPositive(x: real, dt: nat)
    ensures Dividing(RATE_DOWN, dt) && Dividing(RATE_DOWN * (1.0 + Abs(x)), dt)
  {
    FactorPositive(RATE_DOWN, dt);
    FactorPositive(RATE_DOWN * (1.0 + Abs(x)), dt);
  }

  // ---------------------------------------------------------------- whole runs

  datatype Event = Answered(accepted: bool) | Acked(accToAck: real, now: int)

  function Smoothed(o: real, accepted: bool): real {
    o * OFFER_ACCEPT_SMOOTHING + if accepted then 1.0 - OFFER_ACCEPT_SMOOTHING else 0.0
  }

  /** Acks adjust the period when autotuning is on. */
  ghost function Step(c: Control, ln: int -> real, autotune: bool, e: Event): Control {
    match e
    case Answered(accepted) => c.(offerAccept := Smoothed(c.offerAccept, accepted))
    case Acked(t, now) =>
      var c' := c.(accToAck := t);
      if autotune && Elapsed(c', now) >= 0 then Updated(c', ln, now) else c'
  }

  ghost function Run(c: Control, ln: int -> real, autotune: bool, events: seq<Event>): Control {
    if events == [] then c
    else Step(Run(c, ln, autotune, events[..|events| - 1]), ln, autotune, events[|events| - 1])
  }

  /** Clock readings start at `start` or later and do not run backwards. */
  ghost predicate Forward(events: seq<Event>, start: int) {
    && (forall i :: 0 <= i < |events| && events[i].Acked? ==> start <= events[i].now)
    && (forall i, j :: 0 <= i < j < |events| && events[i].Acked? && events[j].Acked? ==> events[i].now <= events[j].now)
  }

  function LastNow(events: seq<Event>, start: int): int {
    if events == [] then start
    else if events[|events| - 1].Acked? then events[|events| - 1].now
    else LastNow(events[..|events| - 1], start)
  }

  lemma {:induction false} LastNowBelow(events: seq<Event>, start: int, k: nat)
    requires Forward(events, start) && k < |events| && events[k].Acked?
    ensures LastNow(events[..k], start) <= events[k].now
    decreases k
  {
    LastNowIs(events[..k], start);
  }

  lemma {:induction false} LastNowIs(events: seq<Event>, start: int)
    ensures LastNow(events, start) == start ||
      exists i :: 0 <= i < |events| && events[i].Acked? && events[i].now == LastNow(events, start)
  {
    if events != [] && !events[|events| - 1].Acked? {
      LastNowIs(events[..|events| - 1], start);
    }
  }

  /** From a sane start every run keeps the period between its bounds and the acceptance estimate in [0, 1]. */
  lemma {:induction false} RunSane(c: Control, ln: int -> real, autotune: bool, events: seq<Event>, start: int)
    requires Sane(c, start) && Increasing(ln)
    requires forall i :: 0 <= i < |events| && events[i].Acked? ==> start <= events[i].now
    requires forall i, j :: 0 <= i < j < |events| && events[i].Acked? && events[j].Acked? ==>
      events[i].now <= events[j].now
    ensures Sane(Run(c, ln, autotune, events), LastNow(events, start))
  {
    if events != [] {
      var (before, e) := (events[..|events| - 1], events[|events| - 1]);
      RunSane(c, ln, autotune, before, start);
      var m := Run(c, ln, autotune, before);
      match e
      case Answered(accepted) =>
      case Acked(t, now) =>
        LastNowBelow(events, start, |before|);
        UpdateDirection(m.(accToAck := t), ln, now);
    }
  }

  /** Slow acks, each at least a second after the last update before it. */
  ghost predicate SlowAcks(events: seq<Event>, last: int) {
    forall i :: 0 <= i < |events| ==> SlowAck(events, i, last)
  }

  ghost predicate SlowAck(events: seq<Event>, i: nat, last: int)
    requires i < |events|
  {
    && events[i].Acked? && events[i].accToAck > 0.3
    && (if i == 0 then last else if events[i - 1].Acked? then events[i - 1].now else 0) + 1_000_000 <= events[i].now
  }

  /** A slow ack from the initial period on multiplies the period by 1.2, cut to whole microseconds and one second. */
  lemma {:induction false} SlowStep(c: Control, ln: int -> real, t: real, now: int)
    requires Sane(c, c.last) && c.last != 0 && Increasing(ln) && c.period >= Initial(c)
    requires t > 0.3 && c.last + 1_000_000 <= now
    ensures var n := Step(c, ln, true, Acked(t, now));
            && n.period == Min(1_000_000, 6 * c.period / 5)
            && Sane(n, n.last) && n.last == now && n.period >= Initial(n)
  {
    hide NewPeriod;
    UpdateAmount(c.(accToAck := t), ln, now);
    UpdateSane(c.(accToAck := t), ln, now);
  }

  /** The period after `n` such acks, when it started at its minimum. */
  function Slowed(n: nat): nat {
    if n == 0 then 5000 else Min(1_000_000, 6 * Slowed(n - 1) / 5)
  }

  lemma {:induction false} SlowAcksGrow(c: Control, ln: int -> real, events: seq<Event>)
    requires Sane(c, c.last) && c.last != 0 && Increasing(ln) && c.period >= Initial(c) && SlowAcks(events, c.last)
    ensures var r := Run(c, ln, true, events);
            && Slowed(|events|) <= r.period && Sane(r, r.last) && r.last != 0 && r.period >= Initial(r)
            && r.last == if events != [] && events[|events| - 1].Acked? then events[|events| - 1].now else c.last
  {
    hide Step, Initial;
    if events != [] {
      var (before, e) := (events[..|events| - 1], events[|events| - 1]);
      forall i | 0 <= i < |before|
        ensures SlowAck(before, i, c.last)
      {
        assert SlowAck(events, i, c.last);
      }
      SlowAcksGrow(c, ln, before);
      assert SlowAck(events, |before|, c.last);
      assert before != [] ==> SlowAck(events, |before| - 1, c.last) && before[|before| - 1] == events[|before| - 1];
      SlowStep(Run(c, ln, true, before), ln, e.accToAck, e.now);
    }
  }

  lemma {:induction false} SlowedReaches(n: nat)
    requires n >= 30
    ensures Slowed(n) == 1_000_000
  {
    if n > 30 {
      SlowedReaches(n - 1);
    } else {
      assert Slowed(1) == 6_000 && Slowed(2) == 7_200;
      assert Slowed(3) == 8_640 && Slowed(4) == 10_368;
      assert Slowed(5) == 12_441 && Slowed(6) == 14_929;
      assert Slowed(7) == 17_914 && Slowed(8) == 21_496;
      assert Slowed(9) == 25_795 && Slowed(10) == 30_954;
      assert Slowed(11) == 37_144 && Slowed(12) == 44_572;
      assert Slowed(13) == 53_486 && Slowed(14) == 64_183;
      assert Slowed(15) == 77_019 && Slowed(16) == 92_422;
      assert Slowed(17) == 110_906 && Slowed(18) == 133_087;
      assert Slowed(19) == 159_704 && Slowed(20) == 191_644;
      assert Slowed(21) == 229_972 && Slowed(22) == 275_966;
      assert Slowed(23) == 331_159 && Slowed(24) == 397_390;
      assert Slowed(25) == 476_868 && Slowed(26) == 572_241;
      assert Slowed(27) == 686_689 && Slowed(28) == 824_026;
      assert Slowed(29) == 988_831 && Slowed(30) == 1_000_000;
    }
  }

  /** Thirty slow acks in a row, each at least a second after the other, slow any peer that is not faster than it was
      set up to be down to one offer per second. */
  lemma {:induction false} SlowAcksReachMax(c: Control, ln: int -> real, events: seq<Event>)
    requires Sane(c, c.last) && c.last != 0 && Increasing(ln) && c.period >= Initial(c) && |events| >= 30
    requires forall i :: 0 <= i < |events| ==> events[i].Acked? && events[i].accToAck > 0.3
    requires c.last + 1_000_000 <= events[0].now
    requires forall i :: 0 < i < |events| ==> events[i - 1].now + 1_000_000 <= events[i].now
    ensures Run(c, ln, true, events).period == 1_000_000
  {
    assert forall i :: 0 <= i < |events| ==> SlowAck(events, i, c.last);
    SlowAcksGrow(c, ln, events);
    SlowedReaches(|events|);
  }

  /** A first slow ack, with the logarithm replaced by the identity: 200 ms become 208. */
  lemma {:induction false} FirstSlowAck()
    ensures var (c, ln) := (Control(200_000, 0, 0, 1.0, 0.5), (x: int) => x as real);
            && Sane(c, 1_000_000) && Increasing(ln) && Elapsed(c, 1_000_000) >= 0
            && Updated(c, ln, 1_000_000) == Control(208_000, 200_000, 1_000_000, 1.0, 0.5)
            && Forward([Acked(0.5, 1_000_000)], 0)
  {
    hide NewPeriod;
    var (c, ln) := (Control(200_000, 0, 0, 1.0, 0.5), (x: int) => x as real);
    assert Increasing(ln);
    UpdateAmount(c, ln, 1_000_000);
  }

  /** An answer moves the estimate of accepted offers a tenth of the way to 1 or to 0; an ack replaces the delay and,
      with autotuning, updates the period. */
  lemma {:induction false} StepMeaning(c: Control, ln: int -> real, autotune: bool, e: Event)
    requires e.Acked? ==> Sane(c, e.now)
    ensures e.Answered? ==>
      Step(c, ln, autotune, e) == c.(offerAccept := 0.9 * c.offerAccept + if e.accepted then 0.1 else 0.0)
    ensures e.Acked? && !autotune ==> Step(c, ln, autotune, e) == c.(accToAck := e.accToAck)
    ensures e.Acked? && autotune ==>
      Elapsed(c, e.now) >= 0 && Step(c, ln, autotune, e) == Updated(c.(accToAck := e.accToAck), ln, e.now)
  {
    hide NewPeriod;
  }

  function Power(n: nat): real {
    if n == 0 then 1.0 else Power(n - 1) * OFFER_ACCEPT_SMOOTHING
  }

  /** Every answer so far was a rejection. */
  ghost predicate NoneAccepted(events: seq<Event>) {
    forall i :: 0 <= i < |events| ==> events[i] != Answered(true)
  }

  function Answers(events: seq<Event>): nat {
    if events == [] then 0
    else Answers(events[..|events| - 1]) + if events[|events| - 1].Answered? then 1 else 0
  }

  /** k rejections in a row, whatever acks come between them, leave 0.9^k of the estimate. */
  lemma {:induction false} Rejections(c: Control, ln: int -> real, autotune: bool, events: seq<Event>)
    requires forall i :: 0 <= i < |events| ==> events[i] != Answered(true)
    ensures Run(c, ln, autotune, events).offerAccept == c.offerAccept * Power(Answers(events))
  {
    if events != [] {
      var (before, last) := (events[..|events| - 1], events[|events| - 1]);
      Rejections(c, ln, autotune, before);
      StepEstimate(Run(c, ln, autotune, before), ln, autotune, last);
    }
  }

  lemma {:induction false} StepEstimate(c: Control, ln: int -> real, autotune: bool, e: Event)
    ensures Step(c, ln, autotune, e).offerAccept ==
      if e.Answered? then Smoothed(c.offerAccept, e.accepted) else c.offerAccept
  {
    hide NewPeriod;
  }

  /** After twelve rejections in a row, whatever came before and whatever acks come between them, an ack does not speed
      up a peer that is already faster than it was set up to be. */
  lemma {:induction false} RejectedNotFaster(c: Control, ln: int -> real, events: seq<Event>, t: real, now: int,
                                             start: int)
    requires Sane(c, start) && Increasing(ln) && NoneAccepted(events) && Answers(events) >= 12
    requires Forward(events + [Acked(t, now)], start)
    ensures var m := Run(c, ln, true, events);
            m.period < Initial(m) ==> Run(c, ln, true, events + [Acked(t, now)]).period >= m.period
  {
    hide Power, Run, Step, Answers, Updated;
    var all := events + [Acked(t, now)];
    assert forall i :: 0 <= i < |events| ==> all[i] == events[i];
    assert all[..|events|] == events && all[|events|] == Acked(t, now);
    LastNowBelow(all, start, |events|);
    RunSane(c, ln, true, events, start);
    Rejections(c, ln, true, events);
    var m := Run(c, ln, true, events);
    SmallEstimate(c.offerAccept, Answers(events));
    SaneLater(m, LastNow(events, start), now);
    if m.period < Initial(m) {
      RejectedStep(m, ln, t, now);
    }
    RunPush(c, ln, events, t, now);
  }

  lemma {:induction false} SaneLater(c: Control, now: int, later: int)
    requires Sane(c, now) && now <= later
    ensures Sane(c, later)
  {
  }

  lemma {:induction false} SmallEstimate(o: real, k: nat)
    requires 0.0 <= o <= 1.0 && k >= 12
    ensures 0.0 <= o * Power(k) <= OFFER_ACCEPT_MIN
  {
    hide Power;
    PowerSmall(k);
    ProductBelow(o, Power(k), 1.0, OFFER_ACCEPT_MIN);
    NonNegative(o, Power(k));
  }

  lemma {:induction false} RejectedStep(m: Control, ln: int -> real, t: real, now: int)
    requires Sane(m, now) && Increasing(ln) && m.offerAccept <= OFFER_ACCEPT_MIN && m.period < Initial(m)
    ensures Step(m, ln, true, Acked(t, now)).period >= m.period
  {
    UpdateDirection(m.(accToAck := t), ln, now);
  }

  lemma {:induction false} RunPush(c: Control, ln: int -> real, events: seq<Event>, t: real, now: int)
    ensures Run(c, ln, true, events + [Acked(t, now)]) == Step(Run(c, ln, true, events), ln, true, Acked(t, now))
  {
    assert (events + [Acked(t, now)])[..|events|] == events;
  }

  lemma {:induction false} PowerSmall(n: nat)
    ensures 0.0 <= Power(n) <= 1.0 && (n >= 12 ==> Power(n) <= OFFER_ACCEPT_MIN)
  {
    if n > 12 {
      PowerSmall(n - 1);
    } else if n == 12 {
      PowerStep(0);
      PowerStep(4);
      PowerStep(8);
      assert Power(0) == 1.0;
    } else if n > 0 {
      PowerSmall(n - 1);
    }
  }

  lemma {:induction false} PowerStep(n: nat)
    ensures Power(n + 4) == Power(n) * 0.6561
  {
    assert Power(n + 4) == Power(n + 3) * 0.9;
    assert Power(n + 3) == Power(n + 2) * 0.9;
    assert Power(n + 2) == Power(n + 1) * 0.9;
    assert Power(n + 1) == Power(n) * 0.9;
  }

  // ---------------------------------------------------------------- the controller object

  function Seconds(us: int): real {
    (us as real) / 1_000_000.0
  }

  class RateController {
    const autotune: bool
    const table: TransactionTable
    var period: Timeval
    var periodInitial: int
    var periodLastUpdated: int
    var offerAccept: real
    var accToAck: real

    ghost function State(): Control
      reads this
    {
      Control(TvToInt(period), periodInitial, periodLastUpdated, offerAccept, accToAck)
    }

    constructor (autotune: bool, table: TransactionTable, period: nat)
      ensures this.autotune == autotune && this.table == table && Normalised(this.period)
      ensures State() == Control(period, 0, 0, 1.0, 0.0)
    {
      hide TvToInt, IntToTv, Normalised;
      TimevalRoundTrip(period, Timeval(0, 0));
      this.autotune, this.table, this.period := autotune, table, IntToTv(period);
      periodInitial, periodLastUpdated, offerAccept, accToAck := 0, 0, 1.0, 0.0;
    }

    method UpdatePeriod(now: int, ln: int -> real)
      requires Sane(State(), now) && Increasing(ln)
      modifies this
      ensures State() == Updated(old(State()), ln, now) && Sane(State(), now) && Normalised(period)
      ensures 1_000_000 * period.sec + period.usec == State().period
    {
      hide Shrunk, Grown, Dividing, TvToInt, IntToTv, Normalised, Abs, Increasing;
      UpdateSane(State(), ln, now);
      var p := TvToInt(period);
      if periodInitial == 0 {
        periodInitial := p;
      }
      var dt := p;
      if periodLastUpdated != 0 {
        dt := Min(now - periodLastUpdated, PERIOD_MAX);
      }
      periodLastUpdated := now;
      var dOfferAccept := offerAccept - OFFER_ACCEPT_MIN;
      var dAccToAck := (accToAck - ACC_TO_ACK_MAX) / ACC_TO_ACK_MAX;
      var dPeriod := ln(p) - ln(periodInitial);
      SteepPositive(dPeriod, dt);
      var q;
      if dPeriod < 0.0 {
        if dOfferAccept > 0.0 && dAccToAck < 0.0 {
          q := Shrunk(p, RATE_DOWN, dt);
        } else {
          q := Grown(p, RATE_UP * (1.0 + Abs(dPeriod)), dt);
        }
      } else {
        if dAccToAck > 0.0 {
          q := Grown(p, RATE_UP, dt);
        } else {
          q := Shrunk(p, RATE_DOWN * (1.0 + Abs(dPeriod)), dt);
        }
      }
      TimevalRoundTrip(q, IntToTv(q));
      period := IntToTv(q);
    }

    method RcRegAccept(accepted: bool)
      modifies this`offerAccept
      ensures State() == old(State()).(offerAccept := 0.9 * old(offerAccept) + if accepted then 0.1 else 0.0)
    {
      offerAccept := Smoothed(offerAccept, accepted);
    }

    /** An ack closes its transaction. Only one whose accept time is known adjusts the controller. */
    method RcRegAck(id: int, now: int, ln: int -> real)
      requires table.Valid() && Sane(State(), now) && Increasing(ln)
      modifies this, table`head, table`nodes, table.repr`forward, table.repr`backward
      ensures table.Valid() && table.Abs() == Dropped(old(table.Abs()), id)
      ensures var i := Find(old(table.Abs()), id);
              State() == if i < |old(table.Abs())| && old(table.Abs())[i].st.acceptReceived >= 0.0
                         then Step(old(State()), ln, autotune,
                           Acked(now as real / 1_000_000.0 - old(table.Abs())[i].st.acceptReceived, now))
                         else old(State())
    {
      hide Increasing, Dropped, Find, NewPeriod, TvToInt, Linked, Entries;
      var tAcc := table.TransactionRemove(id);
      if tAcc < 0.0 {
        return;
      }
      accToAck := Seconds(now) - tAcc;
      if autotune {
        UpdatePeriod(now, ln);
      }
    }
  }
}
