/** Where the valves go over runs of the plant. */
module PlantValves {
  import opened Text
  import opened Plant
  import opened PlantTheorems

  datatype ValveId = F1 | F2 | Purge | Product

  function ValveAt(p: Process, k: ValveId): Valve {
    match k case F1 => p.f1 case F2 => p.f2 case Purge => p.purge case Product => p.product
  }

  function InputAt(i: Inputs, k: ValveId): ValveInput {
    match k case F1 => i.f1 case F2 => i.f2 case Purge => i.purge case Product => i.product
  }

  /** Where the emergency stop sends a valve. */
  function Safe(k: ValveId): real {
    if k == F1 || k == F2 then 0.0 else 100.0
  }

  lemma ValveTick(p: Process, i: Inputs, now: nat, ph: Physics, k: ValveId)
    ensures var q := ProcessTick(p, i, now, ph);
            && q.eStop == Latched(p.eStop, i.eStop) && q.current == now && q.timeScale == p.timeScale
            && ValveAt(q, k) == Limited(Acting(ValveAt(p, k), InputAt(i, k), q.eStop, Safe(k), Hours(p.current, now, p.timeScale)))
  {
    hide Limited, Acting, Hours, Latched, FlowsFrom, Fractions, Pressure, Level, Reaction, Rates, Stepped, NonNegative,
      CostOfPurge, Within;
  }

  // ---------- slewing composes ----------

  lemma Positive(rate: real, t: real)
    requires rate > 0.0 && t >= 0.0
    ensures rate * t >= 0.0
  {
  }

  /** Two slews are one slew of the total time. */
  lemma SlewTwice(pos: real, sp: real, rate: real, t: real, u: real)
    requires t >= 0.0 && u >= 0.0
    ensures SlewLimit(SlewLimit(pos, sp, rate, t), sp, rate, u) == SlewLimit(pos, sp, rate, t + u)
  {
    if rate > 0.0 {
      Positive(rate, t);
      Positive(rate, u);
      assert rate * (t + u) == rate * t + rate * u;
    }
  }

  function Distance(a: real, b: real): real {
    if a < b then b - a else a - b
  }

  predicate Between(x: real, a: real, b: real) {
    a <= x <= b || b <= x <= a
  }

  /** What a slew leaves to go, with no overshoot. */
  lemma SlewLeaves(pos: real, sp: real, rate: real, t: real)
    requires t >= 0.0 && rate > 0.0
    ensures Distance(SlewLimit(pos, sp, rate, t), sp) == Max(0.0, Distance(pos, sp) - rate * t)
    ensures Between(SlewLimit(pos, sp, rate, t), pos, sp)
  {
    Positive(rate, t);
  }

  lemma SlewStaysWithin(pos: real, sp: real, rate: real, t: real)
    requires t >= 0.0 && 0.0 <= pos <= 100.0 && 0.0 <= sp <= 100.0
    ensures 0.0 <= SlewLimit(pos, sp, rate, t) <= 100.0
  {
    if rate > 0.0 { Positive(rate, t); }
  }

  // ---------- runs ----------

  /** The clock before a tick. */
  function ClockAt(p: Process, ts: seq<Tick>, n: nat): nat
    requires n <= |ts|
  {
    if n == 0 then p.current else ts[n - 1].now
  }

  /** The clock never goes back, nor does simulated time. */
  predicate Clocked(p: Process, ts: seq<Tick>) {
    p.timeScale >= 0.0
    && forall n | 0 <= n < |ts| :: ClockAt(p, ts, n) <= ts[n].now
  }

  /** The simulated hours of a run. */
  function Duration(p: Process, ts: seq<Tick>): real {
    if ts == [] then 0.0 else Hours(p.current, ts[|ts| - 1].now, p.timeScale)
  }

  predicate InRange(v: Valve) {
    0.0 <= v.pos <= 100.0 && v.slewRate >= 0.0
  }

  /** An input that leaves a valve healthy, with its slew rate. */
  predicate Healthy(i: ValveInput, rate: real) {
    (i.slewRate.Some? ==> i.slewRate.value == rate) && (i.stuck.Some? ==> i.stuck.value == 0)
  }

  /** The emergency stop is on in the n-th tick. */
  predicate StopAt(p: Process, ts: seq<Tick>, ph: Physics, n: nat)
    requires n < |ts|
  {
    ProcessAfter(p, ts[..n + 1], ph).eStop
  }

  /** At each tick the valve is healthy and sent to the same place, by its setpoint or by the emergency stop. */
  predicate Steered(p: Process, ts: seq<Tick>, ph: Physics, k: ValveId, sp: real, rate: real) {
    forall n | 0 <= n < |ts| ::
      && Healthy(InputAt(ts[n].process, k), rate)
      && (if StopAt(p, ts, ph, n) then sp == Safe(k) else InputAt(ts[n].process, k).sp == Some(sp))
  }

  lemma SteeredBefore(p: Process, ts: seq<Tick>, ph: Physics, k: ValveId, sp: real, rate: real)
    requires ts != [] && Steered(p, ts, ph, k, sp, rate)
    ensures Steered(p, ts[..|ts| - 1], ph, k, sp, rate)
    ensures Healthy(InputAt(ts[|ts| - 1].process, k), rate)
    ensures if ProcessAfter(p, ts, ph).eStop then sp == Safe(k) else InputAt(ts[|ts| - 1].process, k).sp == Some(sp)
  {
    hide ProcessAfter, Healthy, InputAt;
    var m := |ts| - 1;
    forall n | 0 <= n < m ensures ts[..m][n] == ts[n] && StopAt(p, ts[..m], ph, n) == StopAt(p, ts, ph, n) {
      assert ts[..m][..n + 1] == ts[..n + 1];
    }
    assert StopAt(p, ts, ph, m) == ProcessAfter(p, ts, ph).eStop by {
      assert ts[..m + 1] == ts;
    }
  }

  lemma {:induction false} ClockAfter(p: Process, ts: seq<Tick>, ph: Physics)
    ensures var q := ProcessAfter(p, ts, ph);
            q.timeScale == p.timeScale && q.current == if ts == [] then p.current else ts[|ts| - 1].now
  {
    hide ProcessTick;
    if ts != [] {
      var last := ts[|ts| - 1];
      ClockAfter(p, ts[..|ts| - 1], ph);
      ValveTick(ProcessAfter(p, ts[..|ts| - 1], ph), last.process, last.now, ph, F1);
    }
  }

  lemma HoursAdd(a: nat, b: nat, c: nat, timeScale: real)
    requires a <= b <= c && timeScale >= 0.0
    ensures Hours(a, b, timeScale) >= 0.0 && Hours(b, c, timeScale) >= 0.0
    ensures Hours(a, c, timeScale) == Hours(a, b, timeScale) + Hours(b, c, timeScale)
  {
    var x, y := (b - a) as real / 1000000.0 / 60.0 / 60.0, (c - b) as real / 1000000.0 / 60.0 / 60.0;
    assert (c - a) as real / 1000000.0 / 60.0 / 60.0 == x + y;
    assert (x + y) * timeScale == x * timeScale + y * timeScale;
  }

  lemma LastTick(p: Process, ts: seq<Tick>)
    requires ts != [] && Clocked(p, ts)
    ensures var k := |ts| - 1; var at := ClockAt(p, ts, k);
            && Clocked(p, ts[..k]) && at <= ts[k].now && Hours(at, ts[k].now, p.timeScale) >= 0.0
            && Duration(p, ts[..k]) >= 0.0 && Duration(p, ts) == Duration(p, ts[..k]) + Hours(at, ts[k].now, p.timeScale)
    decreases |ts|
  {
    hide Hours;
    var k := |ts| - 1;
    assert forall n | 0 <= n < k :: ts[..k][n] == ts[n] && ClockAt(p, ts[..k], n) == ClockAt(p, ts, n);
    assert ClockAt(p, ts, k) <= ts[k].now;
    if k == 0 {
      HoursAdd(p.current, p.current, ts[0].now, p.timeScale);
      NoTime(p.current, p.timeScale);
    } else {
      Ordered(p, ts, k - 1);
      HoursAdd(p.current, ts[k - 1].now, ts[k].now, p.timeScale);
    }
  }

  lemma NoTime(at: nat, timeScale: real)
    ensures Hours(at, at, timeScale) == 0.0
  {
  }

  lemma {:induction false} Ordered(p: Process, ts: seq<Tick>, n: nat)
    requires Clocked(p, ts) && n < |ts|
    ensures p.current <= ts[n].now
  {
    assert ClockAt(p, ts, n) <= ts[n].now;
    if n > 0 { Ordered(p, ts, n - 1); }
  }

  /** One tick of a valve that is healthy and sent to a place in range: the end clamp changes nothing. */
  lemma SteeredTick(v: Valve, i: ValveInput, eStop: bool, safe: real, sp: real, dt: real)
    requires InRange(v) && !v.stuck && Healthy(i, v.slewRate) && dt >= 0.0 && 0.0 <= sp <= 100.0
    requires if eStop then sp == safe else i.sp == Some(sp)
    ensures var a := Acting(v, i, eStop, safe, dt);
            Limited(a).pos == a.pos == SlewLimit(v.pos, sp, v.slewRate, dt) && Limited(a).slewRate == v.slewRate && !Limited(a).stuck
            && InRange(Limited(a))
  {
    hide SlewLimit;
    SlewStaysWithin(v.pos, sp, v.slewRate, dt);
  }

  /**
   Convergence: over any run, a healthy valve that is always sent to the same place is where one slew of
   the run's whole duration would have put it.
   */
  lemma {:induction false} ValveConverges(p: Process, ts: seq<Tick>, ph: Physics, k: ValveId, sp: real, rate: real)
    requires Clocked(p, ts) && Steered(p, ts, ph, k, sp, rate) && 0.0 <= sp <= 100.0
    requires InRange(ValveAt(p, k)) && !ValveAt(p, k).stuck && ValveAt(p, k).slewRate == rate
    ensures var v := ValveAt(ProcessAfter(p, ts, ph), k);
            && InRange(v) && !v.stuck && v.slewRate == rate
            && v.pos == if ts == [] then ValveAt(p, k).pos else SlewLimit(ValveAt(p, k).pos, sp, rate, Duration(p, ts))
  {
    hide ProcessTick, Acting, Limited, Hours, SlewLimit, ValveAt, InputAt, Clocked, Steered, Healthy, Duration;
    if ts != [] {
      var m := |ts| - 1;
      var init, last := ts[..m], ts[m];
      var before := ProcessAfter(p, init, ph);
      LastTick(p, ts);
      SteeredBefore(p, ts, ph, k, sp, rate);
      ValveConverges(p, init, ph, k, sp, rate);
      ClockAfter(p, init, ph);
      ValveTick(before, last.process, last.now, ph, k);
      var dt := Hours(before.current, last.now, before.timeScale);
      var eStop := ProcessAfter(p, ts, ph).eStop;
      SteeredTick(ValveAt(before, k), InputAt(last.process, k), eStop, Safe(k), sp, dt);
      if init == [] {
        NoDuration(p);
      } else {
        SlewTwice(ValveAt(p, k).pos, sp, rate, Duration(p, init), dt);
      }
    }
  }

  lemma NoDuration(p: Process)
    ensures Duration(p, []) == 0.0
  {
  }

  /** The distance left, and no overshoot. */
  lemma DistanceLeft(p: Process, ts: seq<Tick>, ph: Physics, k: ValveId, sp: real, rate: real)
    requires Clocked(p, ts) && Steered(p, ts, ph, k, sp, rate) && 0.0 <= sp <= 100.0 && rate > 0.0
    requires InRange(ValveAt(p, k)) && !ValveAt(p, k).stuck && ValveAt(p, k).slewRate == rate
    ensures var start, pos := ValveAt(p, k).pos, ValveAt(ProcessAfter(p, ts, ph), k).pos;
            Distance(pos, sp) == Max(0.0, Distance(start, sp) - rate * Duration(p, ts)) && Between(pos, start, sp)
  {
    hide ProcessAfter, Clocked, Steered, SlewLimit, Distance, Between;
    ValveConverges(p, ts, ph, k, sp, rate);
    var start := ValveAt(p, k).pos;
    if ts == [] {
      NoDuration(p);
      AtRest(start, sp);
    } else {
      LastTick(p, ts);
      SlewLeaves(start, sp, rate, Duration(p, ts));
    }
  }

  lemma AtRest(a: real, b: real)
    ensures Distance(a, b) == Max(0.0, Distance(a, b)) && Between(a, a, b)
  {
  }

  // ---------- emergency stop ----------

  /** The stop is on from the first tick, and no input takes it back. */
  predicate Stopped(p: Process, ts: seq<Tick>) {
    forall n | 0 <= n < |ts| ::
      var i := ts[n].process.eStop; (i.Some? ==> i.value != 0) && (n == 0 ==> p.eStop || i.Some?)
  }

  lemma {:induction false} StopLatches(p: Process, ts: seq<Tick>, ph: Physics)
    requires ts != [] && Stopped(p, ts)
    ensures ProcessAfter(p, ts, ph).eStop
  {
    hide ProcessTick;
    var m := |ts| - 1;
    var before := ProcessAfter(p, ts[..m], ph);
    ValveTick(before, ts[m].process, ts[m].now, ph, F1);
    if m > 0 {
      assert forall n | 0 <= n < m :: ts[..m][n] == ts[n];
      StopLatches(p, ts[..m], ph);
    }
  }

  /**
   A latched stop brings every healthy valve to its safe position, 0, 0, 100 or 100, whatever setpoints
   are sent: at once without a slew fault, and otherwise as soon as rate * duration covers the distance.
   */
  lemma EStopReaches(p: Process, ts: seq<Tick>, ph: Physics, k: ValveId, rate: real)
    requires Clocked(p, ts) && ts != [] && Stopped(p, ts)
    requires forall n | 0 <= n < |ts| :: Healthy(InputAt(ts[n].process, k), rate)
    requires InRange(ValveAt(p, k)) && !ValveAt(p, k).stuck && ValveAt(p, k).slewRate == rate
    ensures var pos := ValveAt(ProcessAfter(p, ts, ph), k).pos;
            pos == Safe(k) <==> rate == 0.0 || rate * Duration(p, ts) >= Distance(ValveAt(p, k).pos, Safe(k))
  {
    hide ProcessAfter, Clocked, Healthy, InputAt, Stopped, ValveAt, InRange, Duration;
    assert Steered(p, ts, ph, k, Safe(k), rate) by {
      forall n | 0 <= n < |ts| ensures StopAt(p, ts, ph, n) {
        StoppedBefore(p, ts, n + 1);
        StopLatches(p, ts[..n + 1], ph);
      }
    }
    RateIsNonNegative(p, k);
    ValveConverges(p, ts, ph, k, Safe(k), rate);
    if rate > 0.0 {
      DistanceLeft(p, ts, ph, k, Safe(k), rate);
    }
  }

  lemma RateIsNonNegative(p: Process, k: ValveId)
    requires InRange(ValveAt(p, k))
    ensures ValveAt(p, k).slewRate >= 0.0
  {
  }

  lemma StoppedBefore(p: Process, ts: seq<Tick>, n: nat)
    requires Stopped(p, ts) && n <= |ts|
    ensures Stopped(p, ts[..n])
  {
    assert forall j | 0 <= j < n :: ts[..n][j] == ts[j];
  }

  /** A stuck valve keeps its position for a whole run, through any setpoint and the emergency stop. */
  lemma {:induction false} StuckStays(p: Process, ts: seq<Tick>, ph: Physics, k: ValveId)
    requires InRange(ValveAt(p, k)) && ValveAt(p, k).stuck
    requires forall n | 0 <= n < |ts| :: var i := InputAt(ts[n].process, k).stuck; i.Some? ==> i.value != 0
    ensures var v := ValveAt(ProcessAfter(p, ts, ph), k); v.pos == ValveAt(p, k).pos && v.stuck
  {
    hide ProcessTick, ValveAt, InputAt, Hours, SlewLimit;
    if ts != [] {
      var m := |ts| - 1;
      assert forall n | 0 <= n < m :: ts[..m][n] == ts[n];
      StuckStays(p, ts[..m], ph, k);
      ValveTick(ProcessAfter(p, ts[..m], ph), ts[m].process, ts[m].now, ph, k);
    }
  }

  // ---------- a stopped plant ----------

  predicate Sound(v: Valve) {
    InRange(v) && 0.0 <= v.cvScale
  }

  predicate SoundInput(i: ValveInput) {
    i.cvScale.Some? ==> i.cvScale.value >= 0.0
  }

  /** All valves in range, and both feeds closed. */
  predicate FeedsClosed(p: Process) {
    Sound(p.f1) && Sound(p.f2) && Sound(p.purge) && Sound(p.product) && p.f1.pos == 0.0 && p.f2.pos == 0.0
  }

  predicate SoundInputs(i: Inputs) {
    SoundInput(i.f1) && SoundInput(i.f2) && SoundInput(i.purge) && SoundInput(i.product)
  }

  lemma StoppedValve(v: Valve, i: ValveInput, safe: real, dt: real)
    requires Sound(v) && SoundInput(i) && dt >= 0.0 && 0.0 <= safe <= 100.0
    ensures var a := Acting(v, i, true, safe, dt);
            0.0 <= a.pos <= 100.0 && a.cvScale >= 0.0 && Sound(Limited(a)) && (v.pos == 0.0 && safe == 0.0 ==> a.pos == 0.0)
  {
    var c := Configured(v, i);
    SlewStaysWithin(v.pos, safe, c.slewRate, dt);
    if c.slewRate > 0.0 { Positive(c.slewRate, dt); }
  }

  lemma FlowSigns(f1: Valve, f2: Valve, purge: Valve, product: Valve, pressure: real, level: real, ph: Physics)
    requires f1.pos == 0.0 && f2.pos == 0.0 && purge.pos >= 0.0 && product.pos >= 0.0 && purge.cvScale >= 0.0 && product.cvScale >= 0.0
    requires pressure >= 100.0 ==> ph.sqrt(pressure - 100.0) >= 0.0
    ensures Net(FlowsFrom(f1, f2, purge, product, pressure, level, ph)) <= 0.0
  {
    if pressure >= 100.0 {
      ProductSign(CV.purge, purge.cvScale, purge.pos, ph.sqrt(pressure - 100.0));
      ProductSign(CV.product, product.cvScale, product.pos, ph.sqrt(pressure - 100.0));
    }
  }

  lemma ProductSign(a: real, b: real, c: real, d: real)
    requires a >= 0.0 && b >= 0.0 && c >= 0.0 && d >= 0.0
    ensures a * b * c * d >= 0.0
  {
    assert a * b >= 0.0;
    assert a * b * c >= 0.0;
  }

  lemma StoppedTick(p: Process, i: Inputs, now: nat, ph: Physics)
    requires FeedsClosed(p) && SoundInputs(i) && Latched(p.eStop, i.eStop) && Hours(p.current, now, p.timeScale) >= 0.0
    requires forall x | x >= 0.0 :: ph.sqrt(x) >= 0.0
    ensures FeedsClosed(ProcessTick(p, i, now, ph)) && Net(ProcessTick(p, i, now, ph).flows) <= 0.0
  {
    hide Hours, Acting, Limited, FlowsFrom, Fractions, Pressure, Level, Reaction, Rates, Stepped, NonNegative, CostOfPurge, Within, Net,
      Sound, SoundInput;
    var dt := Hours(p.current, now, p.timeScale);
    StoppedValve(p.f1, i.f1, 0.0, dt);
    StoppedValve(p.f2, i.f2, 0.0, dt);
    StoppedValve(p.purge, i.purge, 100.0, dt);
    StoppedValve(p.product, i.product, 100.0, dt);
    ClosedStays(Acting(p.f1, i.f1, true, 0.0, dt));
    ClosedStays(Acting(p.f2, i.f2, true, 0.0, dt));
    FlowSigns(Acting(p.f1, i.f1, true, 0.0, dt), Acting(p.f2, i.f2, true, 0.0, dt), Acting(p.purge, i.purge, true, 100.0, dt),
              Acting(p.product, i.product, true, 100.0, dt), Pressure(p.moles, ph), Level(p.moles), ph);
  }

  lemma ClosedStays(v: Valve)
    ensures v.pos == 0.0 ==> Limited(v).pos == 0.0
  {
  }

  lemma NonPositive(dt: real, net: real)
    requires dt >= 0.0 && net <= 0.0
    ensures dt * net <= 0.0
  {
  }

  lemma {:induction false} NothingSupplied(p: Process, ts: seq<Tick>, ph: Physics)
    requires FeedsClosed(p) && Clocked(p, ts) && Stopped(p, ts) && (forall x | x >= 0.0 :: ph.sqrt(x) >= 0.0)
    requires forall n | 0 <= n < |ts| :: SoundInputs(ts[n].process)
    ensures FeedsClosed(ProcessAfter(p, ts, ph)) && Supplied(p, ts, ph) <= 0.0
  {
    hide ProcessTick, FeedsClosed, SoundInputs, Hours, Net, Clocked, Duration;
    if ts != [] {
      var m := |ts| - 1;
      var init := ts[..m];
      var before := ProcessAfter(p, init, ph);
      assert forall n | 0 <= n < m :: init[n] == ts[n];
      LastTick(p, ts);
      StoppedBefore(p, ts, m);
      NothingSupplied(p, init, ph);
      ClockAfter(p, init, ph);
      if m > 0 { StopLatches(p, init, ph); }
      StoppedTick(before, ts[m].process, ts[m].now, ph);
      NonPositive(Elapsed(before, ts[m]), Net(ProcessAfter(p, ts, ph).flows));
    }
  }

  /**
   An emergency stop with the feeds closed isolates the plant: over any further run both stay closed, and unless
   a non-negativity clamp fires the total of moles does not grow.
   */
  lemma StoppedPlantIsIsolated(p: Process, ts: seq<Tick>, ph: Physics)
    requires FeedsClosed(p) && Clocked(p, ts) && Stopped(p, ts) && HasVapor(p, ts, ph) && (forall x | x >= 0.0 :: ph.sqrt(x) >= 0.0)
    requires forall n | 0 <= n < |ts| :: SoundInputs(ts[n].process)
    ensures (forall n | 0 <= n < |ts| :: FreeAt(p, ts, ph, n)) ==> Total(ProcessAfter(p, ts, ph).moles) <= Total(p.moles)
    ensures var q := ProcessAfter(p, ts, ph); q.f1.pos == 0.0 && q.f2.pos == 0.0
  {
    hide ProcessAfter, Clocked, Stopped, HasVapor, FreeAt, Total, Supplied, SoundInputs, Sound;
    NothingSupplied(p, ts, ph);
    BalanceOverRun(p, ts, ph);
  }
}
