/** What the sensors report over runs of the plant, and what every run keeps in range. */
module PlantSensors {
  import opened Plant
  import opened PlantTheorems

  datatype SensorId = TankPressure | TankLevel | F1Flow | F2Flow | PurgeFlow | ProductFlow | Analyzer

  function SensorAt(s: Panel, k: SensorId): Sensor {
    match k
    case TankPressure => s.tankPressure case TankLevel => s.tankLevel case F1Flow => s.f1Flow case F2Flow => s.f2Flow
    case PurgeFlow => s.purgeFlow case ProductFlow => s.productFlow case Analyzer => s.analyzer
  }

  function InputAt(i: PanelInputs, k: SensorId): SensorInput {
    match k
    case TankPressure => i.tankPressure case TankLevel => i.tankLevel case F1Flow => i.f1Flow case F2Flow => i.f2Flow
    case PurgeFlow => i.purgeFlow case ProductFlow => i.productFlow case Analyzer => i.analyzer
  }

  /** The true values a sensor looks at. */
  function Truth(p: Process, k: SensorId): seq<real> {
    match k
    case TankPressure => [p.pressure] case TankLevel => [p.level] case F1Flow => [p.flows.f1] case F2Flow => [p.flows.f2]
    case PurgeFlow => [p.flows.purge] case ProductFlow => [p.flows.product] case Analyzer => [p.inPurge.a, p.inPurge.b, p.inPurge.c]
  }

  function DrawsAt(d: Draws, k: SensorId): seq<real> {
    match k
    case TankPressure => [d.tankPressure] case TankLevel => [d.tankLevel] case F1Flow => [d.f1Flow] case F2Flow => [d.f2Flow]
    case PurgeFlow => [d.purgeFlow] case ProductFlow => [d.productFlow] case Analyzer => [d.a, d.b, d.c]
  }

  /** Each of the seven sensors does what one sensor does with its own truth, inputs and noise. */
  lemma SensorOfPanel(s: Panel, i: PanelInputs, p: Process, dt: real, d: Draws, k: SensorId)
    requires Wired(s)
    ensures |SensorAt(s, k).measured| == |Truth(p, k)| == |DrawsAt(d, k)|
    ensures SensorAt(PanelTick(s, i, p, dt, d), k) == SensorTick(SensorAt(s, k), InputAt(i, k), Truth(p, k), dt, p.current, DrawsAt(d, k))
  {
    hide SensorTick;
  }

  lemma SensorAfter(s: State, t: Tick, ph: Physics, k: SensorId)
    requires Wired(s.panel)
    ensures var r := Advance(s, t, ph);
            && |SensorAt(s.panel, k).measured| == |Truth(r.process, k)| == |DrawsAt(t.draws, k)|
            && SensorAt(r.panel, k) == SensorTick(SensorAt(s.panel, k), InputAt(t.panel, k), Truth(r.process, k),
                                                  Elapsed(s.process, t), t.now, DrawsAt(t.draws, k))
  {
    hide PanelTick, SensorTick, SensorAt, Truth, DrawsAt, InputAt;
    SensorOfPanel(s.panel, t.panel, ProcessTick(s.process, t.process, t.now, ph), Elapsed(s.process, t), t.draws, k);
  }

  // ---------- drift ----------

  /** A bias is left only by drift. */
  predicate Unbiased(s: Sensor) {
    s.mode != DRIFT ==> s.bias == 0.0
  }

  lemma {:induction false} BiasOnlyFromDrift(s: State, ts: seq<Tick>, ph: Physics, k: SensorId)
    requires Wired(s.panel) && Unbiased(SensorAt(s.panel, k))
    ensures Unbiased(SensorAt(Run(s, ts, ph).panel, k))
  {
    hide Advance, SensorAt, Wired;
    if ts != [] {
      var before := Run(s, ts[..|ts| - 1], ph);
      BiasOnlyFromDrift(s, ts[..|ts| - 1], ph, k);
      SensorAfter(before, ts[|ts| - 1], ph, k);
    }
  }

  /** A sensor is in a mode after each tick of a run. */
  predicate InMode(s: State, ts: seq<Tick>, ph: Physics, k: SensorId, mode: int)
    requires Wired(s.panel)
  {
    forall n | 0 < n <= |ts| :: SensorAt(Run(s, ts[..n], ph).panel, k).mode == mode
  }

  lemma InModeBefore(s: State, ts: seq<Tick>, ph: Physics, k: SensorId, mode: int)
    requires Wired(s.panel) && InMode(s, ts, ph, k, mode) && ts != []
    ensures InMode(s, ts[..|ts| - 1], ph, k, mode) && SensorAt(Run(s, ts, ph).panel, k).mode == mode
  {
    hide Run, SensorAt;
    var m := |ts| - 1;
    forall n | 0 < n <= m ensures SensorAt(Run(s, ts[..m][..n], ph).panel, k).mode == mode {
      assert ts[..m][..n] == ts[..n];
    }
    assert ts[..|ts|] == ts;
  }

  /** The sum of severity * dt over a run. */
  function Drifted(s: State, ts: seq<Tick>, ph: Physics, k: SensorId): real
    requires Wired(s.panel)
  {
    if ts == [] then 0.0
    else
      var init := ts[..|ts| - 1];
      Drifted(s, init, ph, k) + SensorAt(Run(s, ts, ph).panel, k).severity * Elapsed(Run(s, init, ph).process, ts[|ts| - 1])
  }

  /** Every reading is the truth plus an offset. */
  predicate OffBy(s: Sensor, truth: seq<real>, offset: real) {
    |s.measured| == |truth| && forall j | 0 <= j < |truth| :: s.measured[j] == truth[j] + offset
  }

  lemma DriftTick(s: Sensor, i: SensorInput, truth: seq<real>, dt: real, now: nat, draws: seq<real>)
    requires |s.measured| == |truth| == |draws|
    ensures var r := SensorTick(s, i, truth, dt, now, draws);
            r.mode == DRIFT ==> r.bias == s.bias + r.severity * dt && OffBy(r, truth, r.bias)
  {
  }

  /**
   Drift: while a sensor drifts (mode 2), it reads the truth plus the bias it entered the segment with plus the sum
   of severity * dt; entered from any other mode, that is the sum alone.
   */
  lemma {:induction false} DriftSegment(s: State, ts: seq<Tick>, ph: Physics, k: SensorId)
    requires Wired(s.panel) && InMode(s, ts, ph, k, 2) && Unbiased(SensorAt(s.panel, k))
    ensures var r := Run(s, ts, ph); var start := SensorAt(s.panel, k);
            && (ts != [] ==> OffBy(SensorAt(r.panel, k), Truth(r.process, k), start.bias + Drifted(s, ts, ph, k)))
            && SensorAt(r.panel, k).bias == start.bias + Drifted(s, ts, ph, k)
            && (ts != [] && start.mode != 2 ==> OffBy(SensorAt(r.panel, k), Truth(r.process, k), Drifted(s, ts, ph, k)))
  {
    hide Advance, SensorAt, Truth, Elapsed, InMode, OffBy, SensorTick, InputAt, DrawsAt, Wired;
    if ts != [] {
      var m := |ts| - 1;
      var before := Run(s, ts[..m], ph);
      InModeBefore(s, ts, ph, k, 2);
      DriftSegment(s, ts[..m], ph, k);
      SensorAfter(before, ts[m], ph, k);
      var truth := Truth(Run(s, ts, ph).process, k);
      DriftTick(SensorAt(before.panel, k), InputAt(ts[m].panel, k), truth, Elapsed(before.process, ts[m]), ts[m].now,
                DrawsAt(ts[m].draws, k));
    }
  }

  // ---------- the other modes ----------

  /** A frozen sensor (mode 1) holds its last reading for the whole segment, whatever the process does. */
  lemma {:induction false} FrozenHolds(s: State, ts: seq<Tick>, ph: Physics, k: SensorId)
    requires Wired(s.panel) && InMode(s, ts, ph, k, 1)
    ensures SensorAt(Run(s, ts, ph).panel, k).measured == SensorAt(s.panel, k).measured
  {
    hide Advance, SensorAt, Truth, Elapsed, InMode, InputAt, DrawsAt, Wired;
    if ts != [] {
      InModeBefore(s, ts, ph, k, 1);
      FrozenHolds(s, ts[..|ts| - 1], ph, k);
      SensorAfter(Run(s, ts[..|ts| - 1], ph), ts[|ts| - 1], ph, k);
    }
  }

  /** Whatever came before, a tick in the healthy mode 0 reads the truth and forgets the bias. */
  lemma Recovery(s: State, ts: seq<Tick>, ph: Physics, k: SensorId)
    requires Wired(s.panel) && ts != []
    ensures var r := Run(s, ts, ph); var sensor := SensorAt(r.panel, k);
            sensor.mode == 0 ==> sensor.measured == Truth(r.process, k) && sensor.bias == 0.0
  {
    hide Advance, SensorAt, Truth, Elapsed, InputAt, DrawsAt, Wired;
    SensorAfter(Run(s, ts[..|ts| - 1], ph), ts[|ts| - 1], ph, k);
  }

  lemma PhaseIs(now: nat, duty: real)
    ensures InDropoutPhase(now, duty) <==> (now % 10_000_000) as real < duty * 10_000_000.0
  {
  }

  /** A dropping sensor (mode 4) reads zeros in the first part of each ten seconds, and the truth in the rest. */
  lemma DropoutReads(s: State, ts: seq<Tick>, ph: Physics, k: SensorId)
    requires Wired(s.panel) && ts != []
    ensures var r := Run(s, ts, ph); var sensor := SensorAt(r.panel, k); var truth := Truth(r.process, k);
            sensor.mode == 4 ==>
              sensor.bias == 0.0 && |sensor.measured| == |truth|
              && if (ts[|ts| - 1].now % 10_000_000) as real < sensor.severity * 10_000_000.0
                 then forall j | 0 <= j < |truth| :: sensor.measured[j] == 0.0
                 else sensor.measured == truth
  {
    hide Advance, SensorAt, Truth, Elapsed, InputAt, DrawsAt, Wired, InDropoutPhase;
    SensorAfter(Run(s, ts[..|ts| - 1], ph), ts[|ts| - 1], ph, k);
    PhaseIs(ts[|ts| - 1].now, SensorAt(Run(s, ts, ph).panel, k).severity);
  }

  lemma NoiseBound(amplitude: real, draw: real)
    requires 0.0 <= draw <= 1.0 && amplitude >= 0.0
    ensures UniformNoise(amplitude, draw) == (draw * 2.0 - 1.0) * amplitude
    ensures -amplitude <= UniformNoise(amplitude, draw) <= amplitude
  {
    var r := draw * 2.0 - 1.0;
    if amplitude > 0.0 {
      assert r * amplitude <= 1.0 * amplitude by { assert (1.0 - r) * amplitude >= 0.0; }
      assert r * amplitude >= -1.0 * amplitude by { assert (1.0 + r) * amplitude >= 0.0; }
    }
  }

  predicate UnitDraws(ds: seq<real>) {
    forall j | 0 <= j < |ds| :: 0.0 <= ds[j] <= 1.0
  }

  /** A noisy sensor (mode 3) is off by a draw spread evenly over its severity to either side, and never by more. */
  lemma NoiseIsBounded(s: State, ts: seq<Tick>, ph: Physics, k: SensorId)
    requires Wired(s.panel) && ts != [] && UnitDraws(DrawsAt(ts[|ts| - 1].draws, k))
    ensures var r := Run(s, ts, ph); var sensor := SensorAt(r.panel, k); var truth := Truth(r.process, k);
            var draws := DrawsAt(ts[|ts| - 1].draws, k);
            sensor.mode == 3 ==>
              |sensor.measured| == |truth| == |draws| && sensor.bias == 0.0
              && forall j | 0 <= j < |truth| ::
                   && sensor.measured[j] - truth[j] == (draws[j] * 2.0 - 1.0) * sensor.severity
                   && -sensor.severity <= sensor.measured[j] - truth[j] <= sensor.severity
  {
    hide Advance, SensorAt, Truth, Elapsed, InputAt, DrawsAt, Wired, UniformNoise;
    var t := ts[|ts| - 1];
    var before := Run(s, ts[..|ts| - 1], ph);
    SensorAfter(before, t, ph, k);
    var sensor, draws := SensorAt(Run(s, ts, ph).panel, k), DrawsAt(t.draws, k);
    forall j | 0 <= j < |draws|
      ensures sensor.severity >= 0.0 ==>
                && UniformNoise(sensor.severity, draws[j]) == (draws[j] * 2.0 - 1.0) * sensor.severity
                && -sensor.severity <= UniformNoise(sensor.severity, draws[j]) <= sensor.severity
    {
      if sensor.severity >= 0.0 { NoiseBound(sensor.severity, draws[j]); }
    }
  }

  /** A fault mode from 0 to 4 and a severity that is not negative are taken over, and kept while nothing else is sent. */
  lemma FaultIsTaken(s: State, t: Tick, ph: Physics, k: SensorId)
    requires Wired(s.panel)
    ensures var i, before, after := InputAt(t.panel, k), SensorAt(s.panel, k), SensorAt(Advance(s, t, ph).panel, k);
            && (i.mode.Some? && 0 <= i.mode.value <= 4 ==> after.mode == i.mode.value)
            && (i.mode.Some? && i.mode.value < 0 ==> after.mode == 0) && (i.mode.Some? && i.mode.value > 4 ==> after.mode == 4)
            && (i.mode.None? && 0 <= before.mode <= 4 ==> after.mode == before.mode)
            && (i.severity.Some? && i.severity.value >= 0.0 ==> after.severity == i.severity.value)
            && (i.severity.Some? && i.severity.value < 0.0 ==> after.severity == 0.0)
            && (i.severity.None? && before.severity >= 0.0 ==> after.severity == before.severity)
  {
    hide Advance, SensorAt, Truth, Elapsed, InputAt, DrawsAt, Wired;
    SensorAfter(s, t, ph, k);
  }

  // ---------- what every run keeps ----------

  predicate Healthy(v: Valve) {
    0.0 <= v.pos <= 100.0 && v.slewRate >= 0.0 && 0.0 <= v.cvScale <= 1.0
  }

  predicate InRange(s: State) {
    var p := s.process;
    && Healthy(p.f1) && Healthy(p.f2) && Healthy(p.purge) && Healthy(p.product)
    && p.moles.a >= 0.0 && p.moles.b >= 0.0 && p.moles.c >= 0.0 && p.moles.d >= 0.0
    && 0.0 <= p.pressure <= 3200.0 && 0.0 <= p.level <= 100.0
    && forall k :: 0 <= SensorAt(s.panel, k).mode <= 4 && SensorAt(s.panel, k).severity >= 0.0
  }

  /** Whatever the inputs, every tick ends in range, and the delayed samples are never refreshed. */
  lemma {:induction false} RunsStayInRange(s: State, ts: seq<Tick>, ph: Physics)
    requires Wired(s.panel)
    ensures ts != [] ==> InRange(Run(s, ts, ph))
    ensures Run(s, ts, ph).process.samples.ymeas == s.process.samples.ymeas
  {
    hide InRange, Advance, Wired;
    if ts != [] {
      RunsStayInRange(s, ts[..|ts| - 1], ph);
      TickEndsInRange(Run(s, ts[..|ts| - 1], ph), ts[|ts| - 1], ph);
    }
  }

  lemma TickEndsInRange(s: State, t: Tick, ph: Physics)
    requires Wired(s.panel)
    ensures InRange(Advance(s, t, ph)) && Advance(s, t, ph).process.samples.ymeas == s.process.samples.ymeas
  {
    hide Acting, Stepped, Rates, Reaction, FlowsFrom, Fractions, Pressure, Level, PanelTick, SensorAt, Truth, DrawsAt, InputAt,
      CostOfPurge, Hours;
    forall k ensures var x := SensorAt(Advance(s, t, ph).panel, k); 0 <= x.mode <= 4 && x.severity >= 0.0 {
      SensorAfter(s, t, ph, k);
    }
  }
}
