/** One tick of the plant simulator over real numbers: the true process, and what its sensors report. */
module Plant {
  import opened Text

  /** The library functions, and division by zero: any values will do. */
  datatype Physics = Physics(pow: (real, real) -> real, sqrt: real -> real, byZero: real -> real)

  function Quot(ph: Physics, a: real, b: real): real {
    if b == 0.0 then ph.byZero(a) else a / b
  }

  function Power(ph: Physics, x: real, y: real): real {
    ph.pow(x, y)
  }

  function Max(a: real, b: real): real {
    if a < b then b else a
  }

  function Min(a: real, b: real): real {
    if b < a then b else a
  }

  function Within(x: real, low: real, high: real): (y: real)
    requires low <= high
    ensures low <= y <= high && (low <= x <= high ==> y == x)
  {
    Max(Min(x, high), low)
  }

  function Given<T>(x: Option<T>, default: T): T {
    if x.Some? then x.value else default
  }

  // ---------- valves ----------

  datatype Valve = Valve(pos: real, slewRate: real, cvScale: real, stuck: bool)

  datatype ValveInput = ValveInput(sp: Option<real>, slewRate: Option<real>, cvScale: Option<real>, stuck: Option<int>)

  function SlewLimit(pos: real, sp: real, rate: real, dt: real): real {
    if rate <= 0.0 then sp
    else if sp - pos > rate * dt then pos + rate * dt
    else if sp - pos < -(rate * dt) then pos - rate * dt
    else sp
  }

  function SetPoint(v: Valve, i: ValveInput, eStop: bool, safe: real): real {
    if eStop then safe else Given(i.sp, v.pos)
  }

  function Configured(v: Valve, i: ValveInput): Valve {
    Valve(v.pos, Given(i.slewRate, v.slewRate), Given(i.cvScale, v.cvScale), if i.stuck.Some? then i.stuck.value != 0 else v.stuck)
  }

  function Moved(v: Valve, sp: real, dt: real): Valve {
    if v.stuck then v else v.(pos := SlewLimit(v.pos, sp, v.slewRate, dt))
  }

  function Limited(v: Valve): Valve {
    Valve(Within(v.pos, 0.0, 100.0), Max(v.slewRate, 0.0), Within(v.cvScale, 0.0, 1.0), v.stuck)
  }

  /** A valve while the flows are computed. */
  function Acting(v: Valve, i: ValveInput, eStop: bool, safe: real, dt: real): Valve {
    Moved(Configured(v, i), SetPoint(v, i, eStop, safe), dt)
  }

  // ---------- the true process ----------

  datatype Moles = Moles(a: real, b: real, c: real, d: real)

  datatype Flows = Flows(f1: real, f2: real, purge: real, product: real)

  datatype Composition = Composition(a: real, b: real, c: real)

  /** The constants of the reaction rate; a value that is not positive stands for the default. */
  datatype Kinetics = Kinetics(kpar: real, ncpar: real)

  function Defaulted(k: Kinetics): Kinetics {
    Kinetics(if k.kpar <= 0.0 then 0.00117 else k.kpar, if k.ncpar <= 0.0 then 0.4 else k.ncpar)
  }

  /** The delayed composition samples: when the next is due, what the cost is priced by, the last one taken. */
  datatype Sampling = Sampling(tpurge: int, ymeas: Composition, ylast: Composition)

  /** The loop that would copy `ylast` to `ymeas` never runs. */
  function Sampled(s: Sampling, y: Composition, now: int): Sampling {
    if now > s.tpurge then Sampling(s.tpurge + SAMPLING_DELAY, s.ymeas, y) else s
  }

  datatype Process = Process(f1: Valve, f2: Valve, purge: Valve, product: Valve, eStop: bool, moles: Moles, rates: Moles,
                             flows: Flows, pressure: real, level: real, inPurge: Composition, kinetics: Kinetics,
                             ya1: real, yb1: real, yc1: real, timeScale: real, current: nat, lastUpdate: nat,
                             samples: Sampling, cost: real)

  datatype Inputs = Inputs(eStop: Option<int>, f1: ValveInput, f2: ValveInput, purge: ValveInput, product: ValveInput)

  const CV := Flows(6.4046, 0.4246, 0.352, 0.0417)
  const VT := 122.0
  const VLMAX := 30.0
  const RGAS := 8.314
  const TGAS := 373.0
  const LDEN := 8.3

  /** 0.1 h in microseconds. */
  const SAMPLING_DELAY := 360_000_000

  /** Microseconds between two readings of the clock, in hours of simulated time. */
  function Hours(from: nat, to: nat, timeScale: real): real {
    (to - from) as real / 1000000.0 / 60.0 / 60.0 * timeScale
  }

  function Vapor(m: Moles): real {
    m.a + m.b + m.c
  }

  function Pressure(m: Moles, ph: Physics): real {
    Quot(ph, Vapor(m) * RGAS * TGAS, VT - m.d / LDEN)
  }

  function Level(m: Moles): real {
    m.d / LDEN * 100.0 / VLMAX
  }

  function FlowsFrom(f1: Valve, f2: Valve, purge: Valve, product: Valve, pressure: real, level: real, ph: Physics): Flows {
    Flows(CV.f1 * f1.cvScale * f1.pos, CV.f2 * f2.cvScale * f2.pos,
          if pressure >= 100.0 then CV.purge * purge.cvScale * purge.pos * ph.sqrt(pressure - 100.0) else 0.0,
          if pressure >= 100.0 && product.pos > 0.0 && level > 0.0 then
            CV.product * product.cvScale * product.pos * ph.sqrt(pressure - 100.0)
          else 0.0)
  }

  function Fractions(m: Moles, ph: Physics): Composition {
    Composition(Quot(ph, m.a, Vapor(m)), Quot(ph, m.b, Vapor(m)), Quot(ph, m.c, Vapor(m)))
  }

  /** The partial pressure of a species. */
  function Partial(fraction: real, pressure: real): real {
    fraction * pressure
  }

  function RateOf(kpar: real, a: real, c: real): real {
    kpar * a * c
  }

  /** The reaction rate, before any clamp of the pressure. */
  function Reaction(y: Composition, pressure: real, k: Kinetics, ph: Physics): real {
    RateOf(k.kpar, Power(ph, Partial(y.a, pressure), 1.2), Power(ph, Partial(y.c, pressure), k.ncpar))
  }

  function Rates(ya1: real, yb1: real, yc1: real, f: Flows, y: Composition, reaction: real): Moles {
    Moles(ya1 * f.f1 + f.f2 - y.a * f.purge - reaction, yb1 * f.f1 - y.b * f.purge, yc1 * f.f1 - y.c * f.purge - reaction,
          reaction - f.product)
  }

  function Stepped(m: Moles, r: Moles, dt: real): Moles {
    Moles(m.a + r.a * dt, m.b + r.b * dt, m.c + r.c * dt, m.d + r.d * dt)
  }

  function NonNegative(m: Moles): Moles {
    Moles(Max(m.a, 0.0), Max(m.b, 0.0), Max(m.c, 0.0), Max(m.d, 0.0))
  }

  /** The value of what is purged per mole of product, priced by the delayed samples. */
  function CostOfPurge(ymeas: Composition, purge: real, product: real): real
    requires product > 0.0
  {
    purge * (ymeas.a * 2.206 + ymeas.c * 6.177) / product
  }

  function Latched(eStop: bool, i: Option<int>): bool {
    if i.Some? then i.value != 0 else eStop
  }

  /** What `TE::update` does to the true process. */
  function ProcessTick(p: Process, i: Inputs, now: nat, ph: Physics): Process {
    var eStop := Latched(p.eStop, i.eStop);
    var dt := Hours(p.current, now, p.timeScale);
    var f1, f2 := Acting(p.f1, i.f1, eStop, 0.0, dt), Acting(p.f2, i.f2, eStop, 0.0, dt);
    var purge, product := Acting(p.purge, i.purge, eStop, 100.0, dt), Acting(p.product, i.product, eStop, 100.0, dt);
    var pressure, level, y := Pressure(p.moles, ph), Level(p.moles), Fractions(p.moles, ph);
    var flows := FlowsFrom(f1, f2, purge, product, pressure, level, ph);
    var kinetics := Defaulted(p.kinetics);
    var yc1 := 1.0 - p.ya1 - p.yb1;
    var rates := Rates(p.ya1, p.yb1, yc1, flows, y, Reaction(y, pressure, kinetics, ph));
    Process(Limited(f1), Limited(f2), Limited(purge), Limited(product), eStop,
            NonNegative(Stepped(p.moles, rates, dt)), rates, flows, Within(pressure, 0.0, 3200.0), Within(level, 0.0, 100.0), y,
            kinetics, p.ya1, p.yb1, yc1, p.timeScale, now, p.current, Sampled(p.samples, y, now),
            if flows.product <= 0.0 then p.cost
            else CostOfPurge(p.samples.ymeas, flows.purge, flows.product))
  }

  // ---------- sensors ----------

  datatype SensorInput = SensorInput(mode: Option<int>, severity: Option<real>)

  /** A sensor of one value; the analyzer reports three values with one mode and one bias. */
  datatype Sensor = Sensor(mode: int, severity: real, bias: real, measured: seq<real>)

  const FROZEN := 1
  const DRIFT := 2
  const NOISE := 3
  const DROPOUT := 4

  /** A uniform value in [-amplitude, amplitude]; `draw` is the random number in [0, 1]. */
  function UniformNoise(amplitude: real, draw: real): real {
    if amplitude <= 0.0 then 0.0 else (draw * 2.0 - 1.0) * amplitude
  }

  /** In the first `duty` part of each period of ten seconds. */
  predicate InDropoutPhase(now: nat, duty: real) {
    duty > 0.0 && (now % 10_000_000) as real / 10_000_000.0 < duty
  }

  function Bias(s: Sensor, dt: real): real {
    if s.mode == DRIFT then s.bias + s.severity * dt else 0.0
  }

  function Reported(truth: real, measured: real, bias: real, mode: int, severity: real, now: nat, draw: real): real {
    if mode == FROZEN then measured
    else if mode == DRIFT then truth + bias
    else if mode == NOISE then truth + UniformNoise(severity, draw)
    else if mode == DROPOUT then (if InDropoutPhase(now, severity) then 0.0 else truth)
    else truth
  }

  function Tuned(s: Sensor, i: SensorInput): Sensor {
    var mode := Given(i.mode, s.mode);
    s.(mode := if mode < 0 then 0 else if mode > 4 then 4 else mode, severity := Max(Given(i.severity, s.severity), 0.0))
  }

  function SensorTick(s: Sensor, i: SensorInput, truth: seq<real>, dt: real, now: nat, draws: seq<real>): Sensor
    requires |s.measured| == |truth| == |draws|
  {
    var t := Tuned(s, i);
    var bias := Bias(t, dt);
    t.(bias := bias,
       measured := seq(|truth|, k requires 0 <= k < |truth| =>
                         Reported(truth[k], t.measured[k], bias, t.mode, t.severity, now, draws[k])))
  }

  datatype Panel = Panel(tankPressure: Sensor, tankLevel: Sensor, f1Flow: Sensor, f2Flow: Sensor, purgeFlow: Sensor,
                         productFlow: Sensor, analyzer: Sensor)

  datatype PanelInputs = PanelInputs(tankPressure: SensorInput, tankLevel: SensorInput, f1Flow: SensorInput, f2Flow: SensorInput,
                                     purgeFlow: SensorInput, productFlow: SensorInput, analyzer: SensorInput)

  /** The random numbers of one tick. */
  datatype Draws = Draws(tankPressure: real, tankLevel: real, f1Flow: real, f2Flow: real, purgeFlow: real, productFlow: real,
                         a: real, b: real, c: real)

  predicate Wired(s: Panel) {
    |s.tankPressure.measured| == 1 && |s.tankLevel.measured| == 1 && |s.f1Flow.measured| == 1 && |s.f2Flow.measured| == 1
    && |s.purgeFlow.measured| == 1 && |s.productFlow.measured| == 1 && |s.analyzer.measured| == 3
  }

  function PanelTick(s: Panel, i: PanelInputs, p: Process, dt: real, draws: Draws): (r: Panel)
    requires Wired(s)
    ensures Wired(r)
  {
    Panel(SensorTick(s.tankPressure, i.tankPressure, [p.pressure], dt, p.current, [draws.tankPressure]),
          SensorTick(s.tankLevel, i.tankLevel, [p.level], dt, p.current, [draws.tankLevel]),
          SensorTick(s.f1Flow, i.f1Flow, [p.flows.f1], dt, p.current, [draws.f1Flow]),
          SensorTick(s.f2Flow, i.f2Flow, [p.flows.f2], dt, p.current, [draws.f2Flow]),
          SensorTick(s.purgeFlow, i.purgeFlow, [p.flows.purge], dt, p.current, [draws.purgeFlow]),
          SensorTick(s.productFlow, i.productFlow, [p.flows.product], dt, p.current, [draws.productFlow]),
          SensorTick(s.analyzer, i.analyzer, [p.inPurge.a, p.inPurge.b, p.inPurge.c], dt, p.current, [draws.a, draws.b, draws.c]))
  }

  // ---------- a tick of everything ----------

  datatype Tick = Tick(now: nat, process: Inputs, panel: PanelInputs, draws: Draws)

  datatype State = State(process: Process, panel: Panel)

  function Advance(s: State, t: Tick, ph: Physics): (r: State)
    requires Wired(s.panel)
    ensures Wired(r.panel)
  {
    var p := ProcessTick(s.process, t.process, t.now, ph);
    State(p, PanelTick(s.panel, t.panel, p, Hours(s.process.current, t.now, s.process.timeScale), t.draws))
  }

  function Run(s: State, ts: seq<Tick>, ph: Physics): (r: State)
    requires Wired(s.panel)
    ensures Wired(r.panel)
  {
    if ts == [] then s else Advance(Run(s, ts[..|ts| - 1], ph), ts[|ts| - 1], ph)
  }
}
