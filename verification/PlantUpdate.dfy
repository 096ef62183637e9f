/** The simulator object, changed in place in the order of `TE::update`. */
module PlantUpdate {
  import opened Text
  import opened Plant

  method ApplySensorFault(truth: real, measured: real, bias: real, mode: int, severity: real, dt: real, now: nat, draw: real)
    returns (newMeasured: real, newBias: real)
    ensures newBias == if mode == DRIFT then bias + severity * dt else 0.0
    ensures newMeasured == Reported(truth, measured, newBias, mode, severity, now, draw)
  {
    newMeasured, newBias := measured, 0.0;
    if mode == FROZEN {
    } else if mode == DRIFT {
      newBias := bias + severity * dt;
      newMeasured := truth + newBias;
    } else if mode == NOISE {
      newMeasured := truth + UniformNoise(severity, draw);
    } else if mode == DROPOUT {
      newMeasured := if InDropoutPhase(now, severity) then 0.0 else truth;
    } else {
      newMeasured := truth;
    }
  }

  /** A stuck valve is frozen; any other slews. */
  method Slewed(v: Valve, sp: real, dt: real) returns (u: Valve)
    ensures u == Moved(v, sp, dt)
  {
    u := v;
    if !v.stuck {
      u := v.(pos := SlewLimit(v.pos, sp, v.slewRate, dt));
    }
  }

  lemma PriceAfter(p: Process, i: Inputs, now: nat, ph: Physics)
    ensures var q := ProcessTick(p, i, now, ph);
            q.samples.ymeas == p.samples.ymeas
            && q.cost == if q.flows.product <= 0.0 then p.cost else CostOfPurge(q.samples.ymeas, q.flows.purge, q.flows.product)
  {
    hide CostOfPurge;
  }

  lemma PanelIgnoresCost(s: Panel, i: PanelInputs, p: Process, cost: real, dt: real, draws: Draws)
    requires Wired(s)
    ensures PanelTick(s, i, p.(cost := cost), dt, draws) == PanelTick(s, i, p, dt, draws)
  {
    hide SensorTick;
  }

  class TE {
    var f1: Valve
    var f2: Valve
    var purge: Valve
    var product: Valve
    var eStop: bool
    var moles: Moles
    var rates: Moles
    var flows: Flows
    var pressure: real
    var liquidLevel: real
    var inPurge: Composition
    var kinetics: Kinetics
    const ya1: real
    const yb1: real
    var yc1: real
    const timeScale: real
    var current: nat
    var lastUpdate: nat
    var samples: Sampling
    var cost: real
    var tankPressure: Sensor
    var tankLevel: Sensor
    var f1Sensor: Sensor
    var f2Sensor: Sensor
    var purgeSensor: Sensor
    var productSensor: Sensor
    var analyzer: Sensor

    ghost function TrueState(): Process
      reads this
    {
      Process(f1, f2, purge, product, eStop, moles, rates, flows, pressure, liquidLevel,
              inPurge, kinetics, ya1, yb1, yc1, timeScale, current, lastUpdate, samples, cost)
    }

    ghost function Sensors(): Panel
      reads this
    {
      Panel(tankPressure, tankLevel, f1Sensor, f2Sensor, purgeSensor, productSensor, analyzer)
    }

    ghost function View(): State
      reads this
    {
      State(TrueState(), Sensors())
    }

    constructor (start: State)
      requires Wired(start.panel)
      ensures View() == start
    {
      var p, s := start.process, start.panel;
      f1, f2, purge, product, eStop := p.f1, p.f2, p.purge, p.product, p.eStop;
      moles, rates, inPurge, samples := p.moles, p.rates, p.inPurge, p.samples;
      flows := p.flows;
      pressure, liquidLevel, kinetics, ya1, yb1, yc1 := p.pressure, p.level, p.kinetics, p.ya1, p.yb1, p.yc1;
      timeScale, current, lastUpdate, cost := p.timeScale, p.current, p.lastUpdate, p.cost;
      tankPressure, tankLevel, f1Sensor, f2Sensor := s.tankPressure, s.tankLevel, s.f1Flow, s.f2Flow;
      purgeSensor, productSensor, analyzer := s.purgeFlow, s.productFlow, s.analyzer;
    }

    /** Fault inputs and positions of the valves, up to their new positions. */
    method MoveValves(i: Inputs, dt: real)
      modifies this`f1, this`f2, this`purge, this`product, this`eStop
      ensures eStop == Latched(old(eStop), i.eStop)
      ensures f1 == Acting(old(f1), i.f1, eStop, 0.0, dt) && f2 == Acting(old(f2), i.f2, eStop, 0.0, dt)
      ensures purge == Acting(old(purge), i.purge, eStop, 100.0, dt) && product == Acting(old(product), i.product, eStop, 100.0, dt)
    {
      hide Configured, Moved;
      var f1Sp, f2Sp, purgeSp, productSp := f1.pos, f2.pos, purge.pos, product.pos;
      if i.eStop.Some? {
        eStop := i.eStop.value != 0;
      }
      if eStop {
        f1Sp, f2Sp, purgeSp, productSp := 0.0, 0.0, 100.0, 100.0;
      } else {
        f1Sp, f2Sp := Given(i.f1.sp, f1Sp), Given(i.f2.sp, f2Sp);
        purgeSp, productSp := Given(i.purge.sp, purgeSp), Given(i.product.sp, productSp);
      }
      f1, f2 := Configured(f1, i.f1), Configured(f2, i.f2);
      purge, product := Configured(purge, i.purge), Configured(product, i.product);
      f1 := Slewed(f1, f1Sp, dt);
      f2 := Slewed(f2, f2Sp, dt);
      purge := Slewed(purge, purgeSp, dt);
      product := Slewed(product, productSp, dt);
    }

    /** The flows from the valve positions, the pressure and the level. */
    method Flow(ph: Physics)
      modifies this`flows
      ensures flows == FlowsFrom(f1, f2, purge, product, pressure, liquidLevel, ph)
    {
      var purgeFlow, productFlow;
      if pressure >= 100.0 {
        purgeFlow := CV.purge * purge.cvScale * purge.pos * ph.sqrt(pressure - 100.0);
        productFlow := CV.product * product.cvScale * product.pos * ph.sqrt(pressure - 100.0);
      } else {
        purgeFlow, productFlow := 0.0, 0.0;
      }
      if product.pos <= 0.0 {
        productFlow := 0.0;
      }
      if liquidLevel <= 0.0 {
        productFlow := 0.0;
      }
      flows := Flows(CV.f1 * f1.cvScale * f1.pos, CV.f2 * f2.cvScale * f2.pos, purgeFlow, productFlow);
    }

    /** One Euler step of the moles. */
    method React(dt: real, ph: Physics)
      modifies this`kinetics, this`rates, this`moles
      ensures kinetics == Defaulted(old(kinetics))
      ensures rates == Rates(ya1, yb1, yc1, flows, inPurge,
                             Reaction(inPurge, pressure, kinetics, ph))
      ensures moles == Stepped(old(moles), rates, dt)
    {
      hide Reaction, Rates, Stepped;
      if kinetics.kpar <= 0.0 {
        kinetics := kinetics.(kpar := 0.00117);
      }
      if kinetics.ncpar <= 0.0 {
        kinetics := kinetics.(ncpar := 0.4);
      }
      var reaction := Reaction(inPurge, pressure, kinetics, ph);
      rates := Rates(ya1, yb1, yc1, flows, inPurge, reaction);
      moles := Stepped(moles, rates, dt);
    }

    /** The clamps at the end of a tick. */
    method Clamp()
      modifies this`f1, this`f2, this`purge, this`product, this`liquidLevel, this`pressure, this`moles
      ensures f1 == Limited(old(f1)) && f2 == Limited(old(f2)) && purge == Limited(old(purge)) && product == Limited(old(product))
      ensures liquidLevel == Within(old(liquidLevel), 0.0, 100.0) && pressure == Within(old(pressure), 0.0, 3200.0)
      ensures moles == NonNegative(old(moles))
    {
      f1, f2 := f1.(pos := Max(Min(f1.pos, 100.0), 0.0)), f2.(pos := Max(Min(f2.pos, 100.0), 0.0));
      purge, product := purge.(pos := Max(Min(purge.pos, 100.0), 0.0)), product.(pos := Max(Min(product.pos, 100.0), 0.0));
      liquidLevel := Max(Min(liquidLevel, 100.0), 0.0);
      pressure := Max(Min(pressure, 3200.0), 0.0);
      f1, f2 := f1.(slewRate := Max(f1.slewRate, 0.0)), f2.(slewRate := Max(f2.slewRate, 0.0));
      purge, product := purge.(slewRate := Max(purge.slewRate, 0.0)), product.(slewRate := Max(product.slewRate, 0.0));
      f1, f2 := f1.(cvScale := Max(Min(f1.cvScale, 1.0), 0.0)), f2.(cvScale := Max(Min(f2.cvScale, 1.0), 0.0));
      purge := purge.(cvScale := Max(Min(purge.cvScale, 1.0), 0.0));
      product := product.(cvScale := Max(Min(product.cvScale, 1.0), 0.0));
      moles := Moles(Max(moles.a, 0.0), Max(moles.b, 0.0), Max(moles.c, 0.0), Max(moles.d, 0.0));
    }

    /** The part of a tick from the reaction to the clamps. */
    method ReactAndClamp(dt: real, ph: Physics)
      modifies this`kinetics, this`rates, this`moles, this`f1, this`f2, this`purge, this`product, this`liquidLevel, this`pressure
      ensures kinetics == Defaulted(old(kinetics))
      ensures rates == Rates(ya1, yb1, yc1, flows, inPurge,
                             Reaction(inPurge, old(pressure), kinetics, ph))
      ensures moles == NonNegative(Stepped(old(moles), rates, dt))
      ensures f1 == Limited(old(f1)) && f2 == Limited(old(f2)) && purge == Limited(old(purge)) && product == Limited(old(product))
      ensures liquidLevel == Within(old(liquidLevel), 0.0, 100.0) && pressure == Within(old(pressure), 0.0, 3200.0)
    {
      hide Reaction, Rates, Stepped, NonNegative, Limited, Within, Defaulted;
      React(dt, ph);
      Clamp();
    }

    method Measure(s: Sensor, i: SensorInput, truth: real, dt: real, draw: real) returns (r: Sensor)
      requires |s.measured| == 1
      ensures r == SensorTick(s, i, [truth], dt, current, [draw])
    {
      r := Tuned(s, i);
      var measured, bias := ApplySensorFault(truth, r.measured[0], r.bias, r.mode, r.severity, dt, current, draw);
      r := r.(measured := [measured], bias := bias);
    }

    /** The analyzer's three readings share one mode and one bias. */
    method MeasureAnalyzer(i: SensorInput, dt: real, draws: Draws)
      requires |analyzer.measured| == 3
      modifies this`analyzer
      ensures analyzer == SensorTick(old(analyzer), i, [inPurge.a, inPurge.b, inPurge.c], dt, current, [draws.a, draws.b, draws.c])
    {
      var t := Tuned(analyzer, i);
      var bias, m := 0.0, t.measured;
      if t.mode == FROZEN {
      } else if t.mode == DRIFT {
        bias := t.bias + t.severity * dt;
        m := [inPurge.a + bias, inPurge.b + bias, inPurge.c + bias];
      } else if t.mode == NOISE {
        m := [inPurge.a + UniformNoise(t.severity, draws.a), inPurge.b + UniformNoise(t.severity, draws.b),
              inPurge.c + UniformNoise(t.severity, draws.c)];
      } else if t.mode == DROPOUT {
        var dropped := InDropoutPhase(current, t.severity);
        m := if dropped then [0.0, 0.0, 0.0] else [inPurge.a, inPurge.b, inPurge.c];
      } else {
        m := [inPurge.a, inPurge.b, inPurge.c];
      }
      analyzer := t.(bias := bias, measured := m);
    }

    /** The part of a tick before the reaction: valves, pressure, flows, composition, sampling. */
    method UpdateFlows(i: Inputs, dt: real, ph: Physics)
      modifies this`f1, this`f2, this`purge, this`product, this`eStop, this`flows,
               this`pressure, this`liquidLevel, this`inPurge, this`yc1, this`samples
      ensures eStop == Latched(old(eStop), i.eStop)
      ensures f1 == Acting(old(f1), i.f1, eStop, 0.0, dt) && f2 == Acting(old(f2), i.f2, eStop, 0.0, dt)
      ensures purge == Acting(old(purge), i.purge, eStop, 100.0, dt) && product == Acting(old(product), i.product, eStop, 100.0, dt)
      ensures pressure == Pressure(moles, ph) && liquidLevel == Level(moles) && inPurge == Fractions(moles, ph)
      ensures flows == FlowsFrom(f1, f2, purge, product, pressure, liquidLevel, ph)
      ensures yc1 == 1.0 - ya1 - yb1
      ensures samples == Sampled(old(samples), inPurge, current)
    {
      hide Pressure, Level, Fractions, FlowsFrom, Acting;
      MoveValves(i, dt);
      yc1 := 1.0 - ya1 - yb1;
      pressure := Pressure(moles, ph);
      liquidLevel := Level(moles);
      Flow(ph);
      inPurge := Fractions(moles, ph);
      if current > samples.tpurge {
        samples := samples.(tpurge := samples.tpurge + SAMPLING_DELAY);
        samples := samples.(ylast := inPurge);
      }
    }

    /** The true process, apart from the cost. */
    method UpdateProcess(i: Inputs, now: nat, ph: Physics) returns (dt: real)
      modifies this`f1, this`f2, this`purge, this`product, this`eStop, this`moles, this`rates, this`flows,
               this`pressure, this`liquidLevel, this`inPurge, this`kinetics, this`yc1,
               this`current, this`lastUpdate, this`samples
      ensures TrueState() == ProcessTick(old(TrueState()), i, now, ph).(cost := cost)
      ensures dt == Hours(old(current), now, timeScale)
    {
      hide Hours, Pressure, Level, Fractions, FlowsFrom, Reaction, Rates, Stepped, NonNegative, Limited, Acting, Within,
        CostOfPurge, Latched, Defaulted, Sampled;
      lastUpdate, current := current, now;
      dt := Hours(lastUpdate, current, timeScale);
      UpdateFlows(i, dt, ph);
      ReactAndClamp(dt, ph);
    }

    method UpdatePanel(i: PanelInputs, dt: real, draws: Draws)
      requires Wired(Sensors())
      modifies this`tankPressure, this`tankLevel, this`f1Sensor, this`f2Sensor, this`purgeSensor, this`productSensor, this`analyzer
      ensures Sensors() == PanelTick(old(Sensors()), i, TrueState(), dt, draws)
    {
      hide SensorTick;
      tankPressure := Measure(tankPressure, i.tankPressure, pressure, dt, draws.tankPressure);
      tankLevel := Measure(tankLevel, i.tankLevel, liquidLevel, dt, draws.tankLevel);
      f1Sensor := Measure(f1Sensor, i.f1Flow, flows.f1, dt, draws.f1Flow);
      f2Sensor := Measure(f2Sensor, i.f2Flow, flows.f2, dt, draws.f2Flow);
      purgeSensor := Measure(purgeSensor, i.purgeFlow, flows.purge, dt, draws.purgeFlow);
      productSensor := Measure(productSensor, i.productFlow, flows.product, dt, draws.productFlow);
      MeasureAnalyzer(i.analyzer, dt, draws);
    }

    /** `TE::update`. */
    method Update(t: Tick, ph: Physics)
      requires Wired(Sensors())
      modifies this
      ensures View() == Advance(old(View()), t, ph)
    {
      hide PanelTick, ProcessTick, CostOfPurge, Hours;
      var dt := UpdateProcess(t.process, t.now, ph);
      UpdatePanel(t.panel, dt, t.draws);
      PriceAfter(old(TrueState()), t.process, t.now, ph);
      PanelIgnoresCost(old(Sensors()), t.panel, TrueState(), ProcessTick(old(TrueState()), t.process, t.now, ph).cost, dt, t.draws);
      if flows.product > 0.0 {
        cost := CostOfPurge(samples.ymeas, flows.purge, flows.product);
      }
    }

    /** Update after update. */
    method Simulate(ts: seq<Tick>, ph: Physics)
      requires Wired(Sensors())
      modifies this
      ensures View() == Run(old(View()), ts, ph)
    {
      hide Advance;
      for n := 0 to |ts|
        invariant Wired(Sensors()) && View() == Run(old(View()), ts[..n], ph)
      {
        assert ts[..n + 1][..n] == ts[..n];
        Update(ts[n], ph);
      }
      assert ts[..|ts|] == ts;
    }
  }
}
