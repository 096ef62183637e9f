/** The laws that a tick of the plant obeys: a balance for each species, and what fixes each flow and reading. */
module PlantLaws {
  import opened Plant
  import opened PlantTheorems

  // ---------- balances that the reaction A + C -> D leaves alone ----------

  /** B, A - C and A + D: moles, or moles per hour. */
  datatype Gains = Gains(b: real, ac: real, ad: real)

  function Held(m: Moles): Gains {
    Gains(m.b, m.a - m.c, m.a + m.d)
  }

  /** What is fed less what is purged and drawn off, when a tick leads from `p` to `q`. */
  function Fed(p: Process, q: Process): Gains {
    FedBy(p.ya1, p.yb1, q.flows, q.inPurge)
  }

  /** Feed 1 is A, B and C, feed 2 is A; the purge is vapor, and the product is D. */
  function FedBy(ya1: real, yb1: real, f: Flows, y: Composition): Gains {
    Gains(yb1 * f.f1 - y.b * f.purge,
          ya1 * f.f1 + f.f2 - (1.0 - ya1 - yb1) * f.f1 - f.purge * (y.a - y.c),
          ya1 * f.f1 + f.f2 - y.a * f.purge - f.product)
  }

  function Plus(g: Gains, h: Gains): Gains {
    Gains(g.b + h.b, g.ac + h.ac, g.ad + h.ad)
  }

  function Times(dt: real, g: Gains): Gains {
    Gains(dt * g.b, dt * g.ac, dt * g.ad)
  }

  lemma RatesBySpecies(ya1: real, yb1: real, f: Flows, y: Composition, reaction: real)
    ensures Held(Rates(ya1, yb1, 1.0 - ya1 - yb1, f, y, reaction)) == FedBy(ya1, yb1, f, y)
  {
    Distributes(f.purge, y.a, y.c);
  }

  lemma SteppedBySpecies(m: Moles, r: Moles, dt: real)
    ensures Held(Stepped(m, r, dt)) == Plus(Held(m), Times(dt, Held(r)))
  {
    Distributes(dt, r.a, r.c);
    Distributes(dt, r.a, r.d);
  }

  lemma Distributes(dt: real, x: real, y: real)
    ensures dt * (x - y) == x * dt - y * dt && dt * (x + y) == x * dt + y * dt
  {
  }

  lemma ClampBySpecies(u: Moles)
    ensures var held, due := Held(NonNegative(u)), Held(u);
            && held.b >= due.b && held.ad >= due.ad
            && (held.b == due.b <==> u.b >= 0.0) && (held.ad == due.ad <==> u.a >= 0.0 && u.d >= 0.0)
            && (u.a >= 0.0 && u.c >= 0.0 ==> held.ac == due.ac)
  {
  }

  lemma TickRates(p: Process, i: Inputs, now: nat, ph: Physics)
    ensures var q := ProcessTick(p, i, now, ph);
            Held(q.rates) == Fed(p, q) && q.moles == NonNegative(Unlimited(p, i, now, ph))
  {
    hide Stepped, NonNegative, FlowsFrom, Fractions, Pressure, Level, Acting, Reaction, Rates, FedBy, Held, Hours, CostOfPurge;
    var q := ProcessTick(p, i, now, ph);
    RatesBySpecies(p.ya1, p.yb1, q.flows, q.inPurge, Reaction(q.inPurge, Pressure(p.moles, ph), q.kinetics, ph));
  }

  /**
   One tick, whatever the reaction does: B, A - C and A + D change by what is fed less what is purged and
   drawn off, unless a mole count is clamped at zero; a clamp can only add to B and to A + D.
   */
  lemma SpeciesBalance(p: Process, i: Inputs, now: nat, ph: Physics)
    ensures var q := ProcessTick(p, i, now, ph); var u := Unlimited(p, i, now, ph);
            var due := Plus(Held(p.moles), Times(Hours(p.current, now, p.timeScale), Fed(p, q))); var held := Held(q.moles);
            && held.b >= due.b && held.ad >= due.ad
            && (held.b == due.b <==> u.b >= 0.0) && (held.ad == due.ad <==> u.a >= 0.0 && u.d >= 0.0)
            && (u.a >= 0.0 && u.c >= 0.0 ==> held.ac == due.ac)
  {
    hide ProcessTick, Hours, Fed, Stepped, NonNegative, Held, Plus, Times;
    TickRates(p, i, now, ph);
    ClampBySpecies(Unlimited(p, i, now, ph));
    SteppedBySpecies(p.moles, ProcessTick(p, i, now, ph).rates, Hours(p.current, now, p.timeScale));
  }

  /** The balances of a run: the sum over its ticks. */
  function FedOver(p: Process, ts: seq<Tick>, ph: Physics): Gains {
    if ts == [] then Gains(0.0, 0.0, 0.0)
    else
      var before := ProcessAfter(p, ts[..|ts| - 1], ph);
      Plus(FedOver(p, ts[..|ts| - 1], ph), Times(Elapsed(before, ts[|ts| - 1]), Fed(before, ProcessAfter(p, ts, ph))))
  }

  /** The balances telescope over any run, and are exact if no mole count is clamped in any tick. */
  lemma {:induction false} SpeciesOverRun(p: Process, ts: seq<Tick>, ph: Physics)
    ensures var held, start, fed := Held(ProcessAfter(p, ts, ph).moles), Held(p.moles), FedOver(p, ts, ph);
            && held.b - start.b >= fed.b && held.ad - start.ad >= fed.ad
            && ((forall n | 0 <= n < |ts| :: FreeAt(p, ts, ph, n)) ==>
                  held.b - start.b == fed.b && held.ac - start.ac == fed.ac && held.ad - start.ad == fed.ad)
  {
    hide ProcessTick, Unlimited, Fed, Hours, Held, Times;
    if ts != [] {
      var k := |ts| - 1;
      var init := ts[..k];
      Prefixes(ts);
      SpeciesOverRun(p, init, ph);
      SpeciesBalance(ProcessAfter(p, init, ph), ts[k].process, ts[k].now, ph);
      forall n | 0 <= n < k ensures FreeAt(p, init, ph, n) == FreeAt(p, ts, ph, n) {
        assert ts[..k][..n] == ts[..n];
      }
      if forall n | 0 <= n < |ts| :: FreeAt(p, ts, ph, n) {
        assert FreeAt(p, ts, ph, k);
        assert forall n | 0 <= n < k :: FreeAt(p, init, ph, n);
      }
    }
  }

  // ---------- what a tick is made of ----------

  lemma QuotTimes(ph: Physics, a: real, b: real)
    requires b != 0.0
    ensures Quot(ph, a, b) * b == a
  {
  }

  /** Hours of simulated time, times the microseconds of an hour, are microseconds times the time scale. */
  lemma ClockIs(from: nat, to: nat, timeScale: real)
    ensures Hours(from, to, timeScale) * 3600000000.0 == (to - from) as real * timeScale
  {
  }

  /** The gas law, and the composition of the vapor. */
  lemma GasLaw(p: Process, i: Inputs, now: nat, ph: Physics)
    requires p.moles.d != 1012.6
    ensures var q := ProcessTick(p, i, now, ph); var vapor := p.moles.a + p.moles.b + p.moles.c;
            && (exists pressure :: q.pressure == Within(pressure, 0.0, 3200.0)
                                   && pressure * (122.0 - p.moles.d / 8.3) == vapor * 8.314 * 373.0)
            && (vapor != 0.0 ==> q.inPurge.a * vapor == p.moles.a && q.inPurge.b * vapor == p.moles.b && q.inPurge.c * vapor == p.moles.c)
  {
    hide Quot, Stepped, NonNegative, FlowsFrom, Level, Acting, Reaction, Rates, Hours, CostOfPurge;
    var vapor := p.moles.a + p.moles.b + p.moles.c;
    QuotTimes(ph, vapor * 8.314 * 373.0, 122.0 - p.moles.d / 8.3);
    assert ProcessTick(p, i, now, ph).pressure == Within(Pressure(p.moles, ph), 0.0, 3200.0);
    if vapor != 0.0 {
      QuotTimes(ph, p.moles.a, vapor);
      QuotTimes(ph, p.moles.b, vapor);
      QuotTimes(ph, p.moles.c, vapor);
    }
  }

  /** The level is the share of the liquid's volume in 30 cubic metres, in percent, held between 0 and 100. */
  lemma LevelIs(p: Process, i: Inputs, now: nat, ph: Physics)
    ensures var q := ProcessTick(p, i, now, ph);
            && (0.0 <= p.moles.d <= 249.0 ==> q.level * 8.3 * 30.0 == p.moles.d * 100.0)
            && (p.moles.d < 0.0 ==> q.level == 0.0) && (p.moles.d > 249.0 ==> q.level == 100.0)
  {
    hide Pressure, Fractions, Stepped, NonNegative, FlowsFrom, Acting, Reaction, Rates, Hours, CostOfPurge;
    assert ProcessTick(p, i, now, ph).level == Within(Level(p.moles), 0.0, 100.0);
  }

  /**
   Each flow goes through its own valve: the feeds in proportion to opening and Cv; purge and product in
   proportion to the root of the pressure above 100 kPa, and not at all below; no product from an empty tank.
   */
  lemma FlowsAre(p: Process, i: Inputs, now: nat, ph: Physics)
    ensures var q := ProcessTick(p, i, now, ph); var dt := Hours(p.current, now, p.timeScale);
            var f1, f2 := Acting(p.f1, i.f1, q.eStop, 0.0, dt), Acting(p.f2, i.f2, q.eStop, 0.0, dt);
            var purge, product := Acting(p.purge, i.purge, q.eStop, 100.0, dt), Acting(p.product, i.product, q.eStop, 100.0, dt);
            var pressure := Pressure(p.moles, ph);
            && q.flows.f1 == 6.4046 * f1.cvScale * f1.pos && q.flows.f2 == 0.4246 * f2.cvScale * f2.pos
            && (pressure < 100.0 ==> q.flows.purge == 0.0 && q.flows.product == 0.0)
            && (p.moles.d <= 0.0 || product.pos <= 0.0 ==> q.flows.product == 0.0)
            && (pressure >= 100.0 ==> q.flows.purge == 0.352 * purge.cvScale * purge.pos * ph.sqrt(pressure - 100.0))
            && (pressure >= 100.0 && p.moles.d > 0.0 && product.pos > 0.0 ==>
                  q.flows.product == 0.0417 * product.cvScale * product.pos * ph.sqrt(pressure - 100.0))
            && Limited(f1) == q.f1 && Limited(f2) == q.f2 && Limited(purge) == q.purge && Limited(product) == q.product
  {
    hide Pressure, Fractions, Stepped, NonNegative, Acting, Reaction, Rates, Hours, CostOfPurge, Limited;
    LevelSign(p.moles);
  }

  lemma LevelSign(m: Moles)
    ensures Level(m) > 0.0 <==> m.d > 0.0
  {
  }

  /**
   D forms at the reaction's rate, in powers of the partial pressures of A and C; a constant that is not
   positive is replaced.
   */
  lemma ReactionIs(p: Process, i: Inputs, now: nat, ph: Physics, a: real, c: real)
    requires var q := ProcessTick(p, i, now, ph); var pressure := Pressure(p.moles, ph);
             a == ph.pow(Partial(q.inPurge.a, pressure), 1.2) && c == ph.pow(Partial(q.inPurge.c, pressure), q.kinetics.ncpar)
    ensures var q := ProcessTick(p, i, now, ph);
            && q.rates.d + q.flows.product == q.kinetics.kpar * a * c
            && q.kinetics.kpar == (if p.kinetics.kpar > 0.0 then p.kinetics.kpar else 0.00117)
            && q.kinetics.ncpar == (if p.kinetics.ncpar > 0.0 then p.kinetics.ncpar else 0.4)
  {
    hide Pressure, Fractions, Stepped, NonNegative, FlowsFrom, Acting, Hours, CostOfPurge, Level, Rates, Reaction, RateOf, Limited,
         Power, Partial;
    var q := ProcessTick(p, i, now, ph);
    ReactionOf(q.inPurge, Pressure(p.moles, ph), q.kinetics, ph);
    FormsD(p.ya1, p.yb1, q.yc1, q.flows, q.inPurge, Reaction(q.inPurge, Pressure(p.moles, ph), q.kinetics, ph));
    RateIs(q.kinetics.kpar, a, c);
    PowerIs(ph, Partial(q.inPurge.a, Pressure(p.moles, ph)), 1.2);
    PowerIs(ph, Partial(q.inPurge.c, Pressure(p.moles, ph)), q.kinetics.ncpar);
  }

  lemma PowerIs(ph: Physics, x: real, y: real)
    ensures Power(ph, x, y) == ph.pow(x, y)
  {
  }

  /** A partial pressure is a mole fraction of the pressure; the partial pressures of a mixture add up to it. */
  lemma PartialsAddUp(y: Composition, pressure: real)
    requires y.a + y.b + y.c == 1.0
    ensures Partial(y.a, pressure) + Partial(y.b, pressure) + Partial(y.c, pressure) == pressure
  {
    Share(y.a, y.b, y.c, pressure);
  }

  lemma ReactionOf(y: Composition, pressure: real, k: Kinetics, ph: Physics)
    ensures Reaction(y, pressure, k, ph)
         == RateOf(k.kpar, Power(ph, Partial(y.a, pressure), 1.2), Power(ph, Partial(y.c, pressure), k.ncpar))
  {
    hide Power, Partial, RateOf;
  }

  lemma RateIs(kpar: real, a: real, c: real)
    ensures RateOf(kpar, a, c) == kpar * a * c
  {
  }

  lemma FormsD(ya1: real, yb1: real, yc1: real, f: Flows, y: Composition, reaction: real)
    ensures Rates(ya1, yb1, yc1, f, y, reaction).d + f.product == reaction
  {
  }

  /** What is purged, at 2.206 for A and 6.177 for C, per mole of product; held while nothing is drawn off. */
  lemma CostIs(p: Process, i: Inputs, now: nat, ph: Physics)
    ensures var q := ProcessTick(p, i, now, ph); var y := p.samples.ymeas;
            && (q.flows.product <= 0.0 ==> q.cost == p.cost)
            && (q.flows.product > 0.0 ==> q.cost * q.flows.product == q.flows.purge * (y.a * 2.206 + y.c * 6.177))
  {
    hide Pressure, Fractions, Stepped, NonNegative, FlowsFrom, Acting, Hours, Level, Reaction, Rates, Sampled, Limited;
    var q := ProcessTick(p, i, now, ph);
    if q.flows.product > 0.0 {
      CostTimes(p.samples.ymeas, q.flows.purge, q.flows.product);
    }
  }

  lemma CostTimes(y: Composition, purge: real, product: real)
    requires product > 0.0
    ensures CostOfPurge(y, purge, product) * product == purge * (y.a * 2.206 + y.c * 6.177)
  {
  }
}
