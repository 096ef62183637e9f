/** Runs of the plant: conservation, valves, and sensors that cannot reach the process. */
module PlantTheorems {
  import opened Plant

  /** The true process after some ticks. */
  function ProcessAfter(p: Process, ts: seq<Tick>, ph: Physics): Process {
    if ts == [] then p
    else
      var last := ts[|ts| - 1];
      ProcessTick(ProcessAfter(p, ts[..|ts| - 1], ph), last.process, last.now, ph)
  }

  /** Prefixes of a run without its last tick are prefixes of the run. */
  lemma Prefixes<T>(ts: seq<T>)
    requires ts != []
    ensures forall n | 0 <= n < |ts| :: ts[..|ts| - 1][..n] == ts[..n]
    ensures ts[..|ts|] == ts
  {
  }

  // ---------- sensors do not reach the process ----------

  lemma {:induction false} RunProcess(s: State, ts: seq<Tick>, ph: Physics)
    requires Wired(s.panel)
    ensures Run(s, ts, ph).process == ProcessAfter(s.process, ts, ph)
  {
    hide ProcessTick, PanelTick, Wired;
    if ts != [] { RunProcess(s, ts[..|ts| - 1], ph); }
  }

  /** The same clocks, valve inputs and e-stop inputs. */
  predicate SameDriving(ts: seq<Tick>, us: seq<Tick>) {
    |ts| == |us| && forall n | 0 <= n < |ts| :: ts[n].now == us[n].now && ts[n].process == us[n].process
  }

  /** Two runs that differ only in their sensors, sensor faults and noise have the same true trajectory. */
  lemma {:induction false} SensorsNeverTouchPlant(s: State, t: State, ts: seq<Tick>, us: seq<Tick>, ph: Physics)
    requires Wired(s.panel) && Wired(t.panel) && s.process == t.process && SameDriving(ts, us)
    ensures forall n | 0 <= n <= |ts| :: Run(s, ts[..n], ph).process == Run(t, us[..n], ph).process
  {
    hide ProcessTick, PanelTick, Run, ProcessAfter;
    forall n | 0 <= n <= |ts| ensures Run(s, ts[..n], ph).process == Run(t, us[..n], ph).process {
      RunProcess(s, ts[..n], ph);
      RunProcess(t, us[..n], ph);
      SameProcess(s.process, ts[..n], us[..n], ph);
    }
  }

  lemma {:induction false} SameProcess(p: Process, ts: seq<Tick>, us: seq<Tick>, ph: Physics)
    requires SameDriving(ts, us)
    ensures ProcessAfter(p, ts, ph) == ProcessAfter(p, us, ph)
  {
    hide ProcessTick;
    if ts != [] { SameProcess(p, ts[..|ts| - 1], us[..|us| - 1], ph); }
  }

  // ---------- mole balance ----------

  /** A + B + C + 2 D: what the reaction A + C -> D cannot change. */
  function Total(m: Moles): real {
    m.a + m.b + m.c + 2.0 * m.d
  }

  /** What flows in less what flows out, in the same unit, per hour. */
  function Net(f: Flows): real {
    f.f1 + f.f2 - f.purge - 2.0 * f.product
  }

  /** No mole count would become negative. */
  predicate Unclamped(m: Moles) {
    m.a >= 0.0 && m.b >= 0.0 && m.c >= 0.0 && m.d >= 0.0
  }

  function Elapsed(p: Process, t: Tick): real {
    Hours(p.current, t.now, p.timeScale)
  }

  lemma ClampOnlyAdds(m: Moles)
    ensures Total(NonNegative(m)) >= Total(m)
    ensures Total(NonNegative(m)) == Total(m) <==> Unclamped(m)
  {
  }

  lemma FractionsAddUp(m: Moles, ph: Physics)
    requires Vapor(m) != 0.0
    ensures var y := Fractions(m, ph); y.a + y.b + y.c == 1.0
  {
    var n := Vapor(m);
    assert m.a / n + m.b / n + m.c / n == (m.a + m.b + m.c) / n;
  }

  lemma Share(ya: real, yb: real, yc: real, f: real)
    requires ya + yb + yc == 1.0
    ensures ya * f + yb * f + yc * f == f
  {
    assert ya * f + yb * f + yc * f == (ya + yb + yc) * f;
  }

  lemma RatesBalance(ya1: real, yb1: real, f: Flows, y: Composition, reaction: real)
    requires y.a + y.b + y.c == 1.0
    ensures Total(Rates(ya1, yb1, 1.0 - ya1 - yb1, f, y, reaction)) == Net(f)
  {
    Share(ya1, yb1, 1.0 - ya1 - yb1, f.f1);
    Share(y.a, y.b, y.c, f.purge);
  }

  lemma StepBalance(m: Moles, r: Moles, dt: real)
    ensures Total(Stepped(m, r, dt)) == Total(m) + dt * Total(r)
  {
    assert r.a * dt + r.b * dt + r.c * dt + 2.0 * (r.d * dt) == dt * (r.a + r.b + r.c + 2.0 * r.d);
  }

  /** What the moles would be before the clamp. */
  function Unlimited(p: Process, i: Inputs, now: nat, ph: Physics): Moles {
    Stepped(p.moles, ProcessTick(p, i, now, ph).rates, Hours(p.current, now, p.timeScale))
  }

  lemma TickMoles(p: Process, i: Inputs, now: nat, ph: Physics)
    requires Vapor(p.moles) != 0.0
    ensures var q := ProcessTick(p, i, now, ph);
            q.moles == NonNegative(Unlimited(p, i, now, ph)) && Total(q.rates) == Net(q.flows)
  {
    hide Stepped, NonNegative, FlowsFrom, Fractions, Pressure, Level, Acting, Reaction, Rates, Total, Net, Vapor, CostOfPurge;
    FractionsAddUp(p.moles, ph);
    var q := ProcessTick(p, i, now, ph);
    RatesBalance(p.ya1, p.yb1, q.flows, q.inPurge, Reaction(q.inPurge, Pressure(p.moles, ph), q.kinetics, ph));
  }

  /**
   One tick: the total changes by at least what flows in less what flows out, whatever the reaction
   does; by exactly that if and only if no clamp of a mole count fires.
   */
  lemma Balance(p: Process, i: Inputs, now: nat, ph: Physics)
    requires Vapor(p.moles) != 0.0
    ensures var q := ProcessTick(p, i, now, ph); var due := Hours(p.current, now, p.timeScale) * Net(q.flows);
            && Total(q.moles) - Total(p.moles) >= due
            && (Total(q.moles) - Total(p.moles) == due <==> Unclamped(Unlimited(p, i, now, ph)))
  {
    hide ProcessTick, Stepped, NonNegative, Total, Net, Vapor, Hours, Unclamped;
    TickMoles(p, i, now, ph);
    ClampOnlyAdds(Unlimited(p, i, now, ph));
    StepBalance(p.moles, ProcessTick(p, i, now, ph).rates, Hours(p.current, now, p.timeScale));
  }

  /** What a run supplies: the sum over its ticks. */
  function Supplied(p: Process, ts: seq<Tick>, ph: Physics): real {
    if ts == [] then 0.0
    else
      var before := ProcessAfter(p, ts[..|ts| - 1], ph);
      Supplied(p, ts[..|ts| - 1], ph) + Elapsed(before, ts[|ts| - 1]) * Net(ProcessAfter(p, ts, ph).flows)
  }

  predicate HasVapor(p: Process, ts: seq<Tick>, ph: Physics) {
    forall n | 0 <= n < |ts| :: Vapor(ProcessAfter(p, ts[..n], ph).moles) != 0.0
  }

  lemma VaporBefore(p: Process, ts: seq<Tick>, ph: Physics)
    requires ts != [] && HasVapor(p, ts, ph)
    ensures HasVapor(p, ts[..|ts| - 1], ph) && Vapor(ProcessAfter(p, ts[..|ts| - 1], ph).moles) != 0.0
  {
    hide ProcessAfter, Vapor;
    var k := |ts| - 1;
    forall n | 0 <= n < k ensures Vapor(ProcessAfter(p, ts[..k][..n], ph).moles) != 0.0 {
      assert ts[..k][..n] == ts[..n];
    }
  }

  /** No clamp fires at the n-th tick. */
  predicate FreeAt(p: Process, ts: seq<Tick>, ph: Physics, n: nat)
    requires n < |ts|
  {
    Unclamped(Unlimited(ProcessAfter(p, ts[..n], ph), ts[n].process, ts[n].now, ph))
  }

  /** The balance telescopes over any run; it is exact if and only if no clamp fires in any tick. */
  lemma {:induction false} BalanceOverRun(p: Process, ts: seq<Tick>, ph: Physics)
    requires HasVapor(p, ts, ph)
    ensures var gained := Total(ProcessAfter(p, ts, ph).moles) - Total(p.moles);
            && gained >= Supplied(p, ts, ph)
            && (gained == Supplied(p, ts, ph) <==> forall n | 0 <= n < |ts| :: FreeAt(p, ts, ph, n))
  {
    hide ProcessTick, Unlimited, Unclamped, Net, Total, Vapor, Hours, HasVapor;
    if ts != [] {
      var k := |ts| - 1;
      var init := ts[..k];
      Prefixes(ts);
      VaporBefore(p, ts, ph);
      BalanceOverRun(p, init, ph);
      Balance(ProcessAfter(p, init, ph), ts[k].process, ts[k].now, ph);
      forall n | 0 <= n < k ensures FreeAt(p, init, ph, n) == FreeAt(p, ts, ph, n) {
        assert ts[..k][..n] == ts[..n];
      }
      assert (forall n | 0 <= n < |ts| :: FreeAt(p, ts, ph, n))
             <==> (forall n | 0 <= n < k :: FreeAt(p, ts, ph, n)) && FreeAt(p, ts, ph, k);
    }
  }
}
