/** An operation's links and state under any interleaving of `apply` calls and state changes. */
module OperationGate {
  import opened Text

  /** The state is a string that nothing validates. */
  datatype OpState = Running | RunOneLink | Paused | OutOfTime | Finished | Cleanup | Other(name: string)

  datatype Link = Link(id: string)

  /** A state_changed event. */
  datatype Change = Change(from: OpState, to: OpState)

  /** A link added to the chain: by which `apply` call, if any, and in which state. */
  datatype Add = Add(call: Option<nat>, link: Link, during: OpState)

  /** An `apply` call: it has returned, or waits in its sleep or to be started. */
  datatype Call = Call(link: Link, returned: bool)

  datatype World = World(state: OpState, log: seq<Change>, adds: seq<Add>, calls: seq<Call>)

  /** What the event loop may do next. A link may also be added directly, whatever the state. */
  datatype Step = NewCall(link: Link) | Wake(call: nat) | SetState(to: OpState) | AddDirectly(link: Link)

  function Start(state: OpState): World {
    World(state, [], [], [])
  }

  // ---------- one step ----------

  function WithState(w: World, to: OpState): World {
    if w.state == to then w else w.(state := to, log := w.log + [Change(w.state, to)])
  }

  function WithLink(w: World, call: Option<nat>, link: Link): World {
    w.(adds := w.adds + [Add(call, link, w.state)])
  }

  function Returned(w: World, call: nat): World
    requires call < |w.calls|
  {
    w.(calls := w.calls[call := w.calls[call].(returned := true)])
  }

  /** An `apply` call from one await to the next. */
  function Resume(w: World, call: nat): World {
    if call >= |w.calls| || w.calls[call].returned then w
    else
      var link := w.calls[call].link;
      if w.state == Running then Returned(WithLink(w, Some(call), link), call)
      else if w.state == RunOneLink then Returned(WithState(WithLink(w, Some(call), link), Paused), call)
      else w
  }

  function Do(w: World, s: Step): World {
    match s
    case NewCall(link) => w.(calls := w.calls + [Call(link, false)])
    case Wake(call) => Resume(w, call)
    case SetState(to) => WithState(w, to)
    case AddDirectly(link) => WithLink(w, None, link)
  }

  function Run(w: World, steps: seq<Step>): World {
    if steps == [] then w else Do(Run(w, steps[..|steps| - 1]), steps[|steps| - 1])
  }

  // ---------- the object ----------

  class Operation {
    var state: OpState
    var chain: seq<Link>
    ghost var world: World

    ghost predicate Valid()
      reads this
    {
      world.state == state && chain == Links(world.adds)
    }

    constructor (state: OpState)
      ensures Valid() && world == Start(state)
    {
      this.state, chain, world := state, [], Start(state);
    }

    /** The setter of `state`. */
    method SetState(value: OpState) returns (emitted: Option<Change>)
      requires Valid()
      modifies this
      ensures Valid() && world == WithState(old(world), value)
      ensures emitted == if old(state) == value then None else Some(Change(old(state), value))
    {
      var previous := state;
      state := value;
      world := WithState(world, value);
      emitted := if previous == value then None else Some(Change(previous, value));
    }

    method AddLink(link: Link, ghost call: Option<nat>)
      requires Valid()
      modifies this
      ensures Valid() && world == WithLink(old(world), call, link) && state == old(state)
      ensures chain == old(chain) + [link]
    {
      chain := chain + [link];
      LinksSnoc(world.adds, Add(call, link, state));
      world := WithLink(world, call, link);
    }

    /** A call of `apply`, which the event loop will run later. */
    method Invoke(link: Link) returns (ghost call: nat)
      requires Valid()
      modifies this
      ensures Valid() && world == Do(old(world), NewCall(link)) && chain == old(chain)
      ensures call == |old(world.calls)| && world.calls[call] == Call(link, false)
    {
      call := |world.calls|;
      world := Do(world, NewCall(link));
    }

    /** `apply`, from where it was left to its next sleep or its return. */
    method Apply(call: nat, link: Link) returns (id: Option<string>)
      requires Valid() && call < |world.calls| && world.calls[call] == Call(link, false)
      modifies this
      ensures Valid() && world == Resume(old(world), call)
      ensures id == if old(state) == Running || old(state) == RunOneLink then Some(link.id) else None
    {
      if state != Running {
        if state == RunOneLink {
          AddLink(link, Some(call));
          var emitted := SetState(Paused);
          world := Returned(world, call);
          return Some(link.id);
        } else {
          return None;
        }
      }
      AddLink(link, Some(call));
      world := Returned(world, call);
      return Some(link.id);
    }
  }

  function Links(adds: seq<Add>): (links: seq<Link>)
    ensures |links| == |adds| && forall i | 0 <= i < |adds| :: links[i] == adds[i].link
  {
    seq(|adds|, i requires 0 <= i < |adds| => adds[i].link)
  }

  lemma LinksSnoc(adds: seq<Add>, a: Add)
    ensures Links(adds + [a]) == Links(adds) + [a.link]
  {
  }

  // ---------- the gate ----------

  function One(b: bool): nat {
    if b then 1 else 0
  }

  /** The times the state was set to run_one_link, by a user or at the start. */
  function Grants(start: OpState, steps: seq<Step>): nat {
    if steps == [] then One(start == RunOneLink)
    else Grants(start, steps[..|steps| - 1]) + One(steps[|steps| - 1] == SetState(RunOneLink))
  }

  /** The grants that a user overwrote before a call could use them. */
  function Overwritten(start: OpState, steps: seq<Step>): nat {
    if steps == [] then 0
    else
      var init := steps[..|steps| - 1];
      Overwritten(start, init) + One(steps[|steps| - 1].SetState? && Run(Start(start), init).state == RunOneLink)
  }

  /** The links that calls added while the state was not running. */
  function Gated(adds: seq<Add>): nat {
    if adds == [] then 0
    else
      var a := adds[|adds| - 1];
      Gated(adds[..|adds| - 1]) + One(a.call.Some? && a.during != Running)
  }

  lemma GatedSnoc(adds: seq<Add>, a: Add)
    ensures Gated(adds + [a]) == Gated(adds) + One(a.call.Some? && a.during != Running)
  {
    assert (adds + [a])[..|adds|] == adds;
  }

  lemma NoneGated()
    ensures Gated([]) == 0
  {
  }

  /** One step keeps the account. */
  lemma {:induction false} GateStep(w: World, s: Step)
    ensures var v := Do(w, s);
            Gated(w.adds) + One(w.state == RunOneLink) + One(s == SetState(RunOneLink))
            == Gated(v.adds) + One(v.state == RunOneLink) + One(s.SetState? && w.state == RunOneLink)
  {
    hide Gated;
    match s
    case Wake(call) =>
      if call < |w.calls| && !w.calls[call].returned {
        GatedSnoc(w.adds, Add(Some(call), w.calls[call].link, w.state));
      }
    case AddDirectly(link) => GatedSnoc(w.adds, Add(None, link, w.state));
    case _ =>
  }

  /**
   The gate, for every schedule: each time the state was set to run_one_link is accounted for exactly
   once, by a link that a call added, by being overwritten, or by still being in force. So calls never
   add more links outside running than there were such settings.
   */
  lemma {:induction false} GateIsExact(start: OpState, steps: seq<Step>)
    ensures var w := Run(Start(start), steps);
            Grants(start, steps) == Gated(w.adds) + Overwritten(start, steps) + One(w.state == RunOneLink)
  {
    hide Do, Gated;
    if steps == [] {
      NoneGated();
    } else {
      GateIsExact(start, steps[..|steps| - 1]);
      GateStep(Run(Start(start), steps[..|steps| - 1]), steps[|steps| - 1]);
    }
  }

  lemma NeverMoreThanGranted(start: OpState, steps: seq<Step>)
    ensures Gated(Run(Start(start), steps).adds) <= Grants(start, steps)
  {
    GateIsExact(start, steps);
  }

  /** In any state but running and run_one_link no call adds a link. */
  lemma {:induction false} NoneElsewhere(start: OpState, steps: seq<Step>)
    ensures forall a | a in Run(Start(start), steps).adds && a.call.Some? :: a.during == Running || a.during == RunOneLink
  {
    if steps != [] { NoneElsewhere(start, steps[..|steps| - 1]); }
  }

  // ---------- each call once ----------

  function AddsBy(adds: seq<Add>, call: nat): seq<Add> {
    if adds == [] then []
    else
      var a := adds[|adds| - 1];
      AddsBy(adds[..|adds| - 1], call) + (if a.call == Some(call) then [a] else [])
  }

  lemma AddsBySnoc(adds: seq<Add>, a: Add, call: nat)
    ensures AddsBy(adds + [a], call) == AddsBy(adds, call) + (if a.call == Some(call) then [a] else [])
  {
    assert (adds + [a])[..|adds|] == adds;
  }

  /** What a world's calls have added: one link for each that has returned, its own; none for the others. */
  ghost predicate OncePerCall(w: World) {
    forall call: nat :: Once(w, call)
  }

  ghost predicate Once(w: World, call: nat) {
    var own := AddsBy(w.adds, call);
    if call < |w.calls| && w.calls[call].returned then |own| == 1 && own[0].link == w.calls[call].link else own == []
  }

  lemma {:induction false} StepAddsOnce(w: World, s: Step, call: nat)
    requires Once(w, call)
    ensures Once(Do(w, s), call)
  {
    hide AddsBy;
    match s
    case Wake(k) =>
      if k < |w.calls| && !w.calls[k].returned {
        AddsBySnoc(w.adds, Add(Some(k), w.calls[k].link, w.state), call);
      }
    case AddDirectly(link) => AddsBySnoc(w.adds, Add(None, link, w.state), call);
    case _ =>
  }

  /** For every schedule: a call that has returned has added its link exactly once, any other not at all. */
  lemma {:induction false} ExactlyOnce(start: OpState, steps: seq<Step>)
    ensures OncePerCall(Run(Start(start), steps))
  {
    hide Do, Once;
    if steps == [] {
      forall call: nat ensures Once(Start(start), call) {
        NothingYet(start, call);
      }
    } else {
      var init := steps[..|steps| - 1];
      ExactlyOnce(start, init);
      forall call: nat ensures Once(Run(Start(start), steps), call) {
        StepAddsOnce(Run(Start(start), init), steps[|steps| - 1], call);
      }
    }
  }

  lemma NothingYet(start: OpState, call: nat)
    ensures Once(Start(start), call)
  {
  }

  /** A waiting call that wakes returns exactly in running and run_one_link, and is not changed elsewhere. */
  lemma WakeReturns(start: OpState, steps: seq<Step>, call: nat)
    requires var w := Run(Start(start), steps); call < |w.calls| && !w.calls[call].returned
    ensures var w, v := Run(Start(start), steps), Run(Start(start), steps + [Wake(call)]);
            && (v.calls[call].returned <==> w.state == Running || w.state == RunOneLink)
            && (w.state == RunOneLink ==> v.state == Paused) && (w.state != RunOneLink ==> v.state == w.state)
            && (!v.calls[call].returned ==> v == w)
  {
    hide Run;
    RunSnoc(start, steps, Wake(call));
  }

  lemma RunSnoc(start: OpState, steps: seq<Step>, s: Step)
    ensures Run(Start(start), steps + [s]) == Do(Run(Start(start), steps), s)
  {
    assert (steps + [s])[..|steps|] == steps;
  }

  // ---------- the log of state changes ----------

  /** Each change leaves the state the previous one reached, for a different one. */
  predicate Leads(from: OpState, log: seq<Change>, to: OpState) {
    if log == [] then from == to
    else
      var last := log[|log| - 1];
      last.from != last.to && last.to == to && Leads(from, log[..|log| - 1], last.from)
  }

  lemma {:induction false} LeadsOn(from: OpState, log: seq<Change>, at: OpState, to: OpState)
    requires Leads(from, log, at) && at != to
    ensures Leads(from, log + [Change(at, to)], to)
  {
    assert (log + [Change(at, to)])[..|log|] == log;
  }

  lemma {:induction false} LogAfterStep(start: OpState, w: World, s: Step)
    requires Leads(start, w.log, w.state)
    ensures Leads(start, Do(w, s).log, Do(w, s).state)
  {
    hide Leads;
    match s
    case SetState(to) => if w.state != to { LeadsOn(start, w.log, w.state, to); }
    case Wake(call) => if w.state == RunOneLink { LeadsOn(start, w.log, w.state, Paused); }
    case _ =>
  }

  /** For every schedule the emitted changes lead from the first state to the current one. */
  lemma {:induction false} LogLeadsToState(start: OpState, steps: seq<Step>)
    ensures var w := Run(Start(start), steps); Leads(start, w.log, w.state)
  {
    hide Do, Leads;
    if steps == [] {
      NoChange(start);
    } else {
      LogLeadsToState(start, steps[..|steps| - 1]);
      LogAfterStep(start, Run(Start(start), steps[..|steps| - 1]), steps[|steps| - 1]);
    }
  }

  lemma NoChange(start: OpState)
    ensures Leads(start, [], start)
  {
  }
}
