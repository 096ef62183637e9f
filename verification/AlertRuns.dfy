/** Whole runs of the alert tailer: polls, rotations, deaths and restarts. */
module AlertRuns {
  import opened Text
  import opened AlertLog
  import opened AlertIndexer

  // ---------- progress ----------

  /** Batches with at least one alert each. */
  lemma {:induction false} FlatAtLeast(batches: seq<seq<Alert>>)
    requires forall b | b in batches :: |b| >= 1
    ensures |Flat(batches)| >= |batches|
  {
    if batches != [] { FlatAtLeast(batches[..|batches| - 1]); }
  }

  /** Effects enough for every alert to be delivered in a batch of its own. */
  predicate Lasting(w: World, v: World, env: Env) {
    w.fuse >= 3 * |Between(v.data, w.at, |v.data|, env.decode)| + 2
  }

  /** A drain dies only when its effects run out. */
  lemma LastingDrainLives(w: World, v: World, outcome: Outcome, env: Env)
    requires Answered(w, v, outcome, env) && Durable(v, env) && Lasting(w, v, env) && w.at <= |w.data| && w.data <= v.data
    ensures outcome != Died
  {
    hide Flat, Account, Delivered, HandsOver, AllFull;
    if outcome == Died {
      var batches := NewBatches(w, v);
      forall b | b in batches ensures |b| >= 1 { assert b in v.server; }
      FlatAtLeast(batches);
      TakenIsThere(w, v, env);
      assert false;
    }
  }

  lemma TakenIsThere(w: World, v: World, env: Env)
    requires Accounted(v.data, v.lives, v.server, env)
    ensures |Between(v.data, w.at, v.lives.now.end, env.decode)| <= |Between(v.data, w.at, |v.data|, env.decode)|
  {
    if w.at <= v.lives.now.end {
      BetweenSplits(v.data, w.at, v.lives.now.end, |v.data|, env.decode);
    }
  }

  /** With every request accepted and effects enough, a drain delivers every complete line of the file. */
  lemma AcceptedDrainDelivers(w: World, v: World, outcome: Outcome, env: Env)
    requires Answered(w, v, outcome, env) && Durable(v, env) && Lasting(w, v, env) && w.at <= |w.data| && w.data <= v.data
    requires outcome == Finished ==> Settled(v, env) && Between(v.data, v.at, |v.data|, env.decode) == []
    requires forall n: nat | w.requests <= n < v.requests :: env.bulk(n)
    ensures outcome == Finished && multiset(Decoded(v.data, env.decode)) <= multiset(Flat(v.server))
  {
    LastingDrainLives(w, v, outcome, env);
    assert outcome == Finished;
    WoundIsComplete(Epoch(v.data, v.lives, v.server), env);
  }

  /** Everything complete in a finished file was accepted. */
  lemma WoundIsComplete(e: Epoch, env: Env)
    requires Wound(e, env)
    ensures multiset(Decoded(e.data, env.decode)) <= multiset(Flat(e.server))
  {
    NothingIsSkipped(e.data, e.lives, env.decode);
    var top, end := Furthest(e.lives), e.lives.now.end;
    BetweenSplits(e.data, 0, end, |e.data|, env.decode);
    BetweenSplits(e.data, 0, end, top, env.decode);
    var a := Between(e.data, 0, end, env.decode);
    assert a + [] == a;
    assert multiset(a + Between(e.data, end, top, env.decode)) == multiset(a) + multiset(Between(e.data, end, top, env.decode));
  }

  // ---------- taking up files ----------

  function ToEpoch(w: World): Epoch {
    Epoch(w.data, w.lives, w.server)
  }

  /** A new file taken up: nothing delivered from it yet. */
  function TakeUp(w: World, content: Bytes): World {
    w.(data := content, inode := w.nextInode, nextInode := w.nextInode + 1,
       at := 0, server := [], lives := First(Life(0, 0, false)))
  }

  lemma TakenUpIsDurable(w: World, content: Bytes, env: Env)
    requires Durable(w, env)
    ensures var v := TakeUp(w, content);
            Durable(v, env) && Next(v) == 0 && (w.alive ==> Settled(v, env))
  {
    FreshAccount(content, env.decode);
  }

  /** What a poll does once its drain has ended in `u`. */
  function Follow(u: World, outcome: Outcome, path: Path): World {
    if outcome == Finished && path.NewFile? then AfterSave(TakeUp(u.(finished := u.finished + [ToEpoch(u)]), path.content)) else u
  }

  lemma FollowIsDurable(u: World, outcome: Outcome, path: Path, env: Env)
    requires Durable(u, env) && (u.alive ==> Settled(u, env))
    requires outcome == Finished ==> u.alive && Between(u.data, u.at, |u.data|, env.decode) == []
    ensures var v := Follow(u, outcome, path); Durable(v, env) && (v.alive ==> Settled(v, env))
  {
    hide Accounted, HandsOver, Boundary, Between;
    if outcome == Finished && path.NewFile? {
      var done := u.(finished := u.finished + [ToEpoch(u)]);
      TakenUpIsDurable(done, path.content, env);
      AfterSaveIsDurable(TakeUp(done, path.content), env);
    }
  }

  /** A drain has finished and the path holds another file. */
  predicate Rotates(outcome: Outcome, path: Path) {
    outcome == Finished && path.NewFile?
  }

  /**
   The new file has been taken up: from its first byte and under its own inode, with the old file among
   those finished. If the process is alive, which takes two effects, the state file says so too.
   */
  predicate TookUp(u: World, content: Bytes, v: World) {
    && v.data == content && v.inode == u.nextInode && v.nextInode == u.nextInode + 1 && v.at == 0
    && v.server == [] && v.requests == u.requests && v.lives.First? && v.lives.now.start == v.lives.now.end == 0
    && v.finished == u.finished + [Epoch(u.data, u.lives, u.server)] && v.abandoned == u.abandoned
    && (v.alive <==> u.alive && u.fuse >= 2)
    && if v.alive then v.state == Saved(v.inode, 0) else v.state == u.state || v.state == Unreadable
  }

  lemma FollowTakesUp(u: World, outcome: Outcome, path: Path)
    requires outcome == Finished ==> u.alive
    ensures Rotates(outcome, path) ==> TookUp(u, path.content, Follow(u, outcome, path))
    ensures !Rotates(outcome, path) ==> Follow(u, outcome, path) == u
  {
  }

  /** One pass of the main loop: drain, then follow a rotation. `u` and `outcome` are how the drain ends. */
  method Poll(w: World, growth: seq<Bytes>, path: Path, env: Env) returns (v: World, ghost u: World, ghost outcome: Outcome)
    requires Settled(w, env)
    ensures Durable(v, env) && (v.alive ==> Settled(v, env))
    ensures Drained(w, growth, u, outcome, env) && v == Follow(u, outcome, path)
    ensures if Rotates(outcome, path) then TookUp(u, path.content, v) else v == u && v.inode == w.inode
  {
    hide Durable, Answered, Between, Boundary;
    var ended;
    v, ended := Drain(w, growth, env);
    u, outcome := v, ended;
    FollowIsDurable(u, outcome, path, env);
    FollowTakesUp(u, outcome, path);
    if ended == Died {
      return;
    }
    var inode, content := v.inode, v.data;
    if path.NewFile? {
      NewInode(v, env);
      inode, content := v.nextInode, path.content;
    }
    if ended == Finished && !path.Missing? && (inode != v.inode || |content| < v.at) {
      v := SaveState(TakeUp(v.(finished := v.finished + [ToEpoch(v)]), content));
    }
  }

  lemma NewInode(w: World, env: Env)
    requires Durable(w, env)
    ensures w.nextInode != w.inode
  {
  }

  /** How a drain from `w` may end. */
  ghost predicate Drained(w: World, growth: seq<Bytes>, u: World, outcome: Outcome, env: Env) {
    && Durable(u, env) && Answered(w, u, outcome, env) && (exists k :: GrewBy(w.data, growth, k, u.data))
    && u.inode == w.inode && u.nextInode == w.nextInode && u.finished == w.finished && u.abandoned == w.abandoned
    && match outcome {
         case Finished => Settled(u, env) && Between(u.data, u.at, |u.data|, env.decode) == []
         case Rejected => Settled(u, env) && u.at == u.lives.now.end
         case Died => !u.alive
       }
  }

  /** With every request accepted and effects enough, the drain of a poll delivers every complete line. */
  lemma AcceptedPollDelivers(w: World, growth: seq<Bytes>, u: World, outcome: Outcome, env: Env)
    requires Drained(w, growth, u, outcome, env) && Lasting(w, u, env) && w.at <= |w.data|
    requires forall n: nat | w.requests <= n < u.requests :: env.bulk(n)
    ensures outcome == Finished && multiset(Decoded(u.data, env.decode)) <= multiset(Flat(u.server))
  {
    hide Durable, Answered, Lasting, Settled, Between, Joined, Flat, Decoded;
    AcceptedDrainDelivers(w, u, outcome, env);
  }

  // ---------- starting again ----------

  /** A process start: the offset comes from the state file, if it is about this file and fits. */
  function AfterStart(w: World, downtime: Downtime): World {
    match downtime
    case Grown(more) =>
      var g := w.(data := w.data + more);
      g.(lives := After(g.lives, Life(Next(g), Next(g), false)), at := Next(g), alive := true)
    case Replaced(more, content) =>
      var t := TakeUp(w.(abandoned := w.abandoned + [ToEpoch(w.(data := w.data + more))]), content);
      t.(at := Next(t), alive := true)
  }

  lemma AbandonedIsDurable(w: World, more: Bytes, env: Env)
    requires Durable(w, env)
    ensures Durable(w.(abandoned := w.abandoned + [ToEpoch(w.(data := w.data + more))]), env)
  {
    hide Accounted, HandsOver;
    GrownIsDurable(w, more, env);
  }

  method Start(w: World, downtime: Downtime, env: Env) returns (v: World)
    requires Durable(w, env) && !w.alive
    ensures v == AfterStart(w, downtime) && Settled(v, env)
    ensures downtime.Replaced? ==> v.at == 0
  {
    v := w;
    if downtime.Replaced? {
      AbandonedIsDurable(w, downtime.more, env);
      v := v.(abandoned := v.abandoned + [ToEpoch(v.(data := v.data + downtime.more))]);
      TakenUpIsDurable(v, downtime.content, env);
      v := TakeUp(v, downtime.content);
    } else {
      GrownIsDurable(w, downtime.more, env);
      v := v.(data := v.data + downtime.more);
    }
    var size := |v.data|;
    var offset := StartOffset(v.state, v.inode, size);
    if downtime.Grown? {
      NextLife(v.data, v.lives, offset, env.decode);
      v := v.(lives := After(v.lives, Life(offset, offset, false)));
    }
    v := v.(at := offset, alive := true);
  }

  // ---------- runs ----------

  /** One stretch of a run: the effects the process survives, and what happens around it. */
  datatype Round = Round(fuse: nat, growth: seq<Bytes>, path: Path, downtime: Downtime)

  /** How the drain of a round ended, if there was one. */
  datatype Ended = NoDrain | DrainTo(u: World, outcome: Outcome)

  function Lit(w: World, r: Round): World {
    w.(fuse := r.fuse)
  }

  /** One round leads from `w` to `v`: a start if no process lives, otherwise a poll. */
  ghost predicate Leads(w: World, r: Round, v: World, e: Ended, env: Env) {
    if !w.alive then e == NoDrain && v == AfterStart(Lit(w, r), r.downtime)
    else e.DrainTo? && Drained(Lit(w, r), r.growth, e.u, e.outcome, env) && v == Follow(e.u, e.outcome, r.path)
  }

  /** The server accepts all that is sent in a round, and the process lasts. */
  ghost predicate Favoured(w: World, r: Round, e: Ended, env: Env) {
    w.alive && e.DrainTo? && Lasting(Lit(w, r), e.u, env) && forall n: nat | w.requests <= n < e.u.requests :: env.bulk(n)
  }

  /** Everything complete in the file of a drain has been accepted. */
  ghost predicate Complete(e: Ended, env: Env) {
    e.DrainTo? && e.outcome == Finished && multiset(Decoded(e.u.data, env.decode)) <= multiset(Flat(e.u.server))
  }

  /** A round in which the process finishes a file and takes up another. */
  predicate RotatesIn(r: Round, e: Ended) {
    e.DrainTo? && Rotates(e.outcome, r.path)
  }

  /**
   The round after a rotation, in which the server accepts and the process lasts: it is spent on the new
   file and what was appended to it, and everything complete there has been accepted.
   */
  ghost predicate NewFileDelivered(w: World, r: Round, next: Round, e: Ended, env: Env)
    requires r.path.NewFile?
  {
    && e.DrainTo? && e.outcome == Finished && e.u.inode == w.nextInode
    && (exists k: nat :: k <= |next.growth| && e.u.data == r.path.content + Joined(next.growth[..k]))
    && multiset(Decoded(e.u.data, env.decode)) <= multiset(Flat(e.u.server))
  }

  lemma RotationIsTaken(w: World, r: Round, v: World, e: Ended, env: Env)
    requires Leads(w, r, v, e, env) && RotatesIn(r, e)
    ensures v.finished == w.finished + [Epoch(e.u.data, e.u.lives, e.u.server)]
    ensures v.inode == w.nextInode && v.data == r.path.content && v.at == 0 && v.server == []
    ensures v.alive ==> v.state == Saved(v.inode, 0)
  {
    hide Durable, Answered, Settled, Between, Follow, GrewBy;
    SettledIsDurable(e.u, env);
    FollowTakesUp(e.u, e.outcome, r.path);
  }

  /** After a rotation a favoured round delivers the new file. */
  lemma RotationIsFollowed(w: World, r: Round, v: World, e: Ended, next: Round, after: World, f: Ended, env: Env)
    requires Leads(w, r, v, e, env) && RotatesIn(r, e)
    requires Leads(v, next, after, f, env) && (Favoured(v, next, f, env) ==> Complete(f, env))
    ensures Favoured(v, next, f, env) ==> NewFileDelivered(w, r, next, f, env)
  {
    hide Durable, Answered, Settled, Between, Decoded, Flat, Lasting, Follow, Joined;
    RotationIsTaken(w, r, v, e, env);
  }

  function FirstWorld(data: Bytes): World {
    World(Unreadable, 0, [], data, 0, 1, true, 0, 0, First(Life(0, 0, false)), [], [])
  }

  lemma FirstWorldIsSettled(data: Bytes, env: Env)
    ensures Settled(FirstWorld(data), env)
  {
    FreshAccount(data, env.decode);
  }

  lemma LitIsDurable(w: World, r: Round, env: Env)
    requires Durable(w, env) && (w.alive ==> Settled(w, env))
    ensures Durable(Lit(w, r), env) && (w.alive ==> Settled(Lit(w, r), env) && w.at <= |w.data|)
  {
    hide Accounted, HandsOver, Boundary;
  }

  /** One round of the process: a start if none lives, otherwise a poll. */
  method DoRound(w: World, r: Round, env: Env) returns (v: World, ghost e: Ended)
    requires Durable(w, env) && (w.alive ==> Settled(w, env))
    ensures Durable(v, env) && (v.alive ==> Settled(v, env)) && Leads(w, r, v, e, env)
    ensures Favoured(w, r, e, env) ==> Complete(e, env)
  {
    hide Durable, Settled, Drained, Follow, Decoded, Flat, Lasting;
    LitIsDurable(w, r, env);
    if !w.alive {
      v := Start(w.(fuse := r.fuse), r.downtime, env);
      e := NoDrain;
      SettledIsDurable(v, env);
    } else {
      ghost var u, outcome;
      v, u, outcome := Poll(w.(fuse := r.fuse), r.growth, r.path, env);
      e := DrainTo(u, outcome);
      if Favoured(w, r, e, env) {
        AcceptedPollDelivers(Lit(w, r), r.growth, u, outcome, env);
      }
    }
  }

  lemma SettledIsDurable(w: World, env: Env)
    requires Settled(w, env)
    ensures Durable(w, env) && w.alive
  {
  }

  /**
   Any run: from a first start without a state file, through any growth, any server answers, any
   rotations, any deaths and restarts. `worlds` and `ends` are its history, round by round.
   Nothing before the furthest point is skipped, files followed to their end are delivered whole, untorn
   restarts repeat at most a batch each, every round in which the server accepts and the process lasts
   delivers all that is complete, and a file that a drain has finished is left for the one at the path.
   */
  method Run(data: Bytes, rounds: seq<Round>, env: Env) returns (w: World, ghost worlds: seq<World>, ghost ends: seq<Ended>)
    ensures |worlds| == |rounds| + 1 && |ends| == |rounds| && worlds[0] == FirstWorld(data) && worlds[|rounds|] == w
    ensures forall n | 0 <= n < |rounds| :: Leads(worlds[n], rounds[n], worlds[n + 1], ends[n], env)
    ensures forall n | 0 <= n < |rounds| :: Favoured(worlds[n], rounds[n], ends[n], env) ==> Complete(ends[n], env)
    ensures forall n | 0 <= n < |rounds| && RotatesIn(rounds[n], ends[n]) ::
              && worlds[n + 1].finished == worlds[n].finished + [Epoch(ends[n].u.data, ends[n].u.lives, ends[n].u.server)]
              && worlds[n + 1].inode == worlds[n].nextInode && worlds[n + 1].data == rounds[n].path.content
    ensures forall n | 0 <= n < |rounds| - 1 && RotatesIn(rounds[n], ends[n]) && Favoured(worlds[n + 1], rounds[n + 1], ends[n + 1], env) ::
              NewFileDelivered(worlds[n], rounds[n], rounds[n + 1], ends[n + 1], env)
    ensures Durable(w, env) && (w.alive ==> Settled(w, env))
    ensures multiset(Between(w.data, 0, Furthest(w.lives), env.decode)) <= multiset(Flat(w.server))
    ensures forall e | e in w.finished :: multiset(Decoded(e.data, env.decode)) <= multiset(Flat(e.server))
    ensures forall e | e in w.abandoned :: NothingLostIn(e, env) <==> Between(e.data, Furthest(e.lives), |e.data|, env.decode) == []
    ensures TornRestarts(w.lives) == 0 ==>
              |Flat(w.server)| <= |Between(w.data, 0, w.lives.now.end, env.decode)| + BATCH * Restarts(w.lives)
  {
    hide Durable, Settled, Leads, Favoured, Complete;
    FirstWorldIsSettled(data, env);
    SettledIsDurable(FirstWorld(data), env);
    w := FirstWorld(data);
    worlds, ends := [w], [];
    for n := 0 to |rounds|
      invariant |worlds| == n + 1 && |ends| == n && worlds[0] == FirstWorld(data) && worlds[n] == w
      invariant Durable(w, env) && (w.alive ==> Settled(w, env))
      invariant forall i | 0 <= i < n :: Leads(worlds[i], rounds[i], worlds[i + 1], ends[i], env)
      invariant forall i | 0 <= i < n :: Favoured(worlds[i], rounds[i], ends[i], env) ==> Complete(ends[i], env)
    {
      ghost var e;
      w, e := DoRound(w, rounds[n], env);
      worlds, ends := worlds + [w], ends + [e];
    }
    DurableMeans(w, env);
    RotationsAreFollowed(rounds, worlds, ends, env);
  }

  lemma RotationsAreFollowed(rounds: seq<Round>, worlds: seq<World>, ends: seq<Ended>, env: Env)
    requires |worlds| == |rounds| + 1 && |ends| == |rounds|
    requires forall n | 0 <= n < |rounds| :: Leads(worlds[n], rounds[n], worlds[n + 1], ends[n], env)
    requires forall n | 0 <= n < |rounds| :: Favoured(worlds[n], rounds[n], ends[n], env) ==> Complete(ends[n], env)
    ensures forall n | 0 <= n < |rounds| && RotatesIn(rounds[n], ends[n]) ::
              && worlds[n + 1].finished == worlds[n].finished + [Epoch(ends[n].u.data, ends[n].u.lives, ends[n].u.server)]
              && worlds[n + 1].inode == worlds[n].nextInode && worlds[n + 1].data == rounds[n].path.content
    ensures forall n | 0 <= n < |rounds| - 1 && RotatesIn(rounds[n], ends[n]) && Favoured(worlds[n + 1], rounds[n + 1], ends[n + 1], env) ::
              NewFileDelivered(worlds[n], rounds[n], rounds[n + 1], ends[n + 1], env)
  {
    hide Durable, Settled, Favoured, Complete, NewFileDelivered, Leads;
    forall n | 0 <= n < |rounds| && RotatesIn(rounds[n], ends[n])
      ensures && worlds[n + 1].finished == worlds[n].finished + [Epoch(ends[n].u.data, ends[n].u.lives, ends[n].u.server)]
              && worlds[n + 1].inode == worlds[n].nextInode && worlds[n + 1].data == rounds[n].path.content
    {
      RotationIsTaken(worlds[n], rounds[n], worlds[n + 1], ends[n], env);
    }
    forall n | 0 <= n < |rounds| - 1 && RotatesIn(rounds[n], ends[n]) && Favoured(worlds[n + 1], rounds[n + 1], ends[n + 1], env)
      ensures NewFileDelivered(worlds[n], rounds[n], rounds[n + 1], ends[n + 1], env)
    {
      RotationIsFollowed(worlds[n], rounds[n], worlds[n + 1], ends[n], rounds[n + 1], worlds[n + 2], ends[n + 1], env);
    }
  }

  /** Every alert of a file that is gone was delivered by some life on it. */
  ghost predicate NothingLostIn(e: Epoch, env: Env) {
    forall i: nat | AlertAt(e.data, i, env.decode) :: Covered(e.lives, i)
  }

  /** What the invariant says at the end of a run. */
  lemma DurableMeans(w: World, env: Env)
    requires Durable(w, env)
    ensures multiset(Between(w.data, 0, Furthest(w.lives), env.decode)) <= multiset(Flat(w.server))
    ensures forall e | e in w.finished :: multiset(Decoded(e.data, env.decode)) <= multiset(Flat(e.server))
    ensures forall e | e in w.abandoned :: NothingLostIn(e, env) <==> Between(e.data, Furthest(e.lives), |e.data|, env.decode) == []
    ensures TornRestarts(w.lives) == 0 ==>
              |Flat(w.server)| <= |Between(w.data, 0, w.lives.now.end, env.decode)| + BATCH * Restarts(w.lives)
  {
    hide Between, Decoded, AlertAt, Covered;
    NothingIsSkipped(w.data, w.lives, env.decode);
    DeliveredCount(w.data, w.lives, env.decode);
    if TornRestarts(w.lives) == 0 { RepeatsAreBounded(w.data, w.lives, env.decode); }
    forall e | e in w.finished ensures multiset(Decoded(e.data, env.decode)) <= multiset(Flat(e.server)) {
      WoundIsComplete(e, env);
    }
    forall e | e in w.abandoned
      ensures NothingLostIn(e, env) <==> Between(e.data, Furthest(e.lives), |e.data|, env.decode) == []
    {
      NothingLost(e.data, e.lives, env.decode);
    }
  }

  // ---------- how much a restart repeats ----------

  /**
   Whenever the process may be found dead: the next one repeats at most one batch if and only if the
   state file can be read, or no more than one batch of alerts lay before the last delivered point.
   */
  lemma RestartRepeats(w: World, env: Env)
    requires Durable(w, env)
    ensures |Repeated(w.data, w.lives.now, Next(w), env.decode)| <= BATCH
       <==> w.state.Saved? || |Between(w.data, 0, w.lives.now.end, env.decode)| <= BATCH
  {
    hide Accounted, Between, Boundary;
  }

  /** Death between emptying and writing the state file for the second time, in a drain from a fresh start. */
  method DieInDrain(data: Bytes, env: Env) returns (v: World, outcome: Outcome)
    requires |Decoded(data, env.decode)| > BATCH && env.bulk(0) && env.bulk(1)
    ensures Drained(FirstWorld(data).(fuse := 5), [], v, outcome, env)
    ensures outcome == Died && v.data == data && v.state.Unreadable?
    ensures |Repeated(v.data, v.lives.now, Next(v), env.decode)| > BATCH
  {
    hide Durable, Answered, Between, Boundary;
    FirstWorldIsSettled(data, env);
    var w := FirstWorld(data).(fuse := 5);
    LitIsDurable(FirstWorld(data), Round(5, [], SameFile, Grown([])), env);
    v, outcome := Drain(w, [], env);
    NoGrowth(data, v.data);
    FiveEffects(w, v, outcome, env);
  }

  lemma NoGrowth(data: Bytes, after: Bytes)
    requires exists k :: GrewBy(data, [], k, after)
    ensures after == data
  {
    var k :| GrewBy(data, [], k, after);
    assert data + [] == data;
  }

  lemma FiveEffects(w: World, v: World, outcome: Outcome, env: Env)
    requires Answered(w, v, outcome, env) && Durable(v, env) && v.data == w.data && w.fuse == 5 && w.at == 0 && w.requests == 0
    requires w.server == [] && |Decoded(w.data, env.decode)| > BATCH && env.bulk(0) && env.bulk(1)
    requires outcome == Finished ==> Settled(v, env) && Between(v.data, v.at, |v.data|, env.decode) == []
    ensures outcome == Died && v.state.Unreadable? && |Repeated(v.data, v.lives.now, Next(v), env.decode)| > BATCH
  {
    hide Between, Account, Delivered, HandsOver;
    var batches := NewBatches(w, v);
    assert batches == v.server;
    if outcome == Finished {
      BetweenSplits(v.data, 0, v.at, |v.data|, env.decode);
      OneBatch(batches);
      assert false;
    }
    TwoBatches(batches);
  }

  lemma OneBatch(batches: seq<seq<Alert>>)
    requires forall b | b in batches :: 1 <= |b| <= BATCH
    ensures |batches| <= 1 ==> |Flat(batches)| <= BATCH
  {
    if |batches| == 1 { assert batches[..0] == []; }
  }

  lemma TwoBatches(batches: seq<seq<Alert>>)
    requires |batches| == 2 ==> AllFull(batches[..1]) && forall b | b in batches :: |b| >= 1
    ensures |batches| == 2 ==> |Flat(batches)| > BATCH
  {
    if |batches| == 2 {
      assert Flat(batches) == Flat(batches[..1]) + batches[1];
      assert batches[..1][0] == batches[0] && batches[..1][..0] == [];
      assert Flat(batches[..1]) == Flat([]) + batches[0];
      assert batches[0] in batches[..1];
    }
  }

  function Newlines(n: nat): (data: Bytes)
    ensures |data| == n && forall b | b in data :: b == NEWLINE
  {
    if n == 0 then [] else [NEWLINE] + Newlines(n - 1)
  }

  lemma {:induction false} AlertPerLine(data: Bytes, at: nat, decode: Bytes -> Option<Alert>)
    requires at <= |data| && (forall b | b in data :: b == NEWLINE) && forall line :: decode(line).Some?
    ensures |Between(data, at, |data|, decode)| == |data| - at
    decreases |data| - at
  {
    if at < |data| {
      assert data[at] in data;
      AlertPerLine(data, at + 1, decode);
    }
  }

  /** A file of fifty-one alerts, a server that accepts everything, five effects: fifty-one alerts are sent again. */
  method RepeatFiftyOne() returns (v: World)
    ensures !v.alive && |Repeated(v.data, v.lives.now, Next(v), _ => Some(Alert("")))| > BATCH
  {
    var data := Newlines(51);
    var env := Env(_ => Some(Alert("")), _ => true);
    AlertPerLine(data, 0, env.decode);
    var outcome;
    v, outcome := DieInDrain(data, env);
  }
}
