/**
 The alert tailer as a process that may die between any two lasting effects: a bulk request accepted
 by the server, the state file emptied for writing, the state file written.
 */
module AlertIndexer {
  import opened Text
  import opened AlertLog

  /** What `get_state` finds; a missing or emptied state file reads as no inode and offset 0. */
  datatype StateFile = Unreadable | Saved(inode: int, offset: nat)

  datatype Outcome = Finished | Rejected | Died

  /** What is at the alert path when the process looks. */
  datatype Path = Missing | SameFile | NewFile(content: Bytes)

  /** What became of the file while the process was down. */
  datatype Downtime = Grown(more: Bytes) | Replaced(more: Bytes, content: Bytes)

  /** A file the process has left: its bytes, the lives spent on it, the batches accepted from it. */
  datatype Epoch = Epoch(data: Bytes, lives: Lives, server: seq<seq<Alert>>)

  /** The JSON decoder, and how the server answers the n-th bulk request. */
  datatype Env = Env(decode: Bytes -> Option<Alert>, bulk: nat -> bool)

  /**
   What lasts (state file, server), the tailed file, and the process: whether it lives, its position
   in the file, and `fuse`, the number of effects (requests and the two halves of a state write) left
   before it dies. `lives` is the history on the file; `finished` are the files followed to their end,
   `abandoned` those that were replaced while no process lived.
   */
  datatype World = World(state: StateFile, requests: nat, server: seq<seq<Alert>>,
                            data: Bytes, inode: int, nextInode: int,
                            alive: bool, at: nat, fuse: nat, lives: Lives,
                            finished: seq<Epoch>, abandoned: seq<Epoch>)

  /** The offset a process starts at. */
  function StartOffset(state: StateFile, inode: int, size: nat): (offset: nat)
    ensures offset <= size
    ensures if state == Saved(inode, offset) then true else offset == 0 && (state.Unreadable? || state.inode != inode || state.offset > size)
  {
    if state.Unreadable? || state.inode != inode || state.offset > size then 0 else state.offset
  }

  function Next(w: World): nat {
    StartOffset(w.state, w.inode, |w.data|)
  }

  function Flat(batches: seq<seq<Alert>>): seq<Alert> {
    if batches == [] then [] else Flat(batches[..|batches| - 1]) + batches[|batches| - 1]
  }

  lemma FlatSnoc(batches: seq<seq<Alert>>, b: seq<Alert>)
    ensures Flat(batches + [b]) == Flat(batches) + b
  {
    assert (batches + [b])[..|batches|] == batches;
  }

  // ---------- the invariants ----------

  /** The accepted batches are exactly what the lives on the file delivered. */
  ghost predicate Accounted(data: Bytes, lives: Lives, server: seq<seq<Alert>>, env: Env) {
    && Account(data, lives, env.decode) && Flat(server) == Delivered(data, lives, env.decode)
    && forall b | b in server :: 1 <= |b| <= BATCH
  }

  /** Inodes are never reused, and the saved offset lies in the file. */
  predicate Fits(w: World) {
    w.inode < w.nextInode && (w.state.Saved? ==> w.state.inode < w.nextInode && (w.state.inode == w.inode ==> w.state.offset <= |w.data|))
  }

  /** Whenever the process dies here, the next one resumes at a line start and skips nothing. */
  ghost predicate Durable(w: World, env: Env) {
    && Accounted(w.data, w.lives, w.server, env) && Fits(w)
    && HandsOver(w.data, w.lives.now, Next(w), env.decode)
    && (w.lives.now.torn ==> w.state.Unreadable?)
    && (forall e | e in w.finished :: Wound(e, env))
    && (forall e | e in w.abandoned :: Accounted(e.data, e.lives, e.server, env))
  }

  /** A finished file: accounted for, with no alert behind the last delivered point. */
  ghost predicate Wound(e: Epoch, env: Env) {
    Accounted(e.data, e.lives, e.server, env) && Between(e.data, e.lives.now.end, |e.data|, env.decode) == []
  }

  /** In the middle of a drain: delivered and recorded up to `pos`, read up to `at`. */
  ghost predicate Reading(w: World, pos: nat, env: Env) {
    && Durable(w, env) && w.alive && !w.lives.now.torn && w.lives.now.end == pos == Next(w)
    && pos <= w.at <= |w.data| && Boundary(w.data, w.at)
  }

  /** Between polls the process stands at the last recorded point. */
  ghost predicate Settled(w: World, env: Env) {
    Reading(w, w.at, env)
  }

  // ---------- saving ----------

  /** The latest life on the file reached `end`, and the server took `batch` on the way. */
  lemma AccountGoesOn(data: Bytes, lives: Lives, server: seq<seq<Alert>>, end: nat, torn: bool, env: Env)
    requires Accounted(data, lives, server, env) && lives.now.end <= end <= |data| && Boundary(data, end)
    ensures var batch := Between(data, lives.now.end, end, env.decode);
            && (batch == [] ==> Accounted(data, GoOn(lives, end, torn), server, env))
            && (1 <= |batch| <= BATCH ==> Accounted(data, GoOn(lives, end, torn), server + [batch], env))
  {
    var batch := Between(data, lives.now.end, end, env.decode);
    LastLifeGoesOn(data, lives, end, torn, env.decode);
    FlatSnoc(server, batch);
    assert Flat(server) + [] == Flat(server);
  }

  lemma HandOverAtEnd(data: Bytes, l: Life, env: Env)
    requires InFile(data, l)
    ensures HandsOver(data, l.(torn := false), l.end, env.decode) && HandsOver(data, l.(torn := true), 0, env.decode)
  {
  }

  /** The state file is empty, or written, and nothing else has changed. */
  lemma StateWritten(w: World, env: Env)
    requires Durable(w, env) && w.lives.now.end == w.at
    ensures Durable(w.(state := Unreadable, lives := GoOn(w.lives, w.at, true)), env)
    ensures Durable(w.(state := Saved(w.inode, w.at), lives := GoOn(w.lives, w.at, false)), env)
    ensures Next(w.(state := Saved(w.inode, w.at))) == w.at && Boundary(w.data, w.at)
  {
    AccountGoesOn(w.data, w.lives, w.server, w.at, true, env);
    AccountGoesOn(w.data, w.lives, w.server, w.at, false, env);
    HandOverAtEnd(w.data, w.lives.now, env);
  }

  /** Death before the file is emptied, between emptying and writing, or not at all. */
  function AfterSave(w: World): World {
    if w.fuse == 0 then w.(alive := false)
    else if w.fuse == 1 then w.(alive := false, fuse := 0, state := Unreadable, lives := GoOn(w.lives, w.at, true))
    else w.(fuse := w.fuse - 2, state := Saved(w.inode, w.at), lives := GoOn(w.lives, w.at, false))
  }

  /** `save_state`: opening for writing empties the file, then the new state is written. */
  method SaveState(w: World) returns (v: World)
    ensures v == AfterSave(w)
  {
    v := w;
    if v.fuse == 0 {
      return v.(alive := false);
    }
    v := v.(fuse := v.fuse - 1, state := Unreadable, lives := GoOn(w.lives, w.at, true));
    if v.fuse == 0 {
      return v.(alive := false);
    }
    v := v.(fuse := v.fuse - 1, state := Saved(w.inode, w.at), lives := GoOn(w.lives, w.at, false));
  }

  lemma AfterSaveIsDurable(w: World, env: Env)
    requires Durable(w, env) && w.alive && !w.lives.now.torn && w.lives.now.end == w.at
    ensures var v := AfterSave(w); Durable(v, env) && (v.alive ==> Settled(v, env))
  {
    StateWritten(w, env);
  }

  // ---------- draining ----------

  /** The server has taken a batch (or there was none to take): the account gets on, the record does not yet. */
  lemma Taken(w: World, batch: seq<Alert>, pos: nat, env: Env)
    requires Reading(w, pos, env) && batch == Between(w.data, pos, w.at, env.decode) && |batch| <= BATCH
    ensures var server := if batch == [] then w.server else w.server + [batch];
            Durable(w.(server := server, lives := GoOn(w.lives, w.at, false)), env)
  {
    hide Accounted, Between, Boundary;
    AccountGoesOn(w.data, w.lives, w.server, w.at, false, env);
  }

  /** A batch accepted but not recorded; the empty batch needs no request. */
  function AfterAccept(w: World, batch: seq<Alert>): World {
    w.(server := if batch == [] then w.server else w.server + [batch], lives := GoOn(w.lives, w.at, false))
  }

  /** What a flush, or the recording of skipped lines, keeps. */
  ghost predicate Kept(w: World, pos: nat, v: World, outcome: Outcome, env: Env) {
    && Durable(v, env)
    && v.data == w.data && v.inode == w.inode && v.nextInode == w.nextInode
    && v.finished == w.finished && v.abandoned == w.abandoned
    && match outcome {
         case Finished => Settled(v, env) && v.at == w.at
         case Rejected => Settled(v, env) && v.at == pos && v.server == w.server
         case Died => !v.alive
       }
  }

  lemma SaveAfterAccept(w: World, batch: seq<Alert>, pos: nat, env: Env)
    requires Reading(w, pos, env) && batch == Between(w.data, pos, w.at, env.decode) && |batch| <= BATCH
    ensures var v := AfterSave(AfterAccept(w, batch)); Kept(w, pos, v, if v.alive then Finished else Died, env)
  {
    hide Durable, Between, Boundary;
    Taken(w, batch, pos, env);
    AfterSaveIsDurable(AfterAccept(w, batch), env);
  }

  /** A bulk request, and what follows the server's answer; death before the request, or in the state write. */
  function AfterFlush(w: World, batch: seq<Alert>, pos: nat, env: Env): (World, Outcome) {
    if w.fuse == 0 then (w.(alive := false), Died)
    else
      var sent := w.(fuse := w.fuse - 1, requests := w.requests + 1);
      if !env.bulk(w.requests) then (sent.(at := pos), Rejected)
      else var v := AfterSave(AfterAccept(sent, batch)); (v, if v.alive then Finished else Died)
  }

  /** `index_batch`; on acceptance `save_state`, otherwise back to the last recorded point. */
  method Flush(w: World, batch: seq<Alert>, pos: nat, env: Env) returns (v: World, outcome: Outcome)
    requires Reading(w, pos, env) && batch == Between(w.data, pos, w.at, env.decode) && 1 <= |batch| <= BATCH
    ensures (v, outcome) == AfterFlush(w, batch, pos, env) && Kept(w, pos, v, outcome, env)
  {
    hide Durable, Between, Boundary, AfterSave, AfterAccept;
    if w.fuse == 0 {
      StillReading(w, 0, w.requests, pos, env);
      return w.(alive := false), Died;
    }
    var accepted := env.bulk(w.requests);
    v := w.(fuse := w.fuse - 1, requests := w.requests + 1);
    StillReading(w, w.fuse - 1, w.requests + 1, pos, env);
    if !accepted {
      RewindIsSettled(v, pos, env);
      return v.(at := pos), Rejected;
    }
    SaveAfterAccept(v, batch, pos, env);
    v := SaveState(AfterAccept(v, batch));
    outcome := if v.alive then Finished else Died;
  }

  lemma StillReading(w: World, fuse: nat, requests: nat, pos: nat, env: Env)
    requires Reading(w, pos, env)
    ensures Reading(w.(fuse := fuse, requests := requests), pos, env) && Durable(w.(alive := false), env)
  {
  }

  lemma RewindIsSettled(w: World, pos: nat, env: Env)
    requires Reading(w, pos, env)
    ensures Settled(w.(at := pos), env)
  {
  }

  lemma MovesOn(w: World, pos: nat, at: nat, env: Env)
    requires Reading(w, pos, env) && pos <= at <= |w.data| && Boundary(w.data, at)
    ensures Reading(w.(at := at), pos, env)
  {
  }

  /** Others append to the file. */
  lemma Grow(w: World, more: Bytes, pos: nat, env: Env)
    requires Reading(w, pos, env)
    ensures Reading(w.(data := w.data + more), pos, env)
    ensures Between(w.data + more, pos, w.at, env.decode) == Between(w.data, pos, w.at, env.decode)
  {
    GrownIsDurable(w, more, env);
    BetweenAfterGrowth(w.data, more, pos, w.at, env.decode);
    BoundaryAfterGrowth(w.data, more, w.at);
  }

  lemma GrownIsDurable(w: World, more: Bytes, env: Env)
    requires Durable(w, env)
    ensures Durable(w.(data := w.data + more), env) && Next(w.(data := w.data + more)) == Next(w)
  {
    AccountAfterGrowth(w.data, more, w.lives, env.decode);
    HandOverAfterGrowth(w.data, more, w.lives.now, Next(w), env);
  }

  lemma HandOverAfterGrowth(data: Bytes, more: Bytes, l: Life, start: nat, env: Env)
    requires InFile(data, l) && HandsOver(data, l, start, env.decode)
    ensures HandsOver(data + more, l, start, env.decode)
  {
    BetweenAfterGrowth(data, more, start, l.end, env.decode);
    BoundaryAfterGrowth(data, more, start);
  }

  /** The end of a drain: what is left of the batch is sent, or lines that do not decode are recorded as read. */
  function AfterRest(w: World, batch: seq<Alert>, pos: nat, env: Env): (World, Outcome) {
    if batch != [] then AfterFlush(w, batch, pos, env)
    else if w.at != pos then var v := AfterSave(AfterAccept(w, [])); (v, if v.alive then Finished else Died)
    else (w, Finished)
  }

  method FinishDrain(w: World, batch: seq<Alert>, pos: nat, env: Env) returns (v: World, outcome: Outcome)
    requires Reading(w, pos, env) && batch == Between(w.data, pos, w.at, env.decode) && |batch| <= BATCH
    ensures (v, outcome) == AfterRest(w, batch, pos, env) && Kept(w, pos, v, outcome, env)
  {
    v, outcome := w, Finished;
    if batch != [] {
      v, outcome := Flush(w, batch, pos, env);
    } else if w.at != pos {
      SaveAfterAccept(w, batch, pos, env);
      v := SaveState(w.(lives := GoOn(w.lives, w.at, false)));
      outcome := if v.alive then Finished else Died;
    }
  }

  // ---------- what the server's answers make of a drain ----------

  /** The batches that the server took since `w`. */
  function NewBatches(w: World, v: World): seq<seq<Alert>> {
    if |w.server| <= |v.server| then v.server[|w.server|..] else []
  }

  /** The first `taken` requests since `w` were accepted, and took in turn the alerts up to the last delivered point. */
  ghost predicate Took(w: World, v: World, taken: int, end: nat, env: Env) {
    && taken >= 0 && (forall n: nat | w.requests <= n < w.requests + taken :: env.bulk(n))
    && w.server <= v.server && |NewBatches(w, v)| == taken
    && Flat(NewBatches(w, v)) == Between(v.data, w.at, end, env.decode)
  }

  ghost predicate AllFull(batches: seq<seq<Alert>>) {
    forall b | b in batches :: |b| == BATCH
  }

  /** In the middle of a drain that began in `w`: every request so far was accepted, with a full batch. */
  ghost predicate SoFar(w: World, v: World, pos: nat, env: Env) {
    && w.at <= pos && Took(w, v, v.requests - w.requests, pos, env) && AllFull(NewBatches(w, v))
    && v.fuse == w.fuse - 3 * (v.requests - w.requests)
  }

  /**
   How a drain from `w` ends in `v`. Every request but a refused last one was accepted; each accepted
   request took one batch, all but the last of them full, and together they are the alerts from the start
   of the drain to the last delivered point. An accepted request costs three effects, a refused one one,
   recording skipped lines two; a death has used up the fuse.
   */
  ghost predicate Answered(w: World, v: World, outcome: Outcome, env: Env) {
    var k := v.requests - w.requests;
    && Took(w, v, if outcome == Rejected then k - 1 else k, v.lives.now.end, env)
    && (NewBatches(w, v) != [] ==> AllFull(NewBatches(w, v)[..|NewBatches(w, v)| - 1]))
    && match outcome {
         case Rejected => !env.bulk(v.requests - 1) && v.fuse == w.fuse - 3 * k + 2
         case Finished => v.fuse == w.fuse - 3 * k || v.fuse == w.fuse - 3 * k - 2
         case Died => v.fuse == 0 && if v.lives.now.torn then w.fuse == 3 * k - 1 || w.fuse == 3 * k + 1
                                     else w.fuse == 3 * k || w.fuse == 3 * k - 2
       }
  }

  lemma GoOnIs(ls: Lives, end: nat, torn: bool)
    ensures GoOn(ls, end, torn).now.end == end && GoOn(ls, end, torn).now.torn == torn
  {
  }

  /** One more batch is taken. */
  lemma TookOneMore(w: World, v: World, taken: int, pos: nat, batch: seq<Alert>, u: World, env: Env)
    requires Took(w, v, taken, pos, env) && env.bulk(w.requests + taken) && w.at <= pos <= v.at <= |v.data| && Boundary(v.data, pos)
    requires batch == Between(v.data, pos, v.at, env.decode) && u.server == v.server + [batch] && u.data == v.data
    ensures Took(w, u, taken + 1, v.at, env) && NewBatches(w, u) == NewBatches(w, v) + [batch]
  {
    hide Between, Flat, Boundary;
    assert NewBatches(w, u) == NewBatches(w, v) + [batch];
    FlatSnoc(NewBatches(w, v), batch);
    BetweenSplits(v.data, w.at, pos, v.at, env.decode);
  }

  lemma FlushAnswers(w: World, v: World, batch: seq<Alert>, pos: nat, env: Env)
    requires SoFar(w, v, pos, env) && v.alive && v.lives.now.end == pos && !v.lives.now.torn
    requires pos <= v.at <= |v.data| && Boundary(v.data, pos) && batch == Between(v.data, pos, v.at, env.decode) && batch != []
    ensures var (u, outcome) := AfterFlush(v, batch, pos, env);
            && Answered(w, u, outcome, env)
            && (outcome == Finished && |batch| == BATCH ==> SoFar(w, u, v.at, env))
  {
    hide Between, Boundary, Flat, GoOn, Took, NewBatches;
    GoOnIs(v.lives, v.at, false);
    GoOnIs(GoOn(v.lives, v.at, false), v.at, true);
    GoOnIs(GoOn(v.lives, v.at, false), v.at, false);
    var (u, outcome) := AfterFlush(v, batch, pos, env);
    if v.fuse > 0 && env.bulk(v.requests) {
      TookOneMore(w, v, v.requests - w.requests, pos, batch, u, env);
      assert NewBatches(w, u)[..|NewBatches(w, u)| - 1] == NewBatches(w, v);
    } else {
      SameServer(w, v, u, v.requests - w.requests, pos, env);
      FullButLast(NewBatches(w, v));
    }
  }

  lemma SameServer(w: World, v: World, u: World, taken: int, end: nat, env: Env)
    requires Took(w, v, taken, end, env) && u.server == v.server && u.data == v.data
    ensures Took(w, u, taken, end, env) && NewBatches(w, u) == NewBatches(w, v)
  {
    hide Between, Flat;
  }

  lemma FullButLast(batches: seq<seq<Alert>>)
    requires AllFull(batches)
    ensures batches != [] ==> AllFull(batches[..|batches| - 1])
  {
  }

  lemma RestAnswers(w: World, v: World, batch: seq<Alert>, pos: nat, env: Env)
    requires SoFar(w, v, pos, env) && v.alive && v.lives.now.end == pos && !v.lives.now.torn
    requires pos <= v.at <= |v.data| && Boundary(v.data, pos) && batch == Between(v.data, pos, v.at, env.decode)
    ensures var (u, outcome) := AfterRest(v, batch, pos, env); Answered(w, u, outcome, env)
  {
    hide Between, Boundary, Flat, GoOn, Took, NewBatches, AfterFlush;
    if batch != [] {
      FlushAnswers(w, v, batch, pos, env);
    } else {
      GoOnIs(v.lives, v.at, false);
      GoOnIs(GoOn(v.lives, v.at, false), v.at, true);
      GoOnIs(GoOn(v.lives, v.at, false), v.at, false);
      var u := AfterRest(v, batch, pos, env).0;
      SameServer(w, v, u, v.requests - w.requests, pos, env);
      FullButLast(NewBatches(w, v));
      TookSkipped(w, u, u.requests - w.requests, pos, v.at, env);
    }
  }

  /** Lines that hold no alert change nothing in what was taken. */
  lemma TookSkipped(w: World, v: World, taken: int, pos: nat, at: nat, env: Env)
    requires Took(w, v, taken, pos, env) && w.at <= pos <= at <= |v.data| && Boundary(v.data, pos)
    requires Between(v.data, pos, at, env.decode) == []
    ensures Took(w, v, taken, at, env)
  {
    hide Between, Flat, Boundary;
    BetweenSplits(v.data, w.at, pos, at, env.decode);
  }

  lemma SoFarGrows(w: World, v: World, more: Bytes, pos: nat, env: Env)
    requires SoFar(w, v, pos, env) && pos <= |v.data|
    ensures SoFar(w, v.(data := v.data + more), pos, env)
  {
    BetweenAfterGrowth(v.data, more, w.at, pos, env.decode);
  }

  lemma SoFarAtFirst(w: World, env: Env)
    ensures SoFar(w, w, w.at, env)
  {
  }

  /** One turn of the reading loop; `more` says whether to go on. */
  method ReadOne(data: Bytes, pos: nat, at: nat, batch: seq<Alert>, decode: Bytes -> Option<Alert>)
    returns (next: nat, longer: seq<Alert>, more: bool)
    requires pos <= at <= |data| && Boundary(data, pos) && Boundary(data, at) && batch == Between(data, pos, at, decode)
    ensures next <= |data| && Boundary(data, next) && longer == Between(data, pos, next, decode) && |longer| <= |batch| + 1
    ensures if more then at < next else next == at && longer == batch && !CompleteAt(data, at)
  {
    hide Between, AlertOf;
    next, longer, more := at, batch, false;
    var line := LineAt(data, at);
    if line == [] {
      return;
    }
    if line[|line| - 1] != NEWLINE {
      // an unfinished line: stepped back over
      return;
    }
    BetweenOneLine(data, pos, at, decode);
    next, more := at + |line|, true;
    longer := batch + AlertOf(line, decode);
  }

  function Joined(pieces: seq<Bytes>): Bytes {
    if pieces == [] then [] else Joined(pieces[..|pieces| - 1]) + pieces[|pieces| - 1]
  }

  /** The first k pieces of growth have been appended. */
  predicate GrewBy(data: Bytes, growth: seq<Bytes>, k: nat, after: Bytes) {
    k <= |growth| && after == data + Joined(growth[..k])
  }

  lemma GrewNone(data: Bytes, growth: seq<Bytes>)
    ensures GrewBy(data, growth, 0, data)
  {
    assert growth[..0] == [] && data + [] == data;
  }

  lemma GrewOnce(data: Bytes, growth: seq<Bytes>, k: nat, after: Bytes)
    requires GrewBy(data, growth, k, after) && k < |growth|
    ensures GrewBy(data, growth, k + 1, after + growth[k])
  {
    assert growth[..k + 1][..k] == growth[..k];
    assert data + (Joined(growth[..k]) + growth[k]) == data + Joined(growth[..k]) + growth[k];
  }

  lemma NothingBetween(w: World, env: Env)
    ensures Between(w.data, w.at, w.at, env.decode) == []
  {
  }

  lemma SoFarMoves(w: World, v: World, pos: nat, at: nat, env: Env)
    requires SoFar(w, v, pos, env)
    ensures SoFar(w, v.(at := at), pos, env)
  {
    hide Between;
  }

  lemma PosIsBoundary(v: World, pos: nat, env: Env)
    requires Reading(v, pos, env)
    ensures Boundary(v.data, pos)
  {
  }

  /**
   `drain`: delivers the complete lines from the current position, in batches. `growth` is what
   others append just before each read. A rejected batch leaves the position at the last recorded point.
   */
  method Drain(w: World, growth: seq<Bytes>, env: Env) returns (v: World, outcome: Outcome)
    requires Settled(w, env)
    ensures Durable(v, env) && Answered(w, v, outcome, env) && exists k :: GrewBy(w.data, growth, k, v.data)
    ensures v.inode == w.inode && v.nextInode == w.nextInode && v.finished == w.finished && v.abandoned == w.abandoned
    ensures outcome == Finished ==> Settled(v, env) && Between(v.data, v.at, |v.data|, env.decode) == []
    ensures outcome == Rejected ==> Settled(v, env) && v.at == v.lives.now.end
    ensures outcome == Died ==> !v.alive
  {
    hide Answered, SoFar, AfterFlush, AfterRest, Durable, Between, Boundary, Joined;
    var batch, pos, seen, more := [], w.at, 0, true;
    v := w;
    GrewNone(w.data, growth);
    SoFarAtFirst(w, env);
    NothingBetween(w, env);
    while more
      invariant Reading(v, pos, env) && batch == Between(v.data, pos, v.at, env.decode) && |batch| < BATCH
      invariant !more ==> !CompleteAt(v.data, v.at)
      invariant GrewBy(w.data, growth, seen, v.data) && SoFar(w, v, pos, env)
      invariant v.inode == w.inode && v.nextInode == w.nextInode && v.finished == w.finished && v.abandoned == w.abandoned
      decreases more, |growth| - seen, |v.data| - v.at
    {
      if seen < |growth| {
        Grow(v, growth[seen], pos, env);
        SoFarGrows(w, v, growth[seen], pos, env);
        GrewOnce(w.data, growth, seen, v.data);
        v, seen := v.(data := v.data + growth[seen]), seen + 1;
      }
      var at;
      PosIsBoundary(v, pos, env);
      at, batch, more := ReadOne(v.data, pos, v.at, batch, env.decode);
      MovesOn(v, pos, at, env);
      SoFarMoves(w, v, pos, at, env);
      v := v.(at := at);
      if |batch| >= BATCH {
        FlushAnswers(w, v, batch, pos, env);
        v, outcome := Flush(v, batch, pos, env);
        if outcome != Finished {
          return;
        }
        pos, batch := v.at, [];
        NothingBetween(v, env);
      }
    }
    UnfinishedTail(v.data, v.at, env.decode);
    PosIsBoundary(v, pos, env);
    RestAnswers(w, v, batch, pos, env);
    v, outcome := FinishDrain(v, batch, pos, env);
  }
}
