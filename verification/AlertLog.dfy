/** Byte files of newline-terminated alerts, and the account of what several process lives delivered from one. */
module AlertLog {
  import opened Text

  const NEWLINE: Byte := 10

  /** A decoded alert. */
  datatype Alert = Alert(json: string)

  /** Alerts per bulk request. */
  const BATCH := 50

  /** The offset behind the line that starts at `at`: past the next newline, or the end of the file. */
  function LineEnd(data: Bytes, at: nat): (end: nat)
    requires at <= |data|
    ensures at <= end <= |data| && (at < |data| ==> at < end)
    decreases |data| - at
  {
    if at == |data| then at else if data[at] == NEWLINE then at + 1 else LineEnd(data, at + 1)
  }

  /** `readline()` at a position. */
  function LineAt(data: Bytes, at: nat): (line: Bytes)
    requires at <= |data|
  {
    data[at..LineEnd(data, at)]
  }

  /** Whether the line at a position ends in a newline. */
  predicate CompleteAt(data: Bytes, at: nat)
    requires at <= |data|
  {
    at < |data| && data[LineEnd(data, at) - 1] == NEWLINE
  }

  /** An offset where a line may start. */
  predicate Boundary(data: Bytes, at: nat) {
    at <= |data| && (at == 0 || data[at - 1] == NEWLINE)
  }

  /** The alert of a line, if it decodes. */
  function AlertOf(line: Bytes, decode: Bytes -> Option<Alert>): (a: seq<Alert>)
    ensures |a| <= 1
  {
    match decode(line) case Some(a) => [a] case None => []
  }

  /** The alerts of the complete lines from `i` that end by `j`, in order. */
  function Between(data: Bytes, i: nat, j: nat, decode: Bytes -> Option<Alert>): seq<Alert>
    decreases |data| - i
  {
    if i >= j || j > |data| || LineEnd(data, i) > j || !CompleteAt(data, i) then []
    else AlertOf(LineAt(data, i), decode) + Between(data, LineEnd(data, i), j, decode)
  }

  /** The alerts of a whole file. */
  function Decoded(data: Bytes, decode: Bytes -> Option<Alert>): seq<Alert> {
    Between(data, 0, |data|, decode)
  }

  /** A line ends no later than any boundary behind its start. */
  lemma {:induction false} LineEndsByBoundary(data: Bytes, i: nat, j: nat)
    requires i < j && Boundary(data, j)
    ensures LineEnd(data, i) <= j && CompleteAt(data, i)
    decreases j - i
  {
    if data[i] != NEWLINE { LineEndsByBoundary(data, i + 1, j); }
  }

  lemma {:induction false} BetweenSplits(data: Bytes, i: nat, j: nat, k: nat, decode: Bytes -> Option<Alert>)
    requires i <= j <= k <= |data| && Boundary(data, j)
    ensures Between(data, i, k, decode) == Between(data, i, j, decode) + Between(data, j, k, decode)
    decreases j - i
  {
    if i < j {
      LineEndsByBoundary(data, i, j);
      BetweenSplits(data, LineEnd(data, i), j, k, decode);
    }
  }

  /** Reading one more complete line. */
  lemma BetweenOneLine(data: Bytes, i: nat, j: nat, decode: Bytes -> Option<Alert>)
    requires i <= j <= |data| && Boundary(data, j) && CompleteAt(data, j)
    ensures var k := LineEnd(data, j);
            Boundary(data, k) && Between(data, i, k, decode) == Between(data, i, j, decode) + AlertOf(LineAt(data, j), decode)
  {
    var k := LineEnd(data, j);
    BetweenSplits(data, i, j, k, decode);
    assert Between(data, k, k, decode) == [];
  }

  /** An unfinished tail holds no alert. */
  lemma UnfinishedTail(data: Bytes, i: nat, decode: Bytes -> Option<Alert>)
    requires i <= |data| && !CompleteAt(data, i)
    ensures Between(data, i, |data|, decode) == []
  {
  }

  /** Growth does not move the end of a complete line. */
  lemma {:induction false} LineEndAfterGrowth(data: Bytes, more: Bytes, i: nat)
    requires i < |data|
    ensures CompleteAt(data, i) ==> LineEnd(data + more, i) == LineEnd(data, i) && CompleteAt(data + more, i)
    ensures !CompleteAt(data, i) ==> LineEnd(data + more, i) > |data| || !CompleteAt(data + more, i)
    decreases |data| - i
  {
    if data[i] != NEWLINE && i + 1 < |data| { LineEndAfterGrowth(data, more, i + 1); }
  }

  /** Growth changes nothing before the old end. */
  lemma {:induction false} BetweenAfterGrowth(data: Bytes, more: Bytes, i: nat, j: nat, decode: Bytes -> Option<Alert>)
    requires j <= |data|
    ensures Between(data + more, i, j, decode) == Between(data, i, j, decode)
    decreases |data| - i
  {
    if i < j {
      LineEndAfterGrowth(data, more, i);
      if CompleteAt(data, i) && LineEnd(data, i) <= j {
        assert (data + more)[i..LineEnd(data, i)] == data[i..LineEnd(data, i)];
        BetweenAfterGrowth(data, more, LineEnd(data, i), j, decode);
      }
    }
  }

  lemma BoundaryAfterGrowth(data: Bytes, more: Bytes, i: nat)
    requires Boundary(data, i)
    ensures Boundary(data + more, i)
  {
  }

  // ---------- the lives of the process on one file ----------

  /** One process life on a file: it delivered the alerts from `start` to `end`; `torn` while its state file is empty. */
  datatype Life = Life(start: nat, end: nat, torn: bool)

  /** The lives on a file so far, the latest outermost. */
  datatype Lives = First(now: Life) | After(past: Lives, now: Life)

  predicate InFile(data: Bytes, l: Life) {
    l.start <= l.end <= |data| && Boundary(data, l.start) && Boundary(data, l.end)
  }

  /** What the next life repeats of the one before. */
  function Repeated(data: Bytes, l: Life, start: nat, decode: Bytes -> Option<Alert>): seq<Alert> {
    Between(data, start, l.end, decode)
  }

  /** How one life hands over to a next one that begins at `start`. */
  predicate HandsOver(data: Bytes, l: Life, start: nat, decode: Bytes -> Option<Alert>) {
    Boundary(data, start) && start <= l.end && if l.torn then start == 0 else |Repeated(data, l, start, decode)| <= BATCH
  }

  /** Lives from offset 0 on that hand over to each other. */
  predicate Account(data: Bytes, ls: Lives, decode: Bytes -> Option<Alert>) {
    InFile(data, ls.now) && match ls {
      case First(l) => l.start == 0
      case After(past, l) => Account(data, past, decode) && HandsOver(data, past.now, l.start, decode)
    }
  }

  /** Everything delivered, life after life. */
  function Delivered(data: Bytes, ls: Lives, decode: Bytes -> Option<Alert>): seq<Alert> {
    (match ls case First(_) => [] case After(past, _) => Delivered(data, past, decode))
    + Between(data, ls.now.start, ls.now.end, decode)
  }

  /** The furthest any life got. */
  function Furthest(ls: Lives): (top: nat)
    ensures ls.now.end <= top
  {
    match ls
    case First(l) => l.end
    case After(past, l) => var top := Furthest(past); if l.end > top then l.end else top
  }

  /** Nothing is skipped: all alerts up to the furthest point were delivered. */
  lemma {:induction false} NothingIsSkipped(data: Bytes, ls: Lives, decode: Bytes -> Option<Alert>)
    requires Account(data, ls, decode)
    ensures Furthest(ls) <= |data| && multiset(Between(data, 0, Furthest(ls), decode)) <= multiset(Delivered(data, ls, decode))
  {
    match ls {
      case First(_) =>
        assert [] + Between(data, 0, ls.now.end, decode) == Between(data, 0, ls.now.end, decode);
      case After(past, l) =>
        NothingIsSkipped(data, past, decode);
        if l.end > Furthest(past) {
          FurtherLife(data, l.start, Furthest(past), l.end, Delivered(data, past, decode), decode);
        }
    }
  }

  lemma FurtherLife(data: Bytes, start: nat, top: nat, end: nat, before: seq<Alert>, decode: Bytes -> Option<Alert>)
    requires start <= top <= end <= |data| && Boundary(data, start)
    requires multiset(Between(data, 0, top, decode)) <= multiset(before)
    ensures multiset(Between(data, 0, end, decode)) <= multiset(before + Between(data, start, end, decode))
  {
    BetweenSplits(data, 0, start, end, decode);
    BetweenSplits(data, 0, start, top, decode);
    var a, b := Between(data, 0, start, decode), Between(data, start, top, decode);
    assert multiset(a + b) == multiset(a) + multiset(b);
  }

  /** How many alerts all hand-overs together repeat. */
  function Repeats(data: Bytes, ls: Lives, decode: Bytes -> Option<Alert>): nat {
    match ls
    case First(_) => 0
    case After(past, l) => Repeats(data, past, decode) + |Repeated(data, past.now, l.start, decode)|
  }

  function Restarts(ls: Lives): nat {
    match ls case First(_) => 0 case After(past, _) => Restarts(past) + 1
  }

  /** The past lives that died with their state file empty. */
  function TornRestarts(ls: Lives): nat {
    match ls case First(_) => 0 case After(past, _) => TornRestarts(past) + if past.now.torn then 1 else 0
  }

  /** Exactly the repeated alerts are delivered twice. */
  lemma {:induction false} DeliveredCount(data: Bytes, ls: Lives, decode: Bytes -> Option<Alert>)
    requires Account(data, ls, decode)
    ensures |Delivered(data, ls, decode)| == |Between(data, 0, ls.now.end, decode)| + Repeats(data, ls, decode)
  {
    match ls {
      case First(_) =>
      case After(past, l) =>
        DeliveredCount(data, past, decode);
        BetweenSplits(data, 0, l.start, past.now.end, decode);
        BetweenSplits(data, 0, l.start, l.end, decode);
    }
  }

  /** Unless a state write was torn, each restart repeats at most one batch. */
  lemma {:induction false} RepeatsAreBounded(data: Bytes, ls: Lives, decode: Bytes -> Option<Alert>)
    requires Account(data, ls, decode) && TornRestarts(ls) == 0
    ensures Repeats(data, ls, decode) <= BATCH * Restarts(ls)
  {
    match ls {
      case First(_) =>
      case After(past, l) => RepeatsAreBounded(data, past, decode);
    }
  }

  // ---------- what is lost with a file ----------

  /** Some life delivered the line that starts here. */
  predicate Covered(ls: Lives, i: nat) {
    (ls.now.start <= i < ls.now.end) || (ls.After? && Covered(ls.past, i))
  }

  /** A complete line that is an alert starts here. */
  predicate AlertAt(data: Bytes, i: nat, decode: Bytes -> Option<Alert>) {
    Boundary(data, i) && CompleteAt(data, i) && decode(LineAt(data, i)).Some?
  }

  lemma {:induction false} CoveredIsBeforeFurthest(data: Bytes, ls: Lives, i: nat, decode: Bytes -> Option<Alert>)
    requires Account(data, ls, decode)
    ensures Covered(ls, i) <==> i < Furthest(ls)
    ensures Furthest(ls) <= |data| && Boundary(data, Furthest(ls))
  {
    if ls.After? { CoveredIsBeforeFurthest(data, ls.past, i, decode); }
  }

  /** From a line start on there is nothing to deliver exactly if no alert starts there or later. */
  lemma {:induction false} NothingBehind(data: Bytes, j: nat, decode: Bytes -> Option<Alert>)
    requires Boundary(data, j)
    ensures Between(data, j, |data|, decode) == [] <==> forall i: nat | j <= i && AlertAt(data, i, decode) :: false
    decreases |data| - j
  {
    if j < |data| && CompleteAt(data, j) {
      var k := LineEnd(data, j);
      NothingBehind(data, k, decode);
      assert AlertAt(data, j, decode) <==> AlertOf(LineAt(data, j), decode) != [];
      NextLineAfter(data, j);
      assert forall i: nat | j < i && AlertAt(data, i, decode) :: k <= i;
    } else {
      NothingBehindTail(data, j, decode);
    }
  }

  lemma NextLineAfter(data: Bytes, j: nat)
    requires j < |data|
    ensures forall i: nat | j < i && Boundary(data, i) :: LineEnd(data, j) <= i
  {
    forall i: nat | j < i && Boundary(data, i) ensures LineEnd(data, j) <= i {
      LineEndsByBoundary(data, j, i);
    }
  }

  lemma NothingBehindTail(data: Bytes, j: nat, decode: Bytes -> Option<Alert>)
    requires Boundary(data, j) && !CompleteAt(data, j)
    ensures Between(data, j, |data|, decode) == [] && forall i: nat | j <= i && AlertAt(data, i, decode) :: false
  {
    forall i: nat | j <= i && AlertAt(data, i, decode) ensures false {
      if j < i { LineEndsByBoundary(data, j, i); }
    }
  }

  /**
   When a file is gone, every alert in it was delivered by some life if and only if none is left behind
   the furthest point that any life had reached.
   */
  lemma NothingLost(data: Bytes, ls: Lives, decode: Bytes -> Option<Alert>)
    requires Account(data, ls, decode)
    ensures (forall i: nat | AlertAt(data, i, decode) :: Covered(ls, i)) <==> Between(data, Furthest(ls), |data|, decode) == []
  {
    hide AlertAt, Between;
    forall i: nat ensures Covered(ls, i) <==> i < Furthest(ls) {
      CoveredIsBeforeFurthest(data, ls, i, decode);
    }
    CoveredIsBeforeFurthest(data, ls, 0, decode);
    NothingBehind(data, Furthest(ls), decode);
  }

  // ---------- how an account changes ----------

  /** The same lives, the latest ended elsewhere. */
  function GoOn(ls: Lives, end: nat, torn: bool): Lives {
    match ls
    case First(l) => First(Life(l.start, end, torn))
    case After(past, l) => After(past, Life(l.start, end, torn))
  }

  lemma GoesOnInFile(data: Bytes, l: Life, end: nat, torn: bool)
    requires InFile(data, l) && l.end <= end <= |data| && Boundary(data, end)
    ensures InFile(data, Life(l.start, end, torn))
  {
  }

  lemma AppendAgain(a: seq<Alert>, b: seq<Alert>, c: seq<Alert>)
    ensures a + (b + c) == a + b + c
  {
  }

  lemma LastLifeGoesOn(data: Bytes, ls: Lives, end: nat, torn: bool, decode: Bytes -> Option<Alert>)
    requires Account(data, ls, decode) && ls.now.end <= end <= |data| && Boundary(data, end)
    ensures Account(data, GoOn(ls, end, torn), decode)
    ensures Delivered(data, GoOn(ls, end, torn), decode)
         == Delivered(data, ls, decode) + Between(data, ls.now.end, end, decode)
  {
    GoesOnInFile(data, ls.now, end, torn);
    BetweenSplits(data, ls.now.start, ls.now.end, end, decode);
    var a, b := Between(data, ls.now.start, ls.now.end, decode), Between(data, ls.now.end, end, decode);
    AppendAgain(match ls case First(_) => [] case After(past, _) => Delivered(data, past, decode), a, b);
  }

  lemma NextLife(data: Bytes, ls: Lives, start: nat, decode: Bytes -> Option<Alert>)
    requires Account(data, ls, decode) && HandsOver(data, ls.now, start, decode)
    ensures Account(data, After(ls, Life(start, start, false)), decode)
    ensures Delivered(data, After(ls, Life(start, start, false)), decode) == Delivered(data, ls, decode)
  {
  }

  lemma {:induction false} AccountAfterGrowth(data: Bytes, more: Bytes, ls: Lives, decode: Bytes -> Option<Alert>)
    requires Account(data, ls, decode)
    ensures Account(data + more, ls, decode) && Delivered(data + more, ls, decode) == Delivered(data, ls, decode)
  {
    BetweenAfterGrowth(data, more, ls.now.start, ls.now.end, decode);
    BoundaryAfterGrowth(data, more, ls.now.start);
    BoundaryAfterGrowth(data, more, ls.now.end);
    if ls.After? {
      AccountAfterGrowth(data, more, ls.past, decode);
      BetweenAfterGrowth(data, more, ls.now.start, ls.past.now.end, decode);
    }
  }

  lemma FreshAccount(data: Bytes, decode: Bytes -> Option<Alert>)
    ensures Account(data, First(Life(0, 0, false)), decode) && Delivered(data, First(Life(0, 0, false)), decode) == []
  {
  }
}
