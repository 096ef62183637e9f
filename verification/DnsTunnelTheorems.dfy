/** Whole runs of the DNS tunnel: what reassembly exports, what downloads deliver. */
module DnsTunnelTheorems {
  import opened Text
  import opened DnsTunnel

  // ---------- reassembly ----------

  function Flat(pieces: seq<Bytes>): Bytes {
    if pieces == [] then [] else pieces[0] + Flat(pieces[1..])
  }

  /** The message an event exports, if any. */
  function ExportOf(c: Client, e: Event): Option<Bytes> {
    if e.Ask? && e.reading.Chunk? then
      var Chunk(kind, index, total, contents) := e.reading;
      var m := Receiver(c, kind, total);
      var added := AddChunk(m, index, contents);
      if m.kind == kind && added.Ok? && (IsComplete(added.value) || e.txt) && Export(added.value.chunks).Ok? then
        Some(Export(added.value.chunks).value)
      else None
    else None
  }

  function Exports(c: Client, es: seq<Event>): (r: seq<Option<Bytes>>)
    ensures |r| == |es|
    decreases |es|
  {
    if es == [] then [] else [ExportOf(c, es[0])] + Exports(Step(c, es[0]).0, es[1..])
  }

  /** An A request with one piece of a message, or an event that is not a request. */
  predicate Carries(e: Event, kind: MessageType, pieces: seq<Bytes>) {
    e.Ask? ==>
      && !e.txt && e.reading.Chunk? && e.reading.kind == kind && e.reading.total == |pieces|
      && var at := Place(|pieces|, e.reading.index); at.Some? && e.reading.contents == pieces[at.value]
  }

  /** The indices of n pieces. */
  function All(n: nat): (s: set<nat>)
    ensures |s| == n && forall k :: k in s <==> 0 <= k < n
  {
    if n == 0 then {} else All(n - 1) + {n - 1}
  }

  lemma FullBySize(seen: set<nat>, n: nat)
    requires seen <= All(n)
    ensures |seen| == n <==> seen == All(n)
  {
    if seen != All(n) {
      var k :| k in All(n) && k !in seen;
      SubsetSize(seen, All(n) - {k});
    }
  }

  lemma {:induction false} SubsetSize<T>(a: set<T>, b: set<T>)
    requires a <= b
    ensures |a| <= |b|
  {
    if a != {} {
      var x :| x in a;
      SubsetSize(a - {x}, b - {x});
    }
  }

  /** An exported message is exactly what is handed on; nothing else is processed or served. */
  lemma ExportIsHandedOn(c: Client, e: Event)
    ensures var x := ExportOf(c, e);
            && (x.Some? ==> Step(c, e) == OnContents(c.(message := None), e.reading.kind, x.value, e.txt))
            && (x.None? ==> !Step(c, e).1.Process? && !Step(c, e).1.Text?)
  {
  }

  /** The simple form of reassembly: the set of pieces seen since the last complete message. */
  function Seen(seen: set<nat>, e: Event, n: nat): set<nat> {
    if !Asks(e, n) then seen else if Finishes(seen, e, n) then {} else seen + {Place(n, e.reading.index).value}
  }

  predicate Asks(e: Event, n: nat) {
    e.Ask? && e.reading.Chunk? && Place(n, e.reading.index).Some?
  }

  predicate Finishes(seen: set<nat>, e: Event, n: nat) {
    Asks(e, n) && seen + {Place(n, e.reading.index).value} == All(n)
  }

  /** What the set of pieces seen says each event exports. */
  function Deliveries(seen: set<nat>, es: seq<Event>, pieces: seq<Bytes>): (r: seq<Option<Bytes>>)
    ensures |r| == |es|
    decreases |es|
  {
    if es == [] then []
    else [if Finishes(seen, es[0], |pieces|) then Some(Flat(pieces)) else None]
         + Deliveries(Seen(seen, es[0], |pieces|), es[1..], pieces)
  }

  /** The pending message holds exactly the pieces seen. */
  predicate Tracks(c: Client, kind: MessageType, pieces: seq<Bytes>, seen: set<nat>) {
    && seen <= All(|pieces|) && seen != All(|pieces|)
    && (c.message.None? <==> seen == {})
    && (c.message.Some? ==> Holds(c.message.value, kind, pieces, seen))
  }

  predicate Holds(m: Message, kind: MessageType, pieces: seq<Bytes>, seen: set<nat>) {
    && m.kind == kind && m.required == |pieces| && m.completed == |seen| && |m.chunks| == |pieces|
    && forall k: nat | k < |pieces| :: m.chunks[k] == if k in seen then Some(pieces[k]) else None
  }

  lemma {:induction false} FullExports(chunks: Chunks, pieces: seq<Bytes>)
    requires |chunks| == |pieces| && forall k | 0 <= k < |pieces| :: chunks[k] == Some(pieces[k])
    ensures Export(chunks) == Ok(Flat(pieces))
  {
    if chunks != [] { FullExports(chunks[1..], pieces[1..]); }
  }

  lemma ReceiverHolds(c: Client, kind: MessageType, pieces: seq<Bytes>, seen: set<nat>)
    requires pieces != [] && Tracks(c, kind, pieces, seen)
    ensures Holds(Receiver(c, kind, |pieces|), kind, pieces, seen)
  {
  }

  lemma AddHolds(m: Message, kind: MessageType, pieces: seq<Bytes>, seen: set<nat>, index: int)
    requires Holds(m, kind, pieces, seen) && Place(|pieces|, index).Some? && forall p | p in pieces :: p != []
    ensures var at := Place(|pieces|, index).value; var added := AddChunk(m, index, pieces[at]);
            added.Ok? && Holds(added.value, kind, pieces, seen + {at})
  {
    var at := Place(|pieces|, index).value;
    assert pieces[at] in pieces;
    if at in seen {
      assert seen + {at} == seen;
    }
  }

  lemma NothingKept(c: Client, m: Message, txt: bool)
    ensures OnComplete(c, m, txt).0.message.None?
  {
  }

  lemma TrackStep(c: Client, e: Event, kind: MessageType, pieces: seq<Bytes>, seen: set<nat>)
    requires pieces != [] && (forall p | p in pieces :: p != []) && Tracks(c, kind, pieces, seen) && Carries(e, kind, pieces)
    ensures Tracks(Step(c, e).0, kind, pieces, Seen(seen, e, |pieces|))
    ensures ExportOf(c, e) == if Finishes(seen, e, |pieces|) then Some(Flat(pieces)) else None
  {
    hide AddChunk, OnComplete, Flat, Export, Receiver, All;
    assert 0 in All(|pieces|);
    if e.Ask? {
      var index := e.reading.index;
      var at := Place(|pieces|, index).value;
      var m := Receiver(c, kind, |pieces|);
      ReceiverHolds(c, kind, pieces, seen);
      AddHolds(m, kind, pieces, seen, index);
      var added := AddChunk(m, index, pieces[at]).value;
      FullBySize(seen + {at}, |pieces|);
      NothingKept(c, added, false);
      if seen + {at} == All(|pieces|) {
        FullExports(added.chunks, pieces);
      }
    }
  }

  /**
   Reassembly, for every run: whatever the order and the repetitions of a message's non-empty pieces,
   each event exports exactly what the set of pieces seen says: the whole message when the last missing
   piece arrives, and nothing otherwise.
   */
  lemma {:induction false} Reassembly(c: Client, es: seq<Event>, kind: MessageType, pieces: seq<Bytes>, seen: set<nat>)
    requires pieces != [] && (forall p | p in pieces :: p != []) && Tracks(c, kind, pieces, seen)
    requires forall e | e in es :: Carries(e, kind, pieces)
    ensures Exports(c, es) == Deliveries(seen, es, pieces)
    decreases |es|
  {
    hide Tracks, Carries, Finishes, Seen, ExportOf, Step;
    if es != [] {
      assert es[0] in es;
      TrackStep(c, es[0], kind, pieces, seen);
      Reassembly(Step(c, es[0]).0, es[1..], kind, pieces, Seen(seen, es[0], |pieces|));
    }
  }

  // ---------- downloads ----------

  predicate StoresTo(e: Event, repo: Repo) {
    match repo
    case Instructions => e.BeaconDone?
    case _ => e.PayloadDone?
  }

  /** The texts that a run serves from a repository. */
  function Texts(c: Client, es: seq<Event>, repo: Repo): seq<Bytes>
    decreases |es|
  {
    if es == [] then []
    else
      var (next, outcome) := Step(c, es[0]);
      (if outcome.Text? && outcome.repo == repo then [outcome.text] else []) + Texts(next, es[1..], repo)
  }

  function Bare(text: Bytes): Bytes {
    if text == [] then [] else text[..|text| - 1]
  }

  /** The data bytes of the texts, without their suffixes. */
  function Stripped(texts: seq<Bytes>): Bytes {
    if texts == [] then [] else Bare(texts[0]) + Stripped(texts[1..])
  }

  /** What is still to be served, as the texts that serve it. */
  function TextsOf(rest: Bytes): (ts: seq<Bytes>)
    ensures ts != []
    decreases |rest|
  {
    if |rest| <= PER_REPLY then [rest + [LAST]] else [rest[..PER_REPLY] + [MORE]] + TextsOf(rest[PER_REPLY..])
  }

  function Unread(s: Stored): Bytes {
    if s.offset <= |s.data| then s.data[s.offset..] else []
  }

  /** An event that neither stores to a repository nor serves from it leaves it alone. */
  lemma CellAfter(c: Client, e: Event, repo: Repo)
    requires !StoresTo(e, repo)
    ensures var (next, outcome) := Step(c, e);
            (!(outcome.Text? && outcome.repo == repo) ==>
               Cell(next, repo) == Cell(c, repo))
            && (outcome.Text? && outcome.repo == repo ==>
                 Cell(c, repo).Some? && (next, outcome) == Serve(c.(message := None), repo))
  {
  }

  lemma ServeOnce(c: Client, repo: Repo)
    requires Cell(c, repo).Some? && !Exhausted(Cell(c, repo).value)
    ensures var s := Cell(c, repo).value; var (next, outcome) := Serve(c, repo);
            && outcome.Text? && outcome.repo == repo
            && (|Unread(s)| <= PER_REPLY ==> Cell(next, repo).None? && TextsOf(Unread(s)) == [outcome.text])
            && (|Unread(s)| > PER_REPLY ==>
                  Cell(next, repo).Some? && Cell(next, repo).value.data == s.data && !Exhausted(Cell(next, repo).value)
                  && TextsOf(Unread(s)) == [outcome.text] + TextsOf(Unread(Cell(next, repo).value)))
  {
    var s := Cell(c, repo).value;
    if |Unread(s)| > PER_REPLY {
      assert Unread(s)[PER_REPLY..] == s.data[s.offset + PER_REPLY..];
      assert Unread(s)[..PER_REPLY] == s.data[s.offset..s.offset + PER_REPLY];
    } else {
      assert s.data[s.offset..|s.data|] == Unread(s);
    }
  }

  lemma NothingStored(c: Client, es: seq<Event>, repo: Repo)
    requires Cell(c, repo).None? && forall e | e in es :: !StoresTo(e, repo)
    ensures Texts(c, es, repo) == [] && Cell(Run(c, es).0, repo).None?
    decreases |es|
  {
    hide Step;
    if es != [] {
      assert es[0] in es;
      CellAfter(c, es[0], repo);
      NothingStored(Step(c, es[0]).0, es[1..], repo);
    }
  }

  /** `texts` are the first ones of those due, and `last` is the entry that the others are left in. */
  predicate ServedSoFar(texts: seq<Bytes>, due: seq<Bytes>, last: Option<Stored>, data: Bytes) {
    && texts <= due && (last.None? <==> texts == due)
    && (last.Some? ==> last.value.data == data && due == texts + TextsOf(Unread(last.value)))
  }

  lemma OneMoreServed(text: Bytes, texts: seq<Bytes>, due: seq<Bytes>, last: Option<Stored>, data: Bytes)
    requires ServedSoFar(texts, due, last, data)
    ensures ServedSoFar([text] + texts, [text] + due, last, data)
  {
    hide TextsOf, Unread;
    if last.Some? {
      assert [text] + (texts + TextsOf(Unread(last.value))) == [text] + texts + TextsOf(Unread(last.value));
    }
    assert ([text] + texts)[1..] == texts && ([text] + due)[1..] == due;
  }

  lemma AllServed(text: Bytes, data: Bytes)
    ensures ServedSoFar([text] + [], [text], None, data)
  {
  }

  lemma NoneServed(due: seq<Bytes>, s: Stored)
    requires due == TextsOf(Unread(s))
    ensures ServedSoFar([], due, Some(s), s.data)
  {
    hide Unread;
    assert [] + due == due;
  }

  /**
   In every run in which nothing new is stored, the texts served are the first ones of the unread data,
   in order; the entry is gone exactly when all of them have been served.
   */
  lemma {:induction false} ServedInOrder(c: Client, es: seq<Event>, repo: Repo)
    requires Cell(c, repo).Some? && !Exhausted(Cell(c, repo).value) && forall e | e in es :: !StoresTo(e, repo)
    ensures var s := Cell(c, repo).value;
            ServedSoFar(Texts(c, es, repo), TextsOf(Unread(s)), Cell(Run(c, es).0, repo), s.data)
    decreases |es|
  {
    hide Step, StoresTo, TextsOf, Unread, Serve, Exhausted, ServedSoFar, Cell;
    var s := Cell(c, repo).value;
    var due := TextsOf(Unread(s));
    if es == [] {
      NoneServed(due, s);
    } else {
      assert es[0] in es;
      var (next, outcome) := Step(c, es[0]);
      CellAfter(c, es[0], repo);
      if outcome.Text? && outcome.repo == repo {
        SameCells(c, repo);
        ServeOnce(c.(message := None), repo);
        if |Unread(s)| <= PER_REPLY {
          NothingStored(next, es[1..], repo);
          AllServed(outcome.text, s.data);
        } else {
          ServedInOrder(next, es[1..], repo);
          OneMoreServed(outcome.text, Texts(next, es[1..], repo), TextsOf(Unread(Cell(next, repo).value)),
                        Cell(Run(c, es).0, repo), s.data);
        }
      } else {
        ServedInOrder(next, es[1..], repo);
        assert [] + Texts(next, es[1..], repo) == Texts(next, es[1..], repo);
      }
    }
  }

  lemma SameCells(c: Client, repo: Repo)
    ensures Cell(c.(message := None), repo) == Cell(c, repo)
  {
  }

  /** The number of replies that `size` bytes take. */
  function Replies(size: nat): nat {
    (size + 253) / 254
  }

  lemma RepliesStep(size: nat)
    ensures 1 <= size <= PER_REPLY ==> Replies(size) == 1
    ensures size > PER_REPLY ==> Replies(size) == 1 + Replies(size - PER_REPLY)
  {
  }

  lemma MoreTexts(rest: Bytes)
    requires |rest| > PER_REPLY
    ensures var ts := TextsOf(rest);
            ts == [rest[..PER_REPLY] + [MORE]] + TextsOf(rest[PER_REPLY..]) && ts[1..] == TextsOf(rest[PER_REPLY..])
  {
  }

  lemma BareText(x: Bytes, b: Byte)
    ensures Bare(x + [b]) == x
  {
  }

  lemma {:induction false} TextsCount(rest: Bytes)
    requires rest != []
    ensures |TextsOf(rest)| == Replies(|rest|)
    decreases |rest|
  {
    hide Replies;
    RepliesStep(|rest|);
    if |rest| > PER_REPLY { TextsCount(rest[PER_REPLY..]); }
  }

  lemma {:induction false} TextsCarry(rest: Bytes)
    requires rest != []
    ensures Stripped(TextsOf(rest)) == rest
    decreases |rest|
  {
    hide Stripped, Bare;
    StrippedCons(TextsOf(rest));
    if |rest| <= PER_REPLY {
      BareText(rest, LAST);
      StrippedNone();
      assert TextsOf(rest)[1..] == [];
    } else {
      MoreTexts(rest);
      BareText(rest[..PER_REPLY], MORE);
      TextsCarry(rest[PER_REPLY..]);
    }
  }

  lemma {:induction false} TextsShape(rest: Bytes, i: nat)
    requires rest != [] && i < |TextsOf(rest)|
    ensures var ts := TextsOf(rest);
            2 <= |ts[i]| <= 255 && ts[i][|ts[i]| - 1] == if i == |ts| - 1 then 0x2c else 0x2e
    decreases |rest|
  {
    if |rest| > PER_REPLY {
      MoreTexts(rest);
      if i > 0 { TextsShape(rest[PER_REPLY..], i - 1); }
    }
  }

  /** The texts of some data: their bytes are the data, they fit a length byte, and only the last ends with a comma. */
  lemma TextsDeliver(rest: Bytes)
    requires rest != []
    ensures var ts := TextsOf(rest);
            && |ts| == Replies(|rest|) && Stripped(ts) == rest
            && (forall t | t in ts :: 2 <= |t| <= 255)
            && forall i | 0 <= i < |ts| :: ts[i][|ts[i]| - 1] == if i == |ts| - 1 then 0x2c else 0x2e
  {
    hide TextsOf, Stripped, Replies;
    TextsCount(rest);
    TextsCarry(rest);
    forall i | 0 <= i < |TextsOf(rest)|
      ensures var ts := TextsOf(rest); 2 <= |ts[i]| <= 255 && ts[i][|ts[i]| - 1] == if i == |ts| - 1 then 0x2c else 0x2e
    {
      TextsShape(rest, i);
    }
  }

  /**
   Download: from a freshly stored response, in any run that stores no other, once the entry is gone the
   texts served were exactly ceil(size / 254), each at most 255 bytes with its suffix, only the last one
   ending in a comma, and without their suffixes they are the stored data.
   */
  lemma Download(c: Client, es: seq<Event>, repo: Repo, data: Contents)
    requires Cell(c, repo) == Some(Stored(data, 0)) && forall e | e in es :: !StoresTo(e, repo)
    ensures var ts := Texts(c, es, repo);
            && |ts| <= Replies(|data|) && Stripped(ts) <= data && (forall t | t in ts :: 2 <= |t| <= 255)
            && (Cell(Run(c, es).0, repo).None? <==> |ts| == Replies(|data|))
            && (Cell(Run(c, es).0, repo).None? <==> Stripped(ts) == data)
            && forall i | 0 <= i < |ts| :: ts[i][|ts[i]| - 1] == if i == Replies(|data|) - 1 then 0x2c else 0x2e
  {
    hide Texts, TextsOf, Stripped, Run, StoresTo, Replies, Cell;
    var s := Stored(data, 0);
    assert Unread(s) == data;
    var ts, due := Texts(c, es, repo), TextsOf(data);
    ServedInOrder(c, es, repo);
    TextsDeliver(data);
    assert due == ts + due[|ts|..];
    StrippedOfAppend(ts, due[|ts|..]);
    if ts != due {
      assert due[|ts|..][0] in due;
      StrippedIsLong(due[|ts|..]);
    } else {
      assert due[|ts|..] == [];
      StrippedNone();
    }
  }

  lemma StrippedNone()
    ensures Stripped([]) == []
  {
  }

  lemma StrippedIsLong(ts: seq<Bytes>)
    requires ts != [] && |ts[0]| >= 2
    ensures Stripped(ts) != []
  {
  }

  lemma {:induction false} StrippedOfAppend(a: seq<Bytes>, b: seq<Bytes>)
    ensures Stripped(a + b) == Stripped(a) + Stripped(b)
  {
    hide Stripped, Bare;
    if a == [] {
      StrippedNone();
      assert a + b == b;
    } else {
      StrippedOfAppend(a[1..], b);
      assert (a + b)[1..] == a[1..] + b;
      StrippedCons(a + b);
      StrippedCons(a);
    }
  }

  lemma StrippedCons(ts: seq<Bytes>)
    requires ts != []
    ensures Stripped(ts) == Bare(ts[0]) + Stripped(ts[1..])
  {
    hide Bare;
  }

  /** A whole download request: one TXT chunk that is a message of its own. */
  predicate WholeRequest(e: Event, repo: Repo) {
    e.Ask? && e.txt && e.reading.Chunk? && RepoOf(e.reading.kind) == Some(repo) && e.reading.total == 1
    && (e.reading.index == 0 || e.reading.index == -1) && e.reading.contents != []
  }

  /** Asked for with nothing pending, a stored response is served, and nothing is left pending. */
  lemma RequestIsServed(c: Client, e: Event, repo: Repo)
    requires WholeRequest(e, repo) && c.message.None? && Cell(c, repo).Some? && !Exhausted(Cell(c, repo).value)
    ensures Step(c, e) == Serve(c, repo) && Step(c, e).1.Text?
  {
    var m := NewMessage(e.reading.kind, 1);
    var added := AddChunk(m, e.reading.index, e.reading.contents).value;
    assert added.chunks == [Some(e.reading.contents)];
    assert Export(added.chunks[1..]) == Ok([]);
    assert c.(message := None) == c;
  }
}
