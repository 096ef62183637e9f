/** Reassembly and downloads of one message id, among the datagrams of any number of others. */
module DnsInterleaving {
  import opened Text
  import opened DnsTunnel
  import opened DnsTunnelTheorems
  import opened DnsServer

  // ---------- reassembly ----------

  /** What a whole message, brought by A requests, is answered; `known` says whether an upload was asked for. */
  function WholeDue(kind: MessageType, known: bool, message: Bytes): Outcome {
    match kind
    case InstructionDownload | PayloadFilenameDownload | PayloadDataDownload => Refused
    case FileUploadData => if known then Process(kind, message) else Refused
    case _ => Process(kind, message)
  }

  /** What an event is answered when the pieces in `seen` have arrived since the last whole message. */
  function Due(seen: set<nat>, known: bool, e: Event, kind: MessageType, pieces: seq<Bytes>): Outcome {
    match e
    case Ask(_, _) => if Finishes(seen, e, |pieces|) then WholeDue(kind, known, Flat(pieces)) else SendMore
    case GaveUp => Refused
    case _ => Ready
  }

  function AllDue(seen: set<nat>, known: bool, es: seq<Event>, kind: MessageType, pieces: seq<Bytes>): (r: seq<Outcome>)
    ensures |r| == |es|
    decreases |es|
  {
    if es == [] then []
    else [Due(seen, known, es[0], kind, pieces)]
         + AllDue(Seen(seen, es[0], |pieces|), known || es[0].UploadAsked?, es[1..], kind, pieces)
  }

  lemma AnswerIsDue(c: Client, e: Event, kind: MessageType, pieces: seq<Bytes>, seen: set<nat>)
    requires pieces != [] && (forall p | p in pieces :: p != []) && Tracks(c, kind, pieces, seen) && Carries(e, kind, pieces)
    ensures Step(c, e).1 == Due(seen, c.upload.Some?, e, kind, pieces)
    ensures Step(c, e).0.upload.Some? == (c.upload.Some? || e.UploadAsked?)
  {
    hide AddChunk, Flat, Export, Receiver, All;
    if e.Ask? {
      var index := e.reading.index;
      var at := Place(|pieces|, index).value;
      var m := Receiver(c, kind, |pieces|);
      ReceiverHolds(c, kind, pieces, seen);
      AddHolds(m, kind, pieces, seen, index);
      var added := AddChunk(m, index, pieces[at]).value;
      FullBySize(seen + {at}, |pieces|);
      if seen + {at} == All(|pieces|) {
        FullExports(added.chunks, pieces);
      }
    }
  }

  lemma {:induction false} AnswersAreDue(c: Client, es: seq<Event>, kind: MessageType, pieces: seq<Bytes>, seen: set<nat>)
    requires pieces != [] && (forall p | p in pieces :: p != []) && Tracks(c, kind, pieces, seen)
    requires forall e | e in es :: Carries(e, kind, pieces)
    ensures Run(c, es).1 == AllDue(seen, c.upload.Some?, es, kind, pieces)
    decreases |es|
  {
    hide Tracks, Carries, Due, Seen, Step;
    if es != [] {
      assert es[0] in es;
      TrackStep(c, es[0], kind, pieces, seen);
      AnswerIsDue(c, es[0], kind, pieces, seen);
      AnswersAreDue(Step(c, es[0]).0, es[1..], kind, pieces, Seen(seen, es[0], |pieces|));
    }
  }

  lemma NothingSeen(c: Client, kind: MessageType, pieces: seq<Bytes>)
    requires c.message.None? && pieces != []
    ensures Tracks(c, kind, pieces, {})
  {
    assert 0 in All(|pieces|);
  }

  /**
   Among any datagrams of any ids: if the requests of one id carry the non-empty pieces of a message, in
   any order and with repetitions, then each of them is answered "send more", except the ones with which
   all pieces have arrived. These hand the whole message, exactly, to processing; upload data that nobody
   announced, and downloads asked for by A requests, are refused.
   */
  lemma InterleavedReassembly(s: State, ds: seq<Datagram>, to: Settings, id: string, kind: MessageType, pieces: seq<Bytes>)
    requires pieces != [] && (forall p | p in pieces :: p != []) && Lookup(s, id).message.None?
    requires forall e | e in EventsOf(ds, id, to) :: Carries(e, kind, pieces)
    ensures AnswersTo(ds, HandleAll(s, ds, to).1, id, to) == AllDue({}, Lookup(s, id).upload.Some?, EventsOf(ds, id, to), kind, pieces)
  {
    hide AllDue, Carries, Tracks, HandleAll, EventsOf, AnswersTo, Run;
    NothingSeen(Lookup(s, id), kind, pieces);
    IdsAreIndependent(s, ds, id, to);
    AnswersAreDue(Lookup(s, id), EventsOf(ds, id, to), kind, pieces, {});
  }

  // ---------- downloads ----------

  /** The texts from a repository among some answers. */
  function TextsIn(outcomes: seq<Outcome>, repo: Repo): seq<Bytes> {
    if outcomes == [] then []
    else (if outcomes[0].Text? && outcomes[0].repo == repo then [outcomes[0].text] else []) + TextsIn(outcomes[1..], repo)
  }

  lemma {:induction false} TextsAreAnswers(c: Client, es: seq<Event>, repo: Repo)
    ensures TextsIn(Run(c, es).1, repo) == Texts(c, es, repo)
    decreases |es|
  {
    hide Step;
    if es != [] { TextsAreAnswers(Step(c, es[0]).0, es[1..], repo); }
  }

  /**
   Among any datagrams of any ids: until something new is stored for an id, the TXT answers it gets from
   a fresh entry are the stored data, in order, complete if and only if the entry is gone.
   */
  lemma InterleavedDownload(s: State, ds: seq<Datagram>, to: Settings, id: string, repo: Repo, data: Contents)
    requires Cell(Lookup(s, id), repo) == Some(Stored(data, 0))
    requires forall e | e in EventsOf(ds, id, to) :: !StoresTo(e, repo)
    ensures var (last, outcomes) := HandleAll(s, ds, to);
            var ts := TextsIn(AnswersTo(ds, outcomes, id, to), repo); var gone := Cell(Lookup(last, id), repo).None?;
            && Stripped(ts) <= data && |ts| <= Replies(|data|) && (forall t | t in ts :: 2 <= |t| <= 255)
            && (gone <==> Stripped(ts) == data) && (gone <==> |ts| == Replies(|data|))
            && forall i | 0 <= i < |ts| :: ts[i][|ts[i]| - 1] == if i == Replies(|data|) - 1 then 0x2c else 0x2e
  {
    hide HandleAll, EventsOf, AnswersTo, Run, TextsIn, Texts, Stripped, StoresTo, Cell, Replies;
    IdsAreIndependent(s, ds, id, to);
    TextsAreAnswers(Lookup(s, id), EventsOf(ds, id, to), repo);
    Download(Lookup(s, id), EventsOf(ds, id, to), repo, data);
  }
}
