/** What a client asks for by name, and what it is answered: reassembly and downloads over queries. */
module DnsQueries {
  import opened Text
  import opened DnsCodec
  import opened DnsTunnel
  import opened DnsTunnelTheorems
  import opened DnsServer
  import opened DnsInterleaving

  // ---------- names under a domain ----------

  /** The same letter, in whatever case. */
  predicate SameLetter(a: char, b: char) {
    a == b || ('A' <= a <= 'Z' && b as int == a as int + 32) || ('A' <= b <= 'Z' && a as int == b as int + 32)
  }

  predicate SameText(a: string, b: string) {
    |a| == |b| && forall i | 0 <= i < |a| :: SameLetter(a[i], b[i])
  }

  /** A name that is the domain or ends in a dot and the domain, in whatever case. */
  predicate Under(labels: seq<string>, domain: string) {
    var name := Join(labels, ".");
    var k := |name| - |domain|;
    k >= 0 && SameText(name[k..], domain) && (k == 0 || (k > 0 && name[k - 1] == '.'))
  }

  lemma LowerIsSame(a: string, b: string)
    ensures Lower(a) == Lower(b) <==> SameText(a, b)
  {
    if SameText(a, b) {
      assert Lower(a) == Lower(b);
    } else if Lower(a) == Lower(b) {
      forall i | 0 <= i < |a| ensures SameLetter(a[i], b[i]) {
        assert Lower(a)[i] == Lower(b)[i];
      }
    }
  }

  lemma SuffixIsUnder(labels: seq<string>, domain: string)
    ensures var name := Lower(Join(labels, "."));
            name == Lower(domain) || HasSuffix(name, "." + Lower(domain)) <==> Under(labels, domain)
  {
    var name := Join(labels, ".");
    var k := |name| - |domain|;
    if k >= 0 {
      LowerIsSame(name[k..], domain);
      assert Lower(name)[k..] == Lower(name[k..]);
      if k > 0 {
        assert Lower(name)[k - 1] == '.' <==> name[k - 1] == '.';
        assert Lower(name)[k - 1..] == [Lower(name)[k - 1]] + Lower(name)[k..];
        assert ("." + Lower(domain))[0] == '.' && ("." + Lower(domain))[1..] == Lower(domain);
      }
    }
  }

  /**
   Where a query goes: a foreign name is refused, an AAAA query gets any address, other types get nothing;
   every A or TXT query under the domain concerns the message id in its first label, and no other.
   */
  lemma QueryReachesItsId(s: State, q: Packet, to: Settings)
    ensures var (next, outcome) := Handle(s, Query(q), to); var under := Under(q.labels, to.domain);
            && (!under ==> next == s && outcome == Refused)
            && (under && q.kind == AAAA ==> next == s && outcome == AnyIpv6)
            && (under && (q.kind == NS || q.kind == CNAME) ==> next == s && outcome == Empty)
            && (under && (q.kind == A || q.kind == TXT) && q.labels == [] ==> next == s && outcome == Silence)
            && (under && (q.kind == A || q.kind == TXT) && q.labels != [] ==>
                  && (Lookup(next, q.labels[0]), outcome)
                     == Step(Lookup(s, q.labels[0]), Ask(q.kind == TXT, ReadLabels(q.labels, to.readers)))
                  && forall other | other != q.labels[0] :: Lookup(next, other) == Lookup(s, other))
  {
    hide Step, ReadLabels, Under;
    SuffixIsUnder(q.labels, to.domain);
  }

  // ---------- what a client writes ----------

  /** How a client writes numbers and bytes. */
  datatype Writers = Writers(number: int -> string, hex: Bytes -> string)

  /** The server reads back what was written. */
  ghost predicate ReadBy(w: Writers, r: Readers) {
    (forall i: int :: r.intOf(w.number(i)) == Some(i)) && forall b: Bytes :: r.hexOf(w.hex(b)) == Some(b)
  }

  function Tag(kind: MessageType): string {
    match kind
    case Beacon => "be"
    case InstructionDownload => "id"
    case PayloadRequest => "pr"
    case PayloadFilenameDownload => "pf"
    case PayloadDataDownload => "pd"
    case FileUploadRequest => "ur"
    case FileUploadData => "ud"
  }

  /** A client with an id, under a domain. */
  datatype Sender = Sender(id: string, domain: seq<string>, writers: Writers)

  /** id.type.index.total.data.domain */
  function Name(who: Sender, kind: MessageType, index: int, total: int, data: Bytes): seq<string> {
    [who.id, Tag(kind), who.writers.number(index), who.writers.number(total), who.writers.hex(data)] + who.domain
  }

  ghost predicate Serves(to: Settings, who: Sender) {
    ReadBy(who.writers, to.readers) && who.domain != [] && SameText(Join(who.domain, "."), to.domain)
  }

  lemma {:induction false} JoinOfAppend(a: seq<string>, b: seq<string>)
    requires a != [] && b != []
    ensures Join(a + b, ".") == Join(a, ".") + "." + Join(b, ".")
  {
    assert (a + b)[1..] == a[1..] + b;
    if |a| > 1 { JoinOfAppend(a[1..], b); }
  }

  lemma NameIsUnder(who: Sender, to: Settings, kind: MessageType, index: int, total: int, data: Bytes)
    requires Serves(to, who)
    ensures Under(Name(who, kind, index, total, data), to.domain)
  {
    hide Join, ReadBy;
    var five := [who.id, Tag(kind), who.writers.number(index), who.writers.number(total), who.writers.hex(data)];
    JoinOfAppend(five, who.domain);
  }

  lemma TagsAreRead(kind: MessageType)
    ensures TypeOf(Tag(kind)) == Some(kind)
  {
  }

  /** A name is read as the chunk it was written for. */
  lemma NameIsRead(who: Sender, to: Settings, kind: MessageType, index: int, total: int, data: Bytes)
    requires Serves(to, who)
    ensures ReadLabels(Name(who, kind, index, total, data), to.readers) == Chunk(kind, index, total, data)
  {
    hide TypeOf, Tag;
    TagsAreRead(kind);
  }

  /** Whether a label behind the id can be read: the type, two numbers, the data. */
  predicate Readable(text: string, k: nat, readers: Readers) {
    match k
    case 1 => text in {"be", "id", "pr", "pf", "pd", "ur", "ud"}
    case 2 => readers.intOf(text).Some?
    case 3 => readers.intOf(text).Some?
    case _ => readers.hexOf(text).Some?
  }

  /**
   Of the four labels behind the id the first that is missing or cannot be read decides: the query is
   dropped or refused, and nothing changes.
   */
  lemma FirstFaultDecides(s: State, q: Packet, to: Settings, k: nat)
    requires Under(q.labels, to.domain) && (q.kind == A || q.kind == TXT) && 1 <= k <= 4 && k <= |q.labels|
    requires forall j | 1 <= j < k :: Readable(q.labels[j], j, to.readers)
    requires k < |q.labels| ==> !Readable(q.labels[k], k, to.readers)
    ensures var (next, outcome) := Handle(s, Query(q), to);
            && outcome == (if k == |q.labels| then Silence else Refused)
            && forall id :: Lookup(next, id) == Lookup(s, id)
  {
    hide Under, Handle;
    QueryReachesItsId(s, q, to);
    if k > 1 { assert Readable(q.labels[1], 1, to.readers); }
    if k > 2 { assert Readable(q.labels[2], 2, to.readers); }
    if k > 3 { assert Readable(q.labels[3], 3, to.readers); }
  }

  /** A query of that name, of type TXT or A. */
  predicate Asks(d: Datagram, who: Sender, txt: bool, kind: MessageType, index: int, total: int, data: Bytes) {
    d.Query? && d.q.kind == (if txt then TXT else A) && d.q.labels == Name(who, kind, index, total, data)
  }

  /** A datagram that no client of that id sends: another id, a foreign name or type, or the end of some processing. */
  predicate NotFrom(d: Datagram, id: string, to: Settings) {
    match d
    case Query(q) => q.labels == [] || q.labels[0] != id || (q.kind != A && q.kind != TXT) || !Under(q.labels, to.domain)
    case Ended(_, how) => !how.Ask?
  }

  lemma AskIsHandled(s: State, d: Datagram, to: Settings, who: Sender, txt: bool, kind: MessageType, index: int, total: int, data: Bytes)
    requires Serves(to, who) && Asks(d, who, txt, kind, index, total, data)
    ensures (Lookup(Handle(s, d, to).0, who.id), Handle(s, d, to).1)
         == Step(Lookup(s, who.id), Ask(txt, Chunk(kind, index, total, data)))
  {
    hide Step, Under, Handle, ReadLabels, Serves;
    NameIsUnder(who, to, kind, index, total, data);
    NameIsRead(who, to, kind, index, total, data);
    QueryReachesItsId(s, d.q, to);
  }

  /** The event that a datagram from elsewhere is for an id, if any. */
  function EndFor(d: Datagram, id: string): Option<Event> {
    if d.Ended? && d.id == id then Some(d.how) else None
  }

  lemma OthersAreHandled(s: State, d: Datagram, to: Settings, id: string)
    requires NotFrom(d, id, to)
    ensures Lookup(Handle(s, d, to).0, id)
         == match EndFor(d, id) case Some(e) => Step(Lookup(s, id), e).0 case None => Lookup(s, id)
  {
    hide Step, Under, ReadLabels;
    match d {
      case Query(q) => QueryReachesItsId(s, q, to);
      case Ended(_, _) =>
    }
  }

  // ---------- runs by position ----------

  function After(s: State, ds: seq<Datagram>, to: Settings): State {
    HandleAll(s, ds, to).0
  }

  lemma {:induction false} AnswerAt(s: State, ds: seq<Datagram>, to: Settings, n: nat)
    requires n < |ds|
    ensures HandleAll(s, ds, to).1[n] == Handle(After(s, ds[..n], to), ds[n], to).1
    ensures After(s, ds[..n + 1], to) == Handle(After(s, ds[..n], to), ds[n], to).0
    decreases |ds|
  {
    hide Handle;
    var next := Handle(s, ds[0], to).0;
    assert ds[..n + 1][1..] == ds[1..][..n];
    if n == 0 {
      assert ds[..0] == [] && ds[..1][1..] == [];
      assert HandleAll(next, [], to) == (next, []);
    } else {
      assert ds[..n][1..] == ds[1..][..n - 1];
      AnswerAt(next, ds[1..], to, n - 1);
    }
  }

  // ---------- reassembly ----------

  /** `sent[n]` is the piece that the n-th datagram carries, if it is one of the client's. */
  predicate Sending(ds: seq<Datagram>, sent: seq<Option<nat>>, who: Sender, to: Settings, kind: MessageType, pieces: seq<Bytes>) {
    |sent| == |ds| && forall n | 0 <= n < |ds| ::
      match sent[n]
      case Some(i) => i < |pieces| && Asks(ds[n], who, false, kind, i, |pieces|, pieces[i])
      case None => NotFrom(ds[n], who.id, to)
  }

  /** The pieces sent since the last time all of them had been. */
  function Collected(sent: seq<Option<nat>>, total: nat): set<nat> {
    if sent == [] then {}
    else
      var before := Collected(sent[..|sent| - 1], total);
      match sent[|sent| - 1]
      case None => before
      case Some(i) => if before + {i} == All(total) then {} else before + {i}
  }

  /** An upload has been asked for under the id. */
  predicate UploadKnown(c: Client, ds: seq<Datagram>, id: string) {
    c.upload.Some? || exists n :: 0 <= n < |ds| && ds[n].Ended? && ds[n].id == id && ds[n].how.UploadAsked?
  }

  lemma CollectedNext(sent: seq<Option<nat>>, n: nat, total: nat)
    requires n < |sent|
    ensures var before := Collected(sent[..n], total);
            Collected(sent[..n + 1], total)
            == match sent[n] case None => before case Some(i) => if before + {i} == All(total) then {} else before + {i}
  {
    assert sent[..n + 1][..n] == sent[..n];
  }

  lemma KnownNext(c: Client, ds: seq<Datagram>, n: nat, id: string)
    requires n < |ds|
    ensures UploadKnown(c, ds[..n + 1], id)
       <==> UploadKnown(c, ds[..n], id) || (ds[n].Ended? && ds[n].id == id && ds[n].how.UploadAsked?)
  {
    if UploadKnown(c, ds[..n], id) && c.upload.None? {
      var k :| 0 <= k < n && ds[..n][k].Ended? && ds[..n][k].id == id && ds[..n][k].how.UploadAsked?;
      assert ds[..n + 1][k] == ds[..n][k];
    }
    if ds[n].Ended? && ds[n].id == id && ds[n].how.UploadAsked? {
      assert ds[..n + 1][n] == ds[n];
    }
  }

  /** The pending message holds the pieces collected, and the upload is known if it was asked for. */
  predicate UpToDate(c: Client, known: bool, kind: MessageType, pieces: seq<Bytes>, collected: set<nat>) {
    Tracks(c, kind, pieces, collected) && (c.upload.Some? <==> known)
  }

  /** One piece of the message arrives. */
  lemma PieceArrives(c: Client, known: bool, kind: MessageType, pieces: seq<Bytes>, collected: set<nat>, i: nat)
    requires i < |pieces| && (forall p | p in pieces :: p != []) && UpToDate(c, known, kind, pieces, collected)
    ensures var (next, outcome) := Step(c, Ask(false, Chunk(kind, i, |pieces|, pieces[i])));
            var all := collected + {i} == All(|pieces|);
            && UpToDate(next, known, kind, pieces, if all then {} else collected + {i})
            && outcome == if all then WholeDue(kind, known, Flat(pieces)) else SendMore
  {
    hide Step, Tracks, Flat, WholeDue;
    var e := Ask(false, Chunk(kind, i, |pieces|, pieces[i]));
    TrackStep(c, e, kind, pieces, collected);
    AnswerIsDue(c, e, kind, pieces, collected);
  }

  /** Something else happens to the id. */
  lemma OtherArrives(c: Client, known: bool, kind: MessageType, pieces: seq<Bytes>, collected: set<nat>, e: Event)
    requires !e.Ask? && pieces != [] && (forall p | p in pieces :: p != []) && UpToDate(c, known, kind, pieces, collected)
    ensures UpToDate(Step(c, e).0, known || e.UploadAsked?, kind, pieces, collected)
  {
    hide Step, Tracks, Flat;
    TrackStep(c, e, kind, pieces, collected);
    AnswerIsDue(c, e, kind, pieces, collected);
  }

  lemma {:induction false} RunIsUpToDate(s: State, ds: seq<Datagram>, sent: seq<Option<nat>>, to: Settings, who: Sender,
                                         kind: MessageType, pieces: seq<Bytes>, n: nat)
    requires Serves(to, who) && Sending(ds, sent, who, to, kind, pieces) && n <= |ds|
    requires pieces != [] && (forall p | p in pieces :: p != []) && Lookup(s, who.id).message.None?
    ensures UpToDate(Lookup(After(s, ds[..n], to), who.id), UploadKnown(Lookup(s, who.id), ds[..n], who.id), kind, pieces,
                     Collected(sent[..n], |pieces|))
  {
    hide Serves, Asks, NotFrom, Step, UpToDate, UploadKnown, Collected, After, Handle;
    if n == 0 {
      StartsUpToDate(s, ds, sent, to, who, kind, pieces);
    } else {
      var c := Lookup(After(s, ds[..n - 1], to), who.id);
      var known, collected := UploadKnown(Lookup(s, who.id), ds[..n - 1], who.id), Collected(sent[..n - 1], |pieces|);
      RunIsUpToDate(s, ds, sent, to, who, kind, pieces, n - 1);
      AnswerAt(s, ds, to, n - 1);
      CollectedNext(sent, n - 1, |pieces|);
      KnownNext(Lookup(s, who.id), ds, n - 1, who.id);
      match sent[n - 1] {
        case Some(i) =>
          AskIsHandled(After(s, ds[..n - 1], to), ds[n - 1], to, who, false, kind, i, |pieces|, pieces[i]);
          AskIsAQuery(ds[n - 1], who, false, kind, i, |pieces|, pieces[i]);
          PieceArrives(c, known, kind, pieces, collected, i);
        case None =>
          OthersAreHandled(After(s, ds[..n - 1], to), ds[n - 1], to, who.id);
          EndIsNoRequest(ds[n - 1], who.id, to);
          if EndFor(ds[n - 1], who.id).Some? {
            OtherArrives(c, known, kind, pieces, collected, ds[n - 1].how);
          }
      }
    }
  }

  lemma AskIsAQuery(d: Datagram, who: Sender, txt: bool, kind: MessageType, index: int, total: int, data: Bytes)
    requires Asks(d, who, txt, kind, index, total, data)
    ensures d.Query?
  {
  }

  lemma EndIsNoRequest(d: Datagram, id: string, to: Settings)
    requires NotFrom(d, id, to)
    ensures d.Ended? ==> !d.how.Ask?
  {
  }

  lemma StartsUpToDate(s: State, ds: seq<Datagram>, sent: seq<Option<nat>>, to: Settings, who: Sender,
                       kind: MessageType, pieces: seq<Bytes>)
    requires pieces != [] && Lookup(s, who.id).message.None?
    ensures UpToDate(Lookup(After(s, ds[..0], to), who.id), UploadKnown(Lookup(s, who.id), ds[..0], who.id), kind, pieces,
                     Collected(sent[..0], |pieces|))
  {
    NothingSeen(Lookup(s, who.id), kind, pieces);
    assert ds[..0] == [] && sent[..0] == [];
  }

  /**
   Reassembly over queries: a client asks for A records under the names id.type.index.total.data.domain of
   the non-empty pieces of a message, in any order and repeatedly, among any other datagrams. Each query is
   answered "send more", except the one with which all pieces have come: the whole message then goes to
   processing. Downloads, and upload data that nobody announced, are refused at that point.
   */
  lemma QueriesReassemble(s: State, ds: seq<Datagram>, sent: seq<Option<nat>>, to: Settings, who: Sender,
                          kind: MessageType, pieces: seq<Bytes>, n: nat)
    requires Serves(to, who) && Sending(ds, sent, who, to, kind, pieces) && n < |ds| && sent[n].Some?
    requires pieces != [] && (forall p | p in pieces :: p != []) && Lookup(s, who.id).message.None?
    ensures HandleAll(s, ds, to).1[n]
         == if Collected(sent[..n], |pieces|) + {sent[n].value} != All(|pieces|) then SendMore
            else if kind in {Beacon, PayloadRequest, FileUploadRequest}
                    || (kind == FileUploadData && UploadKnown(Lookup(s, who.id), ds[..n], who.id)) then Process(kind, Flat(pieces))
            else Refused
  {
    hide Serves, Asks, NotFrom, Step, UpToDate, UploadKnown, Collected, After, Handle, HandleAll, Flat;
    var i := sent[n].value;
    RunIsUpToDate(s, ds, sent, to, who, kind, pieces, n);
    AnswerAt(s, ds, to, n);
    AskIsHandled(After(s, ds[..n], to), ds[n], to, who, false, kind, i, |pieces|, pieces[i]);
    PieceArrives(Lookup(After(s, ds[..n], to), who.id), UploadKnown(Lookup(s, who.id), ds[..n], who.id), kind, pieces,
                 Collected(sent[..n], |pieces|), i);
  }

  /** Until every piece has been sent, those collected are those sent. */
  lemma {:induction false} CollectedFirst(sent: seq<Option<nat>>, total: nat)
    requires exists k: nat :: k < total && Some(k) !in sent
    ensures forall k: nat :: k in Collected(sent, total) <==> Some(k) in sent
  {
    if sent != [] {
      var front, last := sent[..|sent| - 1], sent[|sent| - 1];
      assert sent == front + [last];
      CollectedFirst(front, total);
      if last.Some? {
        var k: nat :| k < total && Some(k) !in sent;
        assert k !in Collected(front, total) + {last.value} && k in All(total);
      }
    }
  }

  /**
   The first message, piece by piece: as long as one is missing each query is answered "send more", and
   the one that brings the last missing piece hands exactly the message to processing.
   */
  lemma FirstMessage(s: State, ds: seq<Datagram>, sent: seq<Option<nat>>, to: Settings, who: Sender,
                     kind: MessageType, pieces: seq<Bytes>, n: nat)
    requires Serves(to, who) && Sending(ds, sent, who, to, kind, pieces) && n < |ds| && sent[n].Some?
    requires pieces != [] && (forall p | p in pieces :: p != []) && Lookup(s, who.id).message.None?
    ensures (exists k: nat :: k < |pieces| && Some(k) !in sent[..n + 1]) ==> HandleAll(s, ds, to).1[n] == SendMore
    ensures kind in {Beacon, PayloadRequest, FileUploadRequest} && sent[n] !in sent[..n]
            && (forall k: nat | k < |pieces| :: Some(k) in sent[..n + 1]) ==>
              HandleAll(s, ds, to).1[n] == Process(kind, Flat(pieces))
  {
    hide Serves, Asks, Sending, UploadKnown, HandleAll, Flat, Collected;
    SendingInRange(ds, sent, who, to, kind, pieces, n);
    var i := sent[n].value;
    QueriesReassemble(s, ds, sent, to, who, kind, pieces, n);
    assert sent[..n + 1] == sent[..n] + [sent[n]];
    if k: nat :| k < |pieces| && Some(k) !in sent[..n + 1] {
      CollectedFirst(sent[..n], |pieces|);
      assert k !in Collected(sent[..n], |pieces|) + {i} && k in All(|pieces|);
    } else if sent[n] !in sent[..n] {
      CollectedFirst(sent[..n], |pieces|);
      CollectedInRange(sent[..n], |pieces|);
      forall k: nat | k < |pieces| ensures k in Collected(sent[..n], |pieces|) + {i} {
        assert Some(k) in sent[..n + 1];
      }
      assert Collected(sent[..n], |pieces|) + {i} == All(|pieces|);
    }
  }

  lemma {:induction false} CollectedInRange(sent: seq<Option<nat>>, total: nat)
    requires forall j | 0 <= j < |sent| && sent[j].Some? :: sent[j].value < total
    ensures Collected(sent, total) <= All(total)
  {
    if sent != [] {
      CollectedInRange(sent[..|sent| - 1], total);
    }
  }

  lemma SendingInRange(ds: seq<Datagram>, sent: seq<Option<nat>>, who: Sender, to: Settings, kind: MessageType,
                       pieces: seq<Bytes>, n: nat)
    requires Sending(ds, sent, who, to, kind, pieces) && n < |ds|
    ensures n < |sent| && (sent[n].Some? ==> sent[n].value < |pieces|)
    ensures forall j | 0 <= j < n && sent[j].Some? :: sent[j].value < |pieces|
  {
    hide Asks, NotFrom;
  }

  // ---------- downloads ----------

  /** What the end of some processing leaves to be downloaded by requests of a type. */
  function Brings(d: Datagram, id: string, kind: MessageType): Option<Contents> {
    match EndFor(d, id)
    case Some(BeaconDone(response)) => if kind == InstructionDownload then Some(response) else None
    case Some(PayloadDone(name, contents)) =>
      if kind == PayloadFilenameDownload then Some(name) else if kind == PayloadDataDownload then Some(contents) else None
    case _ => None
  }

  predicate Downloads(kind: MessageType) {
    kind == InstructionDownload || kind == PayloadFilenameDownload || kind == PayloadDataDownload
  }

  /** `asked[n]` is the type of the download that the n-th datagram asks for, if it is one of the client's. */
  ghost predicate Asking(ds: seq<Datagram>, asked: seq<Option<MessageType>>, who: Sender, to: Settings) {
    |asked| == |ds| && forall n | 0 <= n < |ds| ::
      match asked[n]
      case Some(kind) => Downloads(kind) && exists data: Bytes :: data != [] && Asks(ds[n], who, true, kind, 0, 1, data)
      case None => NotFrom(ds[n], who.id, to)
  }

  function Count(asked: seq<Option<MessageType>>, kind: MessageType): nat {
    if asked == [] then 0 else Count(asked[..|asked| - 1], kind) + if asked[|asked| - 1] == Some(kind) then 1 else 0
  }

  /** Nothing is pending, and what is stored for a type of download is what is left after `served` texts. */
  predicate Left(c: Client, kind: MessageType, data: Contents, served: nat)
    requires Downloads(kind)
  {
    var cell, due := Cell(c, RepoOf(kind).value), TextsOf(data);
    && c.message.None?
    && if served >= |due| then cell.None? else cell.Some? && !Exhausted(cell.value) && TextsOf(Unread(cell.value)) == due[served..]
  }

  lemma WholeRequestServes(c: Client, kind: MessageType, data: Bytes)
    requires c.message.None? && Downloads(kind) && data != []
    ensures Step(c, Ask(true, Chunk(kind, 0, 1, data))) == Serve(c, RepoOf(kind).value)
  {
    var m := NewMessage(kind, 1);
    var added := DnsTunnel.AddChunk(m, 0, data).value;
    assert added.chunks == [Some(data)];
    assert Export(added.chunks[1..]) == Ok([]);
    assert c.(message := None) == c;
  }

  /** A download of that type gets the next text; once there is none it is refused. */
  lemma NextText(c: Client, kind: MessageType, data: Contents, served: nat, request: Bytes)
    requires Downloads(kind) && Left(c, kind, data, served) && request != []
    ensures var (next, outcome) := Step(c, Ask(true, Chunk(kind, 0, 1, request)));
            && Left(next, kind, data, served + 1)
            && if served < |TextsOf(data)| then outcome == Text(RepoOf(kind).value, TextsOf(data)[served]) else outcome == Refused
  {
    hide Step, TextsOf, Unread, Exhausted;
    WholeRequestServes(c, kind, request);
    if served < |TextsOf(data)| {
      ServeOnce(c, RepoOf(kind).value);
      ServeKeepsMessage(c, RepoOf(kind).value);
      assert TextsOf(data)[served..][1..] == TextsOf(data)[served + 1..];
    }
  }

  lemma ServeKeepsMessage(c: Client, repo: Repo)
    ensures Serve(c, repo).0.message == c.message
    ensures forall other | other != repo :: Cell(Serve(c, repo).0, other) == Cell(c, other)
  {
  }

  /** Another type of download, or the end of some processing that brings nothing of this type. */
  lemma OtherDownload(c: Client, kind: MessageType, data: Contents, served: nat, other: MessageType, request: Bytes)
    requires Downloads(kind) && Downloads(other) && other != kind && Left(c, kind, data, served) && request != []
    ensures Left(Step(c, Ask(true, Chunk(other, 0, 1, request))).0, kind, data, served)
  {
    hide Step, TextsOf, Unread, Exhausted, Serve, Cell;
    WholeRequestServes(c, other, request);
    ServeKeepsMessage(c, RepoOf(other).value);
  }

  lemma OtherEnd(c: Client, kind: MessageType, data: Contents, served: nat, d: Datagram, id: string)
    requires Downloads(kind) && Left(c, kind, data, served) && EndFor(d, id).Some? && !d.how.Ask? && Brings(d, id, kind).None?
    ensures Left(Step(c, d.how).0, kind, data, served)
  {
    hide TextsOf, Unread, Exhausted;
  }

  /** What has just been stored is all still to be served. */
  lemma JustStored(c: Client, kind: MessageType, data: Contents, d: Datagram, id: string)
    requires Downloads(kind) && c.message.None? && Brings(d, id, kind) == Some(data)
    ensures Left(Step(c, d.how).0, kind, data, 0)
  {
    hide TextsOf;
    assert data[0..] == data && TextsOf(data)[0..] == TextsOf(data);
  }

  lemma {:induction false} RunLeaves(s: State, ds: seq<Datagram>, asked: seq<Option<MessageType>>, to: Settings, who: Sender,
                                     kind: MessageType, data: Contents, n: nat)
    requires Serves(to, who) && Asking(ds, asked, who, to) && 0 < n <= |ds| && Downloads(kind)
    requires Lookup(s, who.id).message.None? && asked[0].None? && Brings(ds[0], who.id, kind) == Some(data)
    requires forall m | 0 < m < |ds| :: Brings(ds[m], who.id, kind).None?
    ensures Left(Lookup(After(s, ds[..n], to), who.id), kind, data, Count(asked[..n], kind))
  {
    hide Serves, Asks, NotFrom, Step, Left, After, Handle, Brings, Downloads;
    AnswerAt(s, ds, to, n - 1);
    CountNext(asked, n - 1, kind);
    if n == 1 {
      FirstIsStored(s, ds, asked, to, who, kind, data);
    } else {
      var before := After(s, ds[..n - 1], to);
      var c, served := Lookup(before, who.id), Count(asked[..n - 1], kind);
      RunLeaves(s, ds, asked, to, who, kind, data, n - 1);
      match asked[n - 1] {
        case Some(other) =>
          var request: Bytes :| request != [] && Asks(ds[n - 1], who, true, other, 0, 1, request);
          AskIsHandled(before, ds[n - 1], to, who, true, other, 0, 1, request);
          if other == kind {
            NextText(c, kind, data, served, request);
          } else {
            OtherDownload(c, kind, data, served, other, request);
          }
        case None =>
          OthersAreHandled(before, ds[n - 1], to, who.id);
          EndIsNoRequest(ds[n - 1], who.id, to);
          if EndFor(ds[n - 1], who.id).Some? {
            OtherEnd(c, kind, data, served, ds[n - 1], who.id);
          }
      }
    }
  }

  lemma CountNext(asked: seq<Option<MessageType>>, n: nat, kind: MessageType)
    requires n < |asked|
    ensures Count(asked[..0], kind) == 0
    ensures Count(asked[..n + 1], kind) == Count(asked[..n], kind) + if asked[n] == Some(kind) then 1 else 0
  {
    assert asked[..n + 1][..n] == asked[..n];
  }

  lemma FirstIsStored(s: State, ds: seq<Datagram>, asked: seq<Option<MessageType>>, to: Settings, who: Sender,
                      kind: MessageType, data: Contents)
    requires Asking(ds, asked, who, to) && ds != [] && Downloads(kind)
    requires Lookup(s, who.id).message.None? && asked[0].None? && Brings(ds[0], who.id, kind) == Some(data)
    ensures Left(Lookup(After(s, ds[..1], to), who.id), kind, data, 0)
  {
    hide Asks, NotFrom, Step, Left, Handle, Downloads;
    AnswerAt(s, ds, to, 0);
    assert ds[..0] == [];
    OthersAreHandled(s, ds[0], to, who.id);
    JustStored(Lookup(s, who.id), kind, data, ds[0], who.id);
  }

  /**
   Downloads over queries: once a beacon or a payload request has been processed, the TXT queries for
   instructions, payload name or payload, named id.type.0.1.data.domain, are answered in order with the
   texts of what was stored for that type, whatever else is asked in between; further ones are refused.
   */
  lemma QueriesDownload(s: State, ds: seq<Datagram>, asked: seq<Option<MessageType>>, to: Settings, who: Sender,
                        kind: MessageType, data: Contents, n: nat)
    requires Serves(to, who) && Asking(ds, asked, who, to) && n < |ds| && asked[n] == Some(kind)
    requires Lookup(s, who.id).message.None? && asked[0].None? && Brings(ds[0], who.id, kind) == Some(data)
    requires forall m | 0 < m < |ds| :: Brings(ds[m], who.id, kind).None?
    ensures var outcome, k := HandleAll(s, ds, to).1[n], Count(asked[..n], kind);
            if k < |TextsOf(data)| then outcome.Text? && outcome.text == TextsOf(data)[k] else outcome == Refused
  {
    hide Serves, Asks, NotFrom, Step, Left, After, Handle, HandleAll, Brings, TextsOf, Downloads;
    var request: Bytes :| request != [] && Asks(ds[n], who, true, kind, 0, 1, request);
    RunLeaves(s, ds, asked, to, who, kind, data, n);
    AnswerAt(s, ds, to, n);
    AskIsHandled(After(s, ds[..n], to), ds[n], to, who, true, kind, 0, 1, request);
    NextText(Lookup(After(s, ds[..n], to), who.id), kind, data, Count(asked[..n], kind), request);
  }
}
