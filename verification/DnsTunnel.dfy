/**
 What the DNS tunnel does with the requests of one message id: reassembly of chunks, and downloads of
 stored data over TXT replies.
 */
module DnsTunnel {
  import opened Text

  datatype MessageType = Beacon | InstructionDownload | PayloadRequest | PayloadFilenameDownload | PayloadDataDownload
                       | FileUploadRequest | FileUploadData

  function TypeOf(tag: string): Option<MessageType> {
    if tag == "be" then Some(Beacon) else if tag == "id" then Some(InstructionDownload)
    else if tag == "pr" then Some(PayloadRequest) else if tag == "pf" then Some(PayloadFilenameDownload)
    else if tag == "pd" then Some(PayloadDataDownload) else if tag == "ur" then Some(FileUploadRequest)
    else if tag == "ud" then Some(FileUploadData) else None
  }

  // ---------- tunneled messages ----------

  type Chunks = seq<Option<Bytes>>

  datatype Message = Message(kind: MessageType, chunks: Chunks, completed: nat, required: int)

  function Blank(n: int): Chunks {
    seq(if n < 0 then 0 else n, _ => None)
  }

  function NewMessage(kind: MessageType, total: int): Message {
    Message(kind, Blank(total), 0, total)
  }

  /** Where a list of length n keeps index i; negative indices count from its end. */
  function Place(n: nat, i: int): Option<nat> {
    if 0 <= i < n then Some(i) else if i < 0 <= n + i then Some(n + i) else None
  }

  function AddChunk(m: Message, index: int, contents: Bytes): Result<Message> {
    var at := Place(|m.chunks|, index);
    if contents == [] then Ok(m)
    else if at.None? then Err("IndexError")
    else if m.chunks[at.value].None? then Ok(m.(chunks := m.chunks[at.value := Some(contents)], completed := m.completed + 1))
    else Ok(m)
  }

  predicate IsComplete(m: Message) {
    m.completed == m.required
  }

  /** `b''.join(chunks)`, which fails on a chunk that is missing. */
  function Export(chunks: Chunks): Result<Bytes> {
    if chunks == [] then Ok([])
    else if chunks[0].None? then Err("TypeError")
    else
      var rest := Export(chunks[1..]);
      if rest.Err? then rest else Ok(chunks[0].value + rest.value)
  }

  // ---------- stored responses ----------

  type Contents = b: Bytes | b != [] witness [0]

  /** Stored data is base64 text of something, and so never empty. */
  datatype Stored = Stored(data: Contents, offset: nat)

  predicate Exhausted(s: Stored) {
    s.offset >= |s.data|
  }

  function Min(a: nat, b: nat): nat {
    if a < b then a else b
  }

  function ReadData(s: Stored, n: nat): (Option<Bytes>, Stored) {
    if Exhausted(s) then (None, s)
    else
      var end := Min(|s.data|, s.offset + n);
      (Some(s.data[s.offset..end]), s.(offset := end))
  }

  // ---------- one message id ----------

  datatype Repo = Instructions | PayloadName | PayloadData

  datatype Upload = Upload(paw: string, directory: string, filename: string)

  /** All the handler keeps under one message id. */
  datatype Client = Client(message: Option<Message>, instructions: Option<Stored>, payloadName: Option<Stored>,
                           payloadData: Option<Stored>, upload: Option<Upload>)

  function Cell(c: Client, repo: Repo): Option<Stored> {
    match repo case Instructions => c.instructions case PayloadName => c.payloadName case PayloadData => c.payloadData
  }

  function SetCell(c: Client, repo: Repo, s: Option<Stored>): Client {
    match repo
    case Instructions => c.(instructions := s)
    case PayloadName => c.(payloadName := s)
    case PayloadData => c.(payloadData := s)
  }

  function RepoOf(kind: MessageType): Option<Repo> {
    match kind
    case InstructionDownload => Some(Instructions)
    case PayloadFilenameDownload => Some(PayloadName)
    case PayloadDataDownload => Some(PayloadData)
    case _ => None
  }

  /** The labels of a request, read: a chunk, a `ValueError`, or any other exception. */
  datatype Reading = Chunk(kind: MessageType, index: int, total: int, contents: Bytes) | Invalid | Broken

  /** What can happen to one message id: a request, or the end of some processing started earlier. */
  datatype Event = Ask(txt: bool, reading: Reading)
                 | BeaconDone(response: Contents)
                 | PayloadDone(name: Contents, contents: Contents)
                 | UploadAsked(request: Upload)
                 | GaveUp

  /** What answers a request: nothing, one of the fixed replies, stored text, or processing that answers later. */
  datatype Outcome = Silence | Refused | Empty | AnyIpv6 | SendMore | Ready | Text(repo: Repo, text: Bytes)
                   | Process(kind: MessageType, contents: Bytes)

  /** The bytes in a TXT reply before the suffix. */
  const PER_REPLY := 254

  const MORE: Byte := 0x2e
  const LAST: Byte := 0x2c

  function Serve(c: Client, repo: Repo): (Client, Outcome) {
    var cell := Cell(c, repo);
    if cell.None? then (c, Refused)
    else
      var (data, s) := ReadData(cell.value, PER_REPLY);
      if data.None? then (c, Silence)
      else if Exhausted(s) then (SetCell(c, repo, None), Text(repo, data.value + [LAST]))
      else (SetCell(c, repo, Some(s)), Text(repo, data.value + [MORE]))
  }

  function OnContents(c: Client, kind: MessageType, contents: Bytes, txt: bool): (Client, Outcome) {
    var repo := RepoOf(kind);
    if repo.Some? then (if txt then Serve(c, repo.value) else (c, Refused))
    else if kind == FileUploadData && c.upload.None? then (c, Refused)
    else (c, Process(kind, contents))
  }

  /** A message leaves the pending ones before its contents are exported. */
  function OnComplete(c: Client, m: Message, txt: bool): (Client, Outcome) {
    var contents := Export(m.chunks);
    if contents.Err? then (c.(message := None), Silence) else OnContents(c.(message := None), m.kind, contents.value, txt)
  }

  /** The pending message a chunk goes to, made if there is none. */
  function Receiver(c: Client, kind: MessageType, total: int): Message {
    if c.message.Some? then c.message.value else NewMessage(kind, total)
  }

  function OnAsk(c: Client, txt: bool, reading: Reading): (Client, Outcome) {
    match reading
    case Invalid => (c, Refused)
    case Broken => (c, Silence)
    case Chunk(kind, index, total, contents) =>
      var m := Receiver(c, kind, total);
      var added := AddChunk(m, index, contents);
      if m.kind != kind then (c, Refused)
      else if added.Err? then (c.(message := Some(m)), Silence)
      else if IsComplete(added.value) || txt then OnComplete(c, added.value, txt)
      else (c.(message := Some(added.value)), SendMore)
  }

  function Step(c: Client, e: Event): (Client, Outcome) {
    match e
    case Ask(txt, reading) => OnAsk(c, txt, reading)
    case BeaconDone(response) => (c.(instructions := Some(Stored(response, 0))), Ready)
    case PayloadDone(name, contents) => (c.(payloadName := Some(Stored(name, 0)), payloadData := Some(Stored(contents, 0))), Ready)
    case UploadAsked(request) => (c.(upload := Some(request)), Ready)
    case GaveUp => (c, Refused)
  }

  /** The state and the answers after some events. */
  function Run(c: Client, es: seq<Event>): (r: (Client, seq<Outcome>))
    ensures |r.1| == |es|
    decreases |es|
  {
    if es == [] then (c, [])
    else
      var (next, first) := Step(c, es[0]);
      var (last, rest) := Run(next, es[1..]);
      (last, [first] + rest)
  }

  // ---------- what every run keeps ----------

  function Filled(chunks: Chunks): nat {
    if chunks == [] then 0 else (if chunks[0].Some? then 1 else 0) + Filled(chunks[1..])
  }

  /** The counter counts the filled slots; no stored response is exhausted. */
  predicate WellFormed(c: Client) {
    (c.message.Some? ==> WellCounted(c.message.value))
    && forall r | Cell(c, r).Some? :: !Exhausted(Cell(c, r).value)
  }

  predicate WellCounted(m: Message) {
    Filled(m.chunks) == m.completed && |m.chunks| == (if m.required < 0 then 0 else m.required)
  }

  lemma {:induction false} FilledAfter(chunks: Chunks, at: nat, contents: Bytes)
    requires at < |chunks| && chunks[at].None?
    ensures Filled(chunks[at := Some(contents)]) == Filled(chunks) + 1
  {
    var after := chunks[at := Some(contents)];
    if at == 0 {
      assert after[1..] == chunks[1..];
    } else {
      FilledAfter(chunks[1..], at - 1, contents);
      assert after[1..] == chunks[1..][at - 1 := Some(contents)];
    }
  }

  lemma {:induction false} BlankIsEmpty(n: nat)
    ensures Filled(Blank(n)) == 0
  {
    if n > 0 {
      BlankIsEmpty(n - 1);
      assert Blank(n)[1..] == Blank(n - 1);
    }
  }

  lemma AddChunkCounts(m: Message, index: int, contents: Bytes)
    requires WellCounted(m)
    ensures AddChunk(m, index, contents).Ok? ==> WellCounted(AddChunk(m, index, contents).value)
  {
    hide Filled;
    var at := Place(|m.chunks|, index);
    if at.Some? && m.chunks[at.value].None? {
      FilledAfter(m.chunks, at.value, contents);
    }
  }

  lemma ReceiverCounts(c: Client, kind: MessageType, total: int)
    requires WellFormed(c)
    ensures WellCounted(Receiver(c, kind, total))
  {
    hide Filled;
    BlankIsEmpty(if total < 0 then 0 else total);
    assert total < 0 ==> Blank(total) == Blank(0);
  }

  /** A cell changes only its own; the message is not kept in a cell. */
  lemma Cells(c: Client, repo: Repo, s: Option<Stored>, m: Option<Message>)
    ensures forall r :: Cell(SetCell(c, repo, s), r) == if r == repo then s else Cell(c, r)
    ensures forall r :: Cell(c.(message := m), r) == Cell(c, r)
    ensures forall u, r :: Cell(c.(upload := u), r) == Cell(c, r)
    ensures SetCell(c, repo, s).message == c.message
  {
  }

  lemma CompleteKeeps(c: Client, m: Message, txt: bool)
    requires WellFormed(c)
    ensures WellFormed(OnComplete(c, m, txt).0)
  {
    hide Filled, SetCell, Cell;
    var without := c.(message := None);
    var repo := RepoOf(m.kind);
    Cells(c, Instructions, None, None);
    if repo.Some? {
      Cells(without, repo.value, None, None);
      if Cell(without, repo.value).Some? {
        Cells(without, repo.value, Some(ReadData(Cell(without, repo.value).value, PER_REPLY).1), None);
      }
    }
  }

  lemma StepKeeps(c: Client, e: Event)
    requires WellFormed(c)
    ensures WellFormed(Step(c, e).0)
  {
    hide OnComplete, AddChunk, WellCounted, Receiver;
    if e.BeaconDone? {
      Cells(c, Instructions, Some(Stored(e.response, 0)), None);
    } else if e.UploadAsked? {
      Cells(c, Instructions, None, None);
    } else if e.PayloadDone? {
      Cells(c, PayloadName, Some(Stored(e.name, 0)), None);
      Cells(SetCell(c, PayloadName, Some(Stored(e.name, 0))), PayloadData, Some(Stored(e.contents, 0)), None);
    } else if e.Ask? && e.reading.Chunk? {
      var Chunk(kind, index, total, contents) := e.reading;
      var m := Receiver(c, kind, total);
      Cells(c, Instructions, None, Some(m));
      if AddChunk(m, index, contents).Ok? {
        Cells(c, Instructions, None, Some(AddChunk(m, index, contents).value));
      }
      ReceiverCounts(c, kind, total);
      AddChunkCounts(m, index, contents);
      if AddChunk(m, index, contents).Ok? {
        CompleteKeeps(c, AddChunk(m, index, contents).value, e.txt);
      }
    }
  }

  /** Every run keeps the counters right and every stored response unexhausted. */
  lemma {:induction false} RunKeeps(c: Client, es: seq<Event>)
    requires WellFormed(c)
    ensures WellFormed(Run(c, es).0)
    decreases |es|
  {
    hide WellFormed, Step;
    if es != [] {
      StepKeeps(c, es[0]);
      RunKeeps(Step(c, es[0]).0, es[1..]);
    }
  }

  lemma {:induction false} FilledAtMost(chunks: Chunks)
    ensures Filled(chunks) <= |chunks|
    ensures Export(chunks).Ok? <==> Filled(chunks) == |chunks|
  {
    if chunks != [] { FilledAtMost(chunks[1..]); }
  }

  /** A message counts as complete exactly when it was announced with no negative number of chunks and none is missing. */
  lemma CompleteIsFull(m: Message)
    requires WellCounted(m)
    ensures IsComplete(m) <==> m.required >= 0 && Export(m.chunks).Ok?
  {
    FilledAtMost(m.chunks);
  }

  /** After any run, an A request never loses a message; a TXT request does, exactly if a chunk is missing. */
  lemma LostMessage(start: Client, es: seq<Event>, txt: bool, reading: Reading)
    requires WellFormed(start)
    ensures var c := Run(start, es).0;
            && reading.Chunk? && Receiver(c, reading.kind, reading.total).kind == reading.kind
            && AddChunk(Receiver(c, reading.kind, reading.total), reading.index, reading.contents).Ok?
            ==> var m := AddChunk(Receiver(c, reading.kind, reading.total), reading.index, reading.contents).value;
                var (next, outcome) := OnAsk(c, txt, reading);
                (next.message.None? && outcome == Silence) <==> (txt && Filled(m.chunks) < |m.chunks|)
  {
    hide Filled, Run, AddChunk, Receiver, Export;
    RunKeeps(start, es);
    var c := Run(start, es).0;
    if reading.Chunk? {
      var Chunk(kind, index, total, contents) := reading;
      ReceiverCounts(c, kind, total);
      AddChunkCounts(Receiver(c, kind, total), index, contents);
      var added := AddChunk(Receiver(c, kind, total), index, contents);
      if added.Ok? {
        FilledAtMost(added.value.chunks);
        Cells(c, Instructions, None, None);
        NothingSilent(c.(message := None), added.value.kind, txt);
      }
    }
  }

  lemma NothingSilent(c: Client, kind: MessageType, txt: bool)
    requires WellFormed(c)
    ensures forall contents :: OnContents(c, kind, contents, txt).1 != Silence
  {
  }
}
