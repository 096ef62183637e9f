/** The handler's objects and dictionaries, changed in place as `DnsTunnel` and `DnsServer` say. */
module DnsHandler {
  import opened Text
  import opened DnsCodec
  import opened DnsTunnel
  import opened DnsServer

  class TunneledMessage {
    const kind: MessageType
    const required: int
    var chunks: Chunks
    var completed: nat

    ghost function View(): Message
      reads this
    {
      Message(kind, chunks, completed, required)
    }

    constructor (kind: MessageType, total: int)
      ensures View() == NewMessage(kind, total)
    {
      this.kind, required := kind, total;
      chunks, completed := Blank(total), 0;
    }

    method AddChunk(index: int, contents: Bytes) returns (done: bool)
      modifies this
      ensures var added := DnsTunnel.AddChunk(old(View()), index, contents);
              done == added.Ok? && View() == if done then added.value else old(View())
    {
      done := true;
      if contents != [] {
        var at := Place(|chunks|, index);
        if at.None? {
          return false;
        }
        if chunks[at.value].None? {
          chunks := chunks[at.value := Some(contents)];
          completed := completed + 1;
        }
      }
    }

    predicate IsComplete()
      reads this
      ensures IsComplete() == DnsTunnel.IsComplete(View())
    {
      completed == required
    }

    method ExportContents() returns (r: Result<Bytes>)
      ensures r == Export(chunks)
    {
      var joined: Bytes := [];
      ghost var whole := Export(chunks);
      for n := 0 to |chunks|
        invariant Export(chunks).Ok? <==> Export(chunks[n..]).Ok?
        invariant Export(chunks).Err? ==> Export(chunks) == Export(chunks[n..])
        invariant Export(chunks).Ok? ==> Export(chunks).value == joined + Export(chunks[n..]).value
      {
        assert chunks[n..][1..] == chunks[n + 1..];
        if chunks[n].None? {
          return Err("TypeError");
        }
        joined := joined + chunks[n].value;
      }
      assert chunks[|chunks|..] == [] && joined + [] == joined;
      r := Ok(joined);
    }
  }

  class StoredResponse {
    const data: Contents
    var offset: nat

    ghost function View(): Stored
      reads this
    {
      Stored(data, offset)
    }

    constructor (data: Contents)
      ensures View() == Stored(data, 0)
    {
      this.data, offset := data, 0;
    }

    method ReadData(n: nat) returns (r: Option<Bytes>)
      modifies this
      ensures (r, View()) == DnsTunnel.ReadData(old(View()), n)
    {
      r := None;
      if !FinishedReading() {
        var end := Min(|data|, offset + n);
        r := Some(data[offset..end]);
        offset := end;
      }
    }

    predicate FinishedReading()
      reads this
      ensures FinishedReading() == Exhausted(View())
    {
      offset >= |data|
    }
  }

  ghost predicate Injective<K, V>(m: map<K, V>) {
    forall i, j | i in m && j in m && i != j :: m[i] != m[j]
  }

  class Handler {
    const settings: Settings
    var pendingMessages: map<string, TunneledMessage>
    var completedMessages: map<string, TunneledMessage>
    var pendingInstructions: map<string, StoredResponse>
    var pendingPayloadNames: map<string, StoredResponse>
    var pendingPayloads: map<string, StoredResponse>
    var pendingUploads: map<string, Upload>

    ghost function Responses(): set<StoredResponse>
      reads this
    {
      pendingInstructions.Values + pendingPayloadNames.Values + pendingPayloads.Values
    }

    /** No object is kept under two keys; no message waits between completion and processing. */
    ghost predicate Valid()
      reads this
    {
      && completedMessages == map[]
      && Injective(pendingMessages) && Injective(pendingInstructions) && Injective(pendingPayloadNames) && Injective(pendingPayloads)
      && pendingInstructions.Values !! pendingPayloadNames.Values && pendingInstructions.Values !! pendingPayloads.Values
      && pendingPayloadNames.Values !! pendingPayloads.Values
    }

    ghost function MessageOf(id: string): Option<Message>
      reads this, pendingMessages.Values
    {
      if id in pendingMessages then Some(pendingMessages[id].View()) else None
    }

    ghost function CellOf(m: map<string, StoredResponse>, id: string): Option<Stored>
      reads m.Values
    {
      if id in m then Some(m[id].View()) else None
    }

    ghost function UploadOf(id: string): Option<Upload>
      reads this
    {
      if id in pendingUploads then Some(pendingUploads[id]) else None
    }

    /** What is kept under one message id. */
    ghost function Of(id: string): Client
      reads this, pendingMessages.Values, Responses()
    {
      Client(MessageOf(id), CellOf(pendingInstructions, id), CellOf(pendingPayloadNames, id), CellOf(pendingPayloads, id), UploadOf(id))
    }

    constructor (settings: Settings)
      ensures Valid() && this.settings == settings && forall id :: Of(id) == NOTHING
    {
      this.settings := settings;
      pendingMessages, completedMessages := map[], map[];
      pendingInstructions, pendingPayloadNames, pendingPayloads, pendingUploads := map[], map[], map[], map[];
    }

    function RepoMap(repo: Repo): map<string, StoredResponse>
      reads this
    {
      match repo case Instructions => pendingInstructions case PayloadName => pendingPayloadNames case PayloadData => pendingPayloads
    }

    method PopResponse(repo: Repo, id: string)
      requires Valid() && id in RepoMap(repo)
      modifies this
      ensures Valid() && pendingMessages == old(pendingMessages) && Responses() <= old(Responses())
      ensures Of(id) == SetCell(old(Of(id)), repo, None) && forall other | other != id :: Of(other) == old(Of(other))
    {
      match repo
      case Instructions => pendingInstructions := pendingInstructions - {id};
      case PayloadName => pendingPayloadNames := pendingPayloadNames - {id};
      case PayloadData => pendingPayloads := pendingPayloads - {id};
    }

    /** `_process_download_request_via_txt` and the TXT reply it makes. */
    method ProcessDownload(id: string, repo: Repo, txt: bool) returns (outcome: Outcome)
      requires Valid()
      modifies this, RepoMap(repo).Values
      ensures Valid() && pendingMessages == old(pendingMessages) && Responses() <= old(Responses())
      ensures (Of(id), outcome) == if txt then Serve(old(Of(id)), repo) else (old(Of(id)), Refused)
      ensures forall other | other != id :: Of(other) == old(Of(other))
    {
      if !txt || id !in RepoMap(repo) {
        return Refused;
      }
      var stored := RepoMap(repo)[id];
      var read := stored.ReadData(PER_REPLY);
      if read.None? {
        return Silence;
      }
      if stored.FinishedReading() {
        outcome := Text(repo, read.value + [LAST]);
        PopResponse(repo, id);
      } else {
        outcome := Text(repo, read.value + [MORE]);
      }
    }

    /** `_process_*` for exported contents; what is left to asynchronous processing is only started here. */
    method ProcessContents(id: string, kind: MessageType, contents: Bytes, txt: bool) returns (outcome: Outcome)
      requires Valid()
      modifies this, Responses()
      ensures Valid() && pendingMessages == old(pendingMessages) && Responses() <= old(Responses())
      ensures (Of(id), outcome) == OnContents(old(Of(id)), kind, contents, txt)
      ensures forall other | other != id :: Of(other) == old(Of(other))
    {
      match kind
      case InstructionDownload => outcome := ProcessDownload(id, Instructions, txt);
      case PayloadFilenameDownload => outcome := ProcessDownload(id, PayloadName, txt);
      case PayloadDataDownload => outcome := ProcessDownload(id, PayloadData, txt);
      case FileUploadData => outcome := if id in pendingUploads then Process(kind, contents) else Refused;
      case _ => outcome := Process(kind, contents);
    }

    method StoreCompletedMessage(id: string)
      requires id in pendingMessages && Valid()
      modifies this
      ensures pendingMessages == old(pendingMessages) - {id} && completedMessages == map[id := old(pendingMessages[id])]
      ensures pendingInstructions == old(pendingInstructions) && pendingPayloadNames == old(pendingPayloadNames)
      ensures pendingPayloads == old(pendingPayloads) && pendingUploads == old(pendingUploads)
    {
      completedMessages := completedMessages[id := pendingMessages[id]];
      pendingMessages := pendingMessages - {id};
    }

    /** The end of a request: nothing more to do until the message is complete, unless it came as TXT. */
    method Complete(id: string, txt: bool) returns (outcome: Outcome)
      requires Valid() && id in pendingMessages
      modifies this, Responses()
      ensures Valid() && Responses() <= old(Responses()) && pendingMessages.Values <= old(pendingMessages.Values)
      ensures var c := old(Of(id)); var m := c.message.value;
              (Of(id), outcome) == if DnsTunnel.IsComplete(m) || txt then OnComplete(c, m, txt) else (c, SendMore)
      ensures forall other | other != id :: Of(other) == old(Of(other))
    {
      hide OnContents;
      if !pendingMessages[id].IsComplete() && !txt {
        return SendMore;
      }
      StoreCompletedMessage(id);
      var message := completedMessages[id];
      completedMessages := completedMessages - {id};
      var contents := message.ExportContents();
      if contents.Err? {
        return Silence;
      }
      outcome := ProcessContents(id, message.kind, contents.value, txt);
    }

    /** The pending message of an id, made if it is the first one seen. */
    method FindOrMake(id: string, kind: MessageType, total: int)
      requires Valid()
      modifies this`pendingMessages
      ensures Valid() && id in pendingMessages && fresh(pendingMessages.Values - old(pendingMessages.Values))
      ensures var c := old(Of(id)); Of(id) == c.(message := Some(Receiver(c, kind, total)))
      ensures forall other | other != id :: Of(other) == old(Of(other))
    {
      if id !in pendingMessages {
        var message := new TunneledMessage(kind, total);
        pendingMessages := pendingMessages[id := message];
      }
    }

    /** `_store_data_chunk` for labels that could be read; false stands for an exception. */
    method StoreDataChunk(id: string, kind: MessageType, index: int, total: int, contents: Bytes) returns (valid: bool, done: bool)
      requires Valid()
      modifies this`pendingMessages, pendingMessages.Values
      ensures Valid() && fresh(pendingMessages.Values - old(pendingMessages.Values))
      ensures var c := old(Of(id)); var m := Receiver(c, kind, total); var added := DnsTunnel.AddChunk(m, index, contents);
              && valid == (m.kind == kind) && done == (valid && added.Ok?)
              && (valid ==> id in pendingMessages)
              && Of(id) == if !valid then c else c.(message := Some(if done then added.value else m))
      ensures forall other | other != id :: Of(other) == old(Of(other))
    {
      hide DnsTunnel.AddChunk, Blank;
      if id in pendingMessages && pendingMessages[id].kind != kind {
        return false, false;
      }
      FindOrMake(id, kind, total);
      valid := true;
      done := pendingMessages[id].AddChunk(index, contents);
    }

    /** `_get_response_for_dns_request`, up to what asynchronous processing answers later. */
    method Receive(q: Packet) returns (outcome: Outcome)
      requires Valid()
      modifies this, pendingMessages.Values, Responses()
      ensures Valid() && Responses() <= old(Responses()) && fresh(pendingMessages.Values - old(pendingMessages.Values))
      ensures var at := Concerns(Query(q), settings);
              if at.Some? then (Of(at.value.0), outcome) == Step(old(Of(at.value.0)), at.value.1)
              else outcome == Elsewhere(RouteOf(q, settings.domain))
      ensures var at := Concerns(Query(q), settings);
              forall other | at.None? || other != at.value.0 :: Of(other) == old(Of(other))
    {
      var route := RouteOf(q, settings.domain);
      if !route.Tunnel? {
        return Elsewhere(route);
      }
      var id := route.id;
      var reading, txt := ReadLabels(q.labels, settings.readers), q.kind == TXT;
      match reading
      case Invalid => outcome := Refused;
      case Broken => outcome := Silence;
      case Chunk(kind, index, total, contents) =>
        var valid, done := StoreDataChunk(id, kind, index, total, contents);
        if !valid {
          return Refused;
        } else if !done {
          return Silence;
        }
        outcome := Complete(id, txt);
    }

    method Keep(id: string, repo: Repo, stored: StoredResponse)
      requires Valid() && stored !in Responses()
      modifies this
      ensures Valid() && pendingMessages == old(pendingMessages) && Responses() <= old(Responses()) + {stored}
      ensures Of(id) == SetCell(old(Of(id)), repo, Some(stored.View()))
      ensures forall other | other != id :: Of(other) == old(Of(other))
    {
      match repo
      case Instructions => pendingInstructions := pendingInstructions[id := stored];
      case PayloadName => pendingPayloadNames := pendingPayloadNames[id := stored];
      case PayloadData => pendingPayloads := pendingPayloads[id := stored];
    }

    method StoreResponse(id: string, repo: Repo, data: Contents)
      requires Valid()
      modifies this
      ensures Valid() && pendingMessages == old(pendingMessages) && fresh(Responses() - old(Responses()))
      ensures Of(id) == SetCell(old(Of(id)), repo, Some(Stored(data, 0)))
      ensures forall other | other != id :: Of(other) == old(Of(other))
    {
      hide SetCell;
      var stored := new StoredResponse(data);
      Keep(id, repo, stored);
    }

    /** `_store_beacon_response`, once the heartbeat has been handled. */
    method StoreBeaconResponse(id: string, response: Contents) returns (outcome: Outcome)
      requires Valid()
      modifies this
      ensures Valid() && pendingMessages == old(pendingMessages) && fresh(Responses() - old(Responses()))
      ensures (Of(id), outcome) == Step(old(Of(id)), BeaconDone(response))
      ensures forall other | other != id :: Of(other) == old(Of(other))
    {
      StoreResponse(id, Instructions, response);
      outcome := Ready;
    }

    /** The end of `_process_payload_request`, once the payload has been found. */
    method StorePayload(id: string, name: Contents, contents: Contents) returns (outcome: Outcome)
      requires Valid()
      modifies this
      ensures Valid() && pendingMessages == old(pendingMessages) && fresh(Responses() - old(Responses()))
      ensures (Of(id), outcome) == Step(old(Of(id)), PayloadDone(name, contents))
      ensures forall other | other != id :: Of(other) == old(Of(other))
    {
      StoreResponse(id, PayloadData, contents);
      StoreResponse(id, PayloadName, name);
      outcome := Ready;
    }

    /** The end of `_process_upload_request`. */
    method StoreUpload(id: string, request: Upload) returns (outcome: Outcome)
      requires Valid()
      modifies this
      ensures Valid() && pendingMessages == old(pendingMessages) && Responses() == old(Responses())
      ensures (Of(id), outcome) == Step(old(Of(id)), UploadAsked(request))
      ensures forall other | other != id :: Of(other) == old(Of(other))
    {
      pendingUploads := pendingUploads[id := request];
      outcome := Ready;
    }

    /** The event loop: queries and ends of processing, in the order in which they come. */
    method Handle(d: Datagram) returns (outcome: Outcome)
      requires Valid() && (d.Ended? ==> !d.how.Ask?)
      modifies this, pendingMessages.Values, Responses()
      ensures Valid() && fresh(Responses() - old(Responses())) && fresh(pendingMessages.Values - old(pendingMessages.Values))
      ensures var at := Concerns(d, settings);
              if at.Some? then (Of(at.value.0), outcome) == Step(old(Of(at.value.0)), at.value.1)
              else d.Query? && outcome == Elsewhere(RouteOf(d.q, settings.domain))
      ensures var at := Concerns(d, settings);
              forall other | at.None? || other != at.value.0 :: Of(other) == old(Of(other))
    {
      match d
      case Query(q) => outcome := Receive(q);
      case Ended(id, BeaconDone(response)) => outcome := StoreBeaconResponse(id, response);
      case Ended(id, PayloadDone(name, contents)) => outcome := StorePayload(id, name, contents);
      case Ended(id, UploadAsked(request)) => outcome := StoreUpload(id, request);
      case Ended(_, GaveUp) => outcome := Refused;
    }

    /** What the handler keeps, id by id, is a state of `DnsServer`. */
    ghost predicate Shows(s: State)
      reads this, pendingMessages.Values, Responses()
    {
      forall id :: Of(id) == Lookup(s, id)
    }

    /** Over any run the objects show the state, and give the answers, of the run of `DnsServer`. */
    method HandleEach(ds: seq<Datagram>, ghost s: State) returns (outcomes: seq<Outcome>)
      requires Valid() && Shows(s) && forall d | d in ds :: d.Ended? ==> !d.how.Ask?
      modifies this, pendingMessages.Values, Responses()
      ensures Valid() && Shows(HandleAll(s, ds, settings).0) && outcomes == HandleAll(s, ds, settings).1
    {
      hide Concerns, Step, Elsewhere, RouteOf, Of, Valid;
      outcomes := [];
      ghost var now := s;
      assert ds[0..] == ds && [] + HandleAll(s, ds, settings).1 == HandleAll(s, ds, settings).1;
      for n := 0 to |ds|
        invariant Valid() && Shows(now)
        invariant fresh(Responses() - old(Responses())) && fresh(pendingMessages.Values - old(pendingMessages.Values))
        invariant HandleAll(s, ds, settings) == Onward(outcomes, HandleAll(now, ds[n..], settings))
      {
        assert ds[n..][1..] == ds[n + 1..];
        ghost var (next, first) := DnsServer.Handle(now, ds[n], settings);
        var outcome := Handle(ds[n]);
        OneMore(outcomes, first, HandleAll(next, ds[n + 1..], settings));
        outcomes := outcomes + [outcome];
        now := next;
      }
      assert ds[|ds|..] == [] && outcomes + [] == outcomes;
    }
  }

  /** A run continued after some answers. */
  ghost function Onward(before: seq<Outcome>, rest: (State, seq<Outcome>)): (State, seq<Outcome>) {
    (rest.0, before + rest.1)
  }

  lemma OneMore(before: seq<Outcome>, first: Outcome, rest: (State, seq<Outcome>))
    ensures Onward(before, (rest.0, [first] + rest.1)) == Onward(before + [first], rest)
  {
    assert before + ([first] + rest.1) == before + [first] + rest.1;
  }
}
