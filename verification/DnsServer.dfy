/** The tunnel's server: which message id a query reaches, and what goes back to its client. */
module DnsServer {
  import opened Text
  import opened DnsCodec
  import opened DnsReplies
  import opened DnsTheorems
  import opened DnsTunnel

  // ---------- routing ----------

  function LowerChar(c: char): char {
    if 'A' <= c <= 'Z' then (c as int + 32) as char else c
  }

  /** `str.lower()` on ASCII names. */
  function Lower(s: string): string {
    seq(|s|, i requires 0 <= i < |s| => LowerChar(s[i]))
  }

  predicate HasSuffix(s: string, suffix: string) {
    |suffix| <= |s| && s[|s| - |suffix|..] == suffix
  }

  datatype Route = Foreign | ForIpv6 | Unsupported | NoLabels | Tunnel(id: string)

  function RouteOf(q: Packet, domain: string): Route {
    var name := Lower(Join(q.labels, "."));
    if name != Lower(domain) && !HasSuffix(name, "." + Lower(domain)) then Foreign
    else if q.kind == AAAA then ForIpv6
    else if q.kind != A && q.kind != TXT then Unsupported
    else if q.labels == [] then NoLabels
    else Tunnel(q.labels[0])
  }

  /** How `int` and `bytes.fromhex` read a label; `None` is their `ValueError`. */
  datatype Readers = Readers(intOf: string -> Option<int>, hexOf: string -> Option<Bytes>)

  /** The labels after the message id, in the order in which they are read. */
  function ReadLabels(labels: seq<string>, readers: Readers): Reading {
    if |labels| < 2 then Broken
    else if TypeOf(labels[1]).None? then Invalid
    else if |labels| < 3 then Broken
    else if readers.intOf(labels[2]).None? then Invalid
    else if |labels| < 4 then Broken
    else if readers.intOf(labels[3]).None? then Invalid
    else if |labels| < 5 then Broken
    else if readers.hexOf(labels[4]).None? then Invalid
    else Chunk(TypeOf(labels[1]).value, readers.intOf(labels[2]).value, readers.intOf(labels[3]).value, readers.hexOf(labels[4]).value)
  }

  // ---------- all message ids ----------

  /** A query, or the end of some processing. */
  datatype Datagram = Query(q: Packet) | Ended(id: string, how: Event)

  datatype Settings = Settings(domain: string, readers: Readers)

  type State = map<string, Client>

  const NOTHING := Client(None, None, None, None, None)

  function Lookup(s: State, id: string): Client {
    if id in s then s[id] else NOTHING
  }

  /** The message id that a datagram concerns, and what it is for that id. */
  function Concerns(d: Datagram, to: Settings): Option<(string, Event)> {
    match d
    case Ended(id, how) => Some((id, how))
    case Query(q) =>
      var route := RouteOf(q, to.domain);
      if route.Tunnel? then Some((route.id, Ask(q.kind == TXT, ReadLabels(q.labels, to.readers)))) else None
  }

  /** What answers a query that concerns no message id. */
  function Elsewhere(route: Route): Outcome {
    match route case Foreign => Refused case ForIpv6 => AnyIpv6 case Unsupported => Empty case _ => Silence
  }

  function Handle(s: State, d: Datagram, to: Settings): (State, Outcome) {
    var at := Concerns(d, to);
    if at.Some? then
      var (c, outcome) := Step(Lookup(s, at.value.0), at.value.1);
      (s[at.value.0 := c], outcome)
    else (s, if d.Query? then Elsewhere(RouteOf(d.q, to.domain)) else Silence)
  }

  function HandleAll(s: State, ds: seq<Datagram>, to: Settings): (r: (State, seq<Outcome>))
    ensures |r.1| == |ds|
    decreases |ds|
  {
    if ds == [] then (s, [])
    else
      var (next, first) := Handle(s, ds[0], to);
      var (last, rest) := HandleAll(next, ds[1..], to);
      (last, [first] + rest)
  }

  /** The events of one message id among some datagrams. */
  function EventsOf(ds: seq<Datagram>, id: string, to: Settings): seq<Event> {
    if ds == [] then []
    else
      var at := Concerns(ds[0], to);
      (if at.Some? && at.value.0 == id then [at.value.1] else []) + EventsOf(ds[1..], id, to)
  }

  /** The answers to the events of one message id. */
  function AnswersTo(ds: seq<Datagram>, outcomes: seq<Outcome>, id: string, to: Settings): seq<Outcome>
    requires |ds| == |outcomes|
  {
    if ds == [] then []
    else
      var at := Concerns(ds[0], to);
      (if at.Some? && at.value.0 == id then [outcomes[0]] else []) + AnswersTo(ds[1..], outcomes[1..], id, to)
  }

  /**
   Message ids do not interfere: in every interleaving of the datagrams of any number of ids, what an id
   ends with and every answer it gets are those of its own events alone.
   */
  lemma {:induction false} IdsAreIndependent(s: State, ds: seq<Datagram>, id: string, to: Settings)
    ensures var (last, outcomes) := HandleAll(s, ds, to);
            Run(Lookup(s, id), EventsOf(ds, id, to)) == (Lookup(last, id), AnswersTo(ds, outcomes, id, to))
    decreases |ds|
  {
    hide Concerns, Step;
    if ds != [] {
      var (next, first) := Handle(s, ds[0], to);
      var outcomes := HandleAll(s, ds, to).1;
      assert outcomes[1..] == HandleAll(next, ds[1..], to).1;
      IdsAreIndependent(next, ds[1..], id, to);
      var at := Concerns(ds[0], to);
      if at.Some? && at.value.0 == id {
        var es := EventsOf(ds, id, to);
        assert es[0] == at.value.1 && es[1..] == EventsOf(ds[1..], id, to);
      } else {
        assert EventsOf(ds, id, to) == EventsOf(ds[1..], id, to);
        assert AnswersTo(ds, outcomes, id, to) == AnswersTo(ds[1..], outcomes[1..], id, to);
      }
    }
  }

  // ---------- replies ----------

  /** The response a client gets for an outcome; `drawn` and `address` are the random choices. */
  function ReplyFor(q: Packet, outcome: Outcome, drawn: nat, address: Bytes): Option<Response>
    requires 1 <= drawn < 0xffff_ffff
  {
    match outcome
    case Refused => Some(NxDomainReply(q))
    case Empty => Some(EmptyReply(q))
    case AnyIpv6 => Some(Ipv6Reply(q, address))
    case SendMore => Some(Ipv4Reply(q, SignalAddress(drawn, true)))
    case Ready => Some(Ipv4Reply(q, SignalAddress(drawn, false)))
    case Text(_, text) => var r := TxtReply(q, text); if r.Ok? then Some(r.value) else None
    case _ => None
  }

  /** Served text always fits the length byte of a TXT answer. */
  lemma TextFits(c: Client, e: Event)
    ensures Step(c, e).1.Text? ==> |Step(c, e).1.text| <= 255
  {
  }

  lemma HandledTextFits(s: State, d: Datagram, to: Settings)
    ensures Handle(s, d, to).1.Text? ==> |Handle(s, d, to).1.text| <= 255
  {
    hide Step, Concerns;
    var at := Concerns(d, to);
    if at.Some? {
      TextFits(Lookup(s, at.value.0), at.value.1);
    }
  }

  /** The question asked, and the header bits of section 4.1.1 of RFC 1035: an authoritative response to it. */
  predicate Same(asked: Packet, seen: Packet) {
    seen.id == asked.id && seen.labels == asked.labels && seen.kind == asked.kind && seen.class_ == asked.class_
    && seen.flags & 0x8000 != 0 && seen.flags & 0x7800 == asked.flags & 0x7800 && seen.flags & 0x0100 == asked.flags & 0x0100
    && seen.flags & 0x0400 != 0 && seen.flags & 0x0200 == 0 && seen.flags & 0x0080 == 0
  }

  /** A reply that encodes, and decodes as the answer to what was asked, with a response code. */
  predicate Arrives(asked: Packet, reply: Response, code: bv16) {
    var sent := Encode(reply);
    sent.Ok? && Decode(sent.value).Ok? && Same(asked, Decode(sent.value).value)
    && Decode(sent.value).value.flags & 0x000f == code
  }

  lemma FlagsInBits(query: bv16, flags: bv16)
    requires HasFlag(flags, QUERY_RESPONSE) && Opcode(flags) == Opcode(query)
    requires HasFlag(flags, RECURSION_DESIRED) <==> HasFlag(query, RECURSION_DESIRED)
    requires HasFlag(flags, AUTHORITATIVE) && !HasFlag(flags, TRUNCATED) && !HasFlag(flags, RECURSION_AVAILABLE)
    ensures flags & 0x8000 != 0 && flags & 0x7800 == query & 0x7800 && flags & 0x0100 == query & 0x0100
    ensures flags & 0x0400 != 0 && flags & 0x0200 == 0 && flags & 0x0080 == 0
  {
  }

  lemma AnswersReach(data: Bytes, code: ReplyCode, answers: seq<Answer>)
    requires Decode(data).Ok? && |answers| <= 1
    requires forall a | a in answers :: |a.data| <= 256 && a.class_ == Decode(data).value.class_ && a.ttl == DEFAULT_TTL
    ensures Arrives(Decode(data).value, ReplyTo(Decode(data).value, code, answers), if code == NxDomain then 3 else 0)
    ensures Encodable(ReplyTo(Decode(data).value, code, answers))
  {
    hide Decode, Encode, HasFlag, Opcode;
    DecodedFits(data);
    assert AnswersFit(answers);
    var query := Decode(data).value;
    var sent := Encode(ReplyTo(query, code, answers));
    ReplyReachesClient(data, code, answers, true, false, false);
    ReplyEncodable(data, code, answers, true, false, false);
    FlagsInBits(query.flags, Decode(sent.value).value.flags);
  }

  // ---------- what the bytes of a reply say ----------

  /** A message without answers ends with its question. */
  predicate NoRecord(m: Bytes, labels: seq<string>) {
    |m| >= 12 && Word(m, 6) == 0 && NameBytes(labels).Ok? && |m| == 12 + |NameBytes(labels).value| + 4
  }

  /**
   A message ends in one answer record: a pointer to the question name, type, class, time to live, size
   and data (sections 3.2.2 and 4.1.3 of RFC 1035).
   */
  predicate OneRecord(m: Bytes, kind: nat, class_: nat, data: Bytes) {
    var at := |m| - |data| - 12;
    && at > 12 && Word(m, 6) == 1 && m[at] == 0xc0 && m[at + 1] == 0x0c && Word(m, at + 2) == kind && Word(m, at + 4) == class_
    && Number(Slice(m, at + 6, at + 10)) == 300 && Word(m, at + 10) == |data| && m[at + 12..] == data
  }

  /**
   How a client tells the outcomes apart: "send more" is one IPv4 address with an even last octet,
   "ready" one with an odd last octet, text comes behind its length, and a refusal has no record.
   */
  predicate Says(m: Bytes, q: Packet, outcome: Outcome, address: Bytes) {
    match outcome
    case SendMore => |m| > 4 && OneRecord(m, 1, q.class_, m[|m| - 4..]) && m[|m| - 1] % 2 == 0
    case Ready => |m| > 4 && OneRecord(m, 1, q.class_, m[|m| - 4..]) && m[|m| - 1] % 2 == 1
    case Text(_, text) => |text| <= 255 && OneRecord(m, 16, q.class_, [|text|] + text)
    case AnyIpv6 => OneRecord(m, 28, q.class_, address)
    case _ => NoRecord(m, q.labels)
  }

  lemma NoRecordFollows(q: Packet, code: ReplyCode)
    requires Encodable(ReplyTo(q, code, []))
    ensures NoRecord(Encode(ReplyTo(q, code, [])).value, q.labels)
  {
    hide Encode, HeaderBytes, QueryBytes, NameBytes, Word, At;
    var r := ReplyTo(q, code, []);
    MessageParts(r);
    HeaderReadsBack(Encode(r).value, r.packet);
    QueryReadsBack(Encode(r).value, 12, r.packet);
  }

  lemma OneRecordFollows(q: Packet, code: ReplyCode, a: Answer)
    requires Encodable(ReplyTo(q, code, [a])) && a.ttl == 300
    ensures OneRecord(Encode(ReplyTo(q, code, [a])).value, Code(a.kind), a.class_, a.data)
  {
    hide Encode, HeaderBytes, QueryBytes, NameBytes, AnswerBytes, Word, Number, Code;
    var r := ReplyTo(q, code, [a]);
    var m := Encode(r).value;
    MessageParts(r);
    var at := 12 + |QueryBytes(r.packet).value|;
    HeaderReadsBack(m, r.packet);
    QueryReadsBack(m, 12, r.packet);
    AnswersParts(m, at, [a]);
    assert AnswersBytes([a][1..]) == Ok([]);
    StartsWithPointer(m, at, a);
    AnswerReadsBack(m, at, a);
  }

  lemma SignalIsLastOctet(m: Bytes, class_: nat, address: Bytes)
    requires OneRecord(m, 1, class_, address) && |address| == 4
    ensures |m| > 4 && m[|m| - 4..] == address && m[|m| - 1] == address[3]
  {
    hide Word, Number;
    assert m[|m| - 4..][3] == m[|m| - 1];
  }

  /**
   Whatever a query that decodes is answered, at once or when its processing has ended, its client gets a
   reply that encodes, decodes to its own question as an authoritative response with its opcode and RD,
   and whose bytes say the outcome.
   */
  lemma ReplyIsRead(data: Bytes, outcome: Outcome, drawn: nat, address: Bytes)
    requires Decode(data).Ok? && 1 <= drawn < 0xffff_ffff && |address| == 16
    requires outcome.Text? ==> |outcome.text| <= 255
    ensures var q := Decode(data).value; var reply := ReplyFor(q, outcome, drawn, address);
            && (reply.None? <==> outcome == Silence || outcome.Process?)
            && (reply.Some? ==> Arrives(q, reply.value, if outcome == Refused then 3 else 0)
                                && Says(Encode(reply.value).value, q, outcome, address))
  {
    hide Decode, Encode, Same, SignalAddress, ReplyTo, Word, Number, NoRecord, OneRecord;
    var q := Decode(data).value;
    SignalIsReadable(drawn, true);
    SignalIsReadable(drawn, false);
    match outcome
    case Refused =>
      AnswersReach(data, NxDomain, []);
      NoRecordFollows(q, NxDomain);
    case Empty =>
      AnswersReach(data, Success, []);
      NoRecordFollows(q, Success);
    case AnyIpv6 => RecordReaches(data, Answer(AAAA, q.class_, DEFAULT_TTL, address));
    case SendMore =>
      RecordReaches(data, Answer(A, q.class_, DEFAULT_TTL, SignalAddress(drawn, true)));
      SignalIsLastOctet(Encode(Ipv4Reply(q, SignalAddress(drawn, true))).value, q.class_, SignalAddress(drawn, true));
    case Ready =>
      RecordReaches(data, Answer(A, q.class_, DEFAULT_TTL, SignalAddress(drawn, false)));
      SignalIsLastOctet(Encode(Ipv4Reply(q, SignalAddress(drawn, false))).value, q.class_, SignalAddress(drawn, false));
    case Text(_, text) => RecordReaches(data, Answer(TXT, q.class_, DEFAULT_TTL, [|text|] + text));
    case _ =>
  }

  lemma RecordReaches(data: Bytes, a: Answer)
    requires Decode(data).Ok? && |a.data| <= 256 && a.class_ == Decode(data).value.class_ && a.ttl == DEFAULT_TTL
    ensures var q := Decode(data).value; var reply := ReplyTo(q, Success, [a]);
            Arrives(q, reply, 0) && OneRecord(Encode(reply).value, Code(a.kind), q.class_, a.data)
  {
    hide Decode, Encode, Arrives, ReplyTo, OneRecord;
    AnswersReach(data, Success, [a]);
    OneRecordFollows(Decode(data).value, Success, a);
  }

  /** From query to reply: whatever the state, the client of a query that decodes reads what the server decided. */
  lemma EveryReplyIsRead(s: State, data: Bytes, to: Settings, drawn: nat, address: Bytes)
    requires Decode(data).Ok? && 1 <= drawn < 0xffff_ffff && |address| == 16
    ensures var q := Decode(data).value; var outcome := Handle(s, Query(q), to).1;
            var reply := ReplyFor(q, outcome, drawn, address);
            && (reply.None? <==> outcome == Silence || outcome.Process?)
            && (reply.Some? ==> Arrives(q, reply.value, if outcome == Refused then 3 else 0)
                                && Says(Encode(reply.value).value, q, outcome, address))
  {
    hide Decode, Arrives, Handle, Says, ReplyFor;
    var q := Decode(data).value;
    HandledTextFits(s, Query(q), to);
    ReplyIsRead(data, Handle(s, Query(q), to).1, drawn, address);
  }
}
