/** Replies to a query: their header flags, and that every one of them reaches its client intact. */
module DnsReplies {
  import opened Text
  import opened DnsCodec
  import opened DnsTheorems

  // ---------- header flags (section 4.1.1 of RFC 1035) ----------

  const QUERY_RESPONSE: bv16 := 0x8000
  const AUTHORITATIVE: bv16 := 0x0400
  const TRUNCATED: bv16 := 0x0200
  const RECURSION_DESIRED: bv16 := 0x0100
  const RECURSION_AVAILABLE: bv16 := 0x0080
  const OPCODE_MASK: bv16 := 0x7800
  const RESPONSE_CODE_MASK: bv16 := 0x000f

  predicate HasFlag(flags: bv16, flag: bv16) {
    flags & flag != 0
  }

  function Opcode(flags: bv16): bv16 {
    (flags & OPCODE_MASK) >> 11
  }

  function ResponseCode(flags: bv16): bv16 {
    flags & RESPONSE_CODE_MASK
  }

  datatype ReplyCode = Success | NxDomain

  function ReplyBits(c: ReplyCode): bv16 {
    match c case Success => 0 case NxDomain => 3
  }

  function Given(b: bool, flag: bv16): bv16 {
    if b then flag else 0
  }

  function ReplyFlags(query: bv16, code: ReplyCode, authoritative: bool, recursionAvailable: bool, truncated: bool): bv16 {
    0 | QUERY_RESPONSE | (Opcode(query) << 11) | Given(authoritative, AUTHORITATIVE) | Given(truncated, TRUNCATED)
    | Given(HasFlag(query, RECURSION_DESIRED), RECURSION_DESIRED) | Given(recursionAvailable, RECURSION_AVAILABLE) | ReplyBits(code)
  }

  /** A reply is a response that keeps the opcode and RD of its query and carries the rest as given. */
  lemma ReplyFlagsMean(query: bv16, code: ReplyCode, authoritative: bool, recursionAvailable: bool, truncated: bool)
    ensures var f := ReplyFlags(query, code, authoritative, recursionAvailable, truncated);
            && HasFlag(f, QUERY_RESPONSE) && Opcode(f) == Opcode(query)
            && (HasFlag(f, RECURSION_DESIRED) <==> HasFlag(query, RECURSION_DESIRED))
            && (HasFlag(f, AUTHORITATIVE) <==> authoritative) && (HasFlag(f, TRUNCATED) <==> truncated)
            && (HasFlag(f, RECURSION_AVAILABLE) <==> recursionAvailable) && ResponseCode(f) == ReplyBits(code)
  {
  }

  // ---------- replies ----------

  /** `generate_response_for_query`. */
  function ReplyTo(query: Packet, code: ReplyCode, answers: seq<Answer>,
                   authoritative: bool := true, recursionAvailable: bool := false, truncated: bool := false): Response {
    Response(Packet(query.id, ReplyFlags(query.flags, code, authoritative, recursionAvailable, truncated),
                    query.questions, |answers|, 0, 0, query.labels, query.kind, query.class_), answers)
  }

  const DEFAULT_TTL := 300

  function NxDomainReply(query: Packet): Response {
    ReplyTo(query, NxDomain, [])
  }

  function EmptyReply(query: Packet): Response {
    ReplyTo(query, Success, [])
  }

  function Ipv4Reply(query: Packet, address: Bytes): Response {
    ReplyTo(query, Success, [Answer(A, query.class_, DEFAULT_TTL, address)])
  }

  function Ipv6Reply(query: Packet, address: Bytes): Response {
    ReplyTo(query, Success, [Answer(AAAA, query.class_, DEFAULT_TTL, address)])
  }

  /** A TXT answer is one length byte and the text. */
  function TxtReply(query: Packet, text: Bytes): Result<Response> {
    if |text| >= 256 then Err("OverflowError")
    else Ok(ReplyTo(query, Success, [Answer(TXT, query.class_, DEFAULT_TTL, [|text|] + text)]))
  }

  /** The number drawn, made even or odd. */
  function SignalNumber(drawn: nat, lastOctetEven: bool): (n: nat)
    requires drawn < 0xffff_ffff
    ensures n <= 0xffff_ffff && (n % 2 == 0 <==> lastOctetEven)
  {
    if (drawn % 2 == 0) == lastOctetEven then drawn else drawn + 1
  }

  /** `_generate_random_ipv4_response` for the number drawn. */
  function SignalAddress(drawn: nat, lastOctetEven: bool): Bytes
    requires 1 <= drawn < 0xffff_ffff
  {
    Powers();
    Put(SignalNumber(drawn, lastOctetEven), 4)
  }

  lemma Parity(n: nat)
    ensures n % 256 % 2 == n % 2
  {
  }

  lemma LastByte(n: nat, w: nat)
    requires w > 0 && n < Pow256(w)
    ensures Put(n, w)[w - 1] == n % 256
  {
  }

  /** The signal a client reads from the last octet: even for "send more", odd for "ready". */
  lemma SignalIsReadable(drawn: nat, lastOctetEven: bool)
    requires 1 <= drawn < 0xffff_ffff
    ensures var a := SignalAddress(drawn, lastOctetEven); |a| == 4 && (a[3] % 2 == 0 <==> lastOctetEven)
  {
    hide Put, Pow256, SignalNumber;
    Powers();
    LastByte(SignalNumber(drawn, lastOctetEven), 4);
    Parity(SignalNumber(drawn, lastOctetEven));
  }

  // ---------- which replies can be encoded ----------

  predicate AllFit(fs: seq<Field>) {
    forall k :: 0 <= k < |fs| ==> fs[k].0 < Pow256(fs[k].1)
  }

  lemma {:induction false} FieldsFit(fs: seq<Field>)
    ensures FieldsBytes(fs).Ok? <==> AllFit(fs)
  {
    hide Pow256;
    if fs != [] {
      FieldsFit(fs[1..]);
      assert AllFit(fs) <==> fs[0].0 < Pow256(fs[0].1) && AllFit(fs[1..]) by {
        assert fs == [fs[0]] + fs[1..];
      }
    }
  }

  predicate AnswerFits(a: Answer) {
    a.class_ < 0x1_0000 && a.ttl < 0x1_0000_0000 && |a.data| < 0x1_0000
  }

  predicate AnswersFit(answers: seq<Answer>) {
    forall k :: 0 <= k < |answers| ==> AnswerFits(answers[k])
  }

  lemma AnswerEncodable(a: Answer)
    ensures AnswerBytes(a).Ok? <==> AnswerFits(a)
  {
    var fs := AnswerFields(a);
    FieldsFit(fs);
    Powers();
    assert fs[2] == (a.class_, 2) && fs[3] == (a.ttl, 4) && fs[4] == (|a.data|, 2);
  }

  lemma {:induction false} AnswersEncodable(answers: seq<Answer>)
    ensures AnswersBytes(answers).Ok? <==> AnswersFit(answers)
  {
    hide AnswerFits, AnswerBytes;
    if answers != [] {
      AnswerEncodable(answers[0]);
      AnswersEncodable(answers[1..]);
      assert AnswersFit(answers) <==> AnswerFits(answers[0]) && AnswersFit(answers[1..]) by {
        assert answers == [answers[0]] + answers[1..];
      }
    }
  }

  predicate PacketFits(p: Packet) {
    p.id < 0x1_0000 && p.questions < 0x1_0000 && p.answerRrs < 0x1_0000 && p.authRrs < 0x1_0000 && p.additionalRrs < 0x1_0000
    && p.class_ < 0x1_0000
  }

  lemma HeaderEncodable(p: Packet)
    requires PacketFits(p)
    ensures HeaderBytes(p).Ok? && FieldsBytes(QueryFields(p)).Ok?
  {
    Powers();
    FieldsFit(HeaderFields(p));
    FieldsFit(QueryFields(p));
  }

  lemma HeaderTooLarge(p: Packet)
    requires p.answerRrs >= 0x1_0000
    ensures HeaderBytes(p).Err?
  {
    Powers();
    FieldsFit(HeaderFields(p));
    assert HeaderFields(p)[3] == (p.answerRrs, 2);
  }

  lemma DecodedFits(data: Bytes)
    requires Decode(data).Ok?
    ensures PacketFits(Decode(data).value)
  {
    hide Word, ParseName;
    var name := ParseName(Slice(data, 12, |data|));
    SmallWord(data, 0);
    SmallWord(data, 4);
    SmallWord(data, 6);
    SmallWord(data, 8);
    SmallWord(data, 10);
    SmallWord(data, 12 + name.value.1 + 2);
  }

  /** A reply to a query that was decoded can be encoded if and only if its answers fit their fields. */
  lemma ReplyEncodable(data: Bytes, code: ReplyCode, answers: seq<Answer>, aa: bool, ra: bool, tc: bool)
    requires Decode(data).Ok?
    ensures Encodable(ReplyTo(Decode(data).value, code, answers, aa, ra, tc)) <==> |answers| < 0x1_0000 && AnswersFit(answers)
  {
    hide Decode, NameBytes, HeaderBytes, FieldsBytes, AnswersBytes, AnswersFit, ReplyFlags;
    var p := ReplyTo(Decode(data).value, code, answers, aa, ra, tc).packet;
    DecodedFits(data);
    DecodedLabelsAreWhole(data);
    AnswersEncodable(answers);
    if |answers| < 0x1_0000 {
      HeaderEncodable(p);
    } else {
      HeaderTooLarge(p);
    }
  }

  /**
   End to end: the reply to any query that decodes, whatever its flags and answers, is decoded by the
   client to the id, name, type and class it asked about, as a response with its own opcode and RD.
   */
  lemma ReplyReachesClient(data: Bytes, code: ReplyCode, answers: seq<Answer>, aa: bool, ra: bool, tc: bool)
    requires Decode(data).Ok? && |answers| < 0x1_0000 && AnswersFit(answers)
    ensures var query := Decode(data).value;
            var sent := Encode(ReplyTo(query, code, answers, aa, ra, tc));
            && sent.Ok? && Decode(sent.value).Ok?
            && var seen := Decode(sent.value).value;
            && seen.id == query.id && seen.labels == query.labels && seen.kind == query.kind && seen.class_ == query.class_
            && seen.questions == query.questions && seen.answerRrs == |answers|
            && HasFlag(seen.flags, QUERY_RESPONSE) && Opcode(seen.flags) == Opcode(query.flags)
            && (HasFlag(seen.flags, RECURSION_DESIRED) <==> HasFlag(query.flags, RECURSION_DESIRED))
            && (HasFlag(seen.flags, AUTHORITATIVE) <==> aa) && (HasFlag(seen.flags, RECURSION_AVAILABLE) <==> ra)
            && (HasFlag(seen.flags, TRUNCATED) <==> tc) && ResponseCode(seen.flags) == ReplyBits(code)
  {
    hide Decode, Encode, ReplyFlags, NonEmpty, AnswersFit, Opcode, HasFlag, ResponseCode;
    var query := Decode(data).value;
    var r := ReplyTo(query, code, answers, aa, ra, tc);
    ReplyEncodable(data, code, answers, aa, ra, tc);
    DecodedLabelsAreWhole(data);
    DecodeOfEncode(r);
    ReplyFlagsMean(query.flags, code, aa, ra, tc);
  }

  /**
   A client that reads by RFC 1035 finds its question and the answers in the reply exactly if its query
   counted one question and had labels of 1 to 63 bytes: the query's count is copied.
   */
  lemma RfcReadsReply(data: Bytes, code: ReplyCode, answers: seq<Answer>, aa: bool, ra: bool, tc: bool)
    requires Decode(data).Ok? && |answers| < 0x1_0000 && AnswersFit(answers)
    ensures var query := Decode(data).value; var reply := ReplyTo(query, code, answers, aa, ra, tc);
            Encodable(reply)
            && (RfcMessage(Encode(reply).value) == Some(Meant(reply)) <==> query.questions == 1 && RfcLabels(query.labels))
  {
    hide Decode, Encode, RfcMessage, Meant, RfcLabels, ReplyFlags, AnswersFit;
    ReplyEncodable(data, code, answers, aa, ra, tc);
    RfcReadsResponse(ReplyTo(Decode(data).value, code, answers, aa, ra, tc));
  }
}
