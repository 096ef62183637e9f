/** DNS messages as the contact encodes and decodes them, and how RFC 1035 reads them. */
module DnsCodec {
  import opened Text

  // ---------- numbers ----------

  function Pow256(w: nat): (p: nat)
    ensures p > 0
  {
    if w == 0 then 1 else 256 * Pow256(w - 1)
  }

  /** `n.to_bytes(w, 'big')` for a number that fits. */
  function Put(n: nat, w: nat): (b: Bytes)
    requires n < Pow256(w)
    ensures |b| == w
  {
    if w == 0 then [] else Put(n / 256, w - 1) + [n % 256]
  }

  /** `n.to_bytes(w, 'big')`, which raises when the number does not fit. */
  function ToBytes(n: nat, w: nat): Result<Bytes> {
    if n < Pow256(w) then Ok(Put(n, w)) else Err("OverflowError")
  }

  /** `int.from_bytes(b, 'big')`. */
  function Number(b: Bytes): nat {
    if b == [] then 0 else 256 * Number(b[..|b| - 1]) + b[|b| - 1]
  }

  lemma {:induction false} NumberOfPut(n: nat, w: nat)
    requires n < Pow256(w)
    ensures Number(Put(n, w)) == n
  {
    if w > 0 {
      NumberOfPut(n / 256, w - 1);
      assert Put(n, w)[..w - 1] == Put(n / 256, w - 1);
    }
  }

  /** `data[i:j]`, which never raises. */
  function Slice(data: Bytes, i: nat, j: nat): Bytes {
    if i >= |data| || i >= j then [] else if j <= |data| then data[i..j] else data[i..]
  }

  // ---------- messages ----------

  datatype RecordType = A | NS | CNAME | TXT | AAAA

  function Code(t: RecordType): nat {
    match t case A => 1 case NS => 2 case CNAME => 5 case TXT => 16 case AAAA => 28
  }

  function RecordTypeOf(code: nat): Option<RecordType> {
    match code case 1 => Some(A) case 2 => Some(NS) case 5 => Some(CNAME) case 16 => Some(TXT) case 28 => Some(AAAA) case _ => None
  }

  datatype Packet = Packet(id: nat, flags: bv16, questions: nat, answerRrs: nat, authRrs: nat, additionalRrs: nat,
                           labels: seq<string>, kind: RecordType, class_: nat)

  datatype Answer = Answer(kind: RecordType, class_: nat, ttl: nat, data: Bytes)

  datatype Response = Response(packet: Packet, answers: seq<Answer>)

  // ---------- names ----------

  predicate Ascii(s: string) {
    forall c | c in s :: c < 128 as char
  }

  function Octet(c: char): (b: Byte)
    ensures c < 128 as char ==> b == c as int
  {
    if c < 128 as char then c as int else 0
  }

  function CharBytes(s: string): (b: Bytes)
    ensures |b| == |s|
  {
    seq<Byte>(|s|, i requires 0 <= i < |s| => Octet(s[i]))
  }

  /** Decoding a label; bytes above ASCII are not modelled. */
  function BytesText(b: Bytes): Result<string> {
    if exists x :: x in b && x >= 128 then Err("UnicodeDecodeError")
    else Ok(seq(|b|, i requires 0 <= i < |b| => b[i] as char))
  }

  lemma TextRoundTrip(s: string)
    requires Ascii(s)
    ensures BytesText(CharBytes(s)) == Ok(s)
  {
    var b := CharBytes(s);
    forall i | 0 <= i < |b| ensures b[i] < 128 && b[i] as char == s[i] {
      assert s[i] in s;
    }
    assert !exists x :: x in b && x >= 128;
    assert BytesText(b).value == s;
  }

  /** `_get_qname_bytes`: the labels with their lengths, and the root. */
  function NameBytes(labels: seq<string>): Result<Bytes> {
    if labels == [] then Ok([0])
    else if |labels[0]| >= 256 then Err("OverflowError")
    else if !Ascii(labels[0]) then Err("UnicodeEncodeError")
    else
      var rest := NameBytes(labels[1..]);
      if rest.Err? then rest else Ok([|labels[0]|] + CharBytes(labels[0]) + rest.value)
  }

  /** `_parse_qname_labels`: the labels, and the length of the name in the message. */
  function ParseName(data: Bytes): Result<(seq<string>, nat)>
    decreases |data|
  {
    if data == [] || data[0] == 0 then Ok(([], 1))
    else
      var n: nat := data[0];
      var text := BytesText(Slice(data, 1, 1 + n));
      var rest := ParseName(Slice(data, 1 + n, |data|));
      if text.Err? then Err(text.error)
      else if rest.Err? then rest
      else Ok(([text.value] + rest.value.0, 1 + n + rest.value.1))
  }

  method GetQnameBytes(labels: seq<string>) returns (r: Result<Bytes>)
    ensures r == NameBytes(labels)
  {
    var bytes: Bytes := [];
    ghost var whole := NameBytes(labels);
    assert labels[0..] == labels && (whole.Ok? ==> bytes + whole.value == whole.value);
    for n := 0 to |labels|
      invariant whole == (var rest := NameBytes(labels[n..]); if rest.Err? then rest else Ok(bytes + rest.value))
    {
      assert labels[n..][1..] == labels[n + 1..];
      var name := labels[n];
      if |name| >= 256 {
        return Err("OverflowError");
      }
      if !Ascii(name) {
        return Err("UnicodeEncodeError");
      }
      ghost var rest := NameBytes(labels[n + 1..]);
      assert rest.Ok? ==> bytes + ([|name|] + CharBytes(name) + rest.value) == bytes + [|name|] + CharBytes(name) + rest.value;
      bytes := bytes + [|name|] + CharBytes(name);
    }
    assert labels[|labels|..] == [];
    r := Ok(bytes + [0]);
  }

  /** What is known of a name once some labels are read. */
  function Resume(parts: seq<string>, length: nat, rest: Result<(seq<string>, nat)>): Result<(seq<string>, nat)> {
    if rest.Err? then rest else Ok((parts + rest.value.0, length + rest.value.1))
  }

  lemma ResumeStep(parts: seq<string>, length: nat, data: Bytes)
    requires data != [] && data[0] != 0
    ensures var n: nat := data[0]; var text := BytesText(Slice(data, 1, 1 + n));
            Resume(parts, length, ParseName(data))
            == if text.Err? then Err(text.error)
               else Resume(parts + [text.value], length + 1 + n, ParseName(Slice(data, 1 + n, |data|)))
  {
    var n: nat := data[0];
    var text, rest := BytesText(Slice(data, 1, 1 + n)), ParseName(Slice(data, 1 + n, |data|));
    if text.Ok? && rest.Ok? {
      assert parts + ([text.value] + rest.value.0) == parts + [text.value] + rest.value.0;
    }
  }

  lemma NameEnds(data: Bytes)
    requires data == [] || data[0] == 0
    ensures ParseName(data) == Ok(([], 1))
  {
  }

  lemma SliceIsShorter(data: Bytes, i: nat)
    requires data != [] && i > 0
    ensures |Slice(data, i, |data|)| < |data|
  {
  }

  method ParseQnameLabels(data: Bytes) returns (r: Result<(seq<string>, nat)>)
    ensures r == ParseName(data)
  {
    hide ParseName, BytesText, Slice;
    var remaining, parts, length: nat := data, [], 1;
    ghost var whole := ParseName(data);
    assert whole.Ok? ==> parts + whole.value.0 == whole.value.0;
    while remaining != [] && remaining[0] != 0
      invariant length >= 1
      invariant ParseName(data) == Resume(parts, length - 1, ParseName(remaining))
      decreases |remaining|
    {
      ResumeStep(parts, length - 1, remaining);
      var n: nat := remaining[0];
      SliceIsShorter(remaining, 1 + n);
      var text := BytesText(Slice(remaining, 1, 1 + n));
      if text.Err? {
        return Err(text.error);
      }
      parts := parts + [text.value];
      remaining := Slice(remaining, 1 + n, |remaining|);
      length := length + 1 + n;
    }
    NameEnds(remaining);
    assert parts + [] == parts;
    r := Ok((parts, length));
  }

  // ---------- encoding and decoding ----------

  function Concat(a: Result<Bytes>, b: Result<Bytes>): Result<Bytes> {
    if a.Err? then a else if b.Err? then b else Ok(a.value + b.value)
  }

  /** A number and the width it is written with. */
  type Field = (nat, nat)

  /** Fields one after the other. */
  function FieldsBytes(fs: seq<Field>): Result<Bytes> {
    if fs == [] then Ok([]) else Concat(ToBytes(fs[0].0, fs[0].1), FieldsBytes(fs[1..]))
  }

  function HeaderFields(p: Packet): seq<Field> {
    [(p.id, 2), (p.flags as nat, 2), (p.questions, 2), (p.answerRrs, 2), (p.authRrs, 2), (p.additionalRrs, 2)]
  }

  function QueryFields(p: Packet): seq<Field> {
    [(Code(p.kind), 2), (p.class_, 2)]
  }

  /** 0xc00c: a pointer to offset 12, where the question name starts. */
  const STANDARD_POINTER := 0xc00c

  function AnswerFields(a: Answer): seq<Field> {
    [(STANDARD_POINTER, 2), (Code(a.kind), 2), (a.class_, 2), (a.ttl, 4), (|a.data|, 2)]
  }

  function HeaderBytes(p: Packet): Result<Bytes> {
    FieldsBytes(HeaderFields(p))
  }

  function QueryBytes(p: Packet): Result<Bytes> {
    Concat(NameBytes(p.labels), FieldsBytes(QueryFields(p)))
  }

  function AnswerBytes(a: Answer): Result<Bytes> {
    Concat(FieldsBytes(AnswerFields(a)), Ok(a.data))
  }

  function AnswersBytes(answers: seq<Answer>): Result<Bytes> {
    if answers == [] then Ok([]) else Concat(AnswerBytes(answers[0]), AnswersBytes(answers[1..]))
  }

  /** `DnsResponse.get_bytes`. */
  function Encode(r: Response): Result<Bytes> {
    Concat(Concat(HeaderBytes(r.packet), QueryBytes(r.packet)), AnswersBytes(r.answers))
  }

  function Word(data: Bytes, i: nat): nat {
    Number(Slice(data, i, i + 2))
  }

  /** `generate_packet_from_bytes`. */
  function Decode(data: Bytes): Result<Packet> {
    var name := ParseName(Slice(data, 12, |data|));
    if name.Err? then Err(name.error)
    else
      var at := 12 + name.value.1;
      var kind := RecordTypeOf(Word(data, at));
      if kind.None? then Err("ValueError")
      else Ok(Packet(Word(data, 0), WordBits(data, 2), Word(data, 4), Word(data, 6), Word(data, 8), Word(data, 10),
                     name.value.0, kind.value, Word(data, at + 2)))
  }

  function WordBits(data: Bytes, i: nat): bv16 {
    SmallWord(data, i);
    Word(data, i) as bv16
  }

  lemma SmallWord(data: Bytes, i: nat)
    ensures Word(data, i) < 0x1_0000
  {
    var s := Slice(data, i, i + 2);
    assert |s| <= 2;
    if |s| == 2 {
      assert Number(s) == 256 * Number(s[..1]) + s[1];
      assert Number(s[..1]) == 256 * Number(s[..1][..0]) + s[0];
    } else if |s| == 1 {
      assert Number(s) == 256 * Number(s[..0]) + s[0];
    }
  }
}
