/** Round trips of the DNS codec, and its agreement with RFC 1035. */
module DnsTheorems {
  import opened Text
  import opened DnsCodec

  // ---------- names ----------

  predicate NonEmpty(labels: seq<string>) {
    forall l | l in labels :: l != ""
  }

  /** The labels before the first empty one. */
  function BeforeEmpty(labels: seq<string>): seq<string> {
    if labels == [] || labels[0] == "" then [] else [labels[0]] + BeforeEmpty(labels[1..])
  }

  lemma {:induction false} BeforeEmptyIsAll(labels: seq<string>)
    ensures BeforeEmpty(labels) == labels <==> NonEmpty(labels)
  {
    if labels != [] && labels[0] != "" {
      BeforeEmptyIsAll(labels[1..]);
      assert labels == [labels[0]] + labels[1..];
      assert forall l :: l in labels <==> l == labels[0] || l in labels[1..];
    } else if labels != [] {
      assert labels[0] in labels;
    }
  }

  // ---------- bytes at a place in a message ----------

  predicate At(m: Bytes, i: nat, b: Bytes) {
    i + |b| <= |m| && m[i..i + |b|] == b
  }

  lemma AtParts(m: Bytes, i: nat, a: Bytes, b: Bytes)
    requires At(m, i, a + b)
    ensures At(m, i, a) && At(m, i + |a|, b)
  {
    assert m[i..i + |a|] == (a + b)[..|a|];
    assert m[i + |a|..i + |a| + |b|] == (a + b)[|a|..];
  }

  lemma SliceAt(m: Bytes, i: nat, b: Bytes)
    requires At(m, i, b)
    ensures Slice(m, i, i + |b|) == b
  {
  }

  lemma ByteAt(m: Bytes, i: nat, b: Bytes, k: nat)
    requires At(m, i, b) && k < |b|
    ensures m[i + k] == b[k]
  {
    assert m[i..i + |b|][k] == b[k];
  }

  lemma DropAt(m: Bytes, i: nat, b: Bytes)
    requires At(m, i, b)
    ensures At(m[i..], 0, b) && Slice(m, i, |m|) == m[i..]
  {
    assert m[i..][0..|b|] == m[i..i + |b|];
  }

  /** An encoded name starts with its first label, and goes on with the others. */
  lemma {:induction false} NameSteps(m: Bytes, at: nat, labels: seq<string>)
    requires labels != [] && NameBytes(labels).Ok? && At(m, at, NameBytes(labels).value)
    ensures var l, rest := labels[0], NameBytes(labels[1..]);
            rest.Ok? && Ascii(l) && |NameBytes(labels).value| == 1 + |l| + |rest.value|
            && at + 1 + |l| <= |m| && m[at] == |l| && m[at + 1..at + 1 + |l|] == CharBytes(l) && At(m, at + 1 + |l|, rest.value)
  {
    var l, rest := labels[0], NameBytes(labels[1..]).value;
    var head: Bytes := [|l|];
    var n := NameBytes(labels).value;
    assert n == head + (CharBytes(l) + rest);
    ByteAt(m, at, n, 0);
    AtParts(m, at, head, CharBytes(l) + rest);
    AtParts(m, at + 1, CharBytes(l), rest);
  }

  lemma RootEnds(data: Bytes)
    requires data != [] && data[0] == 0
    ensures ParseName(data) == Ok(([], 1))
  {
  }

  /** A name whose bytes start with an empty label, or with none, starts with 0. */
  lemma EmptyLabelIsRoot(m: Bytes, at: nat, labels: seq<string>)
    requires NameBytes(labels).Ok? && At(m, at, NameBytes(labels).value) && (labels == [] || labels[0] == "")
    ensures at < |m| && m[at] == 0 && (labels == [] ==> |NameBytes(labels).value| == 1)
  {
    ByteAt(m, at, NameBytes(labels).value, 0);
  }

  lemma SliceIs(data: Bytes, i: nat, j: nat)
    requires i <= j <= |data|
    ensures Slice(data, i, j) == data[i..j]
  {
  }

  lemma ParseFirst(data: Bytes, l: string)
    requires l != "" && Ascii(l) && 1 + |l| <= |data| && data[0] == |l| && data[1..1 + |l|] == CharBytes(l)
    ensures var rest := ParseName(data[1 + |l|..]);
            ParseName(data) == if rest.Err? then rest else Ok(([l] + rest.value.0, 1 + |l| + rest.value.1))
  {
    hide CharBytes, BytesText, Ascii, Slice;
    TextRoundTrip(l);
    SliceFits(data, 1 + |l|);
    SliceIs(data, 1, 1 + |l|);
  }

  /** An encoded name reads back up to its first empty label, whatever follows it. */
  lemma {:induction false} NameReadsBack(data: Bytes, labels: seq<string>)
    requires NameBytes(labels).Ok? && At(data, 0, NameBytes(labels).value)
    ensures var r := ParseName(data);
            r.Ok? && r.value.0 == BeforeEmpty(labels)
            && (NonEmpty(labels) ==> r.value.1 == |NameBytes(labels).value|)
    decreases |labels|
  {
    hide ParseName, NameBytes, At, CharBytes, Ascii;
    if labels != [] && labels[0] != "" {
      var l := labels[0];
      NameSteps(data, 0, labels);
      ParseFirst(data, l);
      DropAt(data, 1 + |l|, NameBytes(labels[1..]).value);
      NameReadsBack(data[1 + |l|..], labels[1..]);
      TailNonEmpty(labels);
    } else {
      EmptyLabelIsRoot(data, 0, labels);
      RootEnds(data);
      if labels != [] { assert labels[0] in labels; }
    }
  }

  lemma TailNonEmpty(labels: seq<string>)
    requires labels != []
    ensures NonEmpty(labels) ==> NonEmpty(labels[1..])
  {
    assert forall k | k in labels[1..] :: k in labels;
  }

  // ---------- fixed-width fields ----------

  lemma Powers()
    ensures Pow256(2) == 0x1_0000 && Pow256(4) == 0x1_0000_0000
  {
    assert Pow256(1) == 256 && Pow256(3) == 0x100_0000;
  }

  predicate Encodable(r: Response) {
    Encode(r).Ok?
  }

  /** Where the k-th field starts. */
  function Offset(fs: seq<Field>, k: nat): nat
    requires k <= |fs|
  {
    if k == 0 then 0 else fs[0].1 + Offset(fs[1..], k - 1)
  }

  lemma FirstField(m: Bytes, i: nat, fs: seq<Field>)
    requires fs != [] && FieldsBytes(fs).Ok? && At(m, i, FieldsBytes(fs).value)
    ensures Number(Slice(m, i, i + fs[0].1)) == fs[0].0
    ensures FieldsBytes(fs[1..]).Ok? && At(m, i + fs[0].1, FieldsBytes(fs[1..]).value)
  {
    var first, more := Put(fs[0].0, fs[0].1), FieldsBytes(fs[1..]).value;
    AtParts(m, i, first, more);
    SliceAt(m, i, first);
    NumberOfPut(fs[0].0, fs[0].1);
  }

  /** Consecutive fields read back, each at its place. */
  lemma {:induction false} FieldReadsBack(m: Bytes, i: nat, fs: seq<Field>, k: nat)
    requires FieldsBytes(fs).Ok? && k < |fs| && At(m, i, FieldsBytes(fs).value)
    ensures Number(Slice(m, i + Offset(fs, k), i + Offset(fs, k) + fs[k].1)) == fs[k].0
    decreases |fs|
  {
    hide Number, Slice;
    FirstField(m, i, fs);
    if k > 0 {
      FieldReadsBack(m, i + fs[0].1, fs[1..], k - 1);
    }
  }

  lemma {:induction false} FieldsSize(fs: seq<Field>)
    requires FieldsBytes(fs).Ok?
    ensures |FieldsBytes(fs).value| == Offset(fs, |fs|)
  {
    if fs != [] { FieldsSize(fs[1..]); }
  }

  /** Offsets in a list of fields, one after the other. */
  lemma {:induction false} OffsetStep(fs: seq<Field>, k: nat)
    requires k < |fs|
    ensures Offset(fs, k + 1) == Offset(fs, k) + fs[k].1
  {
    if k > 0 { OffsetStep(fs[1..], k - 1); }
  }

  lemma HeaderOffsets(p: Packet)
    ensures var fs := HeaderFields(p);
            Offset(fs, 0) == 0 && Offset(fs, 1) == 2 && Offset(fs, 2) == 4 && Offset(fs, 3) == 6 && Offset(fs, 4) == 8
            && Offset(fs, 5) == 10 && Offset(fs, 6) == 12
  {
    var fs := HeaderFields(p);
    OffsetStep(fs, 0);
    OffsetStep(fs, 1);
    OffsetStep(fs, 2);
    OffsetStep(fs, 3);
    OffsetStep(fs, 4);
    OffsetStep(fs, 5);
  }

  /** The twelve header bytes, field by field (section 4.1.1 of RFC 1035). */
  lemma HeaderReadsBack(m: Bytes, p: Packet)
    requires HeaderBytes(p).Ok? && At(m, 0, HeaderBytes(p).value)
    ensures |HeaderBytes(p).value| == 12
    ensures Word(m, 0) == p.id && Word(m, 2) == p.flags as nat && Word(m, 4) == p.questions
            && Word(m, 6) == p.answerRrs && Word(m, 8) == p.authRrs && Word(m, 10) == p.additionalRrs
  {
    hide Number, Slice, Offset, FieldsBytes, At;
    var fs := HeaderFields(p);
    HeaderOffsets(p);
    FieldsSize(fs);
    FieldReadsBack(m, 0, fs, 0);
    FieldReadsBack(m, 0, fs, 1);
    FieldReadsBack(m, 0, fs, 2);
    FieldReadsBack(m, 0, fs, 3);
    FieldReadsBack(m, 0, fs, 4);
    FieldReadsBack(m, 0, fs, 5);
  }

  lemma QueryOffsets(p: Packet)
    ensures var fs := QueryFields(p); Offset(fs, 0) == 0 && Offset(fs, 1) == 2 && Offset(fs, 2) == 4
  {
    var fs := QueryFields(p);
    OffsetStep(fs, 0);
    OffsetStep(fs, 1);
  }

  /** The question section (section 4.1.2 of RFC 1035). */
  lemma QueryReadsBack(m: Bytes, i: nat, p: Packet)
    requires QueryBytes(p).Ok? && At(m, i, QueryBytes(p).value)
    ensures var n := NameBytes(p.labels);
            && n.Ok? && At(m, i, n.value) && |QueryBytes(p).value| == |n.value| + 4
            && Word(m, i + |n.value|) == Code(p.kind) && Word(m, i + |n.value| + 2) == p.class_
  {
    hide Number, Slice, Offset, FieldsBytes, NameBytes, At;
    var n, fs := NameBytes(p.labels).value, QueryFields(p);
    AtParts(m, i, n, FieldsBytes(fs).value);
    FieldsSize(fs);
    QueryOffsets(p);
    FieldReadsBack(m, i + |n|, fs, 0);
    FieldReadsBack(m, i + |n|, fs, 1);
  }

  lemma CodeReadsBack(t: RecordType)
    ensures RecordTypeOf(Code(t)) == Some(t)
  {
  }

  lemma BitsRoundTrip(x: bv16)
    ensures (x as nat) as bv16 == x
  {
  }

  /** The three parts of an encoded response, at their places. */
  lemma MessageParts(r: Response)
    requires Encodable(r)
    ensures HeaderBytes(r.packet).Ok? && QueryBytes(r.packet).Ok? && NameBytes(r.packet.labels).Ok? && AnswersBytes(r.answers).Ok?
    ensures var m, h, q, a := Encode(r).value, HeaderBytes(r.packet).value, QueryBytes(r.packet).value, AnswersBytes(r.answers).value;
            |h| == 12 && At(m, 0, h) && At(m, 12, q) && At(m, 12 + |q|, a) && |m| == 12 + |q| + |a|
  {
    var m, h, q, a := Encode(r).value, HeaderBytes(r.packet).value, QueryBytes(r.packet).value, AnswersBytes(r.answers).value;
    assert m == h + q + a;
    assert At(m, 0, h + q + a);
    AtParts(m, 0, h + q, a);
    AtParts(m, 0, h, q);
    HeaderReadsBack(m, r.packet);
  }

  /** The name is found behind the header, and its computed length is its encoded length. */
  lemma QuestionName(r: Response)
    requires Encodable(r)
    ensures var m := Encode(r).value; var name := ParseName(Slice(m, 12, |m|)); var n := NameBytes(r.packet.labels);
            n.Ok? && name.Ok? && name.value.0 == BeforeEmpty(r.packet.labels)
            && (NonEmpty(r.packet.labels) ==> name.value.1 == |n.value|)
  {
    var m := Encode(r).value;
    MessageParts(r);
    QueryReadsBack(m, 12, r.packet);
    DropAt(m, 12, NameBytes(r.packet.labels).value);
    NameReadsBack(m[12..], r.packet.labels);
  }

  /** Decoding an encoded response gives its header and question back, whatever its answers. */
  lemma DecodeOfEncode(r: Response)
    requires Encodable(r) && NonEmpty(r.packet.labels)
    ensures Decode(Encode(r).value) == Ok(r.packet)
  {
    hide Word, Encode, NameBytes, ParseName, HeaderBytes, QueryBytes, AnswersBytes, BeforeEmpty, NonEmpty, At, Slice;
    var m := Encode(r).value;
    MessageParts(r);
    HeaderReadsBack(m, r.packet);
    QueryReadsBack(m, 12, r.packet);
    QuestionName(r);
    BeforeEmptyIsAll(r.packet.labels);
    CodeReadsBack(r.packet.kind);
    BitsRoundTrip(r.packet.flags);
    SmallWord(m, 2);
  }

  /** Exactly the responses without an empty label decode to what was encoded. */
  lemma RoundTripCondition(r: Response)
    requires Encodable(r)
    ensures Decode(Encode(r).value) == Ok(r.packet) <==> NonEmpty(r.packet.labels)
  {
    if NonEmpty(r.packet.labels) {
      DecodeOfEncode(r);
    } else {
      QuestionName(r);
      BeforeEmptyIsAll(r.packet.labels);
    }
  }

  // ---------- what decoding can produce ----------

  /** A parsed name whose claimed length fits has only whole, non-empty labels, and was encoded from them. */
  lemma {:induction false} FittingNameIsWhole(data: Bytes)
    requires ParseName(data).Ok? && ParseName(data).value.1 <= |data|
    ensures var (labels, k) := ParseName(data).value;
            NonEmpty(labels) && NameBytes(labels) == Ok(data[..k])
    decreases |data|
  {
    if data == [] || data[0] == 0 {
      assert data[..1] == [0];
    } else {
      var n: nat := data[0];
      var rest := Slice(data, 1 + n, |data|);
      ParsedFirst(data, n);
      FittingNameIsWhole(rest);
      FirstLabelIsWhole(data, n, ParseName(rest).value.0, ParseName(rest).value.1);
    }
  }

  lemma SliceFits(data: Bytes, i: nat)
    ensures i <= |data| ==> Slice(data, i, |data|) == data[i..]
    ensures i > |data| ==> Slice(data, i, |data|) == []
  {
  }

  lemma ParsedFirst(data: Bytes, n: nat)
    requires ParseName(data).Ok? && ParseName(data).value.1 <= |data| && data != [] && n == data[0] && 0 < n
    ensures 1 + n < |data| && Slice(data, 1 + n, |data|) == data[1 + n..]
    ensures var text, rest := BytesText(Slice(data, 1, 1 + n)), ParseName(Slice(data, 1 + n, |data|));
            text.Ok? && rest.Ok? && ParseName(data).value == ([text.value] + rest.value.0, 1 + n + rest.value.1)
  {
    var rest := Slice(data, 1 + n, |data|);
    assert ParseName(rest).Ok?;
    LengthIsPositive(rest);
    SliceFits(data, 1 + n);
  }

  lemma FirstLabelIsWhole(data: Bytes, n: nat, labels: seq<string>, k: nat)
    requires data != [] && n == data[0] && 0 < n && 1 + n + k <= |data|
    requires BytesText(Slice(data, 1, 1 + n)).Ok?
    requires NonEmpty(labels) && NameBytes(labels) == Ok(data[1 + n..][..k])
    ensures var all := [BytesText(Slice(data, 1, 1 + n)).value] + labels;
            NonEmpty(all) && NameBytes(all) == Ok(data[..1 + n + k])
  {
    var text := data[1..1 + n];
    assert Slice(data, 1, 1 + n) == text;
    TextBytes(text);
    var all := [BytesText(text).value] + labels;
    assert all[1..] == labels;
    assert data[..1 + n + k] == [n] + text + data[1 + n..][..k];
  }

  lemma LengthIsPositive(data: Bytes)
    requires ParseName(data).Ok?
    ensures ParseName(data).value.1 >= 1
  {
  }

  lemma TextBytes(b: Bytes)
    requires BytesText(b).Ok?
    ensures var s := BytesText(b).value; |s| == |b| && Ascii(s) && CharBytes(s) == b
  {
    var s := BytesText(b).value;
    forall c | c in s ensures c < 128 as char {
      var i :| 0 <= i < |s| && s[i] == c;
      assert b[i] in b;
    }
    forall i | 0 <= i < |b| ensures CharBytes(s)[i] == b[i] {
      assert b[i] in b;
    }
  }

  /** Every message that decodes has non-empty labels: a truncated one finds no record type. */
  lemma DecodedLabelsAreWhole(data: Bytes)
    requires Decode(data).Ok?
    ensures NonEmpty(Decode(data).value.labels) && NameBytes(Decode(data).value.labels).Ok?
  {
    var body := Slice(data, 12, |data|);
    var name := ParseName(body).value;
    LengthIsPositive(body);
    assert name.1 > |body| ==> Slice(data, 12 + name.1, 12 + name.1 + 2) == [];
    assert Number([]) == 0 && RecordTypeOf(0) == None;
    FittingNameIsWhole(body);
  }

  // ---------- reading as RFC 1035 prescribes ----------

  /**
   A name at an offset (section 4.1.4 of RFC 1035): labels of at most 63 bytes, ended by the root or
   by a pointer to an earlier name. `start` is where the name began; the result says where it ends.
   */
  function RfcName(m: Bytes, start: nat, at: nat): Option<(seq<string>, nat)>
    requires start <= at
    decreases start, |m| - at
  {
    if at >= |m| then None
    else if m[at] == 0 then Some(([], at + 1))
    else if m[at] >= 192 then
      if at + 1 >= |m| then None
      else
        var high: int := m[at];
        var target := (high - 192) * 256 + m[at + 1];
        if target >= start then None
        else
          var there := RfcName(m, target, target);
          if there.None? then None else Some((there.value.0, at + 2))
    else if m[at] > 63 || at + 1 + m[at] > |m| then None
    else
      var text := BytesText(m[at + 1..at + 1 + m[at]]);
      var rest := RfcName(m, start, at + 1 + m[at]);
      if text.Err? || rest.None? then None else Some(([text.value] + rest.value.0, rest.value.1))
  }

  predicate RfcLabels(labels: seq<string>) {
    forall l | l in labels :: 1 <= |l| <= 63
  }

  lemma {:induction false} RfcNamesAreShort(m: Bytes, start: nat, at: nat)
    requires start <= at && RfcName(m, start, at).Some?
    ensures RfcLabels(RfcName(m, start, at).value.0)
    decreases start, |m| - at
  {
    if m[at] == 0 {
    } else if m[at] >= 192 {
      var high: int := m[at];
      var target := (high - 192) * 256 + m[at + 1];
      RfcNamesAreShort(m, target, target);
    } else {
      RfcNamesAreShort(m, start, at + 1 + m[at]);
      var labels := RfcName(m, start, at).value.0;
      assert forall l | l in labels :: l == labels[0] || l in labels[1..];
    }
  }

  lemma RfcRoot(m: Bytes, start: nat, at: nat)
    requires start <= at && At(m, at, NameBytes([]).value)
    ensures RfcName(m, start, at) == Some(([], at + |NameBytes([]).value|))
  {
    ByteAt(m, at, [0], 0);
  }

  lemma TailLabels(labels: seq<string>)
    requires labels != [] && RfcLabels(labels)
    ensures 1 <= |labels[0]| <= 63 && RfcLabels(labels[1..])
  {
    assert labels[0] in labels;
  }

  lemma {:induction false} RfcReadsName(m: Bytes, at: nat, labels: seq<string>, start: nat)
    requires NameBytes(labels).Ok? && At(m, at, NameBytes(labels).value) && RfcLabels(labels) && start <= at
    ensures RfcName(m, start, at) == Some((labels, at + |NameBytes(labels).value|))
    decreases |labels|
  {
    hide RfcName, BytesText, CharBytes, NameBytes, Ascii, At;
    if labels == [] {
      RfcRoot(m, start, at);
    } else {
      var l := labels[0];
      NameSteps(m, at, labels);
      TailLabels(labels);
      RfcReadsName(m, at + 1 + |l|, labels[1..], start);
      RfcFirstLabel(m, start, at, l, labels[1..]);
      assert labels == [l] + labels[1..];
    }
  }

  lemma RfcFirstLabel(m: Bytes, start: nat, at: nat, l: string, more: seq<string>)
    requires start <= at && 1 <= |l| <= 63 && Ascii(l) && at + 1 + |l| <= |m| && m[at] == |l| && m[at + 1..at + 1 + |l|] == CharBytes(l)
    requires var rest := RfcName(m, start, at + 1 + |l|); rest.Some? && rest.value.0 == more
    ensures RfcName(m, start, at) == Some(([l] + more, RfcName(m, start, at + 1 + |l|).value.1))
  {
    TextRoundTrip(l);
  }

  /** One answer record of section 4.1.3: its owner, its fields, and where it ends. */
  function RfcAnswer(m: Bytes, at: nat): Option<(seq<string>, Answer, nat)> {
    var name := RfcName(m, at, at);
    if name.None? || name.value.1 + 10 > |m| then None
    else
      var p := name.value.1;
      var kind, size := RecordTypeOf(Word(m, p)), Word(m, p + 8);
      if kind.None? || p + 10 + size > |m| then None
      else Some((name.value.0, Answer(kind.value, Word(m, p + 2), Number(Slice(m, p + 4, p + 8)), Slice(m, p + 10, p + 10 + size)),
                 p + 10 + size))
  }

  type Owned = (seq<string>, Answer)

  /** `n` records from an offset, each with its owner, and where they end. */
  function RfcRecords(m: Bytes, at: nat, n: nat): (r: Option<(seq<Owned>, nat)>)
    ensures r.Some? ==> |r.value.0| == n
    decreases n
  {
    if n == 0 then Some(([], at))
    else
      var first := RfcAnswer(m, at);
      if first.None? then None
      else
        var rest := RfcRecords(m, first.value.2, n - 1);
        if rest.None? then None else Some(([(first.value.0, first.value.1)] + rest.value.0, rest.value.1))
  }

  datatype Question = Question(labels: seq<string>, kind: RecordType, class_: nat)

  /** `n` questions of section 4.1.2, and where they end. */
  function RfcQuestions(m: Bytes, at: nat, n: nat): (r: Option<(seq<Question>, nat)>)
    ensures r.Some? ==> |r.value.0| == n
    decreases n
  {
    if n == 0 then Some(([], at))
    else
      var name := RfcName(m, at, at);
      if name.None? || name.value.1 + 4 > |m| || RecordTypeOf(Word(m, name.value.1)).None? then None
      else
        var q := Question(name.value.0, RecordTypeOf(Word(m, name.value.1)).value, Word(m, name.value.1 + 2));
        var rest := RfcQuestions(m, name.value.1 + 4, n - 1);
        if rest.None? then None else Some(([q] + rest.value.0, rest.value.1))
  }

  /** What a message says: its questions, its answers, and the records of its other two sections. */
  datatype Contents = Contents(questions: seq<Question>, answers: seq<Owned>, others: seq<Owned>)

  /** A whole message: the header's counts say how many questions and records follow, and they fill it. */
  function RfcMessage(m: Bytes): Option<Contents> {
    if |m| < 12 then None
    else
      var qs := RfcQuestions(m, 12, Word(m, 4));
      if qs.None? then None
      else
        var answers := RfcRecords(m, qs.value.1, Word(m, 6));
        if answers.None? then None
        else
          var others := RfcRecords(m, answers.value.1, Word(m, 8) + Word(m, 10));
          if others.None? || others.value.1 != |m| then None
          else Some(Contents(qs.value.0, answers.value.0, others.value.0))
  }

  function OwnedBy(labels: seq<string>, answers: seq<Answer>): (r: seq<Owned>)
    ensures |r| == |answers|
  {
    seq(|answers|, i requires 0 <= i < |answers| => (labels, answers[i]))
  }

  lemma PointerBytes()
    ensures STANDARD_POINTER < Pow256(2) && Put(STANDARD_POINTER, 2) == [192, 12]
  {
    assert Put(192, 1) == [192];
  }

  /** The pointer of an answer resolves to the name at offset 12 (section 4.1.4 of RFC 1035). */
  lemma PointerResolves(m: Bytes, at: nat, labels: seq<string>, end: nat)
    requires 12 < at && at + 1 < |m| && m[at] == 192 && m[at + 1] == 12 && RfcName(m, 12, 12) == Some((labels, end))
    ensures RfcName(m, at, at) == Some((labels, at + 2))
  {
  }

  lemma AnswerOffsets(a: Answer)
    ensures var fs := AnswerFields(a);
            Offset(fs, 0) == 0 && Offset(fs, 1) == 2 && Offset(fs, 2) == 4 && Offset(fs, 3) == 6 && Offset(fs, 4) == 10
            && Offset(fs, 5) == 12
  {
    var fs := AnswerFields(a);
    OffsetStep(fs, 0);
    OffsetStep(fs, 1);
    OffsetStep(fs, 2);
    OffsetStep(fs, 3);
    OffsetStep(fs, 4);
  }

  /** Every answer starts with the pointer 0xc00c. */
  lemma StartsWithPointer(m: Bytes, at: nat, a: Answer)
    requires AnswerBytes(a).Ok? && At(m, at, AnswerBytes(a).value)
    ensures at + 1 < |m| && m[at] == 192 && m[at + 1] == 12
  {
    PointerBytes();
    var fs := AnswerFields(a);
    var ptr, more := Put(STANDARD_POINTER, 2), FieldsBytes(fs[1..]).value;
    AtParts(m, at, FieldsBytes(fs).value, a.data);
    AtParts(m, at, ptr, more);
    ByteAt(m, at, ptr, 0);
    ByteAt(m, at, ptr, 1);
  }

  /** An answer's fields, from behind its owner name (section 4.1.3 of RFC 1035). */
  lemma AnswerReadsBack(m: Bytes, at: nat, a: Answer)
    requires AnswerBytes(a).Ok? && At(m, at, AnswerBytes(a).value)
    ensures |AnswerBytes(a).value| == 12 + |a.data|
    ensures Word(m, at + 2) == Code(a.kind) && Word(m, at + 4) == a.class_ && Number(Slice(m, at + 6, at + 10)) == a.ttl
            && Word(m, at + 10) == |a.data| && Slice(m, at + 12, at + 12 + |a.data|) == a.data
  {
    var fs := AnswerFields(a);
    AnswerOffsets(a);
    FieldsSize(fs);
    AtParts(m, at, FieldsBytes(fs).value, a.data);
    FieldReadsBack(m, at, fs, 1);
    FieldReadsBack(m, at, fs, 2);
    FieldReadsBack(m, at, fs, 3);
    FieldReadsBack(m, at, fs, 4);
    SliceAt(m, at + 12, a.data);
  }

  lemma RfcReadsAnswer(m: Bytes, at: nat, a: Answer, labels: seq<string>, end: nat)
    requires AnswerBytes(a).Ok? && At(m, at, AnswerBytes(a).value) && at > 12
    requires RfcName(m, 12, 12) == Some((labels, end))
    ensures RfcAnswer(m, at) == Some((labels, a, at + |AnswerBytes(a).value|))
  {
    StartsWithPointer(m, at, a);
    AnswerReadsBack(m, at, a);
    CodeReadsBack(a.kind);
    PointerResolves(m, at, labels, end);
  }

  lemma {:induction false} AnswersParts(m: Bytes, at: nat, answers: seq<Answer>)
    requires answers != [] && AnswersBytes(answers).Ok? && At(m, at, AnswersBytes(answers).value)
    ensures var a, rest := AnswerBytes(answers[0]), AnswersBytes(answers[1..]);
            a.Ok? && rest.Ok? && |AnswersBytes(answers).value| == |a.value| + |rest.value|
            && At(m, at, a.value) && At(m, at + |a.value|, rest.value)
  {
    AtParts(m, at, AnswerBytes(answers[0]).value, AnswersBytes(answers[1..]).value);
  }

  lemma {:induction false} RfcReadsAnswers(m: Bytes, at: nat, answers: seq<Answer>, labels: seq<string>, end: nat)
    requires AnswersBytes(answers).Ok? && At(m, at, AnswersBytes(answers).value) && at > 12
    requires RfcName(m, 12, 12) == Some((labels, end))
    ensures RfcRecords(m, at, |answers|) == Some((OwnedBy(labels, answers), at + |AnswersBytes(answers).value|))
    decreases |answers|
  {
    hide AnswerBytes, RfcName, RfcAnswer;
    if answers == [] {
      assert OwnedBy(labels, answers) == [];
    } else {
      AnswersParts(m, at, answers);
      RfcReadsAnswer(m, at, answers[0], labels, end);
      RfcReadsAnswers(m, at + |AnswerBytes(answers[0]).value|, answers[1..], labels, end);
      assert OwnedBy(labels, answers) == [(labels, answers[0])] + OwnedBy(labels, answers[1..]);
    }
  }

  /** What a response means to say. */
  function Meant(r: Response): Contents {
    Contents([Question(r.packet.labels, r.packet.kind, r.packet.class_)], OwnedBy(r.packet.labels, r.answers), [])
  }

  /** The header counts one question and exactly the answers. */
  predicate CountsFit(r: Response) {
    r.packet.questions == 1 && r.packet.answerRrs == |r.answers| && r.packet.authRrs == 0 && r.packet.additionalRrs == 0
  }

  lemma RfcReadsQuestion(m: Bytes, p: Packet)
    requires QueryBytes(p).Ok? && At(m, 12, QueryBytes(p).value) && RfcLabels(p.labels)
    ensures NameBytes(p.labels).Ok? && RfcName(m, 12, 12) == Some((p.labels, 12 + |NameBytes(p.labels).value|))
    ensures RfcQuestions(m, 12, 1) == Some(([Question(p.labels, p.kind, p.class_)], 12 + |QueryBytes(p).value|))
  {
    hide RfcName, NameBytes, QueryBytes, Word;
    QueryReadsBack(m, 12, p);
    RfcReadsName(m, 12, p.labels, 12);
    CodeReadsBack(p.kind);
    QueryFitsIn(m, p);
    OneQuestion(m, 12, p.labels, 12 + |NameBytes(p.labels).value|, p.kind);
  }

  lemma OneQuestion(m: Bytes, at: nat, labels: seq<string>, end: nat, kind: RecordType)
    requires RfcName(m, at, at) == Some((labels, end)) && end + 4 <= |m| && RecordTypeOf(Word(m, end)) == Some(kind)
    ensures RfcQuestions(m, at, 1) == Some(([Question(labels, kind, Word(m, end + 2))], end + 4))
  {
    hide RfcName, Word, RecordTypeOf;
    assert RfcQuestions(m, end + 4, 0) == Some(([], end + 4));
    assert [Question(labels, kind, Word(m, end + 2))] + [] == [Question(labels, kind, Word(m, end + 2))];
  }

  lemma QueryFitsIn(m: Bytes, p: Packet)
    requires QueryBytes(p).Ok? && At(m, 12, QueryBytes(p).value)
    ensures 12 + |QueryBytes(p).value| <= |m|
  {
  }

  lemma FirstQuestion(m: Bytes, at: nat, n: nat)
    requires n > 0 && RfcQuestions(m, at, n).Some?
    ensures RfcName(m, at, at).Some? && RfcQuestions(m, at, n).value.0[0].labels == RfcName(m, at, at).value.0
  {
    hide RfcName, Word;
  }

  lemma CountsAreRead(r: Response)
    requires Encodable(r)
    ensures var m := Encode(r).value;
            |m| >= 12 && Word(m, 4) == r.packet.questions && Word(m, 6) == r.packet.answerRrs
            && Word(m, 8) == r.packet.authRrs && Word(m, 10) == r.packet.additionalRrs
  {
    hide Word, Encode, HeaderBytes, NameBytes, AnswersBytes;
    MessageParts(r);
    HeaderReadsBack(Encode(r).value, r.packet);
  }

  lemma RfcReadsMeant(r: Response)
    requires Encodable(r) && RfcLabels(r.packet.labels) && CountsFit(r)
    ensures RfcMessage(Encode(r).value) == Some(Meant(r))
  {
    hide Word, RfcQuestions, RfcName, Encode, HeaderBytes, NameBytes, AnswersBytes, QueryBytes, At, OwnedBy;
    var m := Encode(r).value;
    MessageParts(r);
    CountsAreRead(r);
    RfcReadsQuestion(m, r.packet);
    QueryReadsBack(m, 12, r.packet);
    RfcReadsAnswers(m, 12 + |QueryBytes(r.packet).value|, r.answers, r.packet.labels, 12 + |NameBytes(r.packet.labels).value|);
  }

  /**
   A reader of RFC 1035, counts included, finds exactly what an encoded response means to say if and only
   if every label has between 1 and 63 bytes and the header counts one question and the answers.
   */
  lemma RfcReadsResponse(r: Response)
    requires Encodable(r)
    ensures RfcMessage(Encode(r).value) == Some(Meant(r)) <==> RfcLabels(r.packet.labels) && CountsFit(r)
  {
    hide Word, RfcName, RfcAnswer, RfcQuestions, RfcRecords, Encode, OwnedBy, RfcLabels;
    var m := Encode(r).value;
    CountsAreRead(r);
    if RfcLabels(r.packet.labels) && CountsFit(r) {
      RfcReadsMeant(r);
    } else if RfcMessage(m) == Some(Meant(r)) {
      FirstQuestion(m, 12, Word(m, 4));
      RfcNamesAreShort(m, 12, 12);
      assert false;
    }
  }
}
