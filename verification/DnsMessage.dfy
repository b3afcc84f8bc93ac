/** DNS messages (section 4.1 of RFC 1035): parsing, skipping without parsing, and the locally built replies. */
module DnsMessage {
  import opened Words
  import opened DnsName

  const HEADER_SIZE: nat := 12
  const TXT: uint16 := 16
  const OPT: uint16 := 41
  const CLASS_IN: uint16 := 1

  /** QR, opcode and the single bits are read off the flags. */
  datatype Header = Header(id: uint16, flags: uint16, qd: uint16, an: uint16, ns: uint16, ar: uint16)

  datatype Question = Question(name: bytes, qtype: uint16, qclass: uint16)

  datatype Record = Record(name: bytes, rtype: uint16, rclass: uint16, ttl: nat, rdata: bytes)

  datatype One<+T> = One(item: T, end: nat)

  datatype Section<+T> = Section(items: seq<T>, end: nat)

  datatype Packet =
    Packet(header: Header, questions: seq<Question>, answers: seq<Record>, authorities: seq<Record>,
           additional: seq<Record>)

  datatype LitePacket = LitePacket(header: Header, questions: seq<Question>, questionEnd: nat)

  datatype Error = TooShort | InvalidQuestion | InvalidRecord | NotRequest

  datatype Result<+T> = Ok(value: T) | Err(error: Error)

  // ----- words -----

  function Word(data: bytes, i: nat): uint16 {
    if i + 2 <= |data| then (data[i] as nat) * 256 + data[i + 1] else 0
  }

  lemma WordIsRead(before: bytes, w: uint16, after: bytes)
    ensures Word(before + Bytes16(w) + after, |before|) == w
  {
    var data := before + Bytes16(w) + after;
    assert data[|before|] == w / 256 && data[|before| + 1] == w % 256;
  }

  // ----- parsing -----

  function HeaderOf(data: bytes): Header {
    Header(Word(data, 0), Word(data, 2), Word(data, 4), Word(data, 6), Word(data, 8), Word(data, 10))
  }

  function QuestionAt(data: bytes, offset: nat): Option<One<Question>> {
    match NameAt(data, offset)
    case None => None
    case Some(p) =>
      if p.next + 4 > |data| then None
      else Some(One(Question(p.name, Word(data, p.next), Word(data, p.next + 2)), p.next + 4))
  }

  function QuestionsAt(data: bytes, offset: nat, count: nat): Option<Section<Question>>
    decreases count
  {
    if count == 0 then Some(Section([], offset))
    else match QuestionAt(data, offset)
      case None => None
      case Some(q) => match QuestionsAt(data, q.end, count - 1)
        case None => None
        case Some(rest) => Some(Section([q.item] + rest.items, rest.end))
  }

  function RecordAt(data: bytes, offset: nat): Option<One<Record>> {
    match NameAt(data, offset)
    case None => None
    case Some(p) =>
      var body := p.next + 10;
      if body > |data| || body + Word(data, p.next + 8) > |data| then None
      else
        var end := body + Word(data, p.next + 8);
        var ttl := Word(data, p.next + 4) * M16 + Word(data, p.next + 6);
        Some(One(Record(p.name, Word(data, p.next), Word(data, p.next + 2), ttl, data[body..end]), end))
  }

  /** What stands behind the name of a record on the wire. */
  function RecordTail(rtype: uint16, rclass: uint16, ttlHigh: uint16, ttlLow: uint16, rdata: bytes): bytes
    requires |rdata| < M16
  {
    Bytes16(rtype) + Bytes16(rclass) + Bytes16(ttlHigh) + Bytes16(ttlLow) + Bytes16(|rdata|) + rdata
  }

  /** A record written anywhere in a message is read back, field by field. */
  lemma RecordIsRead(before: bytes, labels: seq<bytes>, rtype: uint16, rclass: uint16, ttlHigh: uint16, ttlLow: uint16,
                     rdata: bytes, after: bytes)
    requires |rdata| < M16 && ValidLabels(labels)
    ensures var data := before + Wire(labels) + (RecordTail(rtype, rclass, ttlHigh, ttlLow, rdata) + after);
      RecordAt(data, |before|) == Some(One(
        Record(NameText(labels), rtype, rclass, ttlHigh * 65536 + ttlLow, rdata),
        |before| + |Wire(labels)| + 10 + |rdata|))
  {
    hide Labels, SkipEnd, Wire, NameText, Word;
    var tail := RecordTail(rtype, rclass, ttlHigh, ttlLow, rdata) + after;
    var head := before + Wire(labels);
    WireIsRead(before, labels, tail, MAX_JUMPS);
    var data := head + tail;
    TailIsRead(head, rtype, rclass, ttlHigh, ttlLow, rdata, after);
  }

  lemma TailIsRead(head: bytes, rtype: uint16, rclass: uint16, ttlHigh: uint16, ttlLow: uint16, rdata: bytes,
                   after: bytes)
    requires |rdata| < M16
    ensures var data, at := head + (RecordTail(rtype, rclass, ttlHigh, ttlLow, rdata) + after), |head|;
      && Word(data, at) == rtype && Word(data, at + 2) == rclass && Word(data, at + 4) == ttlHigh
      && Word(data, at + 6) == ttlLow && Word(data, at + 8) == |rdata| && at + 10 + |rdata| <= |data|
      && data[at + 10..at + 10 + |rdata|] == rdata
  {
  }

  function RecordsAt(data: bytes, offset: nat, count: nat): Option<Section<Record>>
    decreases count
  {
    if count == 0 then Some(Section([], offset))
    else match RecordAt(data, offset)
      case None => None
      case Some(r) => match RecordsAt(data, r.end, count - 1)
        case None => None
        case Some(rest) => Some(Section([r.item] + rest.items, rest.end))
  }

  /** ParsePacket */
  function Parse(data: bytes): Result<Packet> {
    if |data| < HEADER_SIZE then Err(TooShort)
    else
      var h := HeaderOf(data);
      match QuestionsAt(data, HEADER_SIZE, h.qd)
      case None => Err(InvalidQuestion)
      case Some(qs) => match RecordsAt(data, qs.end, h.an)
        case None => Err(InvalidRecord)
        case Some(an) => match RecordsAt(data, an.end, h.ns)
          case None => Err(InvalidRecord)
          case Some(ns) => match RecordsAt(data, ns.end, h.ar)
            case None => Err(InvalidRecord)
            case Some(ar) => Ok(Packet(h, qs.items, an.items, ns.items, ar.items))
  }

  function Opcode(flags: uint16): nat {
    flags / 2048 % 16
  }

  predicate LikelyRequest(h: Header) {
    && h.flags / 32768 == 0
    && 0 < h.qd <= 64 && Opcode(h.flags) <= 6
    && h.an <= 256 && h.ns <= 256 && h.ar <= 256
  }

  /** parsePacketLiteWithHeader */
  function ParseLite(data: bytes): Result<LitePacket> {
    if |data| < HEADER_SIZE then Err(TooShort)
    else if HeaderOf(data).qd == 0 then Ok(LitePacket(HeaderOf(data), [], HEADER_SIZE))
    else match QuestionsAt(data, HEADER_SIZE, HeaderOf(data).qd)
      case None => Err(InvalidQuestion)
      case Some(qs) => Ok(LitePacket(HeaderOf(data), qs.items, qs.end))
  }

  /** ParseDNSRequestLite */
  function ParseRequest(data: bytes): Result<LitePacket> {
    if |data| >= HEADER_SIZE && !LikelyRequest(HeaderOf(data)) then Err(NotRequest) else ParseLite(data)
  }

  lemma {:induction false} QuestionCount(data: bytes, offset: nat, count: nat)
    requires QuestionsAt(data, offset, count).Some?
    ensures |QuestionsAt(data, offset, count).value.items| == count
    decreases count
  {
    hide QuestionAt;
    if count > 0 { QuestionCount(data, QuestionAt(data, offset).value.end, count - 1); }
  }

  lemma {:induction false} RecordCount(data: bytes, offset: nat, count: nat)
    requires RecordsAt(data, offset, count).Some?
    ensures |RecordsAt(data, offset, count).value.items| == count
    decreases count
  {
    hide RecordAt;
    if count > 0 { RecordCount(data, RecordAt(data, offset).value.end, count - 1); }
  }

  lemma ParseIs(data: bytes, qs: Section<Question>, an: Section<Record>, ns: Section<Record>, ar: Section<Record>)
    requires |data| >= HEADER_SIZE && QuestionsAt(data, HEADER_SIZE, HeaderOf(data).qd) == Some(qs)
    requires RecordsAt(data, qs.end, HeaderOf(data).an) == Some(an)
    requires RecordsAt(data, an.end, HeaderOf(data).ns) == Some(ns)
    requires RecordsAt(data, ns.end, HeaderOf(data).ar) == Some(ar)
    ensures Parse(data) == Ok(Packet(HeaderOf(data), qs.items, an.items, ns.items, ar.items))
  {
    hide QuestionsAt, RecordsAt, HeaderOf;
  }

  /** What the parser accepts has as many questions and records in each section as the header announces. */
  lemma ParsedCounts(data: bytes)
    requires Parse(data).Ok?
    ensures var p := Parse(data).value;
      && |data| >= 12 && p.header == HeaderOf(data)
      && |p.questions| == p.header.qd && |p.answers| == p.header.an
      && |p.authorities| == p.header.ns && |p.additional| == p.header.ar
  {
    hide QuestionsAt, RecordsAt;
    var h := HeaderOf(data);
    QuestionCount(data, HEADER_SIZE, h.qd);
    var qs := QuestionsAt(data, HEADER_SIZE, h.qd).value;
    RecordCount(data, qs.end, h.an);
    var an := RecordsAt(data, qs.end, h.an).value;
    RecordCount(data, an.end, h.ns);
    var ns := RecordsAt(data, an.end, h.ns).value;
    RecordCount(data, ns.end, h.ar);
  }

  /** The light parser reads exactly the header and the questions, and stops behind them. */
  lemma LightParse(data: bytes)
    ensures |data| < 12 ==> ParseLite(data) == Err(TooShort)
    ensures |data| >= 12 ==>
      var q := QuestionsAt(data, 12, HeaderOf(data).qd);
      ParseLite(data)
        == if q.None? then Err(InvalidQuestion) else Ok(LitePacket(HeaderOf(data), q.value.items, q.value.end))
  {
    hide QuestionAt, HeaderOf;
  }

  // ----- skipping -----

  function SkipQuestion(data: bytes, offset: nat): Option<nat> {
    match SkipEnd(data, offset)
    case None => None
    case Some(next) => if next + 4 > |data| then None else Some(next + 4)
  }

  /** How far skipping came, and whether it passed every question. */
  datatype Skipped = Skipped(end: nat, ok: bool)

  function SkipQuestions(data: bytes, offset: nat, count: nat): Skipped
    decreases count
  {
    if count == 0 then Skipped(offset, true)
    else match SkipQuestion(data, offset)
      case None => Skipped(offset, false)
      case Some(next) => SkipQuestions(data, next, count - 1)
  }

  /** So many questions stand one after the other from offset on. */
  ghost predicate QuestionsStand(data: bytes, offset: nat, count: nat)
    decreases count
  {
    count == 0
    || (SkipEnd(data, offset).Some? && SkipEnd(data, offset).value + 4 <= |data|
        && QuestionsStand(data, SkipEnd(data, offset).value + 4, count - 1))
  }

  lemma {:induction false} SkipsIff(data: bytes, offset: nat, count: nat)
    ensures SkipQuestions(data, offset, count).ok <==> QuestionsStand(data, offset, count)
    decreases count
  {
    if count > 0 && SkipQuestion(data, offset).Some? {
      SkipsIff(data, SkipQuestion(data, offset).value, count - 1);
    }
  }

  function SkipRecord(data: bytes, offset: nat): Option<nat> {
    match SkipEnd(data, offset)
    case None => None
    case Some(next) =>
      if next + 10 > |data| || next + 10 + Word(data, next + 8) > |data| then None
      else Some(next + 10 + Word(data, next + 8))
  }

  function SkipRecords(data: bytes, offset: nat, count: nat): Option<nat>
    decreases count
  {
    if count == 0 then Some(offset)
    else match SkipRecord(data, offset)
      case None => None
      case Some(next) => SkipRecords(data, next, count - 1)
  }

  datatype Range = Range(start: nat, len: nat)

  const NOTHING := Range(0, 0)

  /** findFirstOPTRecordInAdditional */
  function FirstOpt(data: bytes, offset: nat, count: nat): Range
    decreases count
  {
    if count == 0 then NOTHING
    else match (SkipRecord(data, offset), SkipEnd(data, offset))
      case (Some(end), Some(next)) =>
        if Word(data, next) == OPT && end >= offset then Range(offset, end - offset)
        else FirstOpt(data, end, count - 1)
      case _ => NOTHING
  }

  /** findOPTRecordRange */
  function OptRange(data: bytes, h: Header, questionEnd: nat): Range {
    if h.ar == 0 || questionEnd < HEADER_SIZE || questionEnd > |data| then NOTHING
    else match SkipRecords(data, questionEnd, h.an)
      case None => NOTHING
      case Some(answersEnd) => match SkipRecords(data, answersEnd, h.ns)
        case None => NOTHING
        case Some(end) => FirstOpt(data, end, h.ar)
  }

  lemma SkipRecordBounds(data: bytes, offset: nat)
    requires SkipRecord(data, offset).Some?
    ensures offset + 10 < SkipRecord(data, offset).value <= |data|
  {
    SkipAdvances(data, offset);
  }

  lemma {:induction false} OptInside(data: bytes, offset: nat, count: nat)
    decreases count
    ensures var r := FirstOpt(data, offset, count);
      && r.start + r.len <= |data|
      && (r.len > 0 ==>
            && offset <= r.start && SkipRecord(data, r.start) == Some(r.start + r.len)
            && SkipEnd(data, r.start).Some? && Word(data, SkipEnd(data, r.start).value) == OPT)
  {
    if count > 0 && SkipRecord(data, offset).Some? {
      SkipRecordBounds(data, offset);
      OptInside(data, SkipRecord(data, offset).value, count - 1);
    }
  }

  /** The range found is a whole OPT record inside the message. */
  lemma OptRangeInside(data: bytes, h: Header, questionEnd: nat)
    ensures var r := OptRange(data, h, questionEnd);
      && r.start + r.len <= |data|
      && (r.len > 0 ==>
            && SkipRecord(data, r.start) == Some(r.start + r.len)
            && SkipEnd(data, r.start).Some? && Word(data, SkipEnd(data, r.start).value) == OPT)
  {
    hide SkipRecord, SkipEnd, FirstOpt, SkipRecords;
    if SkipRecords(data, questionEnd, h.an).Some? {
      var answersEnd := SkipRecords(data, questionEnd, h.an).value;
      if SkipRecords(data, answersEnd, h.ns).Some? {
        OptInside(data, SkipRecords(data, answersEnd, h.ns).value, h.ar);
      }
    }
  }

  /** Every question that parses is skipped to the same end. */
  lemma QuestionIsSkipped(data: bytes, offset: nat)
    requires QuestionAt(data, offset).Some?
    ensures SkipQuestion(data, offset) == Some(QuestionAt(data, offset).value.end)
    ensures offset < QuestionAt(data, offset).value.end <= |data|
  {
    SkipAdvances(data, offset);
  }

  lemma {:induction false} QuestionsAreSkipped(data: bytes, offset: nat, count: nat)
    requires QuestionsAt(data, offset, count).Some? && offset <= |data|
    ensures SkipQuestions(data, offset, count) == Skipped(QuestionsAt(data, offset, count).value.end, true)
    ensures offset <= QuestionsAt(data, offset, count).value.end <= |data|
    ensures |QuestionsAt(data, offset, count).value.items| == count
    decreases count
  {
    hide QuestionAt, SkipQuestion;
    if count > 0 {
      QuestionIsSkipped(data, offset);
      QuestionsAreSkipped(data, QuestionAt(data, offset).value.end, count - 1);
    }
  }

  // ----- replies -----

  predicate Bit(flags: uint16, weight: nat)
    requires weight > 0
  {
    flags / weight % 2 == 1
  }

  /** buildResponseFlags: QR and RA, the request's opcode, RD and CD, and the response code. */
  function ResponseFlags(flags: uint16, rcode: byte): uint16 {
    0x8000 + 0x80 + Opcode(flags) * 2048 + rcode % 16
    + (if Bit(flags, 0x100) then 0x100 else 0) + (if Bit(flags, 0x10) then 0x10 else 0)
  }

  /** Read back, the reply's flags carry the request's opcode, RD and CD, are marked as a response with recursion
      available, and never claim authority or truncation. */
  lemma ResponseFlagsAre(flags: uint16, rcode: byte)
    ensures var f := ResponseFlags(flags, rcode);
      && f / 32768 == 1 && Opcode(f) == Opcode(flags) && f % 16 == rcode % 16
      && Bit(f, 0x80) && !Bit(f, 0x400) && !Bit(f, 0x200)
      && (Bit(f, 0x100) <==> Bit(flags, 0x100)) && (Bit(f, 0x10) <==> Bit(flags, 0x10))
  {
    var rd: nat := if Bit(flags, 0x100) then 1 else 0;
    var cd: nat := if Bit(flags, 0x10) then 1 else 0;
    FlagBits(Opcode(flags), rd, cd, rcode % 16);
  }

  lemma FlagBits(op: nat, rd: nat, cd: nat, rc: nat)
    requires op < 16 && rd <= 1 && cd <= 1 && rc < 16
    ensures var f := 0x8000 + 0x80 + op * 2048 + rc + rd * 0x100 + cd * 0x10;
      && f / 32768 == 1 && f / 2048 % 16 == op && f % 16 == rc
      && f / 0x80 % 2 == 1 && f / 0x400 % 2 == 0 && f / 0x200 % 2 == 0
      && f / 0x100 % 2 == rd && f / 0x10 % 2 == cd
  {
    var f := 0x8000 + 0x80 + op * 2048 + rc + rd * 0x100 + cd * 0x10;
    assert f / 2048 == 16 + op;
    assert f / 0x400 == 2 * (16 + op);
    assert f / 0x200 == 4 * (16 + op);
    assert f / 0x100 == 8 * (16 + op) + rd;
    assert f / 0x80 == 2 * (8 * (16 + op) + rd) + 1;
    assert f / 0x10 == 2 * (64 * (16 + op) + 8 * rd + 4) + cd;
  }

  function HeaderBytes(h: Header): (b: bytes)
    ensures |b| == 12
  {
    Bytes16(h.id) + Bytes16(h.flags) + Bytes16(h.qd) + Bytes16(h.an) + Bytes16(h.ns) + Bytes16(h.ar)
  }

  lemma HeaderIsRead(h: Header, rest: bytes)
    ensures HeaderOf(HeaderBytes(h) + rest) == h
  {
    var b := HeaderBytes(h);
    assert b == [h.id / 256, h.id % 256, h.flags / 256, h.flags % 256, h.qd / 256, h.qd % 256,
                 h.an / 256, h.an % 256, h.ns / 256, h.ns % 256, h.ar / 256, h.ar % 256];
    assert forall i :: 0 <= i < 12 ==> (b + rest)[i] == b[i];
  }

  function ArCount(optLen: nat): uint16 {
    if optLen > 0 then 1 else 0
  }

  function Slice(data: bytes, r: Range): bytes {
    if r.start + r.len <= |data| then data[r.start..r.start + r.len] else []
  }

  /** The reply every builder writes: the request's identity, questions and OPT record under new flags. */
  function Reply(request: bytes, h: Header, rcode: byte, questions: uint16, questionLen: nat, opt: Range): bytes
    requires HEADER_SIZE + questionLen <= |request|
  {
    HeaderBytes(Header(h.id, ResponseFlags(h.flags, rcode), questions, 0, 0, ArCount(opt.len)))
    + request[HEADER_SIZE..HEADER_SIZE + questionLen] + Slice(request, opt)
  }

  lemma {:induction false} SkipStays(data: bytes, offset: nat, count: nat)
    requires offset <= |data|
    ensures offset <= SkipQuestions(data, offset, count).end <= |data|
    decreases count
  {
    if count > 0 && SkipQuestion(data, offset).Some? {
      SkipAdvances(data, offset);
      SkipStays(data, SkipQuestion(data, offset).value, count - 1);
    }
  }

  /** buildResponseWithRCode. When the questions cannot be skipped none is copied, but the OPT record is still
      looked for where skipping stopped. */
  function Built(request: bytes, rcode: byte): Result<bytes> {
    if |request| < HEADER_SIZE then Err(TooShort)
    else if !LikelyRequest(HeaderOf(request)) then Err(NotRequest)
    else
      var h := HeaderOf(request);
      var s := SkipQuestions(request, HEADER_SIZE, h.qd);
      SkipStays(request, HEADER_SIZE, h.qd);
      Ok(Reply(request, h, rcode, if s.ok then h.qd else 0, if s.ok then s.end - HEADER_SIZE else 0,
               OptRange(request, h, s.end)))
  }

  /** buildResponseWithRCodeLite */
  function BuiltLite(request: bytes, parsed: LitePacket, rcode: byte): Result<bytes> {
    if |request| < HEADER_SIZE then Err(TooShort)
    else if !LikelyRequest(parsed.header) then Err(NotRequest)
    else Ok(Reply(request, parsed.header, rcode, parsed.header.qd,
                  if HEADER_SIZE <= parsed.questionEnd <= |request| then parsed.questionEnd - HEADER_SIZE else 0,
                  OptRange(request, parsed.header, parsed.questionEnd)))
  }

  /** Both builders write the same bytes for every request the light parser accepts. */
  lemma BuildersAgree(request: bytes, rcode: byte)
    requires ParseRequest(request).Ok?
    ensures BuiltLite(request, ParseRequest(request).value, rcode) == Built(request, rcode)
    ensures Built(request, rcode).Ok?
  {
    hide QuestionsAt, SkipQuestions, OptRange, Reply;
    var h := HeaderOf(request);
    QuestionsAreSkipped(request, HEADER_SIZE, h.qd);
  }

  // ----- what the reply says -----

  /** A name without pointers means the same wherever the same octets stand. */
  lemma {:induction false} SameOctetsSameName(data: bytes, other: bytes, offset: nat, jumps: nat)
    requires Labels(data, offset, 0).Some? && SkipEnd(data, offset).Some?
    requires SkipEnd(data, offset).value <= |other|
    requires forall i :: offset <= i < SkipEnd(data, offset).value && i < |data| ==> other[i] == data[i]
    ensures Labels(other, offset, jumps) == Labels(data, offset, 0)
    ensures SkipEnd(other, offset) == SkipEnd(data, offset)
    decreases |data| - offset
  {
    SkipAdvances(data, offset);
    if data[offset] != 0 {
      var end := offset + 1 + data[offset];
      SkipAdvances(data, end);
      SameOctetsSameName(data, other, end, jumps);
      assert other[offset + 1..end] == data[offset + 1..end];
    }
  }

  /** Every question's name is spelt out: no compression pointers. */
  predicate PlainQuestions(data: bytes, offset: nat, count: nat)
    decreases count
  {
    count == 0 ||
    (Labels(data, offset, 0).Some? && QuestionAt(data, offset).Some?
     && PlainQuestions(data, QuestionAt(data, offset).value.end, count - 1))
  }

  predicate SameOctets(data: bytes, other: bytes, begin: nat, end: nat) {
    end <= |data| && end <= |other| && forall i :: begin <= i < end ==> other[i] == data[i]
  }

  lemma QuestionMoves(data: bytes, other: bytes, offset: nat)
    requires Labels(data, offset, 0).Some? && QuestionAt(data, offset).Some?
    requires SameOctets(data, other, offset, QuestionAt(data, offset).value.end)
    ensures QuestionAt(other, offset) == QuestionAt(data, offset)
  {
    hide Labels, SkipEnd, NameText;
    MoreJumps(data, offset, 0, MAX_JUMPS);
    ParsedIsSkippable(data, offset, 0);
    SameOctetsSameName(data, other, offset, MAX_JUMPS);
    var next := SkipEnd(data, offset).value;
    assert Word(other, next) == Word(data, next) && Word(other, next + 2) == Word(data, next + 2);
  }

  lemma {:induction false} QuestionsMove(data: bytes, other: bytes, offset: nat, count: nat)
    requires PlainQuestions(data, offset, count) && offset <= |data|
    requires QuestionsAt(data, offset, count).Some?
    requires SameOctets(data, other, offset, QuestionsAt(data, offset, count).value.end)
    ensures QuestionsAt(other, offset, count) == QuestionsAt(data, offset, count)
    decreases count
  {
    hide QuestionAt, Labels;
    if count > 0 {
      var q := QuestionAt(data, offset).value;
      QuestionIsSkipped(data, offset);
      QuestionsAreSkipped(data, q.end, count - 1);
      QuestionMoves(data, other, offset);
      QuestionsMove(data, other, q.end, count - 1);
    }
  }

  /** Where the i-th record of a section stands, as far as skipping gets. */
  predicate RecordStands(data: bytes, offset: nat, i: nat, at: nat, rtype: uint16) {
    && SkipRecords(data, offset, i) == Some(at) && SkipRecord(data, at).Some?
    && SkipEnd(data, at).Some? && Word(data, SkipEnd(data, at).value) == rtype
  }

  ghost predicate FirstStands(data: bytes, offset: nat, i: nat, count: nat, start: nat) {
    && i < count && RecordStands(data, offset, i, start, OPT)
    && forall j: nat, at :: j < i ==> !RecordStands(data, offset, j, at, OPT)
  }

  /** The OPT record found is the first one the section has: something is found exactly when there is one. */
  lemma {:induction false} FirstOptIs(data: bytes, offset: nat, count: nat)
    ensures var r := FirstOpt(data, offset, count);
      && (r.len > 0 <==> exists i: nat, at :: i < count && RecordStands(data, offset, i, at, OPT))
      && (r.len > 0 ==> exists i: nat :: FirstStands(data, offset, i, count, r.start))
    decreases count
  {
    hide SkipRecord, SkipEnd, Word;
    if count > 0 {
      NothingSkipped(data, offset);
      match (SkipRecord(data, offset), SkipEnd(data, offset))
      case (Some(end), Some(next)) =>
        SkipRecordBounds(data, offset);
        if Word(data, next) == OPT {
          assert RecordStands(data, offset, 0, offset, OPT);
          assert FirstStands(data, offset, 0, count, offset);
        } else {
          FirstOptIs(data, end, count - 1);
          Shifted(data, offset, end);
          var r := FirstOpt(data, end, count - 1);
          if r.len > 0 {
            var i: nat :| FirstStands(data, end, i, count - 1, r.start);
            assert FirstStands(data, offset, i + 1, count, r.start);
          }
        }
      case _ =>
        NoneStands(data, offset);
    }
  }

  lemma NothingSkipped(data: bytes, offset: nat)
    ensures SkipRecords(data, offset, 0) == Some(offset)
  {
  }

  lemma NoneStands(data: bytes, offset: nat)
    requires SkipRecord(data, offset).None? || SkipEnd(data, offset).None?
    ensures forall i: nat, at :: !RecordStands(data, offset, i, at, OPT)
  {
    hide SkipEnd, Word;
    assert SkipRecord(data, offset).None?;
    forall i: nat, at ensures !RecordStands(data, offset, i, at, OPT) {
      if i == 0 { NothingSkipped(data, offset); }
    }
  }

  lemma Shifted(data: bytes, offset: nat, end: nat)
    requires SkipRecord(data, offset) == Some(end)
    ensures forall i: nat, at :: i > 0 ==> (RecordStands(data, offset, i, at, OPT) <==> RecordStands(data, end, i - 1, at, OPT))
    ensures forall i: nat, at :: RecordStands(data, end, i, at, OPT) <==> RecordStands(data, offset, i + 1, at, OPT)
    ensures forall at :: RecordStands(data, offset, 0, at, OPT) ==> at == offset
  {
    hide SkipRecord, SkipEnd, Word;
  }

  /** What every locally built reply to an accepted request says, as its reader sees it: the request's identity and
      question count, no answers, the question octets where they were, the OPT record behind them, and nothing else. */
  lemma ReplyIsRead(request: bytes, rcode: byte)
    requires ParseRequest(request).Ok?
    ensures Built(request, rcode).Ok? && |request| >= HEADER_SIZE
    ensures var reply, end := Built(request, rcode).value, ParseRequest(request).value.questionEnd;
      var h, opt := HeaderOf(reply), OptRange(request, HeaderOf(request), end);
      && h.id == Word(request, 0) && h.qd == Word(request, 4) && h.an == 0 && h.ns == 0
      && h.ar == (if opt.len > 0 then 1 else 0)
      && h.flags / 32768 == 1 && h.flags % 16 == rcode % 16 && Opcode(h.flags) == Opcode(Word(request, 2))
      && HEADER_SIZE <= end <= |request| && |reply| == end + opt.len
      && reply[HEADER_SIZE..end] == request[HEADER_SIZE..end]
      && opt.start + opt.len <= |request| && reply[end..] == request[opt.start..opt.start + opt.len]
    ensures PlainQuestions(request, HEADER_SIZE, Word(request, 4)) ==>
      QuestionsAt(Built(request, rcode).value, HEADER_SIZE, Word(request, 4))
        == Some(Section(ParseRequest(request).value.questions, ParseRequest(request).value.questionEnd))
  {
    hide QuestionsAt, SkipQuestions, OptRange, HeaderBytes, HeaderOf, ResponseFlags, PlainQuestions, Opcode, Word;
    var h := HeaderOf(request);
    QuestionsAreSkipped(request, HEADER_SIZE, h.qd);
    var end := ParseRequest(request).value.questionEnd;
    var opt := OptRange(request, h, end);
    OptRangeInside(request, h, end);
    HeaderFields(request);
    ResponseFlagsAre(h.flags, rcode);
    var header := Header(h.id, ResponseFlags(h.flags, rcode), h.qd, 0, 0, ArCount(opt.len));
    ReplyParts(request, header, end, opt);
    assert Built(request, rcode).value
        == HeaderBytes(header) + request[HEADER_SIZE..end] + request[opt.start..opt.start + opt.len];
    if PlainQuestions(request, HEADER_SIZE, h.qd) {
      QuestionsMove(request, Built(request, rcode).value, HEADER_SIZE, h.qd);
    }
  }

  lemma HeaderFields(data: bytes)
    ensures HeaderOf(data) == Header(Word(data, 0), Word(data, 2), Word(data, 4), Word(data, 6), Word(data, 8), Word(data, 10))
  {
  }

  lemma ReplyParts(request: bytes, header: Header, end: nat, opt: Range)
    requires HEADER_SIZE <= end <= |request| && opt.start + opt.len <= |request|
    ensures var reply := HeaderBytes(header) + request[HEADER_SIZE..end] + request[opt.start..opt.start + opt.len];
      && HeaderOf(reply) == header && |reply| == end + opt.len
      && reply[HEADER_SIZE..end] == request[HEADER_SIZE..end] && SameOctets(request, reply, HEADER_SIZE, end)
      && reply[end..] == request[opt.start..opt.start + opt.len]
  {
    hide HeaderBytes, HeaderOf;
    var q, o := request[HEADER_SIZE..end], request[opt.start..opt.start + opt.len];
    HeaderIsRead(header, q + o);
    Regroup(HeaderBytes(header), q, o);
    var reply := HeaderBytes(header) + q + o;
    assert reply[HEADER_SIZE..end] == q;
  }

  /** A request whose questions cannot be skipped is answered without them: no question is counted or copied. */
  lemma UnskippableReply(request: bytes, rcode: byte)
    requires |request| >= HEADER_SIZE && LikelyRequest(HeaderOf(request))
    requires !QuestionsStand(request, HEADER_SIZE, Word(request, 4))
    ensures Built(request, rcode).Ok?
    ensures var reply := Built(request, rcode).value; var h := HeaderOf(reply);
      var opt := OptRange(request, HeaderOf(request), SkipQuestions(request, HEADER_SIZE, Word(request, 4)).end);
      && h.id == Word(request, 0) && h.qd == 0 && h.an == 0 && h.ns == 0 && h.ar == (if opt.len > 0 then 1 else 0)
      && h.flags / 32768 == 1 && h.flags % 16 == rcode % 16
      && opt.start + opt.len <= |request| && reply[HEADER_SIZE..] == request[opt.start..opt.start + opt.len]
  {
    hide SkipQuestions, OptRange, HeaderBytes, HeaderOf, ResponseFlags, LikelyRequest, Opcode, Word, QuestionsStand;
    var h := HeaderOf(request);
    HeaderFields(request);
    SkipsIff(request, HEADER_SIZE, h.qd);
    var s := SkipQuestions(request, HEADER_SIZE, h.qd);
    var opt := OptRange(request, h, s.end);
    OptRangeInside(request, h, s.end);
    ResponseFlagsAre(h.flags, rcode);
    var header := Header(h.id, ResponseFlags(h.flags, rcode), 0, 0, 0, ArCount(opt.len));
    ReplyParts(request, header, HEADER_SIZE, opt);
    assert request[HEADER_SIZE..HEADER_SIZE] == [];
    assert Built(request, rcode).value
        == HeaderBytes(header) + request[HEADER_SIZE..HEADER_SIZE] + request[opt.start..opt.start + opt.len];
  }

  /** A reply is built exactly for what looks like a request: a query with 1 to 64 questions, a known opcode, and at
      most 256 records in each other section. */
  lemma RepliesIff(request: bytes, rcode: byte)
    ensures Built(request, rcode).Ok? <==>
      && |request| >= 12 && Word(request, 2) < 32768 && 1 <= Word(request, 4) <= 64
      && Word(request, 2) / 2048 % 16 <= 6
      && Word(request, 6) <= 256 && Word(request, 8) <= 256 && Word(request, 10) <= 256
    ensures Built(request, rcode).Err? ==>
      Built(request, rcode) == Err(if |request| < 12 then TooShort else NotRequest)
  {
    hide Word, SkipQuestions, OptRange, Reply;
  }

  // ----- the code -----

  function Prepend<T>(items: seq<T>, rest: Option<Section<T>>): Option<Section<T>> {
    if rest.None? then None else Some(Section(items + rest.value.items, rest.value.end))
  }

  lemma PrependNone<T>(rest: Option<Section<T>>)
    ensures Prepend([], rest) == rest
  {
    if rest.Some? { assert [] + rest.value.items == rest.value.items; }
  }

  lemma PrependOne<T>(items: seq<T>, item: T, rest: Option<Section<T>>)
    ensures Prepend(items, match rest case None => None case Some(s) => Some(Section([item] + s.items, s.end)))
         == Prepend(items + [item], rest)
  {
    if rest.Some? {
      assert items + ([item] + rest.value.items) == items + [item] + rest.value.items;
    }
  }

  lemma QuestionsStep(data: bytes, questions: seq<Question>, offset: nat, count: nat)
    requires count > 0
    ensures Prepend(questions, QuestionsAt(data, offset, count)) ==
      match QuestionAt(data, offset)
      case None => None
      case Some(q) => Prepend(questions + [q.item], QuestionsAt(data, q.end, count - 1))
  {
    hide QuestionAt;
    if QuestionAt(data, offset).Some? {
      var q := QuestionAt(data, offset).value;
      PrependOne(questions, q.item, QuestionsAt(data, q.end, count - 1));
    }
  }

  lemma QuestionsEnd(data: bytes, questions: seq<Question>, offset: nat)
    ensures Prepend(questions, QuestionsAt(data, offset, 0)) == Some(Section(questions, offset))
  {
    assert questions + [] == questions;
  }

  /** parseQuestions */
  method ParseQuestions(data: bytes, start: nat, count: nat) returns (r: Option<Section<Question>>)
    ensures r == QuestionsAt(data, start, count)
  {
    hide NameAt, QuestionsAt, Prepend;
    var offset: nat := start;
    var questions: seq<Question> := [];
    PrependNone(QuestionsAt(data, start, count));
    for i := 0 to count
      invariant QuestionsAt(data, start, count) == Prepend(questions, QuestionsAt(data, offset, count - i))
    {
      QuestionsStep(data, questions, offset, count - i);
      var name := ParseName(data, offset);
      if name.None? {
        return None;
      }
      var next := name.value.next;
      if next + 4 > |data| {
        return None;
      }
      var question := Question(name.value.name, Word(data, next), Word(data, next + 2));
      questions := questions + [question];
      offset := next + 4;
    }
    QuestionsEnd(data, questions, offset);
    r := Some(Section(questions, offset));
  }

  lemma RecordsStep(data: bytes, records: seq<Record>, offset: nat, count: nat)
    requires count > 0
    ensures Prepend(records, RecordsAt(data, offset, count)) ==
      match RecordAt(data, offset)
      case None => None
      case Some(r) => Prepend(records + [r.item], RecordsAt(data, r.end, count - 1))
  {
    hide RecordAt;
    if RecordAt(data, offset).Some? {
      var r := RecordAt(data, offset).value;
      PrependOne(records, r.item, RecordsAt(data, r.end, count - 1));
    }
  }

  lemma RecordsEnd(data: bytes, records: seq<Record>, offset: nat)
    ensures Prepend(records, RecordsAt(data, offset, 0)) == Some(Section(records, offset))
  {
    assert records + [] == records;
  }

  /** parseResourceRecords */
  method ParseRecords(data: bytes, start: nat, count: nat) returns (r: Option<Section<Record>>)
    ensures r == RecordsAt(data, start, count)
  {
    hide NameAt, RecordsAt, Prepend;
    var offset: nat := start;
    var records: seq<Record> := [];
    PrependNone(RecordsAt(data, start, count));
    for i := 0 to count
      invariant RecordsAt(data, start, count) == Prepend(records, RecordsAt(data, offset, count - i))
    {
      RecordsStep(data, records, offset, count - i);
      var name := ParseName(data, offset);
      if name.None? {
        return None;
      }
      var body := name.value.next;
      if body + 10 > |data| {
        return None;
      }
      var ttl := Word(data, body + 4) * M16 + Word(data, body + 6);
      var rdLen := Word(data, body + 8);
      var end := body + 10 + rdLen;
      if end > |data| {
        return None;
      }
      var record := Record(name.value.name, Word(data, body), Word(data, body + 2), ttl, data[body + 10..end]);
      records := records + [record];
      offset := end;
    }
    RecordsEnd(data, records, offset);
    r := Some(Section(records, offset));
  }

  /** skipQuestions */
  method SkipOverQuestions(data: bytes, start: nat, count: nat) returns (r: Skipped)
    ensures r == SkipQuestions(data, start, count)
  {
    var offset: nat := start;
    for i := 0 to count
      invariant SkipQuestions(data, start, count) == SkipQuestions(data, offset, count - i)
    {
      var next := SkipName(data, offset);
      if next.None? || next.value + 4 > |data| {
        return Skipped(offset, false);
      }
      offset := next.value + 4;
    }
    r := Skipped(offset, true);
  }

  /** skipResourceRecords */
  method SkipOverRecords(data: bytes, start: nat, count: nat) returns (r: Option<nat>)
    ensures r == SkipRecords(data, start, count)
  {
    var offset: nat := start;
    for i := 0 to count
      invariant SkipRecords(data, start, count) == SkipRecords(data, offset, count - i)
    {
      var next := SkipName(data, offset);
      if next.None? || next.value + 10 > |data| {
        return None;
      }
      var end := next.value + 10 + Word(data, next.value + 8);
      if end > |data| {
        return None;
      }
      offset := end;
    }
    r := Some(offset);
  }

  method FindFirstOpt(data: bytes, start: nat, count: nat) returns (r: Range)
    ensures r == FirstOpt(data, start, count)
  {
    var offset: nat := start;
    for i := 0 to count
      invariant FirstOpt(data, start, count) == FirstOpt(data, offset, count - i)
    {
      var next := SkipName(data, offset);
      if next.None? || next.value + 10 > |data| {
        return NOTHING;
      }
      var end := next.value + 10 + Word(data, next.value + 8);
      if end > |data| {
        return NOTHING;
      }
      SkipRecordBounds(data, offset);
      if Word(data, next.value) == OPT {
        return Range(offset, end - offset);
      }
      offset := end;
    }
    r := NOTHING;
  }

  method FindOptRange(data: bytes, h: Header, questionEnd: nat) returns (r: Range)
    ensures r == OptRange(data, h, questionEnd)
  {
    hide SkipRecords, FirstOpt;
    if h.ar == 0 || questionEnd < HEADER_SIZE || questionEnd > |data| {
      return NOTHING;
    }
    var offset := questionEnd;
    NoRecords(data, offset);
    if h.an > 0 {
      var end := SkipOverRecords(data, offset, h.an);
      if end.None? {
        return NOTHING;
      }
      offset := end.value;
    }
    NoRecords(data, offset);
    if h.ns > 0 {
      var end := SkipOverRecords(data, offset, h.ns);
      if end.None? {
        return NOTHING;
      }
      offset := end.value;
    }
    r := FindFirstOpt(data, offset, h.ar);
  }

  lemma NoRecords(data: bytes, offset: nat)
    ensures SkipRecords(data, offset, 0) == Some(offset)
  {
  }

  /** binary.BigEndian.PutUint16 */
  method PutWord(buf: array<byte>, offset: nat, w: uint16)
    requires offset + 2 <= buf.Length
    modifies buf
    ensures buf[offset] == w / 256 && buf[offset + 1] == w % 256
    ensures forall k :: 0 <= k < buf.Length && k != offset && k != offset + 1 ==> buf[k] == old(buf[k])
  {
    buf[offset] := w / 256;
    buf[offset + 1] := w % 256;
  }

  /** The twelve header octets of a reply; the counts it never sets stay zero. */
  method PutHeader(buf: array<byte>, h: Header)
    requires buf.Length >= 12 && h.ns == 0
    requires forall k :: 0 <= k < buf.Length ==> buf[k] == 0
    modifies buf
    ensures buf[..12] == HeaderBytes(h)
    ensures forall k :: 12 <= k < buf.Length ==> buf[k] == 0
  {
    PutWord(buf, 0, h.id);
    PutWord(buf, 2, h.flags);
    PutWord(buf, 4, h.qd);
    PutWord(buf, 6, h.an);
    PutWord(buf, 10, h.ar);
    assert buf[..12] == [h.id / 256, h.id % 256, h.flags / 256, h.flags % 256, h.qd / 256, h.qd % 256,
                         h.an / 256, h.an % 256, 0, 0, h.ar / 256, h.ar % 256];
  }

  method AppendWord(buf: array<byte>, offset: nat, w: uint16) returns (next: nat)
    requires offset + 2 <= buf.Length
    modifies buf
    ensures next == offset + 2 && buf[..next] == old(buf[..offset]) + Bytes16(w)
    ensures forall k :: next <= k < buf.Length ==> buf[k] == old(buf[k])
  {
    PutWord(buf, offset, w);
    next := offset + 2;
    assert buf[..next] == old(buf[..offset]) + [w / 256, w % 256];
  }

  /** The buffer a reply is written into: header, questions, OPT record, to its last octet. */
  method WriteReply(request: bytes, h: Header, rcode: byte, questions: uint16, questionLen: nat, opt: Range)
    returns (response: array<byte>)
    requires HEADER_SIZE + questionLen <= |request| && opt.start + opt.len <= |request|
    ensures fresh(response) && response[..] == Reply(request, h, rcode, questions, questionLen, opt)
  {
    hide HeaderBytes, ResponseFlags;
    response := new byte[HEADER_SIZE + questionLen + opt.len](_ => 0);
    var header := Header(h.id, ResponseFlags(h.flags, rcode), questions, 0, 0, ArCount(opt.len));
    PutHeader(response, header);
    var section := request[HEADER_SIZE..HEADER_SIZE + questionLen];
    CopyInto(response, HEADER_SIZE, section);
    assert response[..HEADER_SIZE] == HeaderBytes(header);
    var record := request[opt.start..opt.start + opt.len];
    CopyInto(response, HEADER_SIZE + questionLen, record);
    assert response[..HEADER_SIZE] == HeaderBytes(header);
    assert response[HEADER_SIZE..HEADER_SIZE + questionLen] == section;
    assert response[..] == HeaderBytes(header) + section + record;
  }

  method BuildResponse(request: bytes, rcode: byte) returns (r: Result<bytes>)
    ensures r == Built(request, rcode)
  {
    hide Reply, OptRange, SkipQuestions;
    if |request| < HEADER_SIZE {
      return Err(TooShort);
    }
    var h := HeaderOf(request);
    if !LikelyRequest(h) {
      return Err(NotRequest);
    }
    var skipped := SkipOverQuestions(request, HEADER_SIZE, h.qd);
    SkipStays(request, HEADER_SIZE, h.qd);
    var questionLen, questionCount := 0, 0;
    if skipped.ok && skipped.end >= HEADER_SIZE && skipped.end <= |request| {
      questionLen, questionCount := skipped.end - HEADER_SIZE, h.qd;
    }
    var opt := FindOptRange(request, h, skipped.end);
    OptRangeInside(request, h, skipped.end);
    var response := WriteReply(request, h, rcode, questionCount, questionLen, opt);
    r := Ok(response[..]);
  }

  method BuildResponseLite(request: bytes, parsed: LitePacket, rcode: byte) returns (r: Result<bytes>)
    ensures r == BuiltLite(request, parsed, rcode)
  {
    hide Reply, OptRange;
    if |request| < HEADER_SIZE {
      return Err(TooShort);
    }
    if !LikelyRequest(parsed.header) {
      return Err(NotRequest);
    }
    var opt := FindOptRange(request, parsed.header, parsed.questionEnd);
    OptRangeInside(request, parsed.header, parsed.questionEnd);
    var questionLen := 0;
    if parsed.questionEnd >= HEADER_SIZE && parsed.questionEnd <= |request| {
      questionLen := parsed.questionEnd - HEADER_SIZE;
    }
    var response := WriteReply(request, parsed.header, rcode, parsed.header.qd, questionLen, opt);
    r := Ok(response[..]);
  }
}
