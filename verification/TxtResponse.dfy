/** The server's TXT reply and what the client's parser makes of it. */
module TxtResponse {
  // The question is copied, the answers stand under one owner name that is written once and pointed at
  // (section 4.1.4 of RFC 1035), and the OPT record is kept.

  import opened Words
  import opened DnsName
  import opened DnsMessage
  import TxtAnswer
  import VpnFrame

  const MAX_POINTER: nat := 0x3FFF

  // ----- what is written -----

  /** extractQuestionSection: octets, count and end; the end is 0 when the questions cannot be skipped. */
  datatype Copied = Copied(len: nat, count: uint16, end: nat)

  function QuestionSection(request: bytes, h: Header): Copied {
    if h.qd == 0 then Copied(0, 0, HEADER_SIZE)
    else
      var s := SkipQuestions(request, HEADER_SIZE, h.qd);
      if s.ok && s.end >= HEADER_SIZE then Copied(s.end - HEADER_SIZE, h.qd, s.end) else Copied(0, 0, 0)
  }

  /** sameDNSName, on ASCII names. */
  predicate SameName(a: bytes, b: bytes) {
    Lower(TrimDot(a)) == Lower(TrimDot(b))
  }

  lemma SameNameIs(a: bytes, b: bytes)
    ensures SameName(a, b) <==> Lower(TrimDot(a)) == Lower(TrimDot(b))
  {
  }

  /** responseAnswerNameBytes: the first question's octets when they spell the answer name. */
  function OwnerBytes(request: bytes, answerName: bytes): Option<bytes> {
    match NameAt(request, HEADER_SIZE)
    case Some(p) =>
      if HeaderOf(request).qd > 0 && HEADER_SIZE < p.next <= |request| && SameName(p.name, answerName)
      then Some(request[HEADER_SIZE..p.next])
      else Encoded(answerName)
    case None => Encoded(answerName)
  }

  function AnswerBytes(owner: bytes, payload: bytes): bytes {
    owner + (Bytes16(TXT) + Bytes16(CLASS_IN) + [0, 0, 0, 0] + Bytes16(|payload| % M16)) + payload
  }

  function MoreAnswers(owner: bytes, payloads: seq<bytes>): bytes {
    if payloads == [] then [] else AnswerBytes(owner, payloads[0]) + MoreAnswers(owner, payloads[1..])
  }

  /** The owner of every answer behind the first. */
  function LaterOwner(name: bytes, at: nat): bytes {
    if at <= MAX_POINTER then Bytes16(0xC000 + at) else name
  }

  function Answers(name: bytes, at: nat, payloads: seq<bytes>): bytes {
    if payloads == [] then []
    else AnswerBytes(name, payloads[0]) + MoreAnswers(LaterOwner(name, at), payloads[1..])
  }

  function ReplyHeader(h: Header, questions: uint16, answers: nat, optLen: nat): Header {
    Header(h.id, ResponseFlags(h.flags, 0), questions, answers % M16, 0, ArCount(optLen))
  }

  /** BuildTXTResponsePacket */
  function Built(request: bytes, answerName: bytes, payloads: seq<bytes>): Result<bytes> {
    if |request| < HEADER_SIZE then Err(TooShort)
    else
      var h := HeaderOf(request);
      var q := QuestionSection(request, h);
      var opt := OptRange(request, h, q.end);
      match OwnerBytes(request, answerName)
      case None => Err(InvalidQuestion)
      case Some(owner) =>
        if HEADER_SIZE + q.len > |request| then Err(InvalidQuestion)
        else Ok(HeaderBytes(ReplyHeader(h, q.count, |payloads|, opt.len))
                + request[HEADER_SIZE..HEADER_SIZE + q.len]
                + Answers(owner, HEADER_SIZE + q.len, payloads)
                + Slice(request, opt))
  }

  /** The room the builder allocates for the answers: two octets for every owner but the first. */
  function Allocated(owner: bytes, payloads: seq<bytes>, first: bool): nat {
    if payloads == [] then 0
    else (if first then |owner| else 2) + 10 + |payloads[0]| + Allocated(owner, payloads[1..], false)
  }

  lemma {:induction false} MoreSize(owner: bytes, later: bytes, payloads: seq<bytes>)
    ensures |MoreAnswers(later, payloads)| == Allocated(owner, payloads, false) + |payloads| * (|later| - 2)
  {
    if payloads != [] {
      MoreSize(owner, later, payloads[1..]);
      assert |payloads| * (|later| - 2) == (|payloads| - 1) * (|later| - 2) + (|later| - 2);
    }
  }

  /** The allocation is exact if and only if no answer but the first is written, or the pointer can be, or the
      owner happens to take two octets itself. A question section beyond the pointer's reach breaks it. */
  lemma RoomIff(owner: bytes, at: nat, payloads: seq<bytes>)
    ensures |Answers(owner, at, payloads)| == Allocated(owner, payloads, true)
       <==> |payloads| <= 1 || at <= MAX_POINTER || |owner| == 2
  {
    hide MoreAnswers;
    if payloads != [] {
      MoreSize(owner, LaterOwner(owner, at), payloads[1..]);
    }
  }

  /** A text question: a name behind its length octets, type TXT and class IN. */
  function TextQuestion(labels: seq<bytes>): bytes {
    Wire(labels) + (Bytes16(TXT) + Bytes16(CLASS_IN))
  }

  function TwoHeader(): Header {
    Header(1, 0, 2, 0, 0, 0)
  }

  /** n labels of the longest admitted size. */
  function ManyLabels(n: nat): seq<bytes> {
    seq(n, _ => seq(63, _ => 97))
  }

  /** A request with a second question whose name has 260 labels: the parser limits labels, not names. */
  function LongRequest(labels: seq<bytes>): bytes {
    HeaderBytes(TwoHeader()) + TextQuestion(labels) + TextQuestion(ManyLabels(260))
  }

  lemma {:induction false} ManyBody(n: nat)
    ensures ValidLabels(ManyLabels(n)) && |Body(ManyLabels(n))| == 64 * n
  {
    if n > 0 {
      assert ManyLabels(n)[1..] == ManyLabels(n - 1);
      ManyBody(n - 1);
    }
  }

  /** A text question is read wherever it stands. */
  lemma TextQuestionIsRead(before: bytes, labels: seq<bytes>, after: bytes)
    requires ValidLabels(labels)
    ensures QuestionAt(before + TextQuestion(labels) + after, |before|)
         == Some(One(Question(NameText(labels), TXT, CLASS_IN), |before| + |TextQuestion(labels)|))
    ensures NameAt(before + TextQuestion(labels) + after, |before|)
         == Some(Parsed(NameText(labels), |before| + |Wire(labels)|))
  {
    hide Labels, SkipEnd, NameText, Wire, Bytes16, Word;
    var data, name := before + TextQuestion(labels) + after, before + Wire(labels);
    var fixed := Bytes16(TXT) + Bytes16(CLASS_IN);
    assert data == name + (fixed + after);
    WireIsRead(before, labels, fixed + after, MAX_JUMPS);
    assert data == name + Bytes16(TXT) + (Bytes16(CLASS_IN) + after);
    WordIsRead(name, TXT, Bytes16(CLASS_IN) + after);
    assert data == name + Bytes16(TXT) + Bytes16(CLASS_IN) + after;
    WordIsRead(name + Bytes16(TXT), CLASS_IN, after);
  }

  lemma TwoQuestions(data: bytes, offset: nat, next: nat)
    requires QuestionAt(data, offset).Some? && QuestionAt(data, offset).value.end == next
    requires QuestionAt(data, next).Some?
    ensures QuestionsAt(data, offset, 2)
         == Some(Section([QuestionAt(data, offset).value.item, QuestionAt(data, next).value.item],
                         QuestionAt(data, next).value.end))
  {
    hide QuestionAt;
    var one, two := QuestionAt(data, offset).value.item, QuestionAt(data, next).value.item;
    var end := QuestionAt(data, next).value.end;
    assert QuestionsAt(data, end, 0) == Some(Section([], end));
    assert [two] + [] == [two] && [one] + [two] == [one, two];
    assert QuestionsAt(data, next, 1) == Some(Section([QuestionAt(data, next).value.item], end));
  }

  function TwoAsked(labels: seq<bytes>): seq<Question> {
    [Question(NameText(labels), TXT, CLASS_IN), Question(NameText(ManyLabels(260)), TXT, CLASS_IN)]
  }

  /** The request parser accepts that request, and reads the first question as it is. */
  lemma LongRequestIsRead(labels: seq<bytes>)
    requires ValidLabels(labels)
    ensures var request := LongRequest(labels);
      && |request| == 16661 + |Wire(labels)| && HeaderOf(request) == TwoHeader()
      && QuestionsAt(request, HEADER_SIZE, 2) == Some(Section(TwoAsked(labels), |request|))
      && NameAt(request, HEADER_SIZE) == Some(Parsed(NameText(labels), HEADER_SIZE + |Wire(labels)|))
      && request[HEADER_SIZE..HEADER_SIZE + |Wire(labels)|] == Wire(labels)
  {
    hide Wire, NameText, HeaderBytes, HeaderOf, QuestionAt, QuestionsAt, NameAt, ManyLabels, TextQuestion;
    var request, head := LongRequest(labels), HeaderBytes(TwoHeader());
    var first, second := TextQuestion(labels), TextQuestion(ManyLabels(260));
    QuestionSizes(labels);
    assert request == head + (first + second);
    HeaderIsRead(TwoHeader(), first + second);
    TextQuestionIsRead(head, labels, second);
    assert request == head + first + second + [];
    TextQuestionIsRead(head + first, ManyLabels(260), []);
    TwoQuestions(request, HEADER_SIZE, HEADER_SIZE + |first|);
    FirstNameStands(head, labels, second);
  }

  lemma QuestionSizes(labels: seq<bytes>)
    ensures |TextQuestion(labels)| == |Wire(labels)| + 4
    ensures |TextQuestion(ManyLabels(260))| == 16645 && ValidLabels(ManyLabels(260))
  {
    ManyBody(260);
  }

  lemma FirstNameStands(head: bytes, labels: seq<bytes>, after: bytes)
    ensures (head + TextQuestion(labels) + after)[|head|..|head| + |Wire(labels)|] == Wire(labels)
  {
    hide Wire;
  }

  /** Such a request, whatever name its first question asks for: the server's parser accepts it, its questions end
      beyond the pointer's reach, and the second answer's owner does not take the two octets allocated. */
  lemma PointerOutOfReach(labels: seq<bytes>, a: bytes, b: bytes)
    requires ValidLabels(labels) && labels != [] && |Wire(labels)| <= 255
    ensures var request, owner := LongRequest(labels), Wire(labels);
      && |request| < M16 && LikelyRequest(HeaderOf(request))
      && ParseRequest(request) == Ok(LitePacket(TwoHeader(), TwoAsked(labels), |request|))
      && QuestionSection(request, HeaderOf(request)).end == |request| > MAX_POINTER
      && OwnerBytes(request, NameText(labels)) == Some(owner) && |owner| > 2
      && |Answers(owner, |request|, [a, b])| == Allocated(owner, [a, b], true) + |owner| - 2
  {
    hide Wire, NameText, HeaderOf, QuestionsAt, NameAt, LongRequest, SkipQuestions, Answers, Allocated, SameName;
    var request := LongRequest(labels);
    LongRequestIsRead(labels);
    QuestionsAreSkipped(request, HEADER_SIZE, 2);
    SameAsItself(NameText(labels));
    LabelsTakeRoom(labels);
    TwoAnswers(Wire(labels), |request|, a, b);
  }

  lemma SameAsItself(name: bytes)
    ensures SameName(name, name)
  {
  }

  lemma LabelsTakeRoom(labels: seq<bytes>)
    requires ValidLabels(labels) && labels != []
    ensures |Wire(labels)| > 2
  {
    assert labels[0] in labels;
  }

  lemma TwoAnswers(owner: bytes, at: nat, a: bytes, b: bytes)
    requires at > MAX_POINTER
    ensures |Answers(owner, at, [a, b])| == |owner| + |a| + |owner| + |b| + 20
    ensures Allocated(owner, [a, b], true) == |owner| + |a| + 2 + |b| + 20
  {
    assert [a, b][1..] == [b] && [b][1..] == [];
    assert MoreAnswers(owner, []) == [] && Allocated(owner, [], false) == 0;
    assert MoreAnswers(owner, [b]) == AnswerBytes(owner, b) + [];
    assert Allocated(owner, [b], false) == 12 + |b|;
  }

  // ----- what is read -----

  /** One answer, wherever it stands, under an owner name the parser can read there. */
  lemma AnswerIsRead(before: bytes, owner: bytes, payload: bytes, after: bytes, name: bytes)
    requires |payload| < M16
    requires NameAt(before + AnswerBytes(owner, payload) + after, |before|) == Some(Parsed(name, |before| + |owner|))
    ensures RecordAt(before + AnswerBytes(owner, payload) + after, |before|)
         == Some(One(Record(name, TXT, CLASS_IN, 0, payload), |before| + |AnswerBytes(owner, payload)|))
  {
    hide NameAt;
    var data := before + AnswerBytes(owner, payload) + after;
    var at := |before| + |owner|;
    assert data == before + owner
                   + (Bytes16(TXT) + Bytes16(CLASS_IN) + [0, 0, 0, 0] + Bytes16(|payload| % M16)) + payload + after;
  }

  /** The owner written as a pointer. */
  lemma PointerIsRead(data: bytes, offset: nat, at: nat, labels: seq<bytes>)
    requires ValidLabels(labels) && at <= MAX_POINTER && offset + 2 <= |data|
    requires data[offset] == 192 + at / 256 && data[offset + 1] == at % 256
    requires at + |Wire(labels)| <= |data| && data[at..at + |Wire(labels)|] == Wire(labels)
    ensures NameAt(data, offset) == Some(Parsed(NameText(labels), offset + 2))
  {
    hide Wire, NameText;
    assert Pointer(data[offset], data[offset + 1]) == at;
    WireIsRead(data[..at], labels, data[at + |Wire(labels)|..], MAX_JUMPS - 1);
    assert data == data[..at] + Wire(labels) + data[at + |Wire(labels)|..];
  }

  lemma OwnerIsRead(before: bytes, labels: seq<bytes>, after: bytes)
    requires ValidLabels(labels)
    ensures NameAt(before + Wire(labels) + after, |before|) == Some(Parsed(NameText(labels), |before| + |Wire(labels)|))
  {
    hide Labels, SkipEnd, Wire, NameText;
    WireIsRead(before, labels, after, MAX_JUMPS);
  }

  function Records(name: bytes, payloads: seq<bytes>): seq<Record> {
    if payloads == [] then [] else [Record(name, TXT, CLASS_IN, 0, payloads[0])] + Records(name, payloads[1..])
  }

  predicate Fit(payloads: seq<bytes>) {
    forall p :: p in payloads ==> |p| < M16
  }

  lemma MoreNameIsRead(before: bytes, owner: bytes, tail: bytes, at: nat, labels: seq<bytes>)
    requires ValidLabels(labels) && owner == LaterOwner(Wire(labels), at)
    requires at + |Wire(labels)| <= |before| && before[at..at + |Wire(labels)|] == Wire(labels)
    ensures NameAt(before + owner + tail, |before|) == Some(Parsed(NameText(labels), |before| + |owner|))
  {
    hide Wire, NameText, NameAt;
    var data := before + owner + tail;
    if at <= MAX_POINTER {
      assert owner == [192 + at / 256, at % 256];
      assert data[|before|] == owner[0] && data[|before| + 1] == owner[1];
      assert data[at..at + |Wire(labels)|] == before[at..at + |Wire(labels)|];
      PointerIsRead(data, |before|, at, labels);
    } else {
      OwnerIsRead(before, labels, tail);
    }
  }

  lemma AnswerSplits(before: bytes, owner: bytes, payload: bytes, rest: bytes, after: bytes)
    ensures before + (AnswerBytes(owner, payload) + rest) + after == before + AnswerBytes(owner, payload) + (rest + after)
    ensures before + (AnswerBytes(owner, payload) + rest) + after == before + AnswerBytes(owner, payload) + rest + after
    ensures before + AnswerBytes(owner, payload) + (rest + after)
         == before + owner + ((Bytes16(TXT) + Bytes16(CLASS_IN) + [0, 0, 0, 0] + Bytes16(|payload| % M16)) + payload
                              + (rest + after))
  {
    hide Bytes16;
  }

  /** All answers behind the first, each under the pointer to the first one's owner. */
  lemma {:induction false} MoreAreRead(before: bytes, owner: bytes, payloads: seq<bytes>, after: bytes, at: nat,
                                       labels: seq<bytes>)
    requires ValidLabels(labels) && owner == LaterOwner(Wire(labels), at) && Fit(payloads)
    requires at + |Wire(labels)| <= |before| && before[at..at + |Wire(labels)|] == Wire(labels)
    ensures RecordsAt(before + MoreAnswers(owner, payloads) + after, |before|, |payloads|)
         == Some(Section(Records(NameText(labels), payloads), |before| + |MoreAnswers(owner, payloads)|))
    decreases |payloads|
  {
    hide Wire, NameText, NameAt, RecordAt, AnswerBytes, LaterOwner, RecordsAt;
    if payloads == [] {
      NoMoreRecords(before + MoreAnswers(owner, payloads) + after, |before|);
    } else {
      var payload, rest := payloads[0], payloads[1..];
      assert payload in payloads;
      var tail := MoreAnswers(owner, rest);
      var next := before + AnswerBytes(owner, payload);
      AnswerSplits(before, owner, payload, tail, after);
      var fixed := Bytes16(TXT) + Bytes16(CLASS_IN) + [0, 0, 0, 0] + Bytes16(|payload| % M16);
      MoreNameIsRead(before, owner, fixed + payload + (tail + after), at, labels);
      AnswerIsRead(before, owner, payload, tail + after, NameText(labels));
      MoreAreRead(next, owner, rest, after, at, labels);
      RecordsUnfold(before + MoreAnswers(owner, payloads) + after, |before|, |payloads|);
    }
  }

  lemma NoMoreRecords(data: bytes, offset: nat)
    ensures RecordsAt(data, offset, 0) == Some(Section([], offset))
  {
  }

  lemma RecordsUnfold(data: bytes, offset: nat, count: nat)
    requires count > 0
    ensures RecordsAt(data, offset, count) ==
      match RecordAt(data, offset)
      case None => None
      case Some(r) => match RecordsAt(data, r.end, count - 1)
        case None => None
        case Some(rest) => Some(Section([r.item] + rest.items, rest.end))
  {
    hide RecordAt;
  }

  lemma AnswersAreRead(before: bytes, labels: seq<bytes>, payloads: seq<bytes>, after: bytes)
    requires ValidLabels(labels) && Fit(payloads)
    ensures RecordsAt(before + Answers(Wire(labels), |before|, payloads) + after, |before|, |payloads|)
         == Some(Section(Records(NameText(labels), payloads), |before| + |Answers(Wire(labels), |before|, payloads)|))
  {
    hide Wire, NameText, NameAt, RecordAt, AnswerBytes, LaterOwner, MoreAnswers;
    if payloads != [] {
      var payload, rest := payloads[0], payloads[1..];
      assert payload in payloads;
      var owner := Wire(labels);
      var later := LaterOwner(owner, |before|);
      var tail := MoreAnswers(later, rest);
      var next := before + AnswerBytes(owner, payload);
      AnswerSplits(before, owner, payload, tail, after);
      var fixed := Bytes16(TXT) + Bytes16(CLASS_IN) + [0, 0, 0, 0] + Bytes16(|payload| % M16);
      OwnerIsRead(before, labels, fixed + payload + (tail + after));
      AnswerIsRead(before, owner, payload, tail + after, NameText(labels));
      FirstOwnerStands(before, owner, payload);
      MoreAreRead(next, later, rest, after, |before|, labels);
      RecordsUnfold(before + Answers(owner, |before|, payloads) + after, |before|, |payloads|);
    }
  }

  lemma FirstOwnerStands(before: bytes, owner: bytes, payload: bytes)
    ensures |before| + |owner| <= |before + AnswerBytes(owner, payload)|
    ensures (before + AnswerBytes(owner, payload))[|before|..|before| + |owner|] == owner
  {
    hide Bytes16;
  }

  // ----- the OPT record -----

  /** A whole record with a plain owner, copied to the end of another message. */
  lemma RecordMoves(request: bytes, start: nat, len: nat, before: bytes)
    requires start + len <= |request| && SkipRecord(request, start) == Some(start + len)
    requires Labels(request, start, 0).Some?
    ensures var r := RecordAt(before + request[start..start + len], |before|);
      && r.Some? && r.value.end == |before| + len
      && SkipEnd(request, start).Some? && r.value.item.rtype == Word(request, SkipEnd(request, start).value)
  {
    hide Labels, SkipEnd, NameText, Wire, Word;
    PlainIsWire(request, start);
    var next := SkipEnd(request, start).value;
    TailMoves(request, start, next, start + len, before);
    OwnerIsRead(before, Labels(request, start, 0).value, request[next..start + len]);
  }

  lemma TailMoves(request: bytes, start: nat, next: nat, end: nat, before: bytes)
    requires start <= next && next + 10 <= end <= |request|
    ensures var data, at := before + request[start..end], |before| + (next - start);
      && data == before + request[start..next] + request[next..end]
      && Word(data, at) == Word(request, next) && Word(data, at + 8) == Word(request, next + 8)
  {
    var data, at := before + request[start..end], |before| + (next - start);
    assert forall i :: at <= i < at + 10 ==> data[i] == request[i - at + next];
  }

  // ----- the whole reply -----

  lemma OwnerOfRequest(request: bytes, answerName: bytes) returns (labels: seq<bytes>)
    requires |request| >= HEADER_SIZE && HeaderOf(request).qd > 0 ==> Labels(request, HEADER_SIZE, 0).Some?
    requires OwnerBytes(request, answerName).Some?
    ensures ValidLabels(labels) && OwnerBytes(request, answerName).value == Wire(labels)
    ensures SameName(NameText(labels), answerName) || NameText(labels) == NameText(EncodedLabels(answerName))
  {
    hide Labels, SkipEnd, Wire, NameText, Split, TrimSpace, Lower;
    if HeaderOf(request).qd > 0 && NameAt(request, HEADER_SIZE).Some?
       && SameName(NameAt(request, HEADER_SIZE).value.name, answerName) && |request| >= HEADER_SIZE
    {
      PlainIsWire(request, HEADER_SIZE);
      MoreJumps(request, HEADER_SIZE, 0, MAX_JUMPS);
      labels := Labels(request, HEADER_SIZE, 0).value;
    } else {
      labels := EncodedLabels(answerName);
      RootIsZero();
    }
  }

  function EncodedLabels(name: bytes): seq<bytes> {
    var text := TrimDot(TrimSpace(name));
    if text == [] then [] else Split(text)
  }

  lemma RootIsZero()
    ensures Wire([]) == [0]
  {
  }

  /** A request the reply can be built on: it parses, its question names are spelt out, and so is the owner of its
      OPT record. */
  predicate PlainRequest(request: bytes) {
    && |request| >= HEADER_SIZE
    && var h := HeaderOf(request);
       && h.qd > 0 && QuestionsAt(request, HEADER_SIZE, h.qd).Some? && PlainQuestions(request, HEADER_SIZE, h.qd)
       && var opt := OptRange(request, h, QuestionsAt(request, HEADER_SIZE, h.qd).value.end);
          opt.len > 0 ==> Labels(request, opt.start, 0).Some?
  }

  lemma SectionOf(request: bytes)
    requires PlainRequest(request)
    ensures var h := HeaderOf(request);
      var end := QuestionsAt(request, HEADER_SIZE, h.qd).value.end;
      && HEADER_SIZE <= end <= |request|
      && QuestionSection(request, h) == Copied(end - HEADER_SIZE, h.qd, end)
      && Labels(request, HEADER_SIZE, 0).Some?
  {
    hide OptRange, SkipQuestions, Labels, QuestionsAt, QuestionAt;
    QuestionsAreSkipped(request, HEADER_SIZE, HeaderOf(request).qd);
  }

  /** The reply, part by part. */
  lemma BuiltIs(request: bytes, answerName: bytes, payloads: seq<bytes>)
    requires PlainRequest(request) && OwnerBytes(request, answerName).Some?
    ensures var h := HeaderOf(request);
      var end := QuestionsAt(request, HEADER_SIZE, h.qd).value.end;
      var opt := OptRange(request, h, end);
      && HEADER_SIZE <= end <= |request| && opt.start + opt.len <= |request|
      && Built(request, answerName, payloads) ==
         Ok(HeaderBytes(ReplyHeader(h, h.qd, |payloads|, opt.len)) + request[HEADER_SIZE..end]
            + Answers(OwnerBytes(request, answerName).value, end, payloads) + request[opt.start..opt.start + opt.len])
  {
    hide OptRange, QuestionsAt, QuestionSection, OwnerBytes, PlainRequest, HeaderOf, Built, SkipRecord, SkipEnd,
      HeaderBytes, ReplyHeader, Answers, PlainQuestions, Labels;
    SectionOf(request);
    PlainMeans(request);
    var h := HeaderOf(request);
    var end := QuestionsAt(request, HEADER_SIZE, h.qd).value.end;
    OptRangeInside(request, h, end);
    BuiltFrom(request, answerName, payloads, end);
  }

  /** When the questions do not stand inside the request, or there are none, the reply has no question: its header says
      so and the answers begin right behind it. */
  lemma QuestionlessReply(request: bytes, answerName: bytes, payloads: seq<bytes>)
    requires |request| >= HEADER_SIZE && OwnerBytes(request, answerName).Some?
    requires HeaderOf(request).qd == 0 || !QuestionsStand(request, HEADER_SIZE, HeaderOf(request).qd)
    ensures Built(request, answerName, payloads).Ok?
    ensures var reply := Built(request, answerName, payloads).value;
      var answers := Answers(OwnerBytes(request, answerName).value, HEADER_SIZE, payloads);
      && Word(reply, 0) == Word(request, 0) && Word(reply, 4) == 0 && Word(reply, 6) == |payloads| % 65536
      && Word(reply, 8) == 0 && HEADER_SIZE + |answers| <= |reply|
      && reply[HEADER_SIZE..HEADER_SIZE + |answers|] == answers
      && (HeaderOf(request).qd > 0 ==> |reply| == HEADER_SIZE + |answers| && Word(reply, 10) == 0)
      && (HeaderOf(request).qd == 0 ==>
           var opt := OptRange(request, HeaderOf(request), 12);
           && reply[HEADER_SIZE + |answers|..] == Slice(request, opt)
           && Word(reply, 10) == if opt.len > 0 then 1 else 0)
  {
    hide OptRange, SkipQuestions, OwnerBytes, HeaderBytes, Answers, HeaderOf, ResponseFlags, Word, QuestionsStand;
    var h := HeaderOf(request);
    SkipsIff(request, HEADER_SIZE, h.qd);
    HeaderFields(request);
    var q := QuestionSection(request, h);
    assert OptRange(request, h, 0) == NOTHING by { NoRange(request, h); }
    var opt := OptRange(request, h, q.end);
    var answers := Answers(OwnerBytes(request, answerName).value, HEADER_SIZE, payloads);
    var header := ReplyHeader(h, 0, |payloads|, opt.len);
    var reply := Built(request, answerName, payloads).value;
    assert request[HEADER_SIZE..HEADER_SIZE] == [];
    var rest := answers + Slice(request, opt);
    assert reply == HeaderBytes(header) + rest;
    HeaderIsRead(header, rest);
    HeaderFields(reply);
    assert reply[HEADER_SIZE..] == rest;
    assert reply[HEADER_SIZE + |answers|..] == Slice(request, opt);
  }

  lemma NoRange(request: bytes, h: Header)
    ensures OptRange(request, h, 0) == NOTHING
  {
  }

  lemma BuiltFrom(request: bytes, answerName: bytes, payloads: seq<bytes>, end: nat)
    requires HEADER_SIZE <= end <= |request| && OwnerBytes(request, answerName).Some?
    requires QuestionSection(request, HeaderOf(request)) == Copied(end - HEADER_SIZE, HeaderOf(request).qd, end)
    requires var opt := OptRange(request, HeaderOf(request), end); opt.start + opt.len <= |request|
    ensures var h := HeaderOf(request);
      var opt := OptRange(request, h, end);
      Built(request, answerName, payloads) ==
         Ok(HeaderBytes(ReplyHeader(h, h.qd, |payloads|, opt.len)) + request[HEADER_SIZE..end]
            + Answers(OwnerBytes(request, answerName).value, end, payloads) + request[opt.start..opt.start + opt.len])
  {
    hide OptRange, QuestionSection, OwnerBytes, HeaderOf, HeaderBytes, ReplyHeader, Answers;
  }

  lemma PlainMeans(request: bytes)
    requires PlainRequest(request)
    ensures |request| >= HEADER_SIZE && HeaderOf(request).qd > 0
    ensures QuestionsAt(request, HEADER_SIZE, HeaderOf(request).qd).Some?
    ensures PlainQuestions(request, HEADER_SIZE, HeaderOf(request).qd)
    ensures var opt := OptRange(request, HeaderOf(request),
                                QuestionsAt(request, HEADER_SIZE, HeaderOf(request).qd).value.end);
      opt.len > 0 ==> Labels(request, opt.start, 0).Some?
  {
  }

  lemma QuestionsCopied(request: bytes, head: bytes, tail: bytes)
    requires PlainRequest(request) && |head| == HEADER_SIZE
    ensures var qd := HeaderOf(request).qd;
      var end := QuestionsAt(request, HEADER_SIZE, qd).value.end;
      && HEADER_SIZE <= end <= |request|
      && QuestionsAt(head + request[HEADER_SIZE..end] + tail, HEADER_SIZE, qd) == QuestionsAt(request, HEADER_SIZE, qd)
  {
    hide QuestionsAt, PlainQuestions, PlainRequest;
    PlainMeans(request);
    SectionOf(request);
    var qd := HeaderOf(request).qd;
    var end := QuestionsAt(request, HEADER_SIZE, qd).value.end;
    QuestionsMove(request, head + request[HEADER_SIZE..end] + tail, HEADER_SIZE, qd);
  }

  /** The OPT range of a plain request: a whole OPT record with a plain owner, or nothing. */
  predicate PlainOpt(request: bytes, opt: Range) {
    && opt.start + opt.len <= |request|
    && (opt.len > 0 ==>
          && Labels(request, opt.start, 0).Some? && SkipRecord(request, opt.start) == Some(opt.start + opt.len)
          && SkipEnd(request, opt.start).Some? && Word(request, SkipEnd(request, opt.start).value) == OPT)
  }

  lemma OptIsPlain(request: bytes)
    requires PlainRequest(request)
    ensures var h := HeaderOf(request);
      PlainOpt(request, OptRange(request, h, QuestionsAt(request, HEADER_SIZE, h.qd).value.end))
  {
    hide QuestionsAt, PlainRequest, OptRange, Labels, SkipRecord, SkipEnd;
    PlainMeans(request);
    var h := HeaderOf(request);
    OptRangeInside(request, h, QuestionsAt(request, HEADER_SIZE, h.qd).value.end);
  }

  lemma OptCopied(request: bytes, opt: Range, before: bytes)
    requires PlainOpt(request, opt)
    ensures opt.start + opt.len <= |request|
    ensures var r := RecordsAt(before + request[opt.start..opt.start + opt.len], |before|, ArCount(opt.len));
      r.Some? && |r.value.items| == ArCount(opt.len) && (opt.len > 0 ==> r.value.items[0].rtype == OPT)
  {
    hide Labels, SkipRecord, RecordAt, SkipEnd;
    if opt.len > 0 {
      RecordMoves(request, opt.start, opt.len, before);
      RecordsUnfold(before + request[opt.start..opt.start + opt.len], |before|, 1);
    }
  }

  /** The client's parser reads the reply back: the request's identity, its questions, one TXT answer per payload
      under the owner name, and the OPT record. */
  lemma ReplyIsParsed(request: bytes, answerName: bytes, payloads: seq<bytes>) returns (name: bytes)
    requires PlainRequest(request) && OwnerBytes(request, answerName).Some? && Fit(payloads) && |payloads| < M16
    ensures Lower(TrimDot(name)) == Lower(TrimDot(answerName)) || name == NameText(EncodedLabels(answerName))
    ensures Built(request, answerName, payloads).Ok?
    ensures var r := Parse(Built(request, answerName, payloads).value);
      var h := HeaderOf(request);
      && r.Ok? && r.value.header.id == h.id && r.value.header.flags == ResponseFlags(h.flags, 0)
      && r.value.questions == QuestionsAt(request, HEADER_SIZE, h.qd).value.items
      && r.value.answers == Records(name, payloads)
      && r.value.authorities == []
      && var opt := OptRange(request, h, QuestionsAt(request, HEADER_SIZE, h.qd).value.end);
        && |r.value.additional| == (if opt.len > 0 then 1 else 0)
        && (opt.len > 0 ==> r.value.additional[0].rtype == 41)
  {
    hide OptRange, QuestionsAt, OwnerBytes, HeaderBytes, Answers, PlainRequest, Wire, NameText, Built, HeaderOf,
      RecordsAt, ResponseFlags, Records, SameName, EncodedLabels, PlainOpt, Lower, TrimDot, Parse;
    var h := HeaderOf(request);
    PlainMeans(request);
    SectionOf(request);
    BuiltIs(request, answerName, payloads);
    var labels := OwnerOfRequest(request, answerName);
    name := NameText(labels);
    SameNameIs(name, answerName);
    var end := QuestionsAt(request, HEADER_SIZE, h.qd).value.end;
    var opt := OptRange(request, h, end);
    var header := ReplyHeader(h, h.qd, |payloads|, opt.len);
    var a, b := HeaderBytes(header), request[HEADER_SIZE..end];
    var c, d := Answers(Wire(labels), end, payloads), request[opt.start..opt.start + opt.len];
    FourParts(a, b, c, d);
    HeaderIsRead(header, b + c + d);
    QuestionsCopied(request, a, c + d);
    AnswersAreRead(a + b, labels, payloads, d);
    OptIsPlain(request);
    OptCopied(request, opt, a + b + c);
    var data, at := a + b + c + d, |a + b + c|;
    NoMoreRecords(data, at);
    ParseIs(data, QuestionsAt(request, HEADER_SIZE, h.qd).value, Section(Records(name, payloads), at), Section([], at),
            RecordsAt(data, at, ArCount(opt.len)).value);
  }

  // ----- from answers to the frame -----

  /** extractTXTAnswerPayloads */
  function Payloads(answers: seq<Record>): seq<bytes> {
    if answers == [] then []
    else
      var raw := TxtAnswer.Extract(answers[0].rdata);
      if answers[0].rtype != TXT || raw == [] then Payloads(answers[1..]) else [raw] + Payloads(answers[1..])
  }

  /** Records of another type, and text without octets, are passed over wherever they stand. */
  lemma {:induction false} OthersArePassedOver(before: seq<Record>, r: Record, after: seq<Record>)
    ensures r.rtype != TXT || TxtAnswer.Extract(r.rdata) == [] ==> Payloads(before + [r] + after) == Payloads(before + after)
    ensures r.rtype == TXT && TxtAnswer.Extract(r.rdata) != [] ==>
      Payloads(before + [r] + after) == Payloads(before) + [TxtAnswer.Extract(r.rdata)] + Payloads(after)
    decreases |before|
  {
    hide TxtAnswer.Extract;
    var all := before + [r] + after;
    if before == [] {
      assert all == [r] + after && before + after == after;
      assert all[1..] == after;
    } else {
      OthersArePassedOver(before[1..], r, after);
      assert all[1..] == before[1..] + [r] + after && (before + after)[1..] == before[1..] + after;
    }
  }

  /** ExtractVPNResponse, up to the inflation of the payload. */
  function Receive(f: VpnFrame.Format, c: TxtAnswer.Codec, packet: bytes): Option<VpnFrame.Frame> {
    match Parse(packet)
    case Err(_) => None
    case Ok(p) => if Payloads(p.answers) == [] then None else TxtAnswer.Assemble(f, c, Payloads(p.answers))
  }

  /** Answers that carry the frame's texts, in any order and any number of copies. */
  predicate Carry(answers: seq<Record>, texts: seq<bytes>, order: seq<nat>) {
    && |answers| == |order|
    && forall k :: 0 <= k < |order| ==>
         order[k] < |texts| && answers[k].rtype == TXT && answers[k].rdata == texts[order[k]]
  }

  lemma {:induction false} PayloadsAre(answers: seq<Record>, c: TxtAnswer.Codec, chunks: seq<bytes>, order: seq<nat>)
    requires Carry(answers, TxtAnswer.Texts(c, chunks), order)
    requires forall i :: 0 <= i < |chunks| ==>
      TxtAnswer.Extract(TxtAnswer.TxtString(c, chunks[i])) == TxtAnswer.Payload(c, chunks[i]) != []
    requires forall i :: i in order ==> i < |chunks|
    ensures Payloads(answers) == TxtAnswer.Received(c, chunks, order)
  {
    hide TxtAnswer.Extract, TxtAnswer.TxtString, TxtAnswer.Payload;
    if order != [] {
      assert forall i :: i in order[1..] ==> i in order;
      PayloadsAre(answers[1..], c, chunks, order[1..]);
      assert order[0] in order;
      assert TxtAnswer.Received(c, chunks, order)
          == [TxtAnswer.Payload(c, chunks[order[0]])] + TxtAnswer.Received(c, chunks, order[1..]);
    }
  }

  /** TXT answer round trip, several chunks: whatever order the answers come in and however often each is repeated,
      the frame comes back with its header and its whole payload. */
  lemma AnyOrder(f: VpnFrame.Format, c: TxtAnswer.Codec, frame: bytes, h: VpnFrame.Frame, answers: seq<Record>,
                 order: seq<nat>)
    requires TxtAnswer.Lawful(c) && VpnFrame.Parse(f, frame) == Some(h) && |frame| > TxtAnswer.MaxChunk(c)
    requires TxtAnswer.CutFrame(f, c, frame).Answers?
    requires var texts := TxtAnswer.CutFrame(f, c, frame).rdata;
      Carry(answers, texts, order) && forall i: nat :: i < |texts| ==> i in order
    ensures TxtAnswer.Assemble(f, c, Payloads(answers)) == Some(h)
  {
    hide TxtAnswer.Extract, TxtAnswer.TxtString, TxtAnswer.Payload, TxtAnswer.Chunks, TxtAnswer.Assemble,
      VpnFrame.Parse, Payloads, TxtAnswer.Lawful;
    VpnFrame.PayloadIsTheRest(f, frame, []);
    var chunks := TxtAnswer.Chunks(c, frame[..h.headerLen], h.payload);
    assert TxtAnswer.CutFrame(f, c, frame).rdata == TxtAnswer.Texts(c, chunks);
    forall i | 0 <= i < |chunks|
      ensures TxtAnswer.Extract(TxtAnswer.TxtString(c, chunks[i])) == TxtAnswer.Payload(c, chunks[i]) != []
    {
      TxtAnswer.CutIsExtracted(f, c, frame, h, i);
    }
    forall i | i in order
      ensures i < |chunks|
    {
      var k :| 0 <= k < |order| && order[k] == i;
    }
    PayloadsAre(answers, c, chunks, order);
    TxtAnswer.AssembleCut(f, c, frame, h, order);
  }

  lemma {:induction false} RecordsCarry(name: bytes, payloads: seq<bytes>)
    ensures |Records(name, payloads)| == |payloads|
    ensures forall k :: 0 <= k < |payloads| ==> Records(name, payloads)[k] == Record(name, TXT, CLASS_IN, 0, payloads[k])
  {
    if payloads != [] { RecordsCarry(name, payloads[1..]); }
  }

  lemma InOrder(name: bytes, texts: seq<bytes>) returns (order: seq<nat>)
    ensures Carry(Records(name, texts), texts, order) && (forall i: nat :: i < |texts| ==> i in order)
  {
    hide Records;
    RecordsCarry(name, texts);
    order := seq(|texts|, k requires 0 <= k < |texts| => k);
    forall i: nat | i < |texts|
      ensures i in order
    {
      assert order[i] == i;
    }
  }

  /** The whole way from the server's frame to the client's: cut, packed into the reply to a plain request, parsed
      and put together again. */
  lemma FrameIsReceived(f: VpnFrame.Format, c: TxtAnswer.Codec, request: bytes, answerName: bytes, frame: bytes,
                        h: VpnFrame.Frame)
    requires TxtAnswer.Lawful(c) && VpnFrame.Parse(f, frame) == Some(h)
    requires TxtAnswer.CutFrame(f, c, frame).Answers?
    requires PlainRequest(request) && OwnerBytes(request, answerName).Some?
    ensures var texts := TxtAnswer.CutFrame(f, c, frame).rdata;
      && Built(request, answerName, texts).Ok?
      && Receive(f, c, Built(request, answerName, texts).value) == Some(h)
  {
    hide TxtAnswer.Extract, TxtAnswer.CutFrame, TxtAnswer.Assemble, VpnFrame.Parse, Payloads, TxtAnswer.Lawful,
      PlainRequest, OwnerBytes, Built, Parse, Records, Carry;
    var texts := TxtAnswer.CutFrame(f, c, frame).rdata;
    TextsFit(f, c, frame, h);
    var name := ReplyIsParsed(request, answerName, texts);
    if |frame| > TxtAnswer.MaxChunk(c) {
      var order := InOrder(name, texts);
      AnyOrder(f, c, frame, h, Records(name, texts), order);
      NothingAssembled(f, c);
    } else {
      OneAnswer(f, c, frame, h, name);
    }
  }

  lemma NothingAssembled(f: VpnFrame.Format, c: TxtAnswer.Codec)
    ensures TxtAnswer.Assemble(f, c, []) == None
  {
  }

  lemma TextsFit(f: VpnFrame.Format, c: TxtAnswer.Codec, frame: bytes, h: VpnFrame.Frame)
    requires TxtAnswer.Lawful(c) && VpnFrame.Parse(f, frame) == Some(h)
    requires TxtAnswer.CutFrame(f, c, frame).Answers?
    ensures Fit(TxtAnswer.CutFrame(f, c, frame).rdata) && |TxtAnswer.CutFrame(f, c, frame).rdata| < M16
  {
    hide TxtAnswer.Extract, TxtAnswer.TxtString, TxtAnswer.Chunks, VpnFrame.Parse, TxtAnswer.Lawful, TxtAnswer.Total;
    VpnFrame.PayloadIsTheRest(f, frame, []);
    FrameIsNotEmpty(f, frame);
    if |frame| <= TxtAnswer.MaxChunk(c) {
      TxtAnswer.ExtractTxt(c, frame);
    } else {
      var chunks := TxtAnswer.Chunks(c, frame[..h.headerLen], h.payload);
      TxtAnswer.ChunksAre(c, frame[..h.headerLen], h.payload);
      var texts := TxtAnswer.Texts(c, chunks);
      forall p | p in texts
        ensures |p| < M16
      {
        var i :| 0 <= i < |texts| && texts[i] == p;
        TxtAnswer.CutIsExtracted(f, c, frame, h, i);
      }
    }
  }

  lemma FrameIsNotEmpty(f: VpnFrame.Format, frame: bytes)
    requires VpnFrame.Parse(f, frame).Some?
    ensures frame != []
  {
  }

  lemma OneAnswer(f: VpnFrame.Format, c: TxtAnswer.Codec, frame: bytes, h: VpnFrame.Frame, name: bytes)
    requires TxtAnswer.Lawful(c) && VpnFrame.Parse(f, frame) == Some(h) && |frame| <= TxtAnswer.MaxChunk(c)
    ensures var answers := Records(name, TxtAnswer.CutFrame(f, c, frame).rdata);
      TxtAnswer.CutFrame(f, c, frame).Answers? && Payloads(answers) != []
      && TxtAnswer.Assemble(f, c, Payloads(answers)) == Some(h)
  {
    hide TxtAnswer.Extract, TxtAnswer.TxtString, VpnFrame.Parse, TxtAnswer.Lawful, TxtAnswer.Assemble;
    FrameIsNotEmpty(f, frame);
    TxtAnswer.AssembleSingle(f, c, frame);
    TxtAnswer.ExtractTxt(c, frame);
    var text := TxtAnswer.TxtString(c, frame);
    assert Records(name, [text]) == [Record(name, TXT, CLASS_IN, 0, text)];
    assert Payloads([Record(name, TXT, CLASS_IN, 0, text)]) == [TxtAnswer.Extract(text)];
  }

  // ----- the code -----

  /** The answers still to be written from the i-th on. */
  function Todo(name: bytes, at: nat, payloads: seq<bytes>, i: nat): bytes
    requires i <= |payloads|
  {
    if i == 0 then Answers(name, at, payloads) else MoreAnswers(LaterOwner(name, at), payloads[i..])
  }

  lemma TodoStep(name: bytes, at: nat, payloads: seq<bytes>, i: nat, done: bytes)
    requires i < |payloads|
    ensures var owner := if i == 0 then name else LaterOwner(name, at);
      done + Todo(name, at, payloads, i) == done + AnswerBytes(owner, payloads[i]) + Todo(name, at, payloads, i + 1)
  {
    hide AnswerBytes, LaterOwner;
    var owner := if i == 0 then name else LaterOwner(name, at);
    assert payloads[i..][1..] == payloads[i + 1..];
    Regroup(done, AnswerBytes(owner, payloads[i]), Todo(name, at, payloads, i + 1));
  }

  method WriteAnswer(response: array<byte>, begin: nat, owner: bytes, payload: bytes) returns (next: nat)
    requires begin + |AnswerBytes(owner, payload)| <= response.Length
    requires forall k :: begin <= k < response.Length ==> response[k] == 0
    modifies response
    ensures next == begin + |AnswerBytes(owner, payload)|
    ensures response[..next] == old(response[..begin]) + AnswerBytes(owner, payload)
    ensures forall k :: next <= k < response.Length ==> response[k] == 0
  {
    hide Bytes16, AnswerBytes;
    AnswerParts(response[..begin], owner, payload);
    next := Append(response, begin, owner);
    next := AppendWord(response, next, TXT);
    next := AppendWord(response, next, CLASS_IN);
    assert response[..next + 4] == response[..next] + [0, 0, 0, 0];
    next := next + 4;
    next := AppendWord(response, next, |payload| % M16);
    next := Append(response, next, payload);
  }

  lemma AnswerParts(done: bytes, owner: bytes, payload: bytes)
    ensures |AnswerBytes(owner, payload)| == |owner| + 10 + |payload|
    ensures done + AnswerBytes(owner, payload)
         == done + owner + Bytes16(TXT) + Bytes16(CLASS_IN) + [0, 0, 0, 0] + Bytes16(|payload| % M16) + payload
  {
    hide Bytes16;
  }

  /** The loop over the answers, each behind the last. */
  method WriteAnswers(response: array<byte>, begin: nat, name: bytes, payloads: seq<bytes>) returns (offset: nat)
    requires begin + |Answers(name, begin, payloads)| <= response.Length
    requires forall k :: begin <= k < response.Length ==> response[k] == 0
    modifies response
    ensures offset == begin + |Answers(name, begin, payloads)|
    ensures response[..offset] == old(response[..begin]) + Answers(name, begin, payloads)
    ensures forall k :: offset <= k < response.Length ==> response[k] == 0
  {
    hide AnswerBytes, MoreAnswers, Answers, Todo, LaterOwner;
    var firstAnswerNameOffset := begin;
    offset := begin;
    ghost var all := old(response[..begin]) + Answers(name, begin, payloads);
    TodoAll(name, begin, payloads);
    for i := 0 to |payloads|
      invariant begin <= offset <= response.Length && |all| <= response.Length
      invariant response[..offset] + Todo(name, begin, payloads, i) == all
      invariant forall k :: offset <= k < response.Length ==> response[k] == 0
    {
      TodoStep(name, begin, payloads, i, response[..offset]);
      var owner := name;
      if i > 0 && firstAnswerNameOffset <= MAX_POINTER {
        owner := Bytes16(0xC000 + firstAnswerNameOffset);
      }
      LaterOwnerIs(name, begin);
      offset := WriteAnswer(response, offset, owner, payloads[i]);
    }
    assert response[..offset] + [] == response[..offset];
  }

  lemma LaterOwnerIs(name: bytes, at: nat)
    ensures LaterOwner(name, at) == if at <= MAX_POINTER then Bytes16(0xC000 + at) else name
  {
  }

  lemma TodoAll(name: bytes, at: nat, payloads: seq<bytes>)
    ensures Todo(name, at, payloads, 0) == Answers(name, at, payloads) && Todo(name, at, payloads, |payloads|) == []
  {
    assert payloads[|payloads|..] == [];
  }

  /** What the builder needs to have room for the answers it writes. */
  predicate RoomSuffices(request: bytes, answerName: bytes, payloads: seq<bytes>) {
    |request| >= HEADER_SIZE && OwnerBytes(request, answerName).Some? ==>
      |payloads| <= 1 || HEADER_SIZE + QuestionSection(request, HeaderOf(request)).len <= MAX_POINTER
      || |OwnerBytes(request, answerName).value| == 2
  }

  /** The sizing loop. */
  method AnswerLen(nameBytes: bytes, payloads: seq<bytes>) returns (answerLen: nat)
    ensures answerLen == Allocated(nameBytes, payloads, true)
  {
    answerLen := 0;
    assert payloads[0..] == payloads;
    for i := 0 to |payloads|
      invariant answerLen + Allocated(nameBytes, payloads[i..], i == 0) == Allocated(nameBytes, payloads, true)
    {
      assert payloads[i..][1..] == payloads[i + 1..];
      var nameLen := |nameBytes|;
      if i > 0 {
        nameLen := 2;
      }
      answerLen := answerLen + nameLen + 10 + |payloads[i]|;
    }
  }

  method ExtractQuestionSection(request: bytes, h: Header) returns (r: Copied)
    ensures r == QuestionSection(request, h)
  {
    if h.qd == 0 {
      return Copied(0, 0, HEADER_SIZE);
    }
    var skipped := SkipOverQuestions(request, HEADER_SIZE, h.qd);
    if !skipped.ok || skipped.end < HEADER_SIZE {
      return Copied(0, 0, 0);
    }
    r := Copied(skipped.end - HEADER_SIZE, h.qd, skipped.end);
  }

  method ResponseAnswerName(request: bytes, answerName: bytes) returns (r: Option<bytes>)
    ensures r == OwnerBytes(request, answerName)
  {
    hide Encoded, NameAt, SameName, HeaderOf;
    var parsed := ParseName(request, HEADER_SIZE);
    if parsed.Some? && HeaderOf(request).qd > 0 && HEADER_SIZE < parsed.value.next <= |request|
       && SameName(parsed.value.name, answerName)
    {
      return Some(request[HEADER_SIZE..parsed.value.next]);
    }
    r := EncodeStrict(answerName);
  }

  lemma SectionInside(request: bytes, h: Header)
    requires |request| >= HEADER_SIZE
    ensures HEADER_SIZE + QuestionSection(request, h).len <= |request|
  {
    hide SkipQuestions;
    SkipStays(request, HEADER_SIZE, h.qd);
  }

  /** BuildTXTResponsePacket: the buffer is filled exactly to its end. */
  method BuildTxtResponse(request: bytes, answerName: bytes, payloads: seq<bytes>) returns (r: Result<bytes>)
    requires RoomSuffices(request, answerName, payloads)
    ensures r == Built(request, answerName, payloads)
  {
    hide OptRange, OwnerBytes, QuestionSection, HeaderBytes, ReplyHeader, Answers, HeaderOf, SkipRecord, SkipEnd;
    if |request| < HEADER_SIZE {
      return Err(TooShort);
    }
    var h := HeaderOf(request);
    var q := ExtractQuestionSection(request, h);
    SectionInside(request, h);
    var opt := FindOptRange(request, h, q.end);
    OptRangeInside(request, h, q.end);
    var owner := ResponseAnswerName(request, answerName);
    if owner.None? {
      return Err(InvalidQuestion);
    }
    var answerLen := AnswerLen(owner.value, payloads);
    RoomIff(owner.value, HEADER_SIZE + q.len, payloads);
    var response := new byte[HEADER_SIZE + q.len + answerLen + opt.len](_ => 0);
    HeaderOfReply(h, q.count, |payloads|, opt.len);
    PutHeader(response, ReplyHeader(h, q.count, |payloads|, opt.len));
    var offset := Append(response, HEADER_SIZE, request[HEADER_SIZE..HEADER_SIZE + q.len]);
    offset := WriteAnswers(response, offset, owner.value, payloads);
    offset := Append(response, offset, request[opt.start..opt.start + opt.len]);
    assert response[..] == response[..offset];
    r := Ok(response[..]);
  }

  lemma HeaderOfReply(h: Header, questions: uint16, answers: nat, optLen: nat)
    ensures ReplyHeader(h, questions, answers, optLen).ns == 0
  {
  }
}
