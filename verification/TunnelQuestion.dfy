/** A tunnel frame as the labels of a TXT question. */
module TunnelQuestion {
  // Building the question, and what the server reads back from it.

  import opened Words
  import opened DnsName
  import opened DnsMessage
  import DomainTrie
  import Base36
  import TxtAnswer
  import TxtResponse
  import VpnFrame

  const MAX_LABEL: nat := 63

  /** The labels the frame is cut into. */
  function FrameLabels(frame: bytes): seq<bytes> {
    if frame == [] then []
    else if |frame| <= MAX_LABEL then [frame]
    else [frame[..MAX_LABEL]] + FrameLabels(frame[MAX_LABEL..])
  }

  /** encodedQNameLen */
  function EncodedQNameLen(frameLen: nat, domainLen: nat): nat {
    if frameLen == 0 then domainLen else frameLen + (frameLen - 1) / MAX_LABEL + 1 + domainLen
  }

  /** PrepareTunnelDomainQname: the normalised domain and the text that ends up on the wire, which is trimmed once
      more. */
  function Normal(domain: bytes): bytes {
    TrimDot(Lower(TrimSpace(domain)))
  }

  function WireText(domain: bytes): bytes {
    TrimDot(TrimSpace(Normal(domain)))
  }

  function OptBytes(udpSize: uint16): bytes {
    if udpSize == 0 then []
    else [0] + Bytes16(OPT) + Bytes16(udpSize) + [0, 0, 0, 0] + Bytes16(0)
  }

  function QuestionHeader(id: uint16, udpSize: uint16): Header {
    Header(id, 0x100, 1, 0, 0, if udpSize > 0 then 1 else 0)
  }

  function PacketBytes(id: uint16, qname: bytes, qtype: uint16, udpSize: uint16): bytes {
    HeaderBytes(QuestionHeader(id, udpSize)) + qname + (Bytes16(qtype) + Bytes16(CLASS_IN) + OptBytes(udpSize))
  }

  /** BuildTunnelTXTQuestionPacket */
  function Built(domain: bytes, frame: bytes, id: uint16, qtype: uint16, udpSize: uint16): Option<bytes> {
    if Normal(domain) == [] || Encoded(Normal(domain)).None? then None
    else if frame != [] && EncodedQNameLen(|frame|, |Normal(domain)|) > MAX_NAME_LEN then None
    else Some(PacketBytes(id, Body(FrameLabels(frame)) + Encoded(Normal(domain)).value, qtype, udpSize))
  }

  // ----- sizes -----

  lemma {:induction false} FrameLabelsAre(frame: bytes)
    ensures ValidLabels(FrameLabels(frame))
    ensures |Body(FrameLabels(frame))| == |frame| + (|frame| + 62) / 63
    ensures frame != [] ==> FrameLabels(frame) != []
  {
    if |frame| > MAX_LABEL {
      var rest := FrameLabels(frame[MAX_LABEL..]);
      FrameLabelsAre(frame[MAX_LABEL..]);
      BodyOfMore(frame[..MAX_LABEL], rest);
      assert (|frame| + 62) / 63 == 1 + (|frame| - 63 + 62) / 63;
    } else if frame != [] {
      BodyOfMore(frame, []);
      assert [frame] + [] == [frame];
      assert Body([]) == [];
      assert (|frame| + 62) / 63 == 1;
    }
  }

  lemma BodyOfMore(part: bytes, rest: seq<bytes>)
    requires 1 <= |part| <= 63 && ValidLabels(rest)
    ensures ValidLabels([part] + rest) && |Body([part] + rest)| == 1 + |part| + |Body(rest)|
  {
    assert ([part] + rest)[1..] == rest;
  }

  /** The labels of the whole question name. */
  function NameLabels(domain: bytes, frame: bytes): seq<bytes> {
    FrameLabels(frame) + if WireText(domain) == [] then [] else Split(WireText(domain))
  }

  lemma WireOfName(domain: bytes, frame: bytes)
    requires Encoded(Normal(domain)).Some?
    ensures ValidLabels(NameLabels(domain, frame))
    ensures Body(FrameLabels(frame)) + Encoded(Normal(domain)).value == Wire(NameLabels(domain, frame))
    ensures |Encoded(Normal(domain)).value| <= |Normal(domain)| + 2
  {
    hide Body, FrameLabels, Split, Normal, TrimSpace, Join;
    FrameLabelsAre(frame);
    var text := WireText(domain);
    var tail := if text == [] then [] else Split(text);
    BodyConcat(FrameLabels(frame), tail);
    BodyOfNothing();
    TrimIsShorter(Normal(domain));
    if text != [] {
      JoinSplit(text);
      BodyLength(tail);
    }
  }

  lemma TrimIsShorter(s: bytes)
    ensures |TrimDot(TrimSpace(s))| <= |s|
  {
    TrimmedLeft(s);
    TrimmedRight(TrimLeft(s));
  }

  lemma {:induction false} TrimmedLeft(s: bytes)
    ensures |TrimLeft(s)| <= |s|
  {
    if s != [] && IsSpace(s[0]) { TrimmedLeft(s[1..]); }
  }

  lemma {:induction false} TrimmedRight(s: bytes)
    ensures |TrimRight(s)| <= |s|
  {
    if s != [] && IsSpace(s[|s| - 1]) { TrimmedRight(s[..|s| - 1]); }
  }

  /** Every question built keeps the limits of section 2.3.4 of RFC 1035. */
  lemma BuiltKeepsLimits(domain: bytes, frame: bytes, id: uint16, qtype: uint16, udpSize: uint16)
    requires Built(domain, frame, id, qtype, udpSize).Some?
    ensures ValidLabels(NameLabels(domain, frame)) && |Wire(NameLabels(domain, frame))| <= 255
    ensures Built(domain, frame, id, qtype, udpSize).value
         == PacketBytes(id, Wire(NameLabels(domain, frame)), qtype, udpSize)
  {
    hide Normal, Encoded, Wire, Body, FrameLabels, NameLabels, PacketBytes;
    WireOfName(domain, frame);
    FrameLabelsAre(frame);
    EncodedFits(Normal(domain));
    if frame != [] {
      assert (|frame| + 62) / 63 == (|frame| - 1) / 63 + 1;
    } else {
      NoFrame();
    }
  }

  lemma {:induction false} JoinedFrame(frame: bytes)
    requires frame != []
    ensures |Join(FrameLabels(frame))| == |frame| + (|frame| - 1) / 63
  {
    if |frame| > MAX_LABEL {
      var first, rest := frame[..MAX_LABEL], FrameLabels(frame[MAX_LABEL..]);
      JoinedFrame(frame[MAX_LABEL..]);
      FrameLabelsAre(frame[MAX_LABEL..]);
      assert ([first] + rest)[1..] == rest;
      assert (|frame| - 1) / 63 == 1 + (|frame| - 63 - 1) / 63;
    }
  }

  /** A question is built exactly when the domain can be written and the name, the frame's labels with a dot between
      any two and the domain behind them, has at most 253 octets. */
  lemma BuiltIff(domain: bytes, frame: bytes, id: uint16, qtype: uint16, udpSize: uint16)
    ensures Built(domain, frame, id, qtype, udpSize).Some? <==>
      && Normal(domain) != [] && Encoded(Normal(domain)).Some?
      && (frame == [] || |Join(FrameLabels(frame)) + [DOT] + Normal(domain)| <= 253)
  {
    hide Normal, Encoded, FrameLabels, PacketBytes, Body;
    if frame != [] { JoinedFrame(frame); }
  }

  lemma NoFrame()
    ensures Body(FrameLabels([])) == []
  {
  }

  lemma EncodedFits(name: bytes)
    requires Encoded(name).Some?
    ensures |Encoded(name).value| <= 255
  {
    EncodedIsRead(name, [], []);
  }

  // ----- what the server reads -----

  lemma PacketQuestion(id: uint16, labels: seq<bytes>, qtype: uint16, udpSize: uint16)
    requires ValidLabels(labels)
    ensures var data := PacketBytes(id, Wire(labels), qtype, udpSize);
      && QuestionAt(data, HEADER_SIZE) == Some(One(Question(NameText(labels), qtype, CLASS_IN), HEADER_SIZE + |Wire(labels)| + 4))
  {
    hide Labels, SkipEnd, NameText, Wire, HeaderBytes, OptBytes, QuestionHeader;
    var head := HeaderBytes(QuestionHeader(id, udpSize));
    var tail := Bytes16(qtype) + Bytes16(CLASS_IN) + OptBytes(udpSize);
    WireIsRead(head, labels, tail, MAX_JUMPS);
    var data := PacketBytes(id, Wire(labels), qtype, udpSize);
    assert data == head + Wire(labels) + tail;
    WordIsRead(head + Wire(labels), qtype, Bytes16(CLASS_IN) + OptBytes(udpSize));
    assert data == head + Wire(labels) + Bytes16(qtype) + (Bytes16(CLASS_IN) + OptBytes(udpSize));
    WordIsRead(head + Wire(labels) + Bytes16(qtype), CLASS_IN, OptBytes(udpSize));
    assert data == head + Wire(labels) + Bytes16(qtype) + Bytes16(CLASS_IN) + OptBytes(udpSize);
  }

  lemma PacketHeader(id: uint16, qname: bytes, qtype: uint16, udpSize: uint16)
    ensures HeaderOf(PacketBytes(id, qname, qtype, udpSize)) == QuestionHeader(id, udpSize)
    ensures LikelyRequest(QuestionHeader(id, udpSize)) && |PacketBytes(id, qname, qtype, udpSize)| >= HEADER_SIZE
  {
    hide HeaderOf, HeaderBytes;
    var rest := qname + (Bytes16(qtype) + Bytes16(CLASS_IN) + OptBytes(udpSize));
    var head := HeaderBytes(QuestionHeader(id, udpSize));
    HeaderIsRead(QuestionHeader(id, udpSize), rest);
    assert head + rest == PacketBytes(id, qname, qtype, udpSize);
  }

  /** The light parser accepts every question built and reads its name, type and class. */
  lemma PacketIsRead(id: uint16, labels: seq<bytes>, qtype: uint16, udpSize: uint16)
    requires ValidLabels(labels)
    ensures ParseRequest(PacketBytes(id, Wire(labels), qtype, udpSize))
         == Ok(LitePacket(QuestionHeader(id, udpSize), [Question(NameText(labels), qtype, CLASS_IN)],
                          HEADER_SIZE + |Wire(labels)| + 4))
  {
    hide HeaderOf, PacketBytes, Wire, NameText, QuestionAt;
    PacketHeader(id, Wire(labels), qtype, udpSize);
    PacketQuestion(id, labels, qtype, udpSize);
    OneQuestion(PacketBytes(id, Wire(labels), qtype, udpSize));
  }

  lemma OneQuestion(data: bytes)
    requires QuestionAt(data, HEADER_SIZE).Some?
    ensures QuestionsAt(data, HEADER_SIZE, 1)
         == Some(Section([QuestionAt(data, HEADER_SIZE).value.item], QuestionAt(data, HEADER_SIZE).value.end))
  {
    hide QuestionAt;
    var q := QuestionAt(data, HEADER_SIZE).value;
    assert QuestionsAt(data, q.end, 0) == Some(Section([], q.end));
    assert [q.item] + [] == [q.item];
  }

  /** The OPT record asked for is the one the reply builders find. */
  lemma PacketOpt(id: uint16, labels: seq<bytes>, qtype: uint16, udpSize: uint16)
    requires ValidLabels(labels) && udpSize > 0
    ensures OptRange(PacketBytes(id, Wire(labels), qtype, udpSize), QuestionHeader(id, udpSize),
                     HEADER_SIZE + |Wire(labels)| + 4)
         == Range(HEADER_SIZE + |Wire(labels)| + 4, 11)
  {
    hide Wire, HeaderBytes, OptBytes, FirstOpt, SkipRecord;
    var data := PacketBytes(id, Wire(labels), qtype, udpSize);
    var before := HeaderBytes(QuestionHeader(id, udpSize)) + Wire(labels) + Bytes16(qtype) + Bytes16(CLASS_IN);
    assert data == before + OptBytes(udpSize);
    OptOctets(udpSize);
    OptFound(data, |before|);
  }

  /** The header of a question: recursion desired and nothing else, one question, and the OPT record if there is one;
      that record, read by the parser, has the root as its owner, announces the UDP size and carries no data. */
  lemma QuestionOctets(id: uint16, labels: seq<bytes>, qtype: uint16, udpSize: uint16)
    requires ValidLabels(labels)
    ensures var packet, at := PacketBytes(id, Wire(labels), qtype, udpSize), HEADER_SIZE + |Wire(labels)| + 4;
      && Word(packet, 0) == id && Word(packet, 2) == 0x0100 && Word(packet, 4) == 1
      && Word(packet, 6) == 0 && Word(packet, 8) == 0 && Word(packet, 10) == (if udpSize > 0 then 1 else 0)
      && |packet| == (if udpSize > 0 then at + 11 else at)
      && (udpSize > 0 ==> RecordAt(packet, at) == Some(One(Record([DOT], 41, udpSize, 0, []), |packet|)))
  {
    hide Wire, HeaderOf, HeaderBytes, RecordAt, Word, PacketBytes;
    PacketHeader(id, Wire(labels), qtype, udpSize);
    HeaderFields(PacketBytes(id, Wire(labels), qtype, udpSize));
    PacketSize(id, Wire(labels), qtype, udpSize);
    if udpSize > 0 { OptIsRead(id, Wire(labels), qtype, udpSize); }
  }

  lemma PacketSize(id: uint16, qname: bytes, qtype: uint16, udpSize: uint16)
    ensures |PacketBytes(id, qname, qtype, udpSize)| == HEADER_SIZE + |qname| + 4 + if udpSize > 0 then 11 else 0
  {
  }

  lemma OptIsRead(id: uint16, qname: bytes, qtype: uint16, udpSize: uint16)
    requires udpSize > 0
    ensures var packet := PacketBytes(id, qname, qtype, udpSize);
      RecordAt(packet, HEADER_SIZE + |qname| + 4) == Some(One(Record([DOT], 41, udpSize, 0, []), |packet|))
  {
    hide Wire, HeaderBytes, RecordAt, NameText, PacketBytes, OptBytes, RecordTail;
    var before := HeaderBytes(QuestionHeader(id, udpSize)) + qname + Bytes16(qtype) + Bytes16(CLASS_IN);
    RecordIsRead(before, [], OPT, udpSize, 0, 0, [], []);
    OptIsRecord(before, udpSize);
    PacketSize(id, qname, qtype, udpSize);
    PacketEndsInOpt(id, qname, qtype, udpSize);
  }

  lemma PacketEndsInOpt(id: uint16, qname: bytes, qtype: uint16, udpSize: uint16)
    ensures PacketBytes(id, qname, qtype, udpSize)
         == HeaderBytes(QuestionHeader(id, udpSize)) + qname + Bytes16(qtype) + Bytes16(CLASS_IN) + OptBytes(udpSize)
  {
    hide HeaderBytes, OptBytes;
  }

  lemma OptIsRecord(before: bytes, udpSize: uint16)
    requires udpSize > 0
    ensures before + Wire([]) + (RecordTail(OPT, udpSize, 0, 0, []) + []) == before + OptBytes(udpSize)
    ensures NameText([]) == [DOT] && |Wire([])| == 1
  {
    BodyOfNothing();
    assert OptBytes(udpSize) == [0] + RecordTail(OPT, udpSize, 0, 0, []);
    assert before + [0] + (RecordTail(OPT, udpSize, 0, 0, []) + []) == before + ([0] + RecordTail(OPT, udpSize, 0, 0, []));
  }

  lemma OptFound(data: bytes, at: nat)
    requires |data| == at + 11 && data[at] == 0 && data[at + 1] == 0 && data[at + 2] == 41
    requires data[at + 9] == 0 && data[at + 10] == 0
    ensures FirstOpt(data, at, 1) == Range(at, 11)
  {
  }

  lemma OptOctets(udpSize: uint16)
    requires udpSize > 0
    ensures var o := OptBytes(udpSize);
      |o| == 11 && o[0] == 0 && o[1] == 0 && o[2] == 41 && o[3] == udpSize / 256 && o[4] == udpSize % 256
      && o[5] == 0 && o[6] == 0 && o[7] == 0 && o[8] == 0 && o[9] == 0 && o[10] == 0
  {
    assert OptBytes(udpSize) == [0, 0, 41, udpSize / 256, udpSize % 256, 0, 0, 0, 0, 0, 0];
  }

  // ----- round trip -----

  /** What the base-36 codec writes: no dots, no upper case. */
  predicate Plain(frame: bytes) {
    DOT !in frame && Lower(frame) == frame
  }

  function RequestName(domain: bytes, frame: bytes): bytes {
    if frame == [] then WireText(domain) else Join(FrameLabels(frame)) + [DOT] + WireText(domain)
  }

  lemma {:induction false} JoinIsPlain(frame: bytes)
    requires Plain(frame)
    ensures Lower(Join(FrameLabels(frame))) == Join(FrameLabels(frame))
    ensures DomainTrie.StripDots(Join(FrameLabels(frame))) == frame
  {
    if |frame| <= MAX_LABEL {
      NoDotsToStrip(frame);
    } else {
      var first, rest := frame[..MAX_LABEL], frame[MAX_LABEL..];
      assert frame == first + rest;
      LowerConcat(first, rest);
      assert Lower(first) == first && Lower(rest) == rest;
      JoinIsPlain(rest);
      FrameLabelsAre(rest);
      JoinOfMore(first, rest);
    }
  }

  lemma JoinOfMore(first: bytes, rest: bytes)
    requires DOT !in first && Lower(first) == first && rest != [] && FrameLabels(rest) != []
    requires Lower(Join(FrameLabels(rest))) == Join(FrameLabels(rest))
    requires DomainTrie.StripDots(Join(FrameLabels(rest))) == rest
    ensures var s := Join([first] + FrameLabels(rest));
      Lower(s) == s && DomainTrie.StripDots(s) == first + rest
  {
    hide Join, Lower, FrameLabels, DomainTrie.StripDots;
    var labels := FrameLabels(rest);
    JoinPrepend(first, labels);
    LowerAround(first, Join(labels));
    StripConcat(first + [DOT], Join(labels));
    StripConcat(first, [DOT]);
    NoDotsToStrip(first);
    StripDot();
    assert first + [] == first;
  }

  lemma JoinPrepend(first: bytes, labels: seq<bytes>)
    requires labels != []
    ensures Join([first] + labels) == first + [DOT] + Join(labels)
  {
    assert ([first] + labels)[1..] == labels;
  }

  lemma StripDot()
    ensures DomainTrie.StripDots([DOT]) == []
  {
    assert [DOT][..0] == [];
  }

  lemma {:induction false} StripConcat(a: bytes, b: bytes)
    ensures DomainTrie.StripDots(a + b) == DomainTrie.StripDots(a) + DomainTrie.StripDots(b)
  {
    if b == [] {
      assert a + b == a;
    } else {
      assert (a + b)[..|a + b| - 1] == a + b[..|b| - 1];
      StripConcat(a, b[..|b| - 1]);
    }
  }

  lemma {:induction false} NoDotsToStrip(s: bytes)
    requires DOT !in s
    ensures DomainTrie.StripDots(s) == s
  {
    if s != [] {
      assert s == s[..|s| - 1] + [s[|s| - 1]];
      NoDotsToStrip(s[..|s| - 1]);
    }
  }

  /** Domains the wire form keeps whole: no further trimming, and so every label is its own. */
  lemma WireTextIsProper(domain: bytes)
    requires Encoded(Normal(domain)).Some? && WireText(domain) != []
    ensures DomainTrie.Proper(WireText(domain)) && Lower(WireText(domain)) == WireText(domain)
    ensures WireText(domain)[|WireText(domain)| - 1] != DOT
  {
    hide Lower, TrimSpace, Body;
    var text := WireText(domain);
    EncodedText(text);
    TrimmedIsLower(domain);
  }

  lemma EncodedText(text: bytes)
    requires text != [] && ValidLabels(Split(text))
    ensures text[0] != DOT && text[|text| - 1] != DOT
  {
    hide Split;
    if text[0] == DOT { FirstLabel(text); }
    if text[|text| - 1] == DOT { LastLabel(text); }
  }

  lemma FirstLabel(text: bytes)
    requires text != [] && text[0] == DOT
    ensures [] in Split(text)
  {
    FirstDotIs(text, 0);
    assert Split(text)[0] == [];
  }

  lemma {:induction false} LastLabel(text: bytes)
    requires text != [] && text[|text| - 1] == DOT
    ensures [] in Split(text)
  {
    var i := FirstDot(text);
    if i < |text| - 1 {
      LastLabel(text[i + 1..]);
      assert [] in [text[..i]] + Split(text[i + 1..]);
    } else {
      assert text[i + 1..] == [];
      assert Split([]) == [[]];
      assert ([text[..i]] + [[]])[1] == [];
    }
  }

  lemma TrimmedIsLower(domain: bytes)
    ensures Lower(WireText(domain)) == WireText(domain)
  {
    hide Lower, TrimSpace;
    var s := Lower(TrimSpace(domain));
    LowerTwice(TrimSpace(domain));
    DotLower(s);
    SpaceLower(TrimDot(s));
    DotLower(TrimSpace(TrimDot(s)));
  }

  lemma {:induction false} LowerTwice(s: bytes)
    ensures Lower(Lower(s)) == Lower(s)
  {
    if s != [] { LowerTwice(s[1..]); }
  }

  lemma LowerParts(a: bytes, b: bytes)
    requires Lower(a + b) == a + b
    ensures Lower(a) == a && Lower(b) == b
  {
    LowerConcat(a, b);
    assert |Lower(a)| == |a| && (Lower(a) + Lower(b))[..|a|] == Lower(a) && (a + b)[..|a|] == a;
    assert (Lower(a) + Lower(b))[|a|..] == Lower(b) && (a + b)[|a|..] == b;
  }

  lemma DotLower(s: bytes)
    requires Lower(s) == s
    ensures Lower(TrimDot(s)) == TrimDot(s)
  {
    hide Lower;
    if TrimDot(s) != s {
      assert s == TrimDot(s) + [DOT];
      LowerParts(TrimDot(s), [DOT]);
    }
  }

  lemma SpaceLower(s: bytes)
    requires Lower(s) == s
    ensures Lower(TrimSpace(s)) == TrimSpace(s)
  {
    hide Lower;
    LeftLower(s);
    RightLower(TrimLeft(s));
  }

  lemma {:induction false} LeftLower(s: bytes)
    requires Lower(s) == s
    ensures Lower(TrimLeft(s)) == TrimLeft(s)
  {
    hide Lower;
    if s != [] && IsSpace(s[0]) {
      assert s == [s[0]] + s[1..];
      LowerParts([s[0]], s[1..]);
      LeftLower(s[1..]);
    }
  }

  lemma {:induction false} RightLower(s: bytes)
    requires Lower(s) == s
    ensures Lower(TrimRight(s)) == TrimRight(s)
  {
    hide Lower;
    if s != [] && IsSpace(s[|s| - 1]) {
      assert s == s[..|s| - 1] + [s[|s| - 1]];
      LowerParts(s[..|s| - 1], [s[|s| - 1]]);
      RightLower(s[..|s| - 1]);
    }
  }

  /** The name the server's parser returns for a frame below a domain. */
  lemma NameIsRequestName(domain: bytes, frame: bytes)
    requires Encoded(Normal(domain)).Some? && WireText(domain) != [] && Plain(frame)
    ensures NameText(NameLabels(domain, frame)) == RequestName(domain, frame)
  {
    hide Lower, Join, FrameLabels, Split, WireText, Normal, Encoded;
    var text := WireText(domain);
    if frame == [] {
      JoinSplit(text);
      WireTextIsProper(domain);
      NoLabels();
      assert [] + Split(text) == Split(text);
      return;
    }
    FrameLabelsAre(frame);
    JoinIsPlain(frame);
    JoinSplit(text);
    JoinConcat(FrameLabels(frame), Split(text));
    LowerAround(Join(FrameLabels(frame)), text);
    WireTextIsProper(domain);
  }

  lemma NoLabels()
    ensures FrameLabels([]) == []
  {
  }

  /** What the matcher is asked, for the packet a client built. */
  function Asked(packet: bytes): Option<Question> {
    match ParseRequest(packet)
    case Err(_) => None
    case Ok(lite) => if lite.questions == [] then None else Some(lite.questions[0])
  }

  lemma AskedIs(domain: bytes, frame: bytes, id: uint16, qtype: uint16, udpSize: uint16)
    requires Built(domain, frame, id, qtype, udpSize).Some?
    requires Plain(frame) && WireText(domain) != []
    ensures Asked(Built(domain, frame, id, qtype, udpSize).value)
         == Some(Question(RequestName(domain, frame), qtype, CLASS_IN))
  {
    hide Encoded, Normal, WireText, PacketBytes, Wire, NameLabels, NameText, RequestName, ParseRequest, EncodedQNameLen;
    BuiltKeepsLimits(domain, frame, id, qtype, udpSize);
    NameIsRequestName(domain, frame);
    PacketIsRead(id, NameLabels(domain, frame), qtype, udpSize);
  }

  /** A question built without a frame asks for the domain itself: the server finds nothing in front of it. */
  lemma FramelessIsMissing(domains: seq<bytes>, minimum: int, domain: bytes, id: uint16, udpSize: uint16)
    requires DomainTrie.AllProper(domains) && WireText(domain) in domains && WireText(domain) != []
    requires Built(domain, [], id, TXT, udpSize).Some?
    ensures DomainTrie.Decide(DomainTrie.Stored(domains), minimum, Asked(Built(domain, [], id, TXT, udpSize).value))
         == DomainTrie.NoData(DomainTrie.MissingLabels)
  {
    hide Built, Normal, Encoded, WireText, DomainTrie.Decide, DomainTrie.Stored, DomainTrie.AllProper, Asked;
    var text := WireText(domain);
    NothingIsPlain();
    AskedIs(domain, [], id, TXT, udpSize);
    BuiltDomain(domain, id, udpSize);
    WireTextIsProper(domain);
    assert TrimDot(text) == text;
    assert DomainTrie.Longest(domains, text, text);
    assert DomainTrie.InFront(text, text) == 0;
    DomainTrie.RefusedIff(domains, minimum, Question(text, TXT, CLASS_IN));
  }

  lemma NothingIsPlain()
    ensures Plain([])
  {
  }

  lemma BuiltDomain(domain: bytes, id: uint16, udpSize: uint16)
    requires Built(domain, [], id, TXT, udpSize).Some?
    ensures Encoded(Normal(domain)).Some?
  {
    hide Normal, Encoded, PacketBytes;
  }

  lemma RequestNameIsBelow(x: bytes, text: bytes)
    requires text != [] && text[|text| - 1] != DOT
    ensures var name := x + [DOT] + text;
      && TrimDot(name) == name && name != [] && name != [DOT]
      && DomainTrie.Aligned(text, name) && |name| - |text| == |x| + 1
      && DomainTrie.Before(name, |x| + 1) == DomainTrie.StripDots(x)
  {
    var name := x + [DOT] + text;
    assert name[|name| - |text|..] == text;
    assert name[..|x|] == x;
  }

  /** Tunnel round trip: the server recovers exactly the frame and the domain a client built a TXT question from
      if and only if no longer allowed domain also closes the name, and the frame is not shorter than the
      matcher's minimum. */
  lemma RoundTripIff(domains: seq<bytes>, minimum: int, domain: bytes, frame: bytes, id: uint16, qtype: uint16,
                     udpSize: uint16)
    requires Built(domain, frame, id, qtype, udpSize).Some? && frame != [] && Plain(frame)
    requires DomainTrie.AllProper(domains) && WireText(domain) in domains
    ensures DomainTrie.Decide(DomainTrie.Stored(domains), minimum, Asked(Built(domain, frame, id, qtype, udpSize).value))
              == DomainTrie.Process(WireText(domain), frame)
       <==> && qtype == TXT && |frame| >= DomainTrie.MinLabels(minimum)
            && DomainTrie.Longest(domains, RequestName(domain, frame), WireText(domain))
  {
    hide Encoded, Normal, WireText, Asked, FrameLabels, DomainTrie.Decide, DomainTrie.Stored, Built, Plain, Join,
      DomainTrie.StripDots, DomainTrie.Longest, DomainTrie.Aligned, DomainTrie.Before;
    var text := WireText(domain);
    assert DomainTrie.Proper(text);
    AskedIs(domain, frame, id, qtype, udpSize);
    TextEnds(domain, frame, id, qtype, udpSize);
    PlainMeans(frame);
    JoinIsPlain(frame);
    RequestNameIsBelow(Join(FrameLabels(frame)), text);
    DomainTrie.ProcessIff(domains, minimum, Question(RequestName(domain, frame), qtype, CLASS_IN), text, frame);
  }

  lemma PlainMeans(frame: bytes)
    requires Plain(frame)
    ensures DOT !in frame && Lower(frame) == frame
  {
  }

  lemma TextEnds(domain: bytes, frame: bytes, id: uint16, qtype: uint16, udpSize: uint16)
    requires Built(domain, frame, id, qtype, udpSize).Some? && WireText(domain) != []
    ensures WireText(domain)[|WireText(domain)| - 1] != DOT
  {
    hide Encoded, Normal, WireText;
    WireTextIsProper(domain);
  }

  /** It is enough that no allowed domain is a strict subdomain of the one used. */
  lemma RoundTrip(domains: seq<bytes>, minimum: int, domain: bytes, frame: bytes, id: uint16, udpSize: uint16)
    requires Built(domain, frame, id, TXT, udpSize).Some? && frame != [] && Plain(frame)
    requires DomainTrie.AllProper(domains) && WireText(domain) in domains
    requires forall d :: d in domains && d != WireText(domain) ==> !DomainTrie.Aligned(WireText(domain), d)
    requires |frame| >= DomainTrie.MinLabels(minimum)
    ensures DomainTrie.Decide(DomainTrie.Stored(domains), minimum, Asked(Built(domain, frame, id, TXT, udpSize).value))
         == DomainTrie.Process(WireText(domain), frame)
  {
    hide Encoded, Normal, WireText, Asked, FrameLabels, DomainTrie.Decide, DomainTrie.Stored, Built, Plain, Join,
      DomainTrie.Aligned, DomainTrie.Before, DomainTrie.StripDots;
    var text := WireText(domain);
    var name := RequestName(domain, frame);
    assert DomainTrie.Proper(text);
    TextEnds(domain, frame, id, TXT, udpSize);
    RequestNameIsBelow(Join(FrameLabels(frame)), text);
    forall d | d in domains && DomainTrie.Aligned(d, name)
      ensures |d| <= |text|
    {
      NestedAligned(text, d, name);
    }
    RoundTripIff(domains, minimum, domain, frame, id, TXT, udpSize);
  }

  /** Of two domains that close the same name, the shorter closes the longer. */
  lemma NestedAligned(a: bytes, b: bytes, name: bytes)
    requires DomainTrie.Aligned(a, name) && DomainTrie.Aligned(b, name)
    ensures |a| < |b| ==> DomainTrie.Aligned(a, b)
  {
    if |a| < |b| {
      var n := |name|;
      assert name[n - |b|..] == b;
      assert b[|b| - |a|..] == a;
      assert b[|b| - |a| - 1] == name[n - |a| - 1];
    }
  }

  // ----- trimming twice -----

  lemma {:induction false} TrimRightKeepsFirst(s: bytes)
    requires TrimRight(s) != []
    ensures s != [] && TrimRight(s)[0] == s[0]
  {
    if IsSpace(s[|s| - 1]) { TrimRightKeepsFirst(s[..|s| - 1]); }
  }

  lemma {:induction false} TrimLeftStarts(s: bytes)
    ensures TrimLeft(s) != [] ==> !IsSpace(TrimLeft(s)[0])
  {
    if s != [] && IsSpace(s[0]) { TrimLeftStarts(s[1..]); }
  }

  lemma NormalStarts(domain: bytes)
    requires Normal(domain) != []
    ensures !IsSpace(Normal(domain)[0])
  {
    hide TrimLeft, TrimRight;
    TrimLeftStarts(domain);
    TrimRightKeepsFirst(TrimLeft(domain));
  }

  /** The client trims the domain once more on its way to the wire than the server does in its list: both name the
      same domain exactly when the normalised form ends neither in a dot nor in a space. */
  lemma SameDomainIff(domain: bytes)
    requires Normal(domain) != []
    ensures var n := Normal(domain);
      WireText(domain) == n <==> n[|n| - 1] != DOT && !IsSpace(n[|n| - 1])
  {
    hide Normal;
    var n := Normal(domain);
    NormalStarts(domain);
    assert TrimLeft(n) == n;
    if IsSpace(n[|n| - 1]) {
      TrimmedRight(n[..|n| - 1]);
    }
  }

  /** Such a domain: `a..` is `a.` in the server's list and `a` on the wire. */
  lemma TwoDotsDiffer()
    ensures Normal([97, DOT, DOT]) == [97, DOT] && WireText([97, DOT, DOT]) == [97]
  {
    var domain: bytes := [97, DOT, DOT];
    assert domain[1..] == [DOT, DOT] && [DOT, DOT][1..] == [DOT] && [DOT][1..] == [];
    assert Lower([]) == [] && Lower([DOT]) == [DOT] && Lower([DOT, DOT]) == [DOT, DOT] && Lower(domain) == domain;
    assert domain[..2] == [97, DOT] && [97, DOT][..1] == [97];
  }

  // ----- with the codec -----

  lemma {:induction false} BlockIsPlain(v: nat, count: nat)
    ensures Plain(Base36.BlockChars(v, count))
  {
    if count > 0 {
      BlockIsPlain(v / 36, count - 1);
      PlainConcat(Base36.BlockChars(v / 36, count - 1), [Base36.Digit(v % 36)]);
    }
  }

  lemma PlainConcat(a: bytes, b: bytes)
    requires Plain(a) && (Plain(b) || (exists d: nat :: d < 36 && b == [Base36.Digit(d)]))
    ensures Plain(a + b)
  {
    LowerConcat(a, b);
    if |b| == 1 { assert Lower(b) == [LowerByte(b[0])] + Lower([]); }
  }

  /** The encoder's text has no dot and no upper case. */
  lemma {:induction false} EncodedIsPlain(data: bytes)
    ensures Plain(Base36.Encode(data))
  {
    hide Base36.BlockChars, Base36.Value;
    if |data| >= 7 {
      BlockIsPlain(Base36.Value(data[..7]), 11);
      EncodedIsPlain(data[7..]);
      PlainConcat(Base36.BlockChars(Base36.Value(data[..7]), 11), Base36.Encode(data[7..]));
    } else {
      BlockIsPlain(Base36.Value(data), Base36.CharsOf(|data|));
    }
  }

  /** From the bytes of a tunnel frame to the bytes the server decodes. */
  lemma FrameIsDelivered(domains: seq<bytes>, minimum: int, domain: bytes, data: bytes, id: uint16, udpSize: uint16)
    requires data != [] && Built(domain, Base36.Encode(data), id, TXT, udpSize).Some?
    requires DomainTrie.AllProper(domains) && WireText(domain) in domains
    requires forall d :: d in domains && d != WireText(domain) ==> !DomainTrie.Aligned(WireText(domain), d)
    requires |Base36.Encode(data)| >= DomainTrie.MinLabels(minimum)
    ensures var decision := DomainTrie.Decide(DomainTrie.Stored(domains), minimum,
                                              Asked(Built(domain, Base36.Encode(data), id, TXT, udpSize).value));
      decision.Process? && decision.base == WireText(domain) && Base36.Decode(decision.labels) == Some(data)
  {
    hide Built, Asked, WireText, DomainTrie.Decide, DomainTrie.Stored, Base36.Encode, Base36.Decode, DomainTrie.Aligned;
    EncodedIsPlain(data);
    Base36.EncodedLength(data);
    Base36.DecodeEncode(data);
    RoundTrip(domains, minimum, domain, Base36.Encode(data), id, udpSize);
  }

  // ----- the answer's way back -----

  /** Every question a client builds is one the reply can be built on. */
  lemma BuiltIsPlain(id: uint16, labels: seq<bytes>, qtype: uint16, udpSize: uint16)
    requires ValidLabels(labels)
    ensures TxtResponse.PlainRequest(PacketBytes(id, Wire(labels), qtype, udpSize))
  {
    hide HeaderOf, PacketBytes, Wire, NameText, QuestionAt, OptRange, Labels;
    var data := PacketBytes(id, Wire(labels), qtype, udpSize);
    PacketHeader(id, Wire(labels), qtype, udpSize);
    PacketQuestion(id, labels, qtype, udpSize);
    OneQuestion(data);
    PlainName(id, labels, qtype, udpSize);
    if udpSize > 0 {
      PacketOpt(id, labels, qtype, udpSize);
      PlainRoot(id, labels, qtype, udpSize);
    } else {
      NoOpt(data, QuestionHeader(id, udpSize), HEADER_SIZE + |Wire(labels)| + 4);
    }
  }

  lemma NoOpt(data: bytes, h: Header, end: nat)
    requires h.ar == 0
    ensures OptRange(data, h, end) == NOTHING
  {
  }

  lemma PlainName(id: uint16, labels: seq<bytes>, qtype: uint16, udpSize: uint16)
    requires ValidLabels(labels)
    ensures Labels(PacketBytes(id, Wire(labels), qtype, udpSize), HEADER_SIZE, 0) == Some(labels)
  {
    hide Labels, Wire, HeaderBytes, OptBytes, QuestionHeader;
    var tail := Bytes16(qtype) + Bytes16(CLASS_IN) + OptBytes(udpSize);
    WireIsRead(HeaderBytes(QuestionHeader(id, udpSize)), labels, tail, 0);
  }

  lemma PlainRoot(id: uint16, labels: seq<bytes>, qtype: uint16, udpSize: uint16)
    requires ValidLabels(labels) && udpSize > 0
    ensures Labels(PacketBytes(id, Wire(labels), qtype, udpSize), HEADER_SIZE + |Wire(labels)| + 4, 0) == Some([])
  {
    hide Wire, HeaderBytes, OptBytes, QuestionHeader;
    OptOctets(udpSize);
    var data := PacketBytes(id, Wire(labels), qtype, udpSize);
    assert data[HEADER_SIZE + |Wire(labels)| + 4] == OptBytes(udpSize)[0];
  }

  lemma OwnerIsFound(domain: bytes, frame: bytes, id: uint16, qtype: uint16, udpSize: uint16)
    requires Built(domain, frame, id, qtype, udpSize).Some? && frame != [] && Plain(frame) && WireText(domain) != []
    ensures TxtResponse.OwnerBytes(Built(domain, frame, id, qtype, udpSize).value, RequestName(domain, frame)).Some?
  {
    hide HeaderOf, PacketBytes, Wire, NameText, NameLabels, Encoded, Normal, WireText, RequestName, Lower, TrimDot,
      EncodedQNameLen;
    BuiltKeepsLimits(domain, frame, id, qtype, udpSize);
    NameIsRequestName(domain, frame);
    var labels := NameLabels(domain, frame);
    PacketHeader(id, Wire(labels), qtype, udpSize);
    PacketQuestion(id, labels, qtype, udpSize);
    QuestionIsSkipped(PacketBytes(id, Wire(labels), qtype, udpSize), HEADER_SIZE);
    SkipAdvances(PacketBytes(id, Wire(labels), qtype, udpSize), HEADER_SIZE);
  }

  /** A whole exchange: the reply a server builds to a tunnel question, under the name it was asked, gives the client
      the server's frame back. */
  lemma ExchangeCompletes(f: VpnFrame.Format, c: TxtAnswer.Codec, domain: bytes, asked: bytes, id: uint16,
                          udpSize: uint16, answer: bytes, h: VpnFrame.Frame)
    requires TxtAnswer.Lawful(c) && VpnFrame.Parse(f, answer) == Some(h)
    requires TxtAnswer.CutFrame(f, c, answer).Answers?
    requires Built(domain, asked, id, TXT, udpSize).Some? && asked != [] && Plain(asked) && WireText(domain) != []
    ensures var question, texts := Built(domain, asked, id, TXT, udpSize).value, TxtAnswer.CutFrame(f, c, answer).rdata;
      var reply := TxtResponse.Built(question, RequestName(domain, asked), texts);
      reply.Ok? && TxtResponse.Receive(f, c, reply.value) == Some(h)
  {
    hide TxtAnswer.Lawful, TxtAnswer.CutFrame, VpnFrame.Parse, Built, Plain, WireText, RequestName, TxtResponse.Built,
      TxtResponse.Receive, TxtResponse.OwnerBytes, TxtResponse.PlainRequest, NameLabels, Wire, PacketBytes;
    BuiltKeepsLimits(domain, asked, id, TXT, udpSize);
    BuiltIsPlain(id, NameLabels(domain, asked), TXT, udpSize);
    OwnerIsFound(domain, asked, id, TXT, udpSize);
    TxtResponse.FrameIsReceived(f, c, Built(domain, asked, id, TXT, udpSize).value, RequestName(domain, asked), answer, h);
  }

  // ----- the code -----

  /** The label loop of the builder: `frame` is written from `offset` on. */
  method WriteLabels(packet: array<byte>, begin: nat, frame: bytes) returns (offset: nat)
    requires begin + |Body(FrameLabels(frame))| <= packet.Length
    modifies packet
    ensures offset == begin + |Body(FrameLabels(frame))|
    ensures packet[..offset] == old(packet[..begin]) + Body(FrameLabels(frame))
    ensures forall k :: offset <= k < packet.Length ==> packet[k] == old(packet[k])
  {
    hide Body, FrameLabels;
    ghost var all := old(packet[..begin]) + Body(FrameLabels(frame));
    offset := begin;
    var start := 0;
    while start < |frame|
      invariant start <= |frame| && offset <= |all| <= packet.Length
      invariant packet[..offset] + Body(FrameLabels(frame[start..])) == all
      invariant forall k :: offset <= k < packet.Length ==> packet[k] == old(packet[k])
    {
      var end := start + MAX_LABEL;
      if end > |frame| {
        end := |frame|;
      }
      NextFrameLabel(frame, start, end);
      ghost var done, rest := packet[..offset], Body(FrameLabels(frame[end..]));
      assert done + (Lead(frame[start..end]) + rest) == done + Lead(frame[start..end]) + rest;
      packet[offset] := end - start;
      assert packet[..offset + 1] == done + [(end - start) % 256];
      offset := Append(packet, offset + 1, frame[start..end]);
      assert packet[..offset] == done + Lead(frame[start..end]);
      start := end;
    }
    assert frame[|frame|..] == [];
    NoFrame();
    assert packet[..offset] + [] == packet[..offset];
  }

  lemma NextFrameLabel(frame: bytes, start: nat, end: nat)
    requires start < |frame| && end == if start + 63 > |frame| then |frame| else start + 63
    ensures Body(FrameLabels(frame[start..])) == Lead(frame[start..end]) + Body(FrameLabels(frame[end..]))
    ensures |Lead(frame[start..end])| == end - start + 1
  {
    hide Lead, Body, FrameLabels;
    var text := frame[start..];
    FrameStep(text);
    assert text[..end - start] == frame[start..end] && text[end - start..] == frame[end..];
    LeadLength(frame[start..end]);
  }

  lemma LeadLength(part: bytes)
    ensures |Lead(part)| == 1 + |part|
  {
  }

  lemma FrameStep(text: bytes)
    requires text != []
    ensures var n := if |text| < 63 then |text| else 63;
      Body(FrameLabels(text)) == Lead(text[..n]) + Body(FrameLabels(text[n..]))
  {
    hide Lead;
    if |text| <= MAX_LABEL {
      assert text[..|text|] == text && text[|text|..] == [];
      assert [text][1..] == [];
      assert Body([]) == [] && FrameLabels([]) == [];
    } else {
      var rest := FrameLabels(text[MAX_LABEL..]);
      assert ([text[..MAX_LABEL]] + rest)[1..] == rest;
    }
  }

  /** The OPT record, over zeros. */
  method WriteOpt(packet: array<byte>, begin: nat, udpSize: uint16)
    requires udpSize > 0 && packet.Length == begin + 11
    requires forall k :: begin <= k < packet.Length ==> packet[k] == 0
    modifies packet
    ensures packet[..] == old(packet[..begin]) + OptBytes(udpSize)
  {
    PutWord(packet, begin + 1, OPT);
    PutWord(packet, begin + 3, udpSize);
    PutWord(packet, begin + 9, 0);
    assert packet[..begin] == old(packet[..begin]);
    OptOctets(udpSize);
    hide OptBytes;
    ghost var o := OptBytes(udpSize);
    assert packet[begin..] == o by {
      assert packet[begin] == o[0] && packet[begin + 1] == o[1] && packet[begin + 2] == o[2];
      assert packet[begin + 3] == o[3] && packet[begin + 4] == o[4] && packet[begin + 5] == o[5];
      assert packet[begin + 6] == o[6] && packet[begin + 7] == o[7] && packet[begin + 8] == o[8];
      assert packet[begin + 9] == o[9] && packet[begin + 10] == o[10];
    }
    assert packet[..] == packet[..begin] + packet[begin..];
  }

  /** The closing octets: type, class and the OPT record. */
  method WriteTail(packet: array<byte>, begin: nat, qtype: uint16, udpSize: uint16)
    requires begin + 4 + |OptBytes(udpSize)| == packet.Length
    requires forall k :: begin <= k < packet.Length ==> packet[k] == 0
    modifies packet
    ensures packet[..] == old(packet[..begin]) + (Bytes16(qtype) + Bytes16(CLASS_IN) + OptBytes(udpSize))
  {
    hide Bytes16, OptBytes;
    OptLength(udpSize);
    ghost var done := packet[..begin];
    var offset := AppendWord(packet, begin, qtype);
    offset := AppendWord(packet, offset, CLASS_IN);
    if udpSize > 0 {
      WriteOpt(packet, offset, udpSize);
    } else {
      assert packet[..] == packet[..offset] + OptBytes(udpSize);
    }
    FourParts(done, Bytes16(qtype), Bytes16(CLASS_IN), OptBytes(udpSize));
  }

  method BuildTunnelQuestion(domain: bytes, frame: bytes, id: uint16, qtype: uint16, udpSize: uint16)
    returns (r: Option<bytes>)
    ensures r == Built(domain, frame, id, qtype, udpSize)
  {
    hide Encoded, Normal, HeaderBytes, Body, FrameLabels, OptBytes, Bytes16;
    var normalized := Normal(domain);
    if normalized == [] {
      return None;
    }
    var qname := EncodeStrict(normalized);
    if qname.None? {
      return None;
    }
    if |frame| > 0 && EncodedQNameLen(|frame|, |normalized|) > MAX_NAME_LEN {
      return None;
    }
    var optLen := if udpSize > 0 then 11 else 0;
    OptLength(udpSize);
    FrameLabelsAre(frame);
    var labelCount := (|frame| + MAX_LABEL - 1) / MAX_LABEL;
    var qnameLen := |frame| + labelCount + |qname.value|;
    var packet := new byte[HEADER_SIZE + qnameLen + 4 + optLen](_ => 0);
    PutHeader(packet, QuestionHeader(id, udpSize));
    var offset := WriteLabels(packet, HEADER_SIZE, frame);
    offset := Append(packet, offset, qname.value);
    WriteTail(packet, offset, qtype, udpSize);
    r := Some(packet[..]);
    Regroup(HeaderBytes(QuestionHeader(id, udpSize)), Body(FrameLabels(frame)), qname.value);
  }

  lemma OptLength(udpSize: uint16)
    ensures |OptBytes(udpSize)| == if udpSize > 0 then 11 else 0
  {
  }
}
