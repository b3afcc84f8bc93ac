/** A frame cut into TXT answers, and the frame put together again from whatever answers arrive. */
module TxtAnswer {
  import opened Words
  import DnsName
  import VpnFrame

  /** The text form of an answer. The base64 functions are parameters; `Lawful` says what is asked of them. */
  datatype Codec = Raw | Base64(encode: bytes -> bytes, decode: bytes -> Option<bytes>)

  ghost predicate Lawful(c: Codec) {
    c.Base64? ==> forall b: bytes :: |c.encode(b)| == (4 * |b| + 2) / 3 && c.decode(c.encode(b)) == Some(b)
  }

  function MaxChunk(c: Codec): nat {
    if c.Raw? then 255 else 191
  }

  // ----- character strings -----

  /** appendLengthPrefixedTXT: character strings of at most 255 octets (section 3.3.14 of RFC 1035). */
  function Strings(data: bytes): bytes {
    if |data| <= 255 then [|data| as byte] + data else [255] + data[..255] + Strings(data[255..])
  }

  /** extractTXTBytes without the shortcut: every string's octets, a short last string as far as it goes. */
  function Joined(rdata: bytes): bytes {
    if rdata == [] then []
    else if rdata[0] == 0 then Joined(rdata[1..])
    else if 1 + rdata[0] > |rdata| then rdata[1..]
    else rdata[1..1 + rdata[0]] + Joined(rdata[1 + rdata[0]..])
  }

  /** extractTXTBytes */
  function Extract(rdata: bytes): bytes {
    if rdata == [] then [] else if rdata[0] == |rdata| - 1 then rdata[1..] else Joined(rdata)
  }

  lemma {:induction false} JoinedStrings(data: bytes)
    ensures Joined(Strings(data)) == data
  {
    var s := Strings(data);
    if |data| <= 255 {
      if data != [] {
        assert s[1..1 + s[0]] == data && s[1 + s[0]..] == [];
        assert Joined([]) == [];
        assert data + [] == data;
      } else {
        assert s == [0] && s[1..] == [];
      }
    } else {
      JoinedStrings(data[255..]);
      assert s[1..256] == data[..255] && s[256..] == Strings(data[255..]);
      assert data == data[..255] + data[255..];
    }
  }

  /** Whatever is written as character strings is extracted again; the shortcut changes nothing. */
  lemma ExtractStrings(data: bytes)
    ensures Extract(Strings(data)) == data
  {
    JoinedStrings(data);
    if |data| <= 255 {
      assert Strings(data)[1..] == data;
    }
  }

  /** buildTXTAnswerChunk: one answer's record data. */
  function TxtString(c: Codec, data: bytes): bytes {
    match c
    case Raw => Strings(data)
    case Base64(encode, _) => [(|encode(data)| % 256) as byte] + encode(data)
  }

  /** What an answer's record data carries. */
  function Payload(c: Codec, data: bytes): bytes {
    if c.Raw? then data else c.encode(data)
  }

  lemma ExtractTxt(c: Codec, data: bytes)
    requires Lawful(c) && |data| <= MaxChunk(c)
    ensures Extract(TxtString(c, data)) == Payload(c, data)
    ensures |TxtString(c, data)| == 1 + |Payload(c, data)| <= 256
    ensures data != [] ==> Payload(c, data) != []
  {
    if c.Raw? {
      ExtractStrings(data);
    } else {
      assert TxtString(c, data)[1..] == c.encode(data);
    }
  }

  // ----- cutting -----

  /** The payload pieces behind the first chunk. */
  function Pieces(payload: bytes, size: nat): seq<bytes>
    requires size > 0
  {
    if payload == [] then []
    else if |payload| <= size then [payload]
    else [payload[..size]] + Pieces(payload[size..], size)
  }

  function Numbered(pieces: seq<bytes>, from: nat): seq<bytes> {
    if pieces == [] then [] else [[(from % 256) as byte] + pieces[0]] + Numbered(pieces[1..], from + 1)
  }

  /** The room for payload in the first of several chunks. */
  function FirstRoom(c: Codec, headerLen: nat): nat {
    if MaxChunk(c) < 2 + headerLen then 0 else MaxChunk(c) - 2 - headerLen
  }

  function Total(c: Codec, headerLen: nat, payloadLen: nat): nat {
    if payloadLen <= FirstRoom(c, headerLen) then 1
    else 1 + (payloadLen - FirstRoom(c, headerLen) + MaxChunk(c) - 2) / (MaxChunk(c) - 1)
  }

  /** The chunks of a frame that parses and is too long for one answer, before the text form. */
  function Chunks(c: Codec, header: bytes, payload: bytes): seq<bytes> {
    var room := Min(FirstRoom(c, |header|), |payload|);
    [[0, (Total(c, |header|, |payload|) % 256) as byte] + header + payload[..room]]
    + Numbered(Pieces(payload[room..], MaxChunk(c) - 1), 1)
  }

  datatype Cut = Answers(rdata: seq<bytes>) | TooLarge

  function Texts(c: Codec, chunks: seq<bytes>): seq<bytes> {
    seq(|chunks|, i requires 0 <= i < |chunks| => TxtString(c, chunks[i]))
  }

  /** buildTXTAnswerChunks */
  function CutFrame(f: VpnFrame.Format, c: Codec, frame: bytes): Cut {
    if frame == [] then Answers([Strings([])])
    else if |frame| <= MaxChunk(c) then Answers([TxtString(c, frame)])
    else match VpnFrame.Parse(f, frame)
      case None => Answers([TxtString(c, frame)])
      case Some(h) =>
        if Total(c, h.headerLen, |h.payload|) > 255 || h.headerLen > |frame| then TooLarge
        else Answers(Texts(c, Chunks(c, frame[..h.headerLen], h.payload)))
  }

  /** What is not cut: an empty frame is one empty string; a frame that fits one answer goes out whole in one, from which
      it is extracted again, and so does what is no frame at all, as far as the length octet of base64 reaches. */
  lemma UncutIsOneAnswer(f: VpnFrame.Format, c: Codec, frame: bytes)
    requires Lawful(c) && (|frame| <= MaxChunk(c) || VpnFrame.Parse(f, frame).None?)
    ensures frame == [] ==> CutFrame(f, c, frame) == Answers([[0]])
    ensures CutFrame(f, c, frame).Answers? && |CutFrame(f, c, frame).rdata| == 1
    ensures var rdata := CutFrame(f, c, frame).rdata[0];
      && (frame != [] && |frame| <= MaxChunk(c) ==> Extract(rdata) == if c.Raw? then frame else c.encode(frame))
      && (|frame| > MaxChunk(c) && c.Raw? ==> Extract(rdata) == frame)
      && (|frame| > MaxChunk(c) && c.Base64? ==> rdata[1..] == c.encode(frame))
  {
    hide Extract, VpnFrame.Parse, Strings;
    OneEmptyString();
    ExtractStrings(frame);
    if |frame| <= MaxChunk(c) { ExtractTxt(c, frame); }
  }

  lemma OneEmptyString()
    ensures Strings([]) == [0]
  {
  }

  lemma {:induction false} PiecesAre(payload: bytes, size: nat)
    requires size == 190 || size == 254
    ensures Flatten(Pieces(payload, size)) == payload
    ensures |Pieces(payload, size)| == (|payload| + size - 1) / size
    ensures forall p :: p in Pieces(payload, size) ==> 1 <= |p| <= size
  {
    if payload == [] {
      assert size - 1 < size;
    } else if |payload| <= size {
      assert [payload][1..] == [];
      assert Flatten([]) == [] && payload + [] == payload;
    } else {
      var first, rest := payload[..size], Pieces(payload[size..], size);
      PiecesAre(payload[size..], size);
      assert ([first] + rest)[1..] == rest;
      assert payload == first + payload[size..];
    }
  }

  lemma {:induction false} NumberedAre(pieces: seq<bytes>, from: nat)
    ensures |Numbered(pieces, from)| == |pieces|
    ensures forall i :: 0 <= i < |pieces| ==> Numbered(pieces, from)[i] == [((from + i) % 256) as byte] + pieces[i]
  {
    if pieces != [] {
      var rest := Numbered(pieces[1..], from + 1);
      NumberedAre(pieces[1..], from + 1);
      forall i | 0 < i < |pieces|
        ensures Numbered(pieces, from)[i] == [((from + i) % 256) as byte] + pieces[i]
      {
        assert Numbered(pieces, from)[i] == rest[i - 1] && pieces[1..][i - 1] == pieces[i];
      }
    }
  }

  // ----- putting together -----

  /** The variables of assembleVPNResponse. */
  datatype Assembly =
    Assembly(chunks: seq<Option<bytes>>, totalExpected: nat, seen: nat, header: Option<VpnFrame.Frame>)

  function Start(): Assembly {
    Assembly(seq(256, _ => None), 0, 0, None)
  }

  function Decoded(c: Codec, raw: bytes): Option<bytes> {
    match c
    case Raw => Some(raw)
    case Base64(_, decode) => decode(raw)
  }

  function Put(a: Assembly, i: nat, data: bytes): Assembly
    requires i < |a.chunks|
  {
    a.(chunks := a.chunks[i := Some(data)], seen := a.seen + if a.chunks[i].None? then 1 else 0)
  }

  /** One round of the loop; None for every error return. */
  function Take(f: VpnFrame.Format, c: Codec, a: Assembly, raw: bytes): Option<Assembly>
    requires |a.chunks| == 256
  {
    match Decoded(c, raw)
    case None => None
    case Some(data) =>
      if data == [] then Some(a)
      else if data[0] == 0 then
        if |data| < 3 || data[1] == 0 then None
        else match VpnFrame.Parse(f, data[2..])
          case None => None
          case Some(h) => Some(Put(a.(totalExpected := data[1], header := Some(h)), 0, h.payload))
      else Some(Put(a, data[0], data[1..]))
  }

  function TakeAll(f: VpnFrame.Format, c: Codec, a: Assembly, raws: seq<bytes>): (r: Option<Assembly>)
    requires |a.chunks| == 256
    ensures r.Some? ==> |r.value.chunks| == 256
  {
    if raws == [] then Some(a)
    else match TakeAll(f, c, a, raws[..|raws| - 1])
      case None => None
      case Some(b) => Take(f, c, b, raws[|raws| - 1])
  }

  function Contents(chunks: seq<Option<bytes>>, n: nat): bytes
    requires n <= |chunks|
  {
    if n == 0 then []
    else Contents(chunks, n - 1) + if chunks[n - 1].Some? then chunks[n - 1].value else []
  }

  predicate Complete(a: Assembly) {
    && a.header.Some? && 0 < a.totalExpected <= |a.chunks| && a.seen == a.totalExpected
    && (forall i :: 0 <= i < a.totalExpected ==> a.chunks[i].Some?)
    && (forall i :: a.totalExpected <= i < |a.chunks| ==> a.chunks[i].None?)
  }

  function Finish(a: Assembly): Option<VpnFrame.Frame> {
    if Complete(a) then Some(a.header.value.(payload := Contents(a.chunks, a.totalExpected))) else None
  }

  /** assembleVPNResponse, up to the inflation of the payload. */
  function Assemble(f: VpnFrame.Format, c: Codec, raws: seq<bytes>): Option<VpnFrame.Frame> {
    if |raws| == 1 then
      match Decoded(c, raws[0])
      case None => None
      case Some(data) => VpnFrame.Parse(f, data)
    else match TakeAll(f, c, Start(), raws)
      case None => None
      case Some(a) => Finish(a)
  }

  // ----- round trip -----

  function CountSome(chunks: seq<Option<bytes>>): nat {
    if chunks == [] then 0
    else CountSome(chunks[..|chunks| - 1]) + if chunks[|chunks| - 1].Some? then 1 else 0
  }

  lemma {:induction false} CountUpdate(chunks: seq<Option<bytes>>, i: nat, data: bytes)
    requires i < |chunks|
    ensures CountSome(chunks[i := Some(data)]) == CountSome(chunks) + if chunks[i].None? then 1 else 0
  {
    var n := |chunks| - 1;
    var updated := chunks[i := Some(data)];
    if i == n {
      assert updated[..n] == chunks[..n];
    } else {
      assert updated[..n] == chunks[..n][i := Some(data)];
      CountUpdate(chunks[..n], i, data);
    }
  }

  lemma {:induction false} CountPrefix(chunks: seq<Option<bytes>>, n: nat)
    requires n <= |chunks|
    requires forall i :: 0 <= i < |chunks| ==> (chunks[i].Some? <==> i < n)
    ensures CountSome(chunks) == n
  {
    if chunks != [] {
      var m := |chunks| - 1;
      CountPrefix(chunks[..m], Min(n, m));
    }
  }

  lemma {:induction false} CountNone(k: nat)
    ensures CountSome(seq(k, _ => None)) == 0
  {
    CountPrefix(seq(k, _ => None), 0);
  }

  lemma ChunkCount(c: Codec, headerLen: nat, n: nat)
    ensures Total(c, headerLen, n) ==
      1 + (n - Min(FirstRoom(c, headerLen), n) + MaxChunk(c) - 2) / (MaxChunk(c) - 1)
  {
  }

  /** As few chunks as possible: the total carries the header, the payload and every chunk's number, and one chunk
      fewer would not. */
  lemma TotalIsLeast(c: Codec, headerLen: nat, n: nat)
    requires headerLen <= 11
    ensures var total, size := Total(c, headerLen, n), MaxChunk(c);
      && 1 + headerLen + n + total <= total * size
      && (total > 1 ==> headerLen + n + total > (total - 1) * size)
  {
    var size, room := MaxChunk(c), FirstRoom(c, headerLen);
    if n > room {
      var m, k := n - room + size - 2, size - 1;
      var q := m / k;
      assert q * k <= m < q * k + k;
      assert q * k == q * size - q;
    }
  }

  /** The payload part of each chunk. */
  function Parts(c: Codec, headerLen: nat, payload: bytes): seq<bytes> {
    var room := Min(FirstRoom(c, headerLen), |payload|);
    [payload[..room]] + Pieces(payload[room..], MaxChunk(c) - 1)
  }

  lemma PartsAre(c: Codec, headerLen: nat, payload: bytes)
    ensures var parts := Parts(c, headerLen, payload);
      && |parts| == Total(c, headerLen, |payload|) && Flatten(parts) == payload
      && (forall i :: 0 < i < |parts| ==> |parts[i]| <= MaxChunk(c) - 1)
      && |parts[0]| <= FirstRoom(c, headerLen)
  {
    hide Pieces, Total;
    var room := Min(FirstRoom(c, headerLen), |payload|);
    var pieces := Pieces(payload[room..], MaxChunk(c) - 1);
    PiecesAre(payload[room..], MaxChunk(c) - 1);
    ChunkCount(c, headerLen, |payload|);
    assert ([payload[..room]] + pieces)[1..] == pieces;
    assert payload == payload[..room] + payload[room..];
    assert forall i :: 0 <= i < |pieces| ==> pieces[i] in pieces;
  }

  /** Every chunk is its number and its part, the first also the total and the header; each fits one answer. */
  lemma ChunksAre(c: Codec, header: bytes, payload: bytes)
    requires |header| <= 11
    ensures var chunks, parts := Chunks(c, header, payload), Parts(c, |header|, payload);
      && |chunks| == |parts| == Total(c, |header|, |payload|) && Flatten(parts) == payload
      && chunks[0] == [0, (|parts| % 256) as byte] + header + parts[0]
      && (forall i :: 0 < i < |parts| ==> chunks[i] == [(i % 256) as byte] + parts[i])
      && (forall i :: 0 <= i < |parts| ==> 0 < |chunks[i]| <= MaxChunk(c))
  {
    hide Pieces, Numbered, Total;
    var room := Min(FirstRoom(c, |header|), |payload|);
    var pieces := Pieces(payload[room..], MaxChunk(c) - 1);
    PartsAre(c, |header|, payload);
    NumberedAre(pieces, 1);
    forall i | 0 < i <= |pieces|
      ensures Chunks(c, header, payload)[i] == [(i % 256) as byte] + pieces[i - 1]
    {
      assert Numbered(pieces, 1)[i - 1] == [((1 + (i - 1)) % 256) as byte] + pieces[i - 1];
    }
  }

  /** What the receiver's variables are once the chunks named in `order` came in. */
  ghost predicate Holds(a: Assembly, parts: seq<bytes>, order: seq<nat>, h: VpnFrame.Frame) {
    && |a.chunks| == 256 && 0 < |parts| <= 255
    && (forall i :: 0 <= i < 256 ==> a.chunks[i] == if i in order && i < |parts| then Some(parts[i]) else None)
    && a.seen == CountSome(a.chunks)
    && a.totalExpected == (if 0 in order then |parts| else 0)
    && a.header == if 0 in order then Some(h.(payload := parts[0])) else None
  }

  lemma HoldsAtStart(parts: seq<bytes>, h: VpnFrame.Frame)
    requires 0 < |parts| <= 255
    ensures Holds(Start(), parts, [], h)
  {
    CountNone(256);
  }

  lemma PutHolds(a: Assembly, parts: seq<bytes>, order: seq<nat>, h: VpnFrame.Frame, i: nat)
    requires Holds(a, parts, order, h) && i < |parts|
    ensures var b := Put(a, i, parts[i]);
      Holds(if i == 0 then b.(totalExpected := |parts|, header := Some(h.(payload := parts[0]))) else b,
            parts, order + [i], h)
  {
    hide CountSome;
    CountUpdate(a.chunks, i, parts[i]);
  }

  /** A chunk, in the text form it arrives in. */
  lemma TakeHolds(f: VpnFrame.Format, c: Codec, frame: bytes, h: VpnFrame.Frame, a: Assembly, order: seq<nat>, i: nat)
    requires Lawful(c) && VpnFrame.Parse(f, frame) == Some(h)
    requires h.headerLen <= 11 && h.headerLen <= |frame| && Total(c, h.headerLen, |h.payload|) <= 255
    requires var parts := Parts(c, h.headerLen, h.payload); Holds(a, parts, order, h) && i < |parts|
    ensures var chunks, parts := Chunks(c, frame[..h.headerLen], h.payload), Parts(c, h.headerLen, h.payload);
      && i < |chunks|
      && var next := Take(f, c, a, Payload(c, chunks[i]));
         next.Some? && Holds(next.value, parts, order + [i], h)
  {
    hide Holds, Chunks, Parts, Total, VpnFrame.Parse;
    var header := frame[..h.headerLen];
    var chunks, parts := Chunks(c, header, h.payload), Parts(c, h.headerLen, h.payload);
    ChunksAre(c, header, h.payload);
    PutHolds(a, parts, order, h, i);
    assert Decoded(c, Payload(c, chunks[i])) == Some(chunks[i]);
    if i == 0 {
      FirstChunk(f, frame, h, |parts|, parts[0]);
    } else {
      assert chunks[i][1..] == parts[i] && chunks[i][0] == i;
    }
  }

  lemma FirstChunk(f: VpnFrame.Format, frame: bytes, h: VpnFrame.Frame, total: nat, part: bytes)
    requires VpnFrame.Parse(f, frame) == Some(h) && 0 < total <= 255 && h.headerLen <= |frame|
    ensures var data := [0, (total % 256) as byte] + frame[..h.headerLen] + part;
      && |data| >= 3 && data[0] == 0 && data[1] == total
      && VpnFrame.Parse(f, data[2..]) == Some(h.(payload := part))
  {
    VpnFrame.PayloadIsTheRest(f, frame, part);
    var data := [0, (total % 256) as byte] + frame[..h.headerLen] + part;
    assert data[2..] == frame[..h.headerLen] + part;
  }

  /** The answers as received: the ones named in `order`, in that order. */
  function Received(c: Codec, chunks: seq<bytes>, order: seq<nat>): seq<bytes>
    requires forall i :: i in order ==> i < |chunks|
  {
    seq(|order|, k requires 0 <= k < |order| => assert order[k] in order; Payload(c, chunks[order[k]]))
  }

  lemma {:induction false} TakeAllHolds(f: VpnFrame.Format, c: Codec, frame: bytes, h: VpnFrame.Frame, order: seq<nat>)
    requires Lawful(c) && VpnFrame.Parse(f, frame) == Some(h)
    requires h.headerLen <= 11 && h.headerLen <= |frame| && Total(c, h.headerLen, |h.payload|) <= 255
    requires forall i :: i in order ==> i < |Chunks(c, frame[..h.headerLen], h.payload)|
    ensures var r := TakeAll(f, c, Start(), Received(c, Chunks(c, frame[..h.headerLen], h.payload), order));
      r.Some? && Holds(r.value, Parts(c, h.headerLen, h.payload), order, h)
  {
    hide Holds, Chunks, Parts, Total, Take, Payload, Start, VpnFrame.Parse;
    var chunks := Chunks(c, frame[..h.headerLen], h.payload);
    var raws := Received(c, chunks, order);
    ChunksAre(c, frame[..h.headerLen], h.payload);
    if order == [] {
      HoldsAtStart(Parts(c, h.headerLen, h.payload), h);
      StartSize();
    } else {
      var n := |order| - 1;
      var init, i := order[..n], order[n];
      assert forall j :: j in init ==> j in order;
      assert i in order;
      TakeAllHolds(f, c, frame, h, init);
      assert raws[..n] == Received(c, chunks, init);
      assert raws[n] == Payload(c, chunks[i]);
      StartSize();
      var a := TakeAll(f, c, Start(), Received(c, chunks, init)).value;
      TakeHolds(f, c, frame, h, a, init, i);
      assert init + [i] == order;
    }
  }

  lemma StartSize()
    ensures |Start().chunks| == 256
  {
  }

  lemma {:induction false} ContentsAre(chunks: seq<Option<bytes>>, parts: seq<bytes>, n: nat)
    requires n <= |parts| <= |chunks|
    requires forall i :: 0 <= i < |parts| ==> chunks[i] == Some(parts[i])
    ensures Contents(chunks, n) == Flatten(parts[..n])
  {
    if n > 0 {
      ContentsAre(chunks, parts, n - 1);
      FlattenConcat(parts[..n - 1], [parts[n - 1]]);
      assert parts[..n] == parts[..n - 1] + [parts[n - 1]];
    }
  }

  lemma FinishHolds(a: Assembly, parts: seq<bytes>, order: seq<nat>, h: VpnFrame.Frame)
    requires Holds(a, parts, order, h) && Flatten(parts) == h.payload
    requires forall i :: 0 <= i < |parts| ==> i in order
    ensures Finish(a) == Some(h)
  {
    assert 0 in order;
    CountPrefix(a.chunks, |parts|);
    ContentsAre(a.chunks, parts, |parts|);
    assert parts[..|parts|] == parts;
  }

  /** A frame of several chunks is put together again whatever order its answers come in and however often each is
      repeated, as long as none is missing. */
  lemma AssembleCut(f: VpnFrame.Format, c: Codec, frame: bytes, h: VpnFrame.Frame, order: seq<nat>)
    requires Lawful(c) && VpnFrame.Parse(f, frame) == Some(h) && |frame| > MaxChunk(c)
    requires CutFrame(f, c, frame).Answers?
    requires h.headerLen <= |frame|
    requires var n := |Chunks(c, frame[..h.headerLen], h.payload)|;
      (forall i :: i in order ==> i < n) && (forall i: nat :: i < n ==> i in order)
    ensures CutFrame(f, c, frame).rdata == Texts(c, Chunks(c, frame[..h.headerLen], h.payload))
    ensures Assemble(f, c, Received(c, Chunks(c, frame[..h.headerLen], h.payload), order)) == Some(h)
  {
    hide Holds, Chunks, Parts, Take, TakeAll, Payload, Start, VpnFrame.Parse, Finish, Texts;
    var header := frame[..h.headerLen];
    VpnFrame.PayloadIsTheRest(f, frame, []);
    ChunksAre(c, header, h.payload);
    TakeAllHolds(f, c, frame, h, order);
    var parts := Parts(c, h.headerLen, h.payload);
    assert 0 in order && 1 in order;
    StartSize();
    FinishHolds(TakeAll(f, c, Start(), Received(c, Chunks(c, header, h.payload), order)).value, parts, order, h);
  }

  /** With a chunk missing nothing is assembled, whatever else arrived. Answers that came alone are another matter:
      they are parsed as they are. */
  lemma AssembledIffAll(f: VpnFrame.Format, c: Codec, frame: bytes, h: VpnFrame.Frame, order: seq<nat>)
    requires Lawful(c) && VpnFrame.Parse(f, frame) == Some(h) && |frame| > MaxChunk(c)
    requires CutFrame(f, c, frame).Answers? && h.headerLen <= |frame| && |order| != 1
    requires forall i :: i in order ==> i < |Chunks(c, frame[..h.headerLen], h.payload)|
    ensures var chunks := Chunks(c, frame[..h.headerLen], h.payload);
      Assemble(f, c, Received(c, chunks, order))
        == if forall i: nat :: i < |chunks| ==> i in order then Some(h) else None
  {
    hide Holds, Chunks, Parts, Take, TakeAll, Payload, Start, VpnFrame.Parse, Finish, Texts;
    var chunks := Chunks(c, frame[..h.headerLen], h.payload);
    VpnFrame.PayloadIsTheRest(f, frame, []);
    ChunksAre(c, frame[..h.headerLen], h.payload);
    if j: nat :| j < |chunks| && j !in order {
      TakeAllHolds(f, c, frame, h, order);
      StartSize();
      OneMissing(TakeAll(f, c, Start(), Received(c, chunks, order)).value, Parts(c, h.headerLen, h.payload), order, h, j);
    } else {
      AssembleCut(f, c, frame, h, order);
    }
  }

  lemma OneMissing(a: Assembly, parts: seq<bytes>, order: seq<nat>, h: VpnFrame.Frame, j: nat)
    requires Holds(a, parts, order, h) && j < |parts| && j !in order
    ensures Finish(a).None?
  {
  }

  /** What each answer's record data is read back as. */
  lemma CutIsExtracted(f: VpnFrame.Format, c: Codec, frame: bytes, h: VpnFrame.Frame, i: nat)
    requires Lawful(c) && VpnFrame.Parse(f, frame) == Some(h) && h.headerLen <= 11 && h.headerLen <= |frame|
    requires var chunks := Chunks(c, frame[..h.headerLen], h.payload); i < |chunks|
    ensures var chunks := Chunks(c, frame[..h.headerLen], h.payload);
      && Extract(TxtString(c, chunks[i])) == Payload(c, chunks[i]) && Payload(c, chunks[i]) != []
      && |TxtString(c, chunks[i])| <= 256
  {
    hide Chunks, Parts, Extract, TxtString, VpnFrame.Parse;
    ChunksAre(c, frame[..h.headerLen], h.payload);
    ExtractTxt(c, Chunks(c, frame[..h.headerLen], h.payload)[i]);
  }

  /** A frame that fits one answer travels in one and is parsed as it was. */
  lemma AssembleSingle(f: VpnFrame.Format, c: Codec, frame: bytes)
    requires Lawful(c) && 0 < |frame| <= MaxChunk(c)
    ensures CutFrame(f, c, frame) == Answers([TxtString(c, frame)])
    ensures Assemble(f, c, [Extract(TxtString(c, frame))]) == VpnFrame.Parse(f, frame)
  {
    hide Extract, TxtString;
    ExtractTxt(c, frame);
  }

  function Copies(raw: bytes, n: nat): seq<bytes> {
    seq(n, _ => raw)
  }

  /** What the receiver's variables are after copies of a single answer that is not empty. */
  predicate HoldsCopies(a: Assembly, f: VpnFrame.Format, frame: bytes)
    requires |frame| >= 4
  {
    && |a.chunks| == 256
    && if frame[0] == 0 then
         && VpnFrame.Parse(f, frame[2..]).Some? && a.header == VpnFrame.Parse(f, frame[2..])
         && a.totalExpected == frame[1] > 0 && a.seen == 1
         && a.chunks == Start().chunks[0 := Some(a.header.value.payload)]
       else a.header.None?
  }

  lemma FirstCopy(f: VpnFrame.Format, c: Codec, frame: bytes)
    requires Lawful(c) && |frame| >= 4
    ensures var next := Take(f, c, Start(), Payload(c, frame));
      if frame[0] == 0 && (frame[1] == 0 || VpnFrame.Parse(f, frame[2..]).None?) then next.None?
      else next.Some? && HoldsCopies(next.value, f, frame)
  {
    hide VpnFrame.Parse;
    assert Decoded(c, Payload(c, frame)) == Some(frame);
  }

  lemma NextCopy(f: VpnFrame.Format, c: Codec, frame: bytes, a: Assembly)
    requires Lawful(c) && |frame| >= 4 && HoldsCopies(a, f, frame)
    ensures var next := Take(f, c, a, Payload(c, frame));
      next.Some? && HoldsCopies(next.value, f, frame)
  {
    hide VpnFrame.Parse, Start;
    StartSize();
    assert Decoded(c, Payload(c, frame)) == Some(frame);
  }

  lemma {:induction false} TakeCopies(f: VpnFrame.Format, c: Codec, frame: bytes, n: nat)
    requires Lawful(c) && |frame| >= 4 && n > 0
    ensures var r := TakeAll(f, c, Start(), Copies(Payload(c, frame), n));
      if frame[0] == 0 && (frame[1] == 0 || VpnFrame.Parse(f, frame[2..]).None?) then r.None?
      else r.Some? && HoldsCopies(r.value, f, frame)
  {
    hide VpnFrame.Parse, Take, HoldsCopies, Start;
    var raw := Payload(c, frame);
    var init := Copies(raw, n - 1);
    StartSize();
    assert Copies(raw, n)[..n - 1] == init;
    if n == 1 {
      FirstCopy(f, c, frame);
      assert init == [];
    } else {
      TakeCopies(f, c, frame, n - 1);
      if TakeAll(f, c, Start(), init).Some? {
        NextCopy(f, c, frame, TakeAll(f, c, Start(), init).value);
      }
    }
  }

  lemma CopiesFinish(a: Assembly, f: VpnFrame.Format, frame: bytes)
    requires |frame| >= 4 && HoldsCopies(a, f, frame)
    ensures Finish(a) == if frame[0] == 0 && frame[1] == 1 then VpnFrame.Parse(f, frame[2..]) else None
  {
    hide VpnFrame.Parse;
    if frame[0] == 0 && frame[1] == 1 {
      var h := a.header.value;
      assert Contents(a.chunks, 1) == Contents(a.chunks, 0) + h.payload;
      assert [] + h.payload == h.payload;
    }
  }

  /** Repetition is not harmless to a frame that fits one answer: several copies are read as chunks. What comes out
      is a frame read from the third octet on, when session and packet type happen to be 0 and 1, or nothing; so the
      frame is put together again if and only if exactly one copy arrived. */
  lemma CopiesOfSingle(f: VpnFrame.Format, c: Codec, frame: bytes, n: nat)
    requires Lawful(c) && 0 < |frame| <= MaxChunk(c) && VpnFrame.Parse(f, frame).Some?
    ensures var copies := Copies(Payload(c, frame), n);
      && (n >= 2 ==>
            Assemble(f, c, copies) ==
              if frame[0] == 0 && frame[1] == 1 then VpnFrame.Parse(f, frame[2..]) else None)
      && (Assemble(f, c, copies) == VpnFrame.Parse(f, frame) <==> n == 1)
  {
    hide TakeAll, HoldsCopies, Finish, Start;
    var raw := Payload(c, frame);
    StartSize();
    assert Decoded(c, raw) == Some(frame);
    if n == 0 {
      NothingAssembled(f, c);
      assert Copies(raw, 0) == [];
    } else if n >= 2 {
      TakeCopies(f, c, frame, n);
      var r := TakeAll(f, c, Start(), Copies(raw, n));
      if r.Some? { CopiesFinish(r.value, f, frame); }
      ShorterIsDifferent(f, frame);
    }
  }

  lemma NothingAssembled(f: VpnFrame.Format, c: Codec)
    ensures Assemble(f, c, []) == None
  {
  }

  lemma ShorterIsDifferent(f: VpnFrame.Format, frame: bytes)
    requires VpnFrame.Parse(f, frame).Some?
    ensures VpnFrame.Parse(f, frame[2..]) != VpnFrame.Parse(f, frame)
  {
    hide VpnFrame.Parse;
    VpnFrame.PayloadIsTheRest(f, frame, []);
    if VpnFrame.Parse(f, frame[2..]).Some? {
      VpnFrame.PayloadIsTheRest(f, frame[2..], []);
      assert |VpnFrame.Parse(f, frame[2..]).value.payload| == |frame| - 2 - VpnFrame.Parse(f, frame[2..]).value.headerLen;
    }
  }

  /** Such a frame: session 0, packet type 1 with all four extensions, and a stream and sequence number that read as
      the header of a packet type 7 without any. Two copies yield that inner packet. */
  lemma MisreadCopies(f: VpnFrame.Format, c: Codec)
    requires Lawful(c)
    requires f.extensions(1) == Some(VpnFrame.Extensions(true, true, true, true))
    requires f.extensions(7) == Some(VpnFrame.Extensions(false, false, false, false))
    ensures var head := [0, 1, 5, 7, 9, f.check([5, 7, 9]), 0, 1, 0, 3];
      var frame := head + [f.check(head)];
      var r := Assemble(f, c, Copies(Payload(c, frame), 2));
      && VpnFrame.Parse(f, frame).Some? && VpnFrame.Parse(f, frame).value.fields.packetType == 1
      && r.Some? && r.value.fields.session == 5 && r.value.fields.packetType == 7
  {
    hide Assemble, Copies;
    var head := [0, 1, 5, 7, 9, f.check([5, 7, 9]), 0, 1, 0, 3];
    var frame := head + [f.check(head)];
    assert frame[..10] == head;
    assert frame[2..][..3] == [5, 7, 9];
    CopiesOfSingle(f, c, frame, 2);
  }

  /** The cut is refused exactly when the payload needs more than 255 chunks. */
  lemma TooLargeIff(f: VpnFrame.Format, c: Codec, frame: bytes, h: VpnFrame.Frame)
    requires VpnFrame.Parse(f, frame) == Some(h) && |frame| > MaxChunk(c)
    ensures CutFrame(f, c, frame) == TooLarge <==>
      |h.payload| > MaxChunk(c) - 2 - h.headerLen + 254 * (MaxChunk(c) - 1)
  {
    hide Chunks, VpnFrame.Parse, Texts;
    VpnFrame.PayloadIsTheRest(f, frame, []);
  }

  // ----- the code -----

  /** The strings still to be written from `start` on. */
  function StringsFrom(data: bytes, start: nat): bytes {
    if start < |data| then Strings(data[start..]) else []
  }

  lemma StringsStep(data: bytes, start: nat, end: nat, done: bytes)
    requires start < |data| && end == if start + 255 < |data| then start + 255 else |data|
    ensures done + StringsFrom(data, start)
         == done + [(end - start) as byte] + data[start..end] + StringsFrom(data, end)
  {
    StringsSplit(data, start, end);
    assert done + ([(end - start) as byte] + data[start..end] + StringsFrom(data, end))
        == done + [(end - start) as byte] + data[start..end] + StringsFrom(data, end);
  }

  lemma StringsSplit(data: bytes, start: nat, end: nat)
    requires start < |data| && end == if start + 255 < |data| then start + 255 else |data|
    ensures StringsFrom(data, start) == [(end - start) as byte] + data[start..end] + StringsFrom(data, end)
  {
    var text := data[start..];
    if |text| > 255 {
      assert text[..255] == data[start..end] && text[255..] == data[end..];
    }
  }

  lemma {:induction false} StringsLength(data: bytes)
    requires data != []
    ensures |Strings(data)| == |data| + 1 + (|data| - 1) / 255
  {
    if |data| > 255 { StringsLength(data[255..]); }
  }

  /** One character string at a moving offset. */
  method WriteString(out: array<byte>, offset: nat, part: bytes) returns (next: nat)
    requires |part| <= 255 && offset + 1 + |part| <= out.Length
    modifies out
    ensures next == offset + 1 + |part| && out[..next] == old(out[..offset]) + [|part| as byte] + part
  {
    ghost var done := out[..offset];
    out[offset] := |part|;
    assert out[..offset + 1] == done + [|part| as byte];
    next := DnsName.Append(out, offset + 1, part);
  }

  /** appendLengthPrefixedTXT: the buffer is allocated once and filled to its last octet. */
  method LengthPrefixed(data: bytes) returns (r: bytes)
    ensures r == Strings(data)
  {
    hide Strings, StringsFrom;
    if |data| <= 255 {
      ShortString(data);
      return [|data| as byte] + data;
    }
    var parts := 1 + (|data| - 1) / 255;
    var out := new byte[|data| + parts];
    StringsLength(data);
    var writeOffset := 0;
    var start := 0;
    AllStrings(data);
    assert out[..0] == [];
    while start < |data|
      invariant 0 <= start <= |data| && 0 <= writeOffset <= out.Length
      invariant Strings(data) == out[..writeOffset] + StringsFrom(data, start)
    {
      var end := if start + 255 < |data| then start + 255 else |data|;
      StringsStep(data, start, end, out[..writeOffset]);
      writeOffset := WriteString(out, writeOffset, data[start..end]);
      start := end;
    }
    assert out[..writeOffset] == out[..];
    r := out[..];
  }

  lemma AllStrings(data: bytes)
    requires data != []
    ensures [] + StringsFrom(data, 0) == Strings(data) && StringsFrom(data, |data|) == []
  {
    assert data[0..] == data;
  }

  lemma ShortString(data: bytes)
    requires |data| <= 255
    ensures Strings(data) == [|data| as byte] + data
  {
  }

  lemma JoinedStep(rdata: bytes, offset: nat)
    requires offset < |rdata|
    ensures var size := rdata[offset] as nat;
      Joined(rdata[offset..]) ==
        if size == 0 then Joined(rdata[offset + 1..])
        else if offset + 1 + size > |rdata| then rdata[offset + 1..]
        else rdata[offset + 1..offset + 1 + size] + Joined(rdata[offset + 1 + size..])
  {
    var text := rdata[offset..];
    var size := rdata[offset] as nat;
    assert text[1..] == rdata[offset + 1..];
    if size > 0 && offset + 1 + size <= |rdata| {
      assert text[1..1 + size] == rdata[offset + 1..offset + 1 + size];
      assert text[1 + size..] == rdata[offset + 1 + size..];
    }
  }

  /** The first pass of extractTXTBytes: how many octets the strings hold. */
  method CountOctets(rData: bytes) returns (totalLen: nat)
    ensures totalLen == |Joined(rData)|
  {
    hide Joined;
    totalLen := 0;
    var offset: nat := 0;
    assert rData[0..] == rData;
    NothingJoined();
    while offset < |rData|
      invariant offset <= |rData| && totalLen + |Joined(rData[offset..])| == |Joined(rData)|
    {
      JoinedStep(rData, offset);
      var size: nat := rData[offset];
      offset := offset + 1;
      if size == 0 {
        continue;
      }
      if offset + size > |rData| {
        totalLen := totalLen + (|rData| - offset);
        return;
      }
      totalLen := totalLen + size;
      offset := offset + size;
    }
    assert rData[|rData|..] == [];
  }

  lemma NothingJoined()
    ensures Joined([]) == []
  {
  }

  /** extractTXTBytes: the second pass fills exactly what the first one counted. */
  method ExtractTxtBytes(rData: bytes) returns (r: bytes)
    ensures r == Extract(rData)
  {
    hide Joined;
    if |rData| == 0 {
      return [];
    }
    if rData[0] == |rData| - 1 {
      return rData[1..];
    }
    var totalLen := CountOctets(rData);
    if totalLen == 0 {
      return [];
    }
    var out := new byte[totalLen];
    FillOctets(rData, out);
    r := out[..];
  }

  /** What the strings from `offset` on hold. */
  function JoinedFrom(rdata: bytes, offset: nat): bytes
    requires offset <= |rdata|
  {
    Joined(rdata[offset..])
  }

  lemma JoinedRound(rdata: bytes, offset: nat, done: bytes)
    requires offset < |rdata|
    ensures var size := rdata[offset] as nat;
      done + JoinedFrom(rdata, offset) ==
        if size == 0 then done + JoinedFrom(rdata, offset + 1)
        else if offset + 1 + size > |rdata| then done + rdata[offset + 1..]
        else done + rdata[offset + 1..offset + 1 + size] + JoinedFrom(rdata, offset + 1 + size)
  {
    hide Joined;
    JoinedStep(rdata, offset);
    var size := rdata[offset] as nat;
    if size > 0 && offset + 1 + size <= |rdata| {
      Regroup(done, rdata[offset + 1..offset + 1 + size], JoinedFrom(rdata, offset + 1 + size));
    }
  }

  lemma JoinedEnds(rdata: bytes)
    ensures [] + JoinedFrom(rdata, 0) == Joined(rdata) && JoinedFrom(rdata, |rdata|) == []
  {
    assert rdata[0..] == rdata && rdata[|rdata|..] == [];
  }

  method FillOctets(rData: bytes, out: array<byte>)
    requires out.Length == |Joined(rData)|
    modifies out
    ensures out[..] == Joined(rData)
  {
    hide Joined, JoinedFrom;
    var writeOffset: nat := 0;
    var offset: nat := 0;
    JoinedEnds(rData);
    assert out[..0] == [];
    while offset < |rData|
      invariant offset <= |rData| && writeOffset <= out.Length
      invariant out[..writeOffset] + JoinedFrom(rData, offset) == Joined(rData)
    {
      JoinedRound(rData, offset, out[..writeOffset]);
      var size: nat := rData[offset];
      offset := offset + 1;
      if size == 0 {
        continue;
      }
      if offset + size > |rData| {
        writeOffset := DnsName.Append(out, writeOffset, rData[offset..]);
        assert out[..] == out[..writeOffset];
        return;
      }
      writeOffset := DnsName.Append(out, writeOffset, rData[offset..offset + size]);
      offset := offset + size;
    }
    assert out[..writeOffset] == out[..];
  }

  /** The numbering loop: a cursor runs over the payload. */
  method AppendChunks(c: Codec, chunks: seq<bytes>, payload: bytes, begin: nat, size: nat) returns (r: seq<bytes>)
    requires begin <= |payload| && size > 0
    ensures r == chunks + Texts(c, Numbered(Pieces(payload[begin..], size), 1))
  {
    hide TxtString;
    r := chunks;
    var cursor := begin;
    var chunkId := 1;
    assert chunks + Texts(c, Numbered(Pieces(payload[begin..], size), 1))
        == r + Texts(c, Numbered(Pieces(payload[cursor..], size), chunkId));
    while cursor < |payload|
      invariant begin <= cursor <= |payload| && chunkId >= 1
      invariant chunks + Texts(c, Numbered(Pieces(payload[begin..], size), 1))
             == r + Texts(c, Numbered(Pieces(payload[cursor..], size), chunkId))
    {
      var end := Min(cursor + size, |payload|);
      NextPiece(c, payload, cursor, end, size, chunkId);
      var raw := [(chunkId % 256) as byte] + payload[cursor..end];
      ghost var rest := Texts(c, Numbered(Pieces(payload[end..], size), chunkId + 1));
      assert r + ([TxtString(c, raw)] + rest) == r + [TxtString(c, raw)] + rest;
      r := r + [TxtString(c, raw)];
      cursor := end;
      chunkId := chunkId + 1;
    }
    assert payload[|payload|..] == [];
    assert r + [] == r;
  }

  lemma NextPiece(c: Codec, payload: bytes, cursor: nat, end: nat, size: nat, id: nat)
    requires cursor < |payload| && size > 0 && end == Min(cursor + size, |payload|)
    ensures Texts(c, Numbered(Pieces(payload[cursor..], size), id))
         == [TxtString(c, [(id % 256) as byte] + payload[cursor..end])]
            + Texts(c, Numbered(Pieces(payload[end..], size), id + 1))
  {
    hide TxtString;
    var text := payload[cursor..];
    var first, rest := payload[cursor..end], Pieces(payload[end..], size);
    if |text| <= size {
      assert text == first && payload[end..] == [];
      assert Pieces(text, size) == [first] + rest;
    } else {
      assert text[..size] == first && text[size..] == payload[end..];
    }
    assert ([first] + rest)[1..] == rest;
    var numbered := Numbered(rest, id + 1);
    assert Numbered([first] + rest, id) == [[(id % 256) as byte] + first] + numbered;
    TextsOfMore(c, [(id % 256) as byte] + first, numbered);
  }

  lemma TextsOfMore(c: Codec, chunk: bytes, chunks: seq<bytes>)
    ensures Texts(c, [chunk] + chunks) == [TxtString(c, chunk)] + Texts(c, chunks)
  {
    hide TxtString;
  }

  /** buildTXTAnswerChunks */
  method BuildAnswerChunks(f: VpnFrame.Format, c: Codec, rawFrame: bytes) returns (r: Cut)
    ensures r == CutFrame(f, c, rawFrame)
  {
    hide TxtString, Strings, Pieces, Numbered, VpnFrame.Parse;
    var maxChunk := MaxChunk(c);
    if |rawFrame| == 0 {
      var empty := LengthPrefixed([]);
      return Answers([empty]);
    }
    if |rawFrame| <= maxChunk {
      return Answers([TxtString(c, rawFrame)]);
    }
    var header := VpnFrame.Parse(f, rawFrame);
    if header.None? {
      return Answers([TxtString(c, rawFrame)]);
    }
    var headerLen, payload := header.value.headerLen, header.value.payload;
    VpnFrame.PayloadIsTheRest(f, rawFrame, []);
    var maxChunk0Data := FirstRoom(c, headerLen);
    var totalChunks := 1;
    if |payload| > maxChunk0Data {
      totalChunks := totalChunks + (|payload| - maxChunk0Data + (maxChunk - 1) - 1) / (maxChunk - 1);
    }
    if totalChunks > 255 {
      return TooLarge;
    }
    var chunk0DataLen := Min(maxChunk0Data, |payload|);
    var rawChunk0 := [0, (totalChunks % 256) as byte] + rawFrame[..headerLen] + payload[..chunk0DataLen];
    TextsOfMore(c, rawChunk0, Numbered(Pieces(payload[chunk0DataLen..], maxChunk - 1), 1));
    var chunks := AppendChunks(c, [TxtString(c, rawChunk0)], payload, chunk0DataLen, maxChunk - 1);
    r := Answers(chunks);
  }

  /** The receiving loop of assembleVPNResponse, over its array of chunks and its counters. */
  method AssembleResponse(f: VpnFrame.Format, c: Codec, rawAnswers: seq<bytes>) returns (r: Option<VpnFrame.Frame>)
    ensures r == Assemble(f, c, rawAnswers)
  {
    hide VpnFrame.Parse, Take, TakeAll, Finish;
    if |rawAnswers| == 1 {
      var raw := Decoded(c, rawAnswers[0]);
      if raw.None? {
        return None;
      }
      return VpnFrame.Parse(f, raw.value);
    }
    var state := Some(Start());
    StartSize();
    NothingTaken(f, c);
    for i := 0 to |rawAnswers|
      invariant state.Some? && |state.value.chunks| == 256
      invariant state == TakeAll(f, c, Start(), rawAnswers[..i])
    {
      TakeOneMore(f, c, rawAnswers, i);
      state := TakeOne(f, c, state.value, rawAnswers[i]);
      if state.None? {
        StaysNone(f, c, rawAnswers, i + 1);
        assert rawAnswers[..|rawAnswers|] == rawAnswers;
        return None;
      }
    }
    assert rawAnswers[..|rawAnswers|] == rawAnswers;
    r := FinishAssembly(state.value);
  }

  lemma NothingTaken(f: VpnFrame.Format, c: Codec)
    ensures TakeAll(f, c, Start(), []) == Some(Start())
  {
  }

  lemma TakeOneMore(f: VpnFrame.Format, c: Codec, raws: seq<bytes>, i: nat)
    requires i < |raws| && TakeAll(f, c, Start(), raws[..i]).Some?
    ensures TakeAll(f, c, Start(), raws[..i + 1]) == Take(f, c, TakeAll(f, c, Start(), raws[..i]).value, raws[i])
  {
    hide Take;
    assert raws[..i + 1][..i] == raws[..i];
  }

  lemma {:induction false} StaysNone(f: VpnFrame.Format, c: Codec, raws: seq<bytes>, i: nat)
    requires i <= |raws| && TakeAll(f, c, Start(), raws[..i]).None?
    ensures TakeAll(f, c, Start(), raws[..|raws|]).None?
    decreases |raws| - i
  {
    hide Take;
    if i < |raws| {
      assert raws[..i + 1][..i] == raws[..i];
      StaysNone(f, c, raws, i + 1);
    }
  }

  /** The body of the receiving loop. */
  method TakeOne(f: VpnFrame.Format, c: Codec, a: Assembly, given: bytes) returns (r: Option<Assembly>)
    requires |a.chunks| == 256
    ensures r == Take(f, c, a, given)
    ensures r.Some? ==> |r.value.chunks| == 256
  {
    hide VpnFrame.Parse;
    var decoded := Decoded(c, given);
    if decoded.None? {
      return None;
    }
    var raw := decoded.value;
    if |raw| == 0 {
      return Some(a);
    }
    var chunks, seenChunks := a.chunks, a.seen;
    if raw[0] == 0 {
      if |raw| < 3 {
        return None;
      }
      var totalExpected: nat := raw[1];
      if totalExpected <= 0 || totalExpected > |chunks| {
        return None;
      }
      var parsed := VpnFrame.Parse(f, raw[2..]);
      if parsed.None? {
        return None;
      }
      if chunks[0].None? {
        seenChunks := seenChunks + 1;
      }
      chunks := chunks[0 := Some(parsed.value.payload)];
      return Some(Assembly(chunks, totalExpected, seenChunks, parsed));
    }
    var chunkId: nat := raw[0];
    if chunks[chunkId].None? {
      seenChunks := seenChunks + 1;
    }
    chunks := chunks[chunkId := Some(raw[1..])];
    r := Some(Assembly(chunks, a.totalExpected, seenChunks, a.header));
  }

  /** The checks and the concatenation behind the receiving loop. */
  method FinishAssembly(a: Assembly) returns (r: Option<VpnFrame.Frame>)
    requires |a.chunks| == 256
    ensures r == Finish(a)
  {
    if a.header.None? || a.totalExpected <= 0 || a.seen != a.totalExpected || a.totalExpected > |a.chunks| {
      return None;
    }
    var payload: bytes := [];
    for i := 0 to a.totalExpected
      invariant forall j :: 0 <= j < i ==> a.chunks[j].Some?
      invariant payload == Contents(a.chunks, i)
    {
      if a.chunks[i].None? {
        return None;
      }
      payload := payload + a.chunks[i].value;
    }
    for i := a.totalExpected to |a.chunks|
      invariant forall j :: a.totalExpected <= j < i ==> a.chunks[j].None?
    {
      if a.chunks[i].Some? {
        return None;
      }
    }
    r := Some(a.header.value.(payload := payload));
  }
}
