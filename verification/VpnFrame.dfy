/** The header of a tunnel frame. Which extensions a packet type carries, and the check octet, are parameters. */
module VpnFrame {
  import opened Words

  datatype Extensions = Extensions(stream: bool, sequence: bool, fragment: bool, compression: bool)

  datatype Format = Format(extensions: byte -> Option<Extensions>, check: bytes -> byte)

  datatype Fields =
    Fields(session: byte, packetType: byte, cookie: byte, stream: Option<uint16>, sequence: Option<uint16>,
           fragment: Option<(byte, byte)>, compression: Option<byte>)

  datatype Frame = Frame(fields: Fields, headerLen: nat, payload: bytes)

  // Where the optional parts of a header stand, one behind the other.
  function AfterStream(e: Extensions): nat {
    2 + if e.stream then 2 else 0
  }

  function AfterSequence(e: Extensions): nat {
    AfterStream(e) + if e.sequence then 2 else 0
  }

  function AfterFragment(e: Extensions): nat {
    AfterSequence(e) + if e.fragment then 2 else 0
  }

  function HeaderLen(e: Extensions): (n: nat)
    ensures 4 <= n <= 11
  {
    AfterFragment(e) + (if e.compression then 1 else 0) + 2
  }

  function WordAt(data: bytes, i: nat): uint16
    requires i + 2 <= |data|
  {
    (data[i] as nat) * 256 + data[i + 1]
  }

  function FieldsOf(e: Extensions, head: bytes): Fields
    requires |head| >= HeaderLen(e)
  {
    Fields(head[0], head[1], head[HeaderLen(e) - 2],
           if e.stream then Some(WordAt(head, 2)) else None,
           if e.sequence then Some(WordAt(head, AfterStream(e))) else None,
           if e.fragment then Some((head[AfterSequence(e)], head[AfterSequence(e) + 1])) else None,
           if e.compression then Some(head[AfterFragment(e)]) else None)
  }

  /** parseFrom */
  function Parse(f: Format, data: bytes): Option<Frame> {
    if |data| < 4 then None
    else match f.extensions(data[1])
      case None => None
      case Some(e) =>
        var n := HeaderLen(e);
        if |data| < n || data[n - 1] != f.check(data[..n - 1]) then None
        else Some(Frame(FieldsOf(e, data), n, data[n..]))
  }

  /** The extensions some fields need. */
  function Carried(x: Fields): Extensions {
    Extensions(x.stream.Some?, x.sequence.Some?, x.fragment.Some?, x.compression.Some?)
  }

  /** The header up to and with the session cookie. */
  function HeadBytes(x: Fields): bytes {
    [x.session, x.packetType]
    + (if x.stream.Some? then Bytes16(x.stream.value) else [])
    + (if x.sequence.Some? then Bytes16(x.sequence.value) else [])
    + (if x.fragment.Some? then [x.fragment.value.0, x.fragment.value.1] else [])
    + (if x.compression.Some? then [x.compression.value] else [])
    + [x.cookie]
  }

  /** BuildRaw, for fields that fit the extensions of their packet type. */
  function Build(f: Format, x: Fields, payload: bytes): bytes {
    HeadBytes(x) + [f.check(HeadBytes(x))] + payload
  }

  /** The header fields and their length depend on the header octets alone; the payload is the rest. */
  lemma PayloadIsTheRest(f: Format, data: bytes, other: bytes)
    requires Parse(f, data).Some?
    ensures var frame := Parse(f, data).value;
      && frame.headerLen <= |data| && frame.payload == data[frame.headerLen..] && 4 <= frame.headerLen <= 11
      && Parse(f, data[..frame.headerLen] + other) == Some(frame.(payload := other))
  {
    var e := f.extensions(data[1]).value;
    var n := HeaderLen(e);
    var again := data[..n] + other;
    assert again[..n - 1] == data[..n - 1];
    assert again[n..] == other;
    SameFields(e, data, again);
  }

  lemma SameFields(e: Extensions, a: bytes, b: bytes)
    requires |a| >= HeaderLen(e) && |b| >= HeaderLen(e)
    requires forall i :: 0 <= i < HeaderLen(e) ==> a[i] == b[i]
    ensures FieldsOf(e, a) == FieldsOf(e, b)
  {
  }

  /** A frame that was built parses back to its fields and payload. */
  lemma ParseBuild(f: Format, x: Fields, payload: bytes)
    requires f.extensions(x.packetType) == Some(Carried(x))
    ensures Parse(f, Build(f, x, payload)) == Some(Frame(x, HeaderLen(Carried(x)), payload))
  {
    var e := Carried(x);
    var head, n := HeadBytes(x), HeaderLen(e);
    var data := Build(f, x, payload);
    assert data[..n - 1] == head && data[n..] == payload;
    SameFields(e, data, head + [f.check(head)]);
  }

  lemma WordIsBytes(data: bytes, i: nat)
    requires i + 2 <= |data|
    ensures Bytes16(WordAt(data, i)) == data[i..i + 2]
  {
  }

  lemma FieldsAreBytes(e: Extensions, data: bytes)
    requires |data| >= HeaderLen(e)
    ensures Carried(FieldsOf(e, data)) == e
    ensures HeadBytes(FieldsOf(e, data)) == data[..HeaderLen(e) - 1]
  {
    hide WordAt;
    var x := FieldsOf(e, data);
    var a, b, c, d := AfterStream(e), AfterSequence(e), AfterFragment(e), HeaderLen(e) - 2;
    if e.stream { WordIsBytes(data, 2); }
    if e.sequence { WordIsBytes(data, a); }
    assert (if e.stream then Bytes16(x.stream.value) else []) == data[2..a];
    assert (if e.sequence then Bytes16(x.sequence.value) else []) == data[a..b];
    assert (if e.fragment then [data[b], data[b + 1]] else []) == data[b..c];
    assert (if e.compression then [data[c]] else []) == data[c..d];
    Pieces(data, a, b, c, d);
  }

  lemma Pieces(data: bytes, a: nat, b: nat, c: nat, d: nat)
    requires 2 <= a <= b <= c <= d < |data|
    ensures [data[0], data[1]] + data[2..a] + data[a..b] + data[b..c] + data[c..d] + [data[d]] == data[..d + 1]
  {
    assert [data[0], data[1]] == data[..2];
    assert data[..2] + data[2..a] == data[..a];
    assert data[..a] + data[a..b] == data[..b];
    assert data[..b] + data[b..c] == data[..c];
    assert data[..c] + data[c..d] == data[..d];
    assert data[..d] + [data[d]] == data[..d + 1];
  }

  /** Parsing takes exactly the frames that can be built, and gives what they were built from: in particular a header
      with a wrong check octet, an unknown type or too few octets is refused. */
  lemma ParsesIff(f: Format, data: bytes, x: Fields, payload: bytes)
    ensures Parse(f, data) == Some(Frame(x, HeaderLen(Carried(x)), payload)) <==>
      f.extensions(x.packetType) == Some(Carried(x)) && data == Build(f, x, payload)
  {
    hide FieldsOf, HeadBytes;
    if f.extensions(x.packetType) == Some(Carried(x)) && data == Build(f, x, payload) {
      ParseBuild(f, x, payload);
    }
    if Parse(f, data) == Some(Frame(x, HeaderLen(Carried(x)), payload)) {
      var e := f.extensions(data[1]).value;
      FieldsAreBytes(e, data);
      SecondOctet(e, data);
      var n := HeaderLen(e);
      assert data == data[..n - 1] + [data[n - 1]] + data[n..];
    }
  }

  lemma SecondOctet(e: Extensions, data: bytes)
    requires |data| >= HeaderLen(e)
    ensures FieldsOf(e, data).packetType == data[1]
  {
  }
}
