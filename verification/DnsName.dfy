/** Domain names on the wire (sections 3.1 and 4.1.4 of RFC 1035) and as dotted text. */
module DnsName {
  import opened Words

  const DOT: byte := 46
  const MAX_JUMPS: nat := 10

  // ----- what a name at an offset means -----

  /** The low 14 bits of a two-octet compression pointer. */
  function Pointer(hi: byte, lo: byte): nat {
    hi % 64 * 256 + lo
  }

  /** The labels read from `offset` when at most `jumps` pointers may still be followed. Total on every byte
      string: each step uses up a jump or bytes. */
  function Labels(data: bytes, offset: nat, jumps: nat): Option<seq<bytes>>
    decreases jumps, |data| - offset
  {
    if offset >= |data| then None
    else if data[offset] == 0 then Some([])
    else if data[offset] >= 192 then
      if offset + 1 >= |data| || jumps == 0 || Pointer(data[offset], data[offset + 1]) >= |data| then None
      else Labels(data, Pointer(data[offset], data[offset + 1]), jumps - 1)
    else
      var end := offset + 1 + data[offset];
      if data[offset] > 63 || end > |data| then None
      else match Labels(data, end, jumps)
        case None => None
        case Some(rest) => Some([data[offset + 1..end]] + rest)
  }

  /** The end of the name in place: after the first zero octet or pointer. */
  function SkipEnd(data: bytes, offset: nat): Option<nat>
    decreases |data| - offset
  {
    if offset >= |data| then None
    else if data[offset] == 0 then Some(offset + 1)
    else if data[offset] >= 192 then if offset + 1 >= |data| then None else Some(offset + 2)
    else if data[offset] > 63 then None
    else SkipEnd(data, offset + data[offset] + 1)
  }

  /** The first octets 64 to 191 are neither lengths nor pointers: no name starts with one. */
  lemma ReservedIsRefused(data: bytes, offset: nat, jumps: nat)
    requires offset < |data| && 64 <= data[offset] < 192
    ensures Labels(data, offset, jumps).None? && SkipEnd(data, offset).None? && NameAt(data, offset).None?
  {
  }

  function Join(labels: seq<bytes>): bytes {
    if labels == [] then [] else if |labels| == 1 then labels[0] else labels[0] + [DOT] + Join(labels[1..])
  }

  /** The text the parser returns; the root is a single dot. */
  function NameText(labels: seq<bytes>): bytes {
    if labels == [] then [DOT] else Lower(Join(labels))
  }

  datatype Parsed = Parsed(name: bytes, next: nat)

  function NameAt(data: bytes, offset: nat): Option<Parsed> {
    match (Labels(data, offset, MAX_JUMPS), SkipEnd(data, offset))
    case (Some(labels), Some(next)) => Some(Parsed(NameText(labels), next))
    case _ => None
  }

  /** Whatever the parser accepts, the skipper accepts too; the end never leaves the message. */
  lemma {:induction false} ParsedIsSkippable(data: bytes, offset: nat, jumps: nat)
    requires Labels(data, offset, jumps).Some?
    ensures SkipEnd(data, offset).Some? && offset < SkipEnd(data, offset).value <= |data|
    decreases |data| - offset
  {
    if data[offset] != 0 && data[offset] < 192 {
      ParsedIsSkippable(data, offset + data[offset] + 1, jumps);
    }
  }

  lemma {:induction false} SkipAdvances(data: bytes, offset: nat)
    requires SkipEnd(data, offset).Some?
    ensures offset < SkipEnd(data, offset).value <= |data|
    decreases |data| - offset
  {
    if data[offset] != 0 && data[offset] < 192 {
      SkipAdvances(data, offset + data[offset] + 1);
    }
  }

  /** More jumps never change a name that was accepted. */
  lemma {:induction false} MoreJumps(data: bytes, offset: nat, jumps: nat, more: nat)
    requires Labels(data, offset, jumps).Some? && jumps <= more
    ensures Labels(data, offset, more) == Labels(data, offset, jumps)
    decreases jumps, |data| - offset
  {
    if data[offset] == 0 {
    } else if data[offset] >= 192 {
      MoreJumps(data, Pointer(data[offset], data[offset + 1]), jumps - 1, more - 1);
    } else {
      MoreJumps(data, offset + 1 + data[offset], jumps, more);
    }
  }

  // ----- names without pointers -----

  predicate ValidLabels(labels: seq<bytes>) {
    forall part :: part in labels ==> 1 <= |part| <= 63
  }

  /** A label behind its length octet. */
  function Lead(part: bytes): bytes {
    [|part| % 256] + part
  }

  /** Labels with their length octets, without the closing zero. */
  function Body(labels: seq<bytes>): bytes {
    if labels == [] then [] else Lead(labels[0]) + Body(labels[1..])
  }

  function Wire(labels: seq<bytes>): bytes {
    Body(labels) + [0]
  }

  lemma {:induction false} BodyConcat(a: seq<bytes>, b: seq<bytes>)
    ensures Body(a + b) == Body(a) + Body(b)
  {
    hide Lead;
    if a == [] {
      assert a + b == b;
    } else {
      assert (a + b)[1..] == a[1..] + b;
      BodyConcat(a[1..], b);
    }
  }

  lemma WireSplits(before: bytes, labels: seq<bytes>, after: bytes)
    requires labels != []
    ensures before + Wire(labels) + after == before + Lead(labels[0]) + Wire(labels[1..]) + after
    ensures before + Wire(labels) + after == before + Lead(labels[0]) + (Wire(labels[1..]) + after)
    ensures |Wire(labels)| == |Lead(labels[0])| + |Wire(labels[1..])|
  {
    hide Lead;
  }

  lemma RootIsRead(before: bytes, after: bytes, jumps: nat)
    ensures Labels(before + Wire([]) + after, |before|, jumps) == Some([])
    ensures SkipEnd(before + Wire([]) + after, |before|) == Some(|before| + |Wire([])|)
  {
    assert (before + Wire([]) + after)[|before|] == 0;
  }

  lemma OneLabelRead(before: bytes, part: bytes, after: bytes, jumps: nat)
    requires 1 <= |part| <= 63
    ensures var data, end := before + Lead(part) + after, |before + Lead(part)|;
      && SkipEnd(data, |before|) == SkipEnd(data, end)
      && Labels(data, |before|, jumps) == match Labels(data, end, jumps)
           case None => None
           case Some(rest) => Some([part] + rest)
  {
    var data := before + Lead(part) + after;
    assert data[|before|] == |part|;
    assert data[|before| + 1..|before| + 1 + |part|] == part;
  }

  /** A name in wire form is read back wherever it stands, and ends where its bytes end. */
  lemma {:induction false} WireIsRead(before: bytes, labels: seq<bytes>, after: bytes, jumps: nat)
    requires ValidLabels(labels)
    ensures Labels(before + Wire(labels) + after, |before|, jumps) == Some(labels)
    ensures SkipEnd(before + Wire(labels) + after, |before|) == Some(|before| + |Wire(labels)|)
    decreases |labels|
  {
    hide Labels, SkipEnd, Wire, Lead;
    if labels == [] {
      RootIsRead(before, after, jumps);
    } else {
      var first, rest := labels[0], labels[1..];
      assert first in labels;
      WireSplits(before, labels, after);
      WireIsRead(before + Lead(first), rest, after, jumps);
      OneLabelRead(before, first, Wire(rest) + after, jumps);
      assert [first] + rest == labels;
    }
  }

  lemma OneMoreLabel(data: bytes, offset: nat, end: nat, stop: nat, rest: seq<bytes>)
    requires offset < end <= stop <= |data| && data[offset] == end - offset - 1
    requires data[end..stop] == Wire(rest)
    ensures data[offset..stop] == Wire([data[offset + 1..end]] + rest)
  {
    var part := data[offset + 1..end];
    assert ([part] + rest)[1..] == rest;
    assert data[offset..stop] == Lead(part) + data[end..stop];
  }

  lemma RootIsWire()
    ensures Wire([]) == [0]
  {
  }

  lemma PlainStep(data: bytes, offset: nat)
    requires Labels(data, offset, 0).Some?
    ensures offset < |data|
    ensures data[offset] == 0 ==> Labels(data, offset, 0) == Some([]) && SkipEnd(data, offset) == Some(offset + 1)
    ensures data[offset] != 0 ==>
      var end := offset + 1 + data[offset];
      && end <= |data| && 1 <= end - offset - 1 <= 63 && Labels(data, end, 0).Some?
      && Labels(data, offset, 0).value == [data[offset + 1..end]] + Labels(data, end, 0).value
      && SkipEnd(data, offset) == SkipEnd(data, end)
  {
  }

  /** A name that needs no pointer is the wire form of its labels. */
  lemma {:induction false} PlainIsWire(data: bytes, offset: nat)
    requires Labels(data, offset, 0).Some?
    ensures ValidLabels(Labels(data, offset, 0).value)
    ensures SkipEnd(data, offset).Some? && offset < SkipEnd(data, offset).value <= |data|
    ensures data[offset..SkipEnd(data, offset).value] == Wire(Labels(data, offset, 0).value)
    decreases |data| - offset
  {
    hide Labels, SkipEnd, Wire;
    PlainStep(data, offset);
    if data[offset] == 0 {
      assert data[offset..offset + 1] == [0];
      RootIsWire();
    } else {
      var end := offset + 1 + data[offset];
      PlainIsWire(data, end);
      OneMoreLabel(data, offset, end, SkipEnd(data, end).value, Labels(data, end, 0).value);
    }
  }

  // ----- dotted text -----

  /** The index of the first dot, or the length. */
  function FirstDot(s: bytes): (i: nat)
    ensures i <= |s| && NoDotBefore(s, i) && (i < |s| ==> s[i] == DOT)
  {
    if s == [] || s[0] == DOT then 0 else FirstDot(s[1..]) + 1
  }

  predicate NoDotBefore(s: bytes, i: nat)
    requires i <= |s|
  {
    forall k :: 0 <= k < i ==> s[k] != DOT
  }

  lemma FirstDotIs(s: bytes, i: nat)
    requires i <= |s| && NoDotBefore(s, i) && (i < |s| ==> s[i] == DOT)
    ensures FirstDot(s) == i
  {
  }

  function Split(s: bytes): (labels: seq<bytes>)
    ensures labels != []
  {
    var i := FirstDot(s);
    if i == |s| then [s] else [s[..i]] + Split(s[i + 1..])
  }

  predicate NoDots(labels: seq<bytes>) {
    forall part :: part in labels ==> DOT !in part
  }

  lemma {:induction false} JoinSplit(s: bytes)
    ensures Join(Split(s)) == s && NoDots(Split(s))
  {
    var i := FirstDot(s);
    if i == |s| {
      assert s[..i] == s;
    } else {
      JoinSplit(s[i + 1..]);
      var rest := Split(s[i + 1..]);
      assert ([s[..i]] + rest)[1..] == rest;
      assert s == s[..i] + [DOT] + s[i + 1..];
    }
  }

  lemma {:induction false} BodyLength(labels: seq<bytes>)
    requires labels != []
    ensures |Body(labels)| == |Join(labels)| + 1
  {
    if |labels| > 1 {
      BodyLength(labels[1..]);
    } else {
      assert Body(labels[1..]) == [];
    }
  }

  lemma {:induction false} JoinConcat(a: seq<bytes>, b: seq<bytes>)
    requires a != [] && b != []
    ensures Join(a + b) == Join(a) + [DOT] + Join(b)
  {
    assert (a + b)[1..] == a[1..] + b;
    if |a| == 1 {
      assert a[1..] + b == b;
    } else {
      JoinConcat(a[1..], b);
    }
  }

  // ----- text to wire -----

  predicate IsSpace(ch: byte) {
    ch == 32 || 9 <= ch <= 13
  }

  function TrimLeft(s: bytes): bytes {
    if s != [] && IsSpace(s[0]) then TrimLeft(s[1..]) else s
  }

  function TrimRight(s: bytes): bytes {
    if s != [] && IsSpace(s[|s| - 1]) then TrimRight(s[..|s| - 1]) else s
  }

  /** strings.TrimSpace on ASCII text. */
  function TrimSpace(s: bytes): bytes {
    TrimRight(TrimLeft(s))
  }

  /** strings.TrimSuffix with a single dot. */
  function TrimDot(s: bytes): bytes {
    if s != [] && s[|s| - 1] == DOT then s[..|s| - 1] else s
  }

  const MAX_NAME_LEN: nat := 253

  /** Tab, line feed, vertical tab, form feed, carriage return and space. */
  predicate Blank(s: bytes) {
    forall ch :: ch in s ==> ch in {0x09, 0x0A, 0x0B, 0x0C, 0x0D, 0x20}
  }

  lemma {:induction false} LeftTrimmed(s: bytes) returns (k: nat)
    ensures k <= |s| && TrimLeft(s) == s[k..] && Blank(s[..k])
    ensures k < |s| ==> !Blank([s[k]])
  {
    if s != [] && IsSpace(s[0]) {
      var j := LeftTrimmed(s[1..]);
      k := j + 1;
      assert s[..k] == [s[0]] + s[1..][..j];
    } else {
      k := 0;
      if s != [] { assert s[0] in [s[0]]; }
    }
  }

  lemma {:induction false} RightTrimmed(s: bytes) returns (k: nat)
    ensures k <= |s| && TrimRight(s) == s[..k] && Blank(s[k..])
    ensures k > 0 ==> !Blank([s[k - 1]])
  {
    var n := |s| - 1;
    if s != [] && IsSpace(s[n]) {
      k := RightTrimmed(s[..n]);
      assert s[k..] == s[..n][k..] + [s[n]];
      assert s[..n][..k] == s[..k];
    } else {
      k := |s|;
      if s != [] { assert s[n] in [s[n]]; }
    }
  }

  /** Trimming takes the blanks at both ends, and nothing else. */
  lemma TrimmedIs(s: bytes) returns (a: nat, b: nat)
    ensures a <= b <= |s| && TrimSpace(s) == s[a..b] && Blank(s[..a]) && Blank(s[b..])
    ensures a < b ==> !Blank([s[a]]) && !Blank([s[b - 1]])
  {
    a := LeftTrimmed(s);
    var k := RightTrimmed(s[a..]);
    b := a + k;
    assert s[a..][..k] == s[a..b] && s[a..][k..] == s[b..];
  }

  /** What a dotted name is on the wire, if it can be written at all. */
  function Encoded(name: bytes): Option<bytes> {
    var text := TrimDot(TrimSpace(name));
    if text == [] then Some([0])
    else if |text| > MAX_NAME_LEN || !ValidLabels(Split(text)) then None
    else Some(Wire(Split(text)))
  }

  /** The limits of section 2.3.4 of RFC 1035 hold of every name the encoder writes, and the parser reads it
      back, in lower case, from any place in any message. */
  lemma EncodedIsRead(name: bytes, before: bytes, after: bytes)
    requires Encoded(name).Some?
    ensures var wire := Encoded(name).value;
      && 1 <= |wire| <= 255
      && NameAt(before + wire + after, |before|)
         == Some(Parsed(var text := TrimDot(TrimSpace(name)); if text == [] then [DOT] else Lower(text),
                        |before| + |wire|))
  {
    hide Lower, Labels, SkipEnd, Split, Join, Body, TrimSpace, TrimDot;
    var text := TrimDot(TrimSpace(name));
    var labels := if text == [] then [] else Split(text);
    BodyOfNothing();
    if text != [] {
      JoinSplit(text);
      BodyLength(labels);
    }
    WireIsRead(before, labels, after, MAX_JUMPS);
  }

  /** A name can be written exactly when nothing is left of it without the blanks around it and one last dot, or
      what is left has at most 253 octets and only labels of 1 to 63. */
  lemma EncodedIff(name: bytes)
    ensures var text := TrimDot(TrimSpace(name));
      Encoded(name).Some? <==> text == [] || (|text| <= 253 && forall l :: l in Split(text) ==> 1 <= |l| <= 63)
  {
  }

  lemma BodyOfNothing()
    ensures Body([]) == [] && Wire([]) == [0]
  {
  }

  // ----- the code -----

  lemma LowerStep(s: bytes, i: nat)
    requires i < |s|
    ensures Lower(s[..i + 1]) == Lower(s[..i]) + [LowerByte(s[i])]
  {
    assert s[..i + 1] == s[..i] + [s[i]];
    LowerConcat(s[..i], [s[i]]);
  }

  /** writeLowerASCIILabel: copies up to the first upper-case letter, then converts byte by byte. */
  method LowerLabel(part: bytes) returns (r: bytes)
    ensures r == Lower(part)
  {
    hide Lower;
    var upper := 0;
    assert part[..0] == [];
    while upper < |part| && !(65 <= part[upper] <= 90)
      invariant upper <= |part| && Lower(part[..upper]) == part[..upper]
    {
      LowerStep(part, upper);
      assert part[..upper + 1] == part[..upper] + [part[upper]];
      upper := upper + 1;
    }
    r := part[..upper];
    for i := upper to |part|
      invariant r == Lower(part[..i])
    {
      LowerStep(part, i);
      r := r + [LowerByte(part[i])];
    }
    assert part[..|part|] == part;
  }

  /** What a half-built name becomes once the remaining labels are added. */
  function Extended(name: bytes, rest: seq<bytes>): bytes {
    if name == [] then Lower(Join(rest)) else if rest == [] then name else name + [DOT] + Lower(Join(rest))
  }

  function Grown(name: bytes, part: bytes): bytes {
    if name == [] then Lower(part) else name + [DOT] + Lower(part)
  }

  lemma ExtendedByLabel(name: bytes, part: bytes, rest: seq<bytes>)
    requires part != []
    ensures Extended(name, [part] + rest) == Extended(Grown(name, part), rest)
  {
    hide Lower;
    assert ([part] + rest)[1..] == rest;
    if rest != [] {
      LowerAround(part, Join(rest));
    }
  }

  lemma LowerAround(a: bytes, b: bytes)
    ensures Lower(a + [DOT] + b) == Lower(a) + [DOT] + Lower(b)
    ensures |Lower(a)| == |a|
  {
    LowerConcat(a + [DOT], b);
    LowerConcat(a, [DOT]);
    assert Lower([DOT]) == [LowerByte(DOT)] + Lower([]);
  }

  /** parseName. The measure is the jumps left, then the bytes left; the end returned is where skipping ends. */
  method ParseName(data: bytes, start: nat) returns (r: Option<Parsed>)
    ensures r.Some? <==> Labels(data, start, MAX_JUMPS).Some?
    ensures r.Some? ==> r.value.name == NameText(Labels(data, start, MAX_JUMPS).value)
    ensures r.Some? ==> SkipEnd(data, start) == Some(r.value.next)
    ensures r == NameAt(data, start)
  {
    hide Lower, Join, Extended, Grown;
    var offset, jumps, origNext := start, 0, start;
    var jumped, hasLabel := false, false;
    var name: bytes := [];
    ghost var whole := Labels(data, start, MAX_JUMPS);
    if whole.Some? { ParsedIsSkippable(data, start, MAX_JUMPS); }
    while true
      invariant 0 <= jumps <= MAX_JUMPS && 0 <= offset && hasLabel == (name != [])
      invariant whole.Some? <==> Labels(data, offset, MAX_JUMPS - jumps).Some?
      invariant whole.Some? ==>
                  && (whole.value == [] <==> !hasLabel && Labels(data, offset, MAX_JUMPS - jumps).value == [])
                  && Extended([], whole.value) == Extended(name, Labels(data, offset, MAX_JUMPS - jumps).value)
      invariant !jumped ==> origNext == offset && SkipEnd(data, start) == SkipEnd(data, offset)
      invariant jumped ==> SkipEnd(data, start) == Some(origNext)
      decreases MAX_JUMPS - jumps, |data| - offset
    {
      if offset >= |data| {
        return None;
      }
      var length := data[offset];
      if length == 0 {
        offset := offset + 1;
        if !jumped {
          origNext := offset;
        }
        break;
      }
      if length >= 192 {
        if offset + 1 >= |data| || jumps >= MAX_JUMPS {
          return None;
        }
        var ptr := Pointer(data[offset], data[offset + 1]);
        if ptr >= |data| {
          return None;
        }
        if !jumped {
          origNext := offset + 2;
          jumped := true;
        }
        offset := ptr;
        jumps := jumps + 1;
        continue;
      }
      if length > 63 {
        return None;
      }
      var end := offset + 1 + length;
      if end > |data| {
        return None;
      }
      ghost var rest := Labels(data, end, MAX_JUMPS - jumps);
      if rest.Some? { ExtendedByLabel(name, data[offset + 1..end], rest.value); }
      GrownIs(name, data[offset + 1..end]);
      var part := LowerLabel(data[offset + 1..end]);
      if |name| > 0 {
        name := name + [DOT];
      }
      name := name + part;
      hasLabel := true;
      offset := end;
      if !jumped {
        origNext := offset;
      }
    }
    ExtendedToEnd(name, whole);
    r := Some(Parsed(if hasLabel then name else [DOT], origNext));
  }

  lemma GrownIs(name: bytes, part: bytes)
    ensures Grown(name, part) == (if |name| > 0 then name + [DOT] else name) + Lower(part)
    ensures |Lower(part)| == |part|
  {
  }

  lemma ExtendedToEnd(name: bytes, whole: Option<seq<bytes>>)
    ensures Extended(name, []) == name
    ensures whole.Some? ==> NameText(whole.value) == if whole.value == [] then [DOT] else Extended([], whole.value)
  {
  }

  /** skipName */
  method SkipName(data: bytes, start: nat) returns (r: Option<nat>)
    ensures r == SkipEnd(data, start)
  {
    var offset := start;
    while true
      invariant SkipEnd(data, start) == SkipEnd(data, offset)
      decreases |data| - offset
    {
      if offset >= |data| {
        return None;
      }
      var length := data[offset];
      if length == 0 {
        return Some(offset + 1);
      }
      if length >= 192 {
        if offset + 1 >= |data| {
          return None;
        }
        return Some(offset + 2);
      }
      if length > 63 {
        return None;
      }
      offset := offset + length + 1;
    }
  }

  /** encodeDNSNameStrict: one pass over the name, each label copied behind its length. */
  method EncodeStrict(given: bytes) returns (r: Option<bytes>)
    ensures r == Encoded(given)
  {
    hide Split, Body, TrimSpace, TrimDot, ValidLabels, EncodedSoFar;
    var name := TrimDot(TrimSpace(given));
    if name == [] {
      return Some([0]);
    }
    if |name| > MAX_NAME_LEN {
      return None;
    }
    var encoded := new byte[|name| + 2];
    NothingEncoded(name, encoded[..0]);
    var labelStart, i := 0, 0;
    while i <= |name|
      invariant labelStart <= i <= |name| + 1 && (labelStart > |name| <==> i > |name|)
      invariant forall k :: labelStart <= k < i && k < |name| ==> name[k] != DOT
      invariant EncodedSoFar(name, labelStart, encoded[..labelStart])
      decreases |name| - i
    {
      if i < |name| && name[i] != DOT {
        i := i + 1;
        continue;
      }
      var labelLen := i - labelStart;
      SplitOff(name, labelStart, i, encoded[..labelStart]);
      if labelLen == 0 || labelLen > 63 {
        return None;
      }
      ghost var done := encoded[..labelStart];
      encoded[labelStart] := labelLen;
      CopyInto(encoded, labelStart + 1, name[labelStart..i]);
      assert encoded[..i + 1] == done + Lead(name[labelStart..i]);
      labelStart := i + 1;
      i := i + 1;
    }
    AllEncoded(name, labelStart, encoded[..labelStart]);
    ghost var body := encoded[..labelStart];
    encoded[labelStart] := 0;
    assert encoded[..labelStart] == body;
    assert encoded[..] == encoded[..labelStart] + [0];
    r := Some(encoded[..]);
  }

  function Remaining(name: bytes, labelStart: nat): seq<bytes> {
    if labelStart > |name| then [] else Split(name[labelStart..])
  }

  /** The labels before labelStart are valid and written; the rest of the text decides the rest. */
  ghost predicate EncodedSoFar(name: bytes, labelStart: nat, written: bytes) {
    && (ValidLabels(Split(name)) <==> ValidLabels(Remaining(name, labelStart)))
    && (ValidLabels(Split(name)) ==> Body(Split(name)) == written + Body(Remaining(name, labelStart)))
  }

  lemma NothingEncoded(name: bytes, written: bytes)
    requires written == []
    ensures EncodedSoFar(name, 0, written)
  {
    assert name[0..] == name;
  }

  lemma AllEncoded(name: bytes, labelStart: nat, written: bytes)
    requires labelStart > |name| && EncodedSoFar(name, labelStart, written)
    ensures ValidLabels(Split(name)) && written == Body(Split(name))
  {
    hide Split;
    assert written + [] == written;
  }

  lemma ValidPrepend(part: bytes, rest: seq<bytes>)
    ensures ValidLabels([part] + rest) <==> 1 <= |part| <= 63 && ValidLabels(rest)
    ensures Body([part] + rest) == Lead(part) + Body(rest)
  {
    hide Lead;
    assert ([part] + rest)[1..] == rest;
    assert part in [part] + rest;
    assert forall p :: p in rest ==> p in [part] + rest;
  }

  lemma SplitStep(text: bytes, i: nat)
    requires i <= |text| && NoDotBefore(text, i) && (i < |text| ==> text[i] == DOT)
    ensures Split(text) == [text[..i]] + if i < |text| then Split(text[i + 1..]) else []
  {
    FirstDotIs(text, i);
    assert text[..|text|] == text;
  }

  lemma SplitOff(name: bytes, labelStart: nat, i: nat, written: bytes)
    requires labelStart <= i <= |name| && (i < |name| ==> name[i] == DOT)
    requires forall k :: labelStart <= k < i ==> name[k] != DOT
    requires EncodedSoFar(name, labelStart, written)
    ensures !(1 <= i - labelStart <= 63) ==> !ValidLabels(Split(name))
    ensures 1 <= i - labelStart <= 63 ==> EncodedSoFar(name, i + 1, written + Lead(name[labelStart..i]))
  {
    hide Split, Body, ValidLabels, Lead, Remaining;
    var part, rest := name[labelStart..i], Remaining(name, i + 1);
    RemainingStep(name, labelStart, i);
    ValidPrepend(part, rest);
    assert written + (Lead(part) + Body(rest)) == written + Lead(part) + Body(rest);
  }

  lemma RemainingStep(name: bytes, labelStart: nat, i: nat)
    requires labelStart <= i <= |name| && (i < |name| ==> name[i] == DOT)
    requires forall k :: labelStart <= k < i ==> name[k] != DOT
    ensures Remaining(name, labelStart) == [name[labelStart..i]] + Remaining(name, i + 1)
  {
    hide Split;
    var text := name[labelStart..];
    assert text[..i - labelStart] == name[labelStart..i];
    SplitStep(text, i - labelStart);
    if i < |name| { assert text[i - labelStart + 1..] == name[i + 1..]; }
  }

  /** Go's copy into a buffer that has room. */
  method CopyInto(dst: array<byte>, offset: nat, src: bytes)
    requires offset + |src| <= dst.Length
    modifies dst
    ensures dst[offset..offset + |src|] == src
    ensures forall k :: 0 <= k < dst.Length && !(offset <= k < offset + |src|) ==> dst[k] == old(dst[k])
  {
    for i := 0 to |src|
      invariant dst[offset..offset + i] == src[..i]
      invariant forall k :: 0 <= k < dst.Length && !(offset <= k < offset + |src|) ==> dst[k] == old(dst[k])
    {
      dst[offset + i] := src[i];
      assert src[..i + 1] == src[..i] + [src[i]];
      assert dst[offset..offset + i + 1] == dst[offset..offset + i] + [src[i]];
    }
    assert src[..|src|] == src;
  }

  /** Writing on at a moving offset. */
  method Append(buf: array<byte>, offset: nat, src: bytes) returns (next: nat)
    requires offset + |src| <= buf.Length
    modifies buf
    ensures next == offset + |src| && buf[..next] == old(buf[..offset]) + src
    ensures forall k :: next <= k < buf.Length ==> buf[k] == old(buf[k])
  {
    CopyInto(buf, offset, src);
    next := offset + |src|;
    assert buf[..offset] == old(buf[..offset]);
    assert buf[..next] == buf[..offset] + buf[offset..next];
  }
}
