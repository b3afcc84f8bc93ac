/** The lower-case base-36 codec of tunnel frames: blocks of 7 bytes become 11 characters, shorter last
    blocks 2 to 10. */
module Base36 {
  import opened Words

  function Pow(b: nat, e: nat): nat {
    if e == 0 then 1 else b * Pow(b, e - 1)
  }

  /** Characters per number of bytes in a block. */
  function CharsOf(bytes_: nat): nat
    requires bytes_ <= 7
  {
    match bytes_
    case 0 => 0
    case 1 => 2
    case 2 => 4
    case 3 => 5
    case 4 => 7
    case 5 => 8
    case 6 => 10
    case 7 => 11
  }

  /** Bytes per number of characters in a block; 0 marks a length no block has. */
  function BytesOf(chars: nat): nat
    requires chars <= 11
  {
    match chars
    case 2 => 1
    case 4 => 2
    case 5 => 3
    case 7 => 4
    case 8 => 5
    case 10 => 6
    case 11 => 7
    case _ => 0
  }

  function EncodedLen(n: nat): nat {
    n / 7 * 11 + CharsOf(n % 7)
  }

  function DecodedLen(n: nat): Option<nat> {
    if n % 11 != 0 && BytesOf(n % 11) == 0 then None else Some(n / 11 * 7 + BytesOf(n % 11))
  }

  /** The two length functions are inverse: what the encoder produces decodes to the length it came from, and
      only such lengths decode at all. */
  lemma LengthsAreInverse(n: nat, m: nat)
    ensures DecodedLen(EncodedLen(n)) == Some(n)
    ensures DecodedLen(m) == Some(n) <==> m == EncodedLen(n)
  {
    var q, r := n / 7, n % 7;
    assert EncodedLen(n) / 11 == q && EncodedLen(n) % 11 == CharsOf(r);
  }

  function Digit(d: nat): byte
    requires d < 36
  {
    if d < 10 then 48 + d else 87 + d
  }

  /** 255 for a byte that is no digit. */
  function DigitValue(ch: byte): byte {
    if 48 <= ch <= 57 then ch - 48
    else if 97 <= ch <= 122 then ch - 87
    else if 65 <= ch <= 90 then ch - 55
    else 255
  }

  // ----- blocks -----

  /** Big-endian value of a byte string. */
  function Value(b: bytes): nat {
    if b == [] then 0 else Value(b[..|b| - 1]) * 256 + b[|b| - 1]
  }

  /** The n low bytes of a value, big-endian; higher bytes are cut off. */
  function LowBytes(v: nat, n: nat): (b: bytes)
    ensures |b| == n
  {
    if n == 0 then [] else LowBytes(v / 256, n - 1) + [v % 256]
  }

  function BlockChars(v: nat, count: nat): (s: bytes)
    ensures |s| == count
  {
    if count == 0 then [] else BlockChars(v / 36, count - 1) + [Digit(v % 36)]
  }

  function BlockValue(s: bytes): Option<nat> {
    if s == [] then Some(0)
    else match BlockValue(s[..|s| - 1])
      case None => None
      case Some(v) => if DigitValue(s[|s| - 1]) == 255 then None else Some(v * 36 + DigitValue(s[|s| - 1]))
  }

  lemma {:induction false} ValueBound(b: bytes)
    ensures Value(b) < Pow(256, |b|)
  {
    if b != [] { ValueBound(b[..|b| - 1]); }
  }

  lemma {:induction false} LowBytesOfValue(b: bytes)
    ensures LowBytes(Value(b), |b|) == b
  {
    if b != [] {
      LowBytesOfValue(b[..|b| - 1]);
      assert b == b[..|b| - 1] + [b[|b| - 1]];
    }
  }

  lemma {:induction false} ValueOfLowBytes(v: nat, n: nat)
    ensures Value(LowBytes(v, n)) == v <==> v < Pow(256, n)
    ensures Value(LowBytes(v, n)) <= v
  {
    if n > 0 {
      ValueOfLowBytes(v / 256, n - 1);
      var low := LowBytes(v / 256, n - 1);
      assert LowBytes(v, n)[..n - 1] == low;
      assert v / 256 < Pow(256, n - 1) <==> v < 256 * Pow(256, n - 1);
    }
  }

  lemma DigitRoundTrip(d: nat, ch: byte)
    ensures d < 36 ==> DigitValue(Digit(d)) == d
    ensures DigitValue(ch) != 255 ==> DigitValue(ch) < 36 && Digit(DigitValue(ch)) == LowerByte(ch)
    ensures DigitValue(LowerByte(ch)) == DigitValue(ch)
  {
  }

  /** Reading back written characters gives the value whenever it fits the block. */
  lemma {:induction false} BlockRoundTrip(v: nat, count: nat)
    requires v < Pow(36, count)
    ensures BlockValue(BlockChars(v, count)) == Some(v)
  {
    if count > 0 {
      assert v / 36 < Pow(36, count - 1);
      BlockRoundTrip(v / 36, count - 1);
      assert BlockChars(v, count)[..count - 1] == BlockChars(v / 36, count - 1);
    }
  }

  /** Writing a value that was read gives the characters back, in lower case. */
  lemma {:induction false} BlockReadBack(s: bytes)
    requires BlockValue(s).Some?
    ensures BlockValue(s).value < Pow(36, |s|)
    ensures BlockChars(BlockValue(s).value, |s|) == Lower(s)
  {
    if s != [] {
      var init, last := s[..|s| - 1], s[|s| - 1];
      BlockReadBack(init);
      DigitRoundTrip(0, last);
      assert s == init + [last];
      LowerConcat(init, [last]);
      assert Lower([last]) == [LowerByte(last)] + Lower([]);
    }
  }

  lemma {:induction false} BlockIgnoresCase(s: bytes)
    ensures BlockValue(Lower(s)) == BlockValue(s)
  {
    if s != [] {
      var init, last := s[..|s| - 1], s[|s| - 1];
      BlockIgnoresCase(init);
      DigitRoundTrip(0, last);
      assert s == init + [last];
      LowerConcat(init, [last]);
      assert Lower([last]) == [LowerByte(last)] + Lower([]);
      assert Lower(s)[..|s| - 1] == Lower(init);
    }
  }

  /** Every block of b bytes fits its characters, and no block value leaves a 64-bit word. */
  lemma BlockFits(b: nat)
    requires b <= 7
    ensures Pow(256, b) <= Pow(36, CharsOf(b)) <= Pow(36, 11) < 0x1_0000_0000_0000_0000
  {
    Powers36();
    assert Pow(256, 0) == 1 && Pow(256, 1) == 256 * Pow(256, 0) && Pow(256, 2) == 256 * Pow(256, 1);
    assert Pow(256, 3) == 256 * Pow(256, 2) && Pow(256, 4) == 256 * Pow(256, 3) && Pow(256, 5) == 256 * Pow(256, 4);
    assert Pow(256, 6) == 256 * Pow(256, 5) && Pow(256, 7) == 256 * Pow(256, 6);
  }

  lemma Powers36()
    ensures Pow(36, 0) == 1 && Pow(36, 2) == 1296 && Pow(36, 4) == 1679616 && Pow(36, 5) == 60466176
    ensures Pow(36, 7) == 78364164096 && Pow(36, 8) == 2821109907456
    ensures Pow(36, 10) == 3656158440062976 && Pow(36, 11) == 131621703842267136
  {
    assert Pow(36, 0) == 1 && Pow(36, 1) == 36 * Pow(36, 0) && Pow(36, 2) == 36 * Pow(36, 1);
    assert Pow(36, 3) == 36 * Pow(36, 2) && Pow(36, 4) == 36 * Pow(36, 3) && Pow(36, 5) == 36 * Pow(36, 4);
    assert Pow(36, 6) == 36 * Pow(36, 5) && Pow(36, 7) == 36 * Pow(36, 6) && Pow(36, 8) == 36 * Pow(36, 7);
    assert Pow(36, 9) == 36 * Pow(36, 8) && Pow(36, 10) == 36 * Pow(36, 9) && Pow(36, 11) == 36 * Pow(36, 10);
  }

  // ----- whole strings -----

  function Encode(data: bytes): bytes {
    if |data| >= 7 then BlockChars(Value(data[..7]), 11) + Encode(data[7..])
    else BlockChars(Value(data), CharsOf(|data|))
  }

  /** The length of the first block to decode. */
  function BlockLen(remaining: nat): nat {
    if remaining >= 11 then 11 else remaining
  }

  function Decode(s: bytes): Option<bytes> {
    if s == [] then Some([])
    else if DecodedLen(|s|).None? then None
    else
      var n := BlockLen(|s|);
      match (BlockValue(s[..n]), Decode(s[n..]))
      case (Some(v), Some(rest)) => Some(LowBytes(v, BytesOf(n)) + rest)
      case _ => None
  }

  lemma {:induction false} EncodedLength(data: bytes)
    ensures |Encode(data)| == EncodedLen(|data|)
  {
    if |data| >= 7 {
      EncodedLength(data[7..]);
      assert (|data| - 7) / 7 == |data| / 7 - 1 && (|data| - 7) % 7 == |data| % 7;
    }
  }

  lemma DecodedLenStep(n: nat)
    requires n >= 11
    ensures DecodedLen(n - 11).Some? <==> DecodedLen(n).Some?
    ensures DecodedLen(n).Some? ==> DecodedLen(n).value == 7 + DecodedLen(n - 11).value
  {
  }

  lemma DecodedLenLast(n: nat)
    requires 0 < n < 11 && DecodedLen(n).Some?
    ensures DecodedLen(n).value == BytesOf(n) && DecodedLen(0) == Some(0)
    ensures BytesOf(n) > 0 && CharsOf(BytesOf(n)) == n
  {
    assert n % 11 == n && n / 11 == 0;
    if n == 2 {} else if n == 4 {} else if n == 5 {} else if n == 7 {} else if n == 8 {} else {}
  }

  /** A block of up to 7 bytes comes back from its characters. */
  lemma BlockRecovers(block: bytes)
    requires |block| <= 7
    ensures BlockValue(BlockChars(Value(block), CharsOf(|block|))) == Some(Value(block))
    ensures LowBytes(Value(block), |block|) == block
  {
    hide Pow, Value, LowBytes, BlockChars, BlockValue;
    ValueBound(block);
    BlockFits(|block|);
    BlockRoundTrip(Value(block), CharsOf(|block|));
    LowBytesOfValue(block);
  }

  lemma DecodeFirst(first: bytes, rest: bytes)
    requires first != [] && |first| <= 11 && (rest != [] ==> |first| == 11) && DecodedLen(|first + rest|).Some?
    ensures Decode(first + rest) == match (BlockValue(first), Decode(rest))
      case (Some(v), Some(tail)) => Some(LowBytes(v, BytesOf(|first|)) + tail)
      case _ => None
  {
    hide BlockValue, LowBytes, DecodedLen;
    var s := first + rest;
    assert BlockLen(|s|) == |first|;
    assert s[..|first|] == first && s[|first|..] == rest;
  }

  /** Base-36 round trip, for every byte string. */
  lemma {:induction false} DecodeEncode(data: bytes)
    ensures Decode(Encode(data)) == Some(data)
  {
    hide Decode, BlockValue, BlockChars, Value, LowBytes, CharsOf, BytesOf, EncodedLen, DecodedLen;
    EncodedLength(data);
    LengthsAreInverse(|data|, 0);
    if |data| < 7 { BlockLengths(|data|); } else { BlockLengths(7); }
    if |data| >= 7 {
      var block, rest := data[..7], data[7..];
      DecodeEncode(rest);
      BlockRecovers(block);
      DecodeFirst(BlockChars(Value(block), 11), Encode(rest));
      assert data == block + rest;
    } else if data != [] {
      BlockRecovers(data);
      DecodeNothing();
      DecodeFirst(BlockChars(Value(data), CharsOf(|data|)), []);
      assert BlockChars(Value(data), CharsOf(|data|)) + [] == Encode(data);
      assert data + [] == data;
    } else {
      DecodeNothing();
      assert Encode(data) == [];
    }
  }

  lemma BlockLengths(b: nat)
    requires b <= 7
    ensures CharsOf(b) <= 11 && BytesOf(CharsOf(b)) == b && (b > 0 ==> CharsOf(b) > 0) && CharsOf(7) == 11
    ensures CharsOf(0) == 0
  {
  }

  lemma NothingDecodesToNothing()
    ensures DecodedLen(0) == Some(0)
  {
  }

  lemma DecodeNothing()
    ensures Decode([]) == Some([])
  {
  }

  /** Decoding does not depend on the case of the letters. */
  lemma {:induction false} DecodeIgnoresCase(s: bytes)
    ensures Decode(Lower(s)) == Decode(s)
  {
    if s != [] {
      var n := BlockLen(|s|);
      assert s == s[..n] + s[n..];
      LowerConcat(s[..n], s[n..]);
      assert Lower(s)[..n] == Lower(s[..n]) && Lower(s)[n..] == Lower(s[n..]);
      BlockIgnoresCase(s[..n]);
      DecodeIgnoresCase(s[n..]);
    }
  }

  /** Every block's value fits the bytes it decodes to. */
  ghost predicate Canonical(s: bytes) {
    s == [] ||
    (var n := BlockLen(|s|);
     BlockValue(s[..n]).Some? && BlockValue(s[..n]).value < Pow(256, BytesOf(n)) && Canonical(s[n..]))
  }

  lemma BlockCanonicalIff(s: bytes)
    requires 0 < |s| <= 11 && BlockValue(s).Some? && BytesOf(|s|) > 0
    ensures BlockChars(Value(LowBytes(BlockValue(s).value, BytesOf(|s|))), |s|) == Lower(s)
       <==> BlockValue(s).value < Pow(256, BytesOf(|s|))
  {
    var v, low := BlockValue(s).value, Value(LowBytes(BlockValue(s).value, BytesOf(|s|)));
    BlockReadBack(s);
    ValueOfLowBytes(v, BytesOf(|s|));
    BlockRoundTrip(v, |s|);
    BlockRoundTrip(low, |s|);
  }

  /** Such a string: "zz" stands for 1295 and decodes to the low byte of it, which encodes to "0f". */
  lemma SilentlyCut()
    ensures Decode([122, 122]) == Some([15]) && Encode([15]) == [48, 102]
  {
    var s: bytes := [122, 122];
    assert s[..1] == [122] && [122][..0] == [];
    assert BlockValue([]) == Some(0) && BlockValue([122]) == Some(35) && BlockValue(s) == Some(1295);
    assert LowBytes(5, 0) == [] && LowBytes(1295, 1) == [15];
    assert s[..2] == s && s[2..] == [] && Decode([]) == Some([]);
    assert BlockLen(2) == 2 && BytesOf(2) == 1 && DecodedLen(2) == Some(1);
    assert LowBytes(1295, 1) + [] == [15];
    assert Decode(s) == Some([15]);
    EncodesFifteen();
  }

  lemma EncodesFifteen()
    ensures Encode([15]) == [48, 102]
  {
    assert [15][..0] == [] && Value([]) == 0 && Value([15]) == 15;
    assert BlockChars(0, 0) == [] && BlockChars(0, 1) == [48] && BlockChars(15, 2) == [48, 102];
  }

  /** A string that decodes is the (lower-cased) encoding of its decoding exactly when it is canonical:
      otherwise the decoder silently cuts the high bytes of some block off. */
  lemma {:induction false} EncodeDecodeIff(s: bytes)
    requires Decode(s).Some?
    ensures Encode(Decode(s).value) == Lower(s) <==> Canonical(s)
    ensures |s| < 11 ==> |Decode(s).value| == BytesOf(|s|)
  {
    hide BlockValue, BlockChars, Value, LowBytes, Pow, Lower;
    if s == [] {
      LowerConcat([], []);
      EncodedLength([]);
    } else {
      var n := BlockLen(|s|);
      var first, rest := s[..n], s[n..];
      var v, tail := BlockValue(first).value, Decode(rest).value;
      var head := LowBytes(v, BytesOf(n));
      assert s == first + rest;
      LowerConcat(first, rest);
      if n == 11 {
        EncodeDecodeIff(rest);
        BlockCanonicalIff(first);
        assert (head + tail)[..7] == head && (head + tail)[7..] == tail;
        SplitEqual(BlockChars(Value(head), 11), Encode(tail), Lower(first), Lower(rest));
      } else {
        LastBlockIff(s);
      }
    }
  }

  lemma SplitEqual(a: bytes, b: bytes, c: bytes, d: bytes)
    requires |a| == |c|
    ensures a + b == c + d <==> a == c && b == d
  {
    assert (a + b)[..|a|] == a && (a + b)[|a|..] == b && (c + d)[..|a|] == c && (c + d)[|a|..] == d;
  }

  lemma LastBlockDecodes(s: bytes)
    requires 0 < |s| < 11 && Decode(s).Some?
    ensures BytesOf(|s|) > 0 && CharsOf(BytesOf(|s|)) == |s| && BlockValue(s).Some?
    ensures Decode(s).value == LowBytes(BlockValue(s).value, BytesOf(|s|))
    ensures Canonical(s) <==> BlockValue(s).value < Pow(256, BytesOf(|s|))
  {
    hide BlockValue, LowBytes, Pow, DecodedLen;
    DecodedLenLast(|s|);
    assert s[..|s|] == s && s[|s|..] == [];
    var head := LowBytes(BlockValue(s).value, BytesOf(|s|));
    assert head + [] == head;
  }

  lemma LastBlockIff(s: bytes)
    requires 0 < |s| < 11 && Decode(s).Some?
    ensures Encode(Decode(s).value) == Lower(s) <==> Canonical(s)
    ensures |Decode(s).value| == BytesOf(|s|)
  {
    hide BlockValue, BlockChars, Value, LowBytes, Pow, Lower, Decode, Canonical, BytesOf, CharsOf;
    LastBlockDecodes(s);
    BlockCanonicalIff(s);
    assert BytesOf(|s|) < 7 by { ShortBlock(|s|); }
  }

  lemma ShortBlock(n: nat)
    requires n < 11
    ensures BytesOf(n) < 7
  {
  }

  // ----- the code -----

  /** newLowerBase36DecodeMap */
  method DecodeMap() returns (table: array<byte>)
    ensures fresh(table) && table.Length == 256
    ensures forall ch: byte :: table[ch] == DigitValue(ch)
  {
    table := new byte[256](_ => 255);
    for i := 0 to 36
      invariant forall ch: byte :: table[ch] == if DigitValue(ch) < i then DigitValue(ch) else 255
    {
      var ch := Digit(i);
      table[ch] := i;
      if 97 <= ch <= 122 {
        table[ch - 32] := i;
      }
    }
  }

  /** writeBase36Block: fills count characters from the last one down. */
  method WriteBlock(dst: array<byte>, offset: nat, val: nat, count: nat)
    requires offset + count <= dst.Length
    modifies dst
    ensures dst[offset..offset + count] == BlockChars(val, count)
    ensures forall k :: 0 <= k < dst.Length && !(offset <= k < offset + count) ==> dst[k] == old(dst[k])
  {
    var v := val;
    var i := count;
    while i > 0
      invariant 0 <= i <= count
      invariant BlockChars(val, count) == BlockChars(v, i) + dst[offset + i..offset + count]
      invariant forall k :: 0 <= k < dst.Length && !(offset <= k < offset + count) ==> dst[k] == old(dst[k])
    {
      i := i - 1;
      ghost var done := dst[offset + i + 1..offset + count];
      dst[offset + i] := Digit(v % 36);
      assert dst[offset + i..offset + count] == [Digit(v % 36)] + done;
      v := v / 36;
    }
  }

  /** EncodeLowerBase36To: writes inside dst only, and says how much. */
  method EncodeTo(dst: array<byte>, data: bytes) returns (n: nat)
    requires dst.Length >= EncodedLen(|data|)
    modifies dst
    ensures n == EncodedLen(|data|) && dst[..n] == Encode(data)
    ensures forall k :: n <= k < dst.Length ==> dst[k] == old(dst[k])
  {
    hide EncodedLen, BlockChars, Value, Encode, CharsOf;
    var src := data;
    n := 0;
    EncodedLength(data);
    assert [] + Encode(data) == Encode(data);
    while |src| >= 7
      invariant n + |Encode(src)| == |Encode(data)| <= dst.Length
      invariant dst[..n] + Encode(src) == Encode(data)
      invariant forall k :: n <= k < dst.Length ==> dst[k] == old(dst[k])
    {
      EncodeFirst(src, dst[..n]);
      n := PutBlock(dst, n, Value(src[..7]), 11);
      src := src[7..];
    }
    EncodeLast(src, dst[..n]);
    if |src| > 0 {
      n := PutBlock(dst, n, Value(src), CharsOf(|src|));
    }
  }

  /** A block at the moving end of the output. */
  method PutBlock(dst: array<byte>, offset: nat, val: nat, count: nat) returns (next: nat)
    requires offset + count <= dst.Length
    modifies dst
    ensures next == offset + count && dst[..next] == old(dst[..offset]) + BlockChars(val, count)
    ensures forall k :: next <= k < dst.Length ==> dst[k] == old(dst[k])
  {
    hide BlockChars;
    ghost var done := dst[..offset];
    WriteBlock(dst, offset, val, count);
    next := offset + count;
    assert dst[..offset] == done;
    assert dst[..next] == dst[..offset] + dst[offset..next];
  }

  lemma EncodeFirst(src: bytes, done: bytes)
    requires |src| >= 7
    ensures done + Encode(src) == done + BlockChars(Value(src[..7]), 11) + Encode(src[7..])
    ensures |Encode(src)| == 11 + |Encode(src[7..])|
  {
    hide BlockChars, Value;
  }

  lemma EncodeLast(src: bytes, done: bytes)
    requires |src| < 7
    ensures Encode(src) == BlockChars(Value(src), CharsOf(|src|)) && |Encode(src)| == CharsOf(|src|)
    ensures src == [] ==> Encode(src) == [] && done + Encode(src) == done
  {
    hide Value;
    assert done + [] == done;
  }

  /** readBase36Block: the accumulator never leaves a 64-bit word. */
  method ReadBlock(table: array<byte>, s: bytes) returns (r: Option<nat>)
    requires table.Length == 256 && (forall ch: byte :: table[ch] == DigitValue(ch)) && |s| <= 11
    ensures r == BlockValue(s)
  {
    hide Pow, DigitValue;
    var val: nat := 0;
    for i := 0 to |s|
      invariant BlockValue(s[..i]) == Some(val)
    {
      assert s[..i + 1][..i] == s[..i];
      var digit: nat := table[s[i]];
      if digit == 255 {
        BadDigit(s, i + 1);
        return None;
      }
      NoOverflow(s[..i + 1]);
      assert val * 36 + digit < 0x1_0000_0000_0000_0000;
      val := val * 36 + digit;
    }
    assert s[..|s|] == s;
    r := Some(val);
  }

  lemma NoOverflow(s: bytes)
    requires BlockValue(s).Some? && |s| <= 11
    ensures BlockValue(s).value < 0x1_0000_0000_0000_0000
  {
    BlockReadBack(s);
    PowGrows(|s|, 11);
    Powers36();
  }

  lemma {:induction false} BadDigit(s: bytes, n: nat)
    requires n <= |s| && BlockValue(s[..n]).None?
    ensures BlockValue(s).None?
    decreases |s| - n
  {
    if n < |s| {
      assert s[..n + 1][..n] == s[..n];
      BadDigit(s, n + 1);
    } else {
      assert s[..n] == s;
    }
  }

  lemma {:induction false} PowGrows(a: nat, b: nat)
    requires a <= b
    ensures Pow(36, a) <= Pow(36, b)
  {
    if a < b { PowGrows(a, b - 1); }
  }

  /** DecodeLowerBase36: every byte of the output is written once, the last byte of each block first. */
  method DecodeBytes(s: bytes) returns (r: Option<bytes>)
    ensures r == Decode(s)
  {
    hide Decode, DecodedLen, DigitValue;
    DecodeNothing();
    if |s| == 0 {
      return Some([]);
    }
    var total := DecodedLen(|s|);
    if total.None? {
      DecodeBadLength(s);
      return None;
    }
    var table := DecodeMap();
    var out := new byte[total.value];
    var ok := DecodeAll(table, s, out);
    r := if ok then Some(out[..]) else None;
  }

  lemma DecodeBadLength(s: bytes)
    requires s != [] && DecodedLen(|s|).None?
    ensures Decode(s).None?
  {
  }

  function Prepend(done: bytes, rest: Option<bytes>): Option<bytes> {
    if rest.None? then None else Some(done + rest.value)
  }

  lemma PrependNothing(rest: Option<bytes>, done: bytes)
    ensures Prepend([], rest) == rest
    ensures Prepend(done, Some([])) == Some(done)
  {
    if rest.Some? { assert [] + rest.value == rest.value; }
    assert done + [] == done;
  }

  lemma PrependBlock(src: bytes, done: bytes, n: nat)
    requires src != [] && DecodedLen(|src|).Some? && n == BlockLen(|src|)
    ensures n <= 11
    ensures BlockValue(src[..n]).None? ==> Prepend(done, Decode(src)) == None
    ensures BlockValue(src[..n]).Some? ==>
      Prepend(done, Decode(src)) ==
      Prepend(done + LowBytes(BlockValue(src[..n]).value, BytesOf(n)), Decode(src[n..]))
  {
    hide Decode, BlockValue, LowBytes, BytesOf, DecodedLen;
    NextBlock(src);
    if BlockValue(src[..n]).Some? && Decode(src[n..]).Some? {
      var head, tail := LowBytes(BlockValue(src[..n]).value, BytesOf(n)), Decode(src[n..]).value;
      assert done + (head + tail) == done + head + tail;
    }
  }

  /** The decoding loop. */
  method DecodeAll(table: array<byte>, s: bytes, out: array<byte>) returns (ok: bool)
    requires table.Length == 256 && table != out && (forall ch: byte :: table[ch] == DigitValue(ch))
    requires DecodedLen(|s|) == Some(out.Length)
    modifies out
    ensures Decode(s) == if ok then Some(out[..]) else None
  {
    hide Decode, DecodedLen, BlockValue, LowBytes, BytesOf, BlockLen, DigitValue, Prepend;
    var offset: nat := 0;
    var src := s;
    PrependNothing(Decode(s), []);
    while |src| > 0
      invariant DecodedLen(|src|).Some? && offset + DecodedLen(|src|).value == out.Length
      invariant forall ch: byte :: table[ch] == DigitValue(ch)
      invariant Decode(s) == Prepend(out[..offset], Decode(src))
    {
      NextBlock(src);
      PrependBlock(src, out[..offset], BlockLen(|src|));
      var n;
      n, ok := DecodeBlock(table, src, out, offset);
      if !ok {
        return;
      }
      offset := offset + BytesOf(n);
      src := src[n..];
    }
    DecodeNothing();
    NothingDecodesToNothing();
    assert src == [];
    assert out[..offset] == out[..];
    PrependNothing(None, out[..]);
    ok := true;
  }

  /** The body of the decoding loop: one block is read and its bytes stored. */
  method DecodeBlock(table: array<byte>, src: bytes, out: array<byte>, offset: nat) returns (n: nat, ok: bool)
    requires table.Length == 256 && table != out && (forall ch: byte :: table[ch] == DigitValue(ch)) && src != []
    requires BlockLen(|src|) <= 11 && offset + BytesOf(BlockLen(|src|)) <= out.Length
    modifies out
    ensures n == BlockLen(|src|) <= |src| && ok == BlockValue(src[..n]).Some?
    ensures ok ==> out[..offset + BytesOf(n)] == old(out[..offset]) + LowBytes(BlockValue(src[..n]).value, BytesOf(n))
  {
    n := BlockLen(|src|);
    var val := ReadBlock(table, src[..n]);
    ok := val.Some?;
    if ok {
      StoreBytes(out, offset, val.value, BytesOf(n));
    }
  }

  /** One step of the decoding loop. */
  lemma NextBlock(src: bytes)
    requires src != [] && DecodedLen(|src|).Some?
    ensures var n := BlockLen(|src|);
      && 0 < n <= |src| && n <= 11 && DecodedLen(|src| - n).Some?
      && DecodedLen(|src|).value == BytesOf(n) + DecodedLen(|src| - n).value
      && Decode(src) == match (BlockValue(src[..n]), Decode(src[n..]))
           case (Some(v), Some(tail)) => Some(LowBytes(v, BytesOf(n)) + tail)
           case _ => None
  {
    hide Decode, BlockValue, LowBytes, BytesOf, DecodedLen;
    var n := BlockLen(|src|);
    assert src == src[..n] + src[n..];
    DecodeFirst(src[..n], src[n..]);
    if n == 11 { DecodedLenStep(|src|); EleventhBlock(); } else { DecodedLenLast(|src|); }
  }

  lemma EleventhBlock()
    ensures BytesOf(11) == 7
  {
  }

  method StoreBytes(out: array<byte>, offset: nat, val: nat, count: nat)
    requires offset + count <= out.Length
    modifies out
    ensures out[offset..offset + count] == LowBytes(val, count)
    ensures forall k :: 0 <= k < out.Length && !(offset <= k < offset + count) ==> out[k] == old(out[k])
  {
    var v := val;
    var i := count;
    while i > 0
      invariant 0 <= i <= count
      invariant LowBytes(val, count) == LowBytes(v, i) + out[offset + i..offset + count]
      invariant forall k :: 0 <= k < out.Length && !(offset <= k < offset + count) ==> out[k] == old(out[k])
    {
      i := i - 1;
      ghost var done := out[offset + i + 1..offset + count];
      out[offset + i] := v % 256;
      assert out[offset + i..offset + count] == [v % 256] + done;
      v := v / 256;
    }
  }
}
