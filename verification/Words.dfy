/** Machine words, byte strings and the result types shared by every module. */
module Words {

  const M16: nat := 0x1_0000

  type byte = x: int | 0 <= x < 256
  type uint16 = x: int | 0 <= x < 0x1_0000
  type bytes = seq<byte>

  datatype Option<+T> = None | Some(value: T)

  function Max(a: int, b: int): int { if a < b then b else a }
  function Min(a: int, b: int): int { if a < b then a else b }

  /** Go's `a + b` on uint16. */
  function Add16(a: uint16, b: int): uint16 {
    (a + b) % M16
  }

  /** Go's `a - b` on uint16: the forward distance from b to a. */
  function Sub16(a: uint16, b: uint16): uint16 {
    (a - b) % M16
  }

  /** The wire number of the packet with unbounded index i. */
  function Seq16(i: nat): uint16 {
    i % M16
  }

  /** Big-endian, as every wire format here writes it. */
  function Bytes16(w: uint16): (b: bytes)
    ensures |b| == 2
  {
    [w / 256, w % 256]
  }

  /** Bytes of a list of chunks, in order. */
  function Flatten(chunks: seq<bytes>): bytes {
    if chunks == [] then [] else chunks[0] + Flatten(chunks[1..])
  }

  lemma {:induction false} FlattenConcat(a: seq<bytes>, b: seq<bytes>)
    ensures Flatten(a + b) == Flatten(a) + Flatten(b)
  {
    if a == [] {
      assert a + b == b;
    } else {
      assert (a + b)[1..] == a[1..] + b;
      FlattenConcat(a[1..], b);
    }
  }

  /** ASCII letters in lower case; every other byte as it is. */
  function LowerByte(ch: byte): byte {
    if 65 <= ch <= 90 then ch + 32 else ch
  }

  function Lower(s: bytes): (r: bytes)
    ensures |r| == |s|
  {
    if s == [] then [] else [LowerByte(s[0])] + Lower(s[1..])
  }

  lemma {:induction false} LowerConcat(a: bytes, b: bytes)
    ensures Lower(a + b) == Lower(a) + Lower(b)
  {
    if a == [] {
      assert a + b == b;
    } else {
      assert (a + b)[1..] == a[1..] + b;
      LowerConcat(a[1..], b);
    }
  }

  lemma Regroup<T>(a: seq<T>, b: seq<T>, c: seq<T>)
    ensures a + (b + c) == a + b + c
  {
  }

  lemma FourParts<T>(a: seq<T>, b: seq<T>, c: seq<T>, d: seq<T>)
    ensures a + b + c + d == a + b + (c + d) == a + (b + c + d)
  {
  }
}
