/** The 16-bit window arithmetic of one ARQ endpoint. */
module ArqWindow {
  // The data plane as functions on values, from which the lock-protected pieces are built.

  import opened Words

  /** Window sizes as the constructor derives them. The product with 0.8 is computed in
      floating point; for the admitted sizes it truncates to 4 * windowSize / 5. */
  datatype Config = Config(windowSize: nat, receiveWindow: nat, limit: nat)

  /** The clamp both configuration loaders apply: absent means the default, then 1..8000. */
  function ClampWindowSetting(configured: int, default: int): int {
    var v := if configured < 1 then default else configured;
    Max(1, Min(v, 8000))
  }

  function NewConfig(setting: int): Config {
    var w := Max(setting, 300);
    Config(w, Max(w, w * 2), Max(w * 4 / 5, 50))
  }

  /** What the rest of the proof needs from the constructor and the clamp. */
  predicate Sized(c: Config) {
    1 <= c.limit && c.receiveWindow + c.limit + 1 <= 22401 && c.receiveWindow <= 16000
  }

  lemma WindowClampGivesSized(configured: int, default: int)
    ensures Sized(NewConfig(ClampWindowSetting(configured, default)))
    ensures NewConfig(8000) == Config(8000, 16000, 6400)
  {
  }

  /** The sizes the constructor derives, for every setting: a window of at least 300, twice that to receive in, and a
      send limit of four fifths, rounded down. A configured setting reaches it clamped to 1..8000. */
  lemma DerivedSizes(configured: int, default: int)
    requires 1 <= default <= 8000
    ensures var setting := ClampWindowSetting(configured, default); var c := NewConfig(setting);
      && (1 <= configured <= 8000 ==> setting == configured) && (configured < 1 ==> setting == default)
      && (configured > 8000 ==> setting == 8000)
      && 300 <= c.windowSize <= 8000 && (setting >= 300 ==> c.windowSize == setting)
      && (setting < 300 ==> c.windowSize == 300)
      && c.receiveWindow == c.windowSize + c.windowSize
      && 5 * c.limit <= 4 * c.windowSize < 5 * c.limit + 5
  {
  }

  datatype Sender = Sender(sndNxt: uint16, sndBuf: map<uint16, bytes>)
  datatype Receiver = Receiver(rcvNxt: uint16, rcvBuf: map<uint16, bytes>)

  /** ioLoop: give the chunk the next number and keep it until acknowledged. */
  function Append(s: Sender, data: bytes): Sender {
    Sender(Add16(s.sndNxt, 1), s.sndBuf[s.sndNxt := data])
  }

  /** ReceiveAck: forget the acknowledged chunk. */
  function Acked(s: Sender, sn: uint16): Sender {
    s.(sndBuf := s.sndBuf - {sn})
  }

  datatype Verdict = Duplicate | OutsideWindow | BufferFull | Buffered | AlreadyBuffered {
    predicate Acknowledged() { Duplicate? || Buffered? || AlreadyBuffered? }
  }

  /** processReceivedData: what happens to a packet with number sn. */
  function Classify(r: Receiver, window: nat, sn: uint16): Verdict {
    var diff := Sub16(sn, r.rcvNxt);
    if diff >= 32768 then Duplicate
    else if diff > window then OutsideWindow
    else if sn in r.rcvBuf then AlreadyBuffered
    else if |r.rcvBuf| >= window && sn != r.rcvNxt then BufferFull
    else Buffered
  }

  function Received(r: Receiver, window: nat, sn: uint16, data: bytes): Receiver {
    if Classify(r, window, sn).Buffered? then r.(rcvBuf := r.rcvBuf[sn := data]) else r
  }

  /** writeLoop: move the contiguous run that starts at rcvNxt out of the buffer. */
  function Drained(r: Receiver): (Receiver, seq<bytes>)
    decreases r.rcvBuf.Keys
  {
    if r.rcvNxt !in r.rcvBuf then (r, [])
    else
      var next := Receiver(Add16(r.rcvNxt, 1), r.rcvBuf - {r.rcvNxt});
      assert r.rcvNxt in r.rcvBuf.Keys && next.rcvBuf.Keys == r.rcvBuf.Keys - {r.rcvNxt};
      var (last, rest) := Drained(next);
      (last, [r.rcvBuf[r.rcvNxt]] + rest)
  }

  // ----- the 16-bit numbers against unbounded indices -----

  /** The index below n of the newest packet that carries number sn (negative: none). */
  function NewestBelow(n: nat, sn: uint16): int {
    n - 1 - (n - 1 - sn) % M16
  }

  /** The first index at or after r that carries number sn. */
  function AtOrAfter(r: nat, sn: uint16): nat {
    r + (sn - r) % M16
  }

  lemma NumberSteps(n: nat)
    ensures Add16(Seq16(n), 1) == Seq16(n + 1)
    ensures n > 0 ==> Sub16(Seq16(n), 1) == Seq16(n - 1)
  {
  }

  lemma NewestBelowSteps(n: nat, sn: uint16)
    ensures NewestBelow(n + 1, sn) == if sn == Seq16(n) then n else NewestBelow(n, sn)
  {
  }

  lemma NewestBelowNumber(n: nat, sn: uint16)
    ensures NewestBelow(n, sn) < n && (NewestBelow(n, sn) >= 0 ==> Seq16(NewestBelow(n, sn)) == sn)
  {
  }

  /** An index below n is the newest one with its number iff it is at most a cycle old. */
  lemma NewestIsItself(n: nat, i: nat)
    requires i < n
    ensures NewestBelow(n, Seq16(i)) == i <==> n - i <= M16
  {
  }

  lemma AtOrAfterSteps(r: nat, sn: uint16)
    ensures sn != Seq16(r) ==> AtOrAfter(r, sn) > r && AtOrAfter(r + 1, sn) == AtOrAfter(r, sn)
    ensures AtOrAfter(r, Seq16(r)) == r
  {
  }

  /** The code's forward distance from rcvNxt, read as an index. */
  lemma DistanceIsIndex(r: nat, sn: uint16)
    ensures Sub16(sn, Seq16(r)) == AtOrAfter(r, sn) - r
    ensures Seq16(AtOrAfter(r, sn)) == sn
  {
    var cycles, rest := r / M16, sn - r % M16;
    assert sn - r == rest - cycles * M16;
    assert (sn - r) % M16 == if rest >= 0 then rest else rest + M16;
  }

  lemma AheadIsItself(r: nat, i: nat)
    requires r <= i < r + M16
    ensures AtOrAfter(r, Seq16(i)) == i
  {
  }

  /** Two indices with the same number, less than a cycle apart, are equal. */
  lemma SameNumberSameIndex(i: nat, j: nat)
    requires Seq16(i) == Seq16(j) && i < j + M16 && j < i + M16
    ensures i == j
  {
  }

  /** For a packet at most 32768 behind and less than 32768 ahead, the half-range test holds
      exactly for the packets already taken by the write loop. */
  lemma HalfRangeTestIsExact(i: nat, r: nat)
    requires r - 32768 <= i < r + 32768
    ensures Sub16(Seq16(i), Seq16(r)) >= 32768 <==> i < r
    ensures i >= r ==> Sub16(Seq16(i), Seq16(r)) == i - r
  {
  }

  /** An old number lands inside the window exactly in the last stretch of each cycle; the first of these
      stretches begins 65536 - window behind. */
  lemma StaleNumberAliasesExactly(i: nat, r: nat, window: nat)
    requires i < r && window < 32768
    ensures Sub16(Seq16(i), Seq16(r)) <= window <==> (r - i - 1) % M16 >= M16 - window - 1
    ensures r - i <= M16 ==> ((r - i - 1) % M16 >= M16 - window - 1 <==> r - i >= M16 - window)
    ensures (r - i - 1) % M16 >= M16 - window - 1 ==> r - i >= M16 - window
  {
  }

  /** What the forward distance says about a packet less than 65536 - window behind and not too far ahead. */
  lemma DistanceOfYoung(i: nat, r: nat, window: nat)
    requires r - i < M16 - window && i - r < 32768 && window < 32768
    ensures var diff := Sub16(Seq16(i), Seq16(r));
      && (diff >= 32768 <==> r - 32768 <= i < r)
      && (diff <= window <==> r <= i <= r + window)
      && (Seq16(i) == Seq16(r) <==> i == r)
  {
  }
}
