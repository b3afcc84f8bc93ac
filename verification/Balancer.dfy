/** The resolver balancer: which connections are active, and how targets are chosen among them. The lists of active and
    inactive connections are updated in place and proved to partition the connections after every call; the selectors
    work on the active list. */
module Balancer {
  import opened Words

  const M64: nat := 0x1_0000_0000_0000_0000

  datatype Connection = Connection(key: string, valid: bool)

  datatype Stats = Stats(sent: nat, lost: nat, rttSum: nat, rttCount: nat)

  datatype Strategy = RoundRobin | Random | LeastLoss | LowestLatency | Hybrid

  datatype Route = Route(preferred: string, streak: nat, lastFailover: int)

  datatype PacketKind = Data | Resend | Other

  // ----- scores -----

  function LossScore(s: Stats): nat {
    if s.sent < 5 then 200 else if s.lost == 0 then 0 else s.lost * 1000 / s.sent
  }

  function LatencyScore(s: Stats): nat {
    if s.rttCount < 5 then 999000 else s.rttSum / s.rttCount
  }

  function HybridPenalty(s: Stats): nat {
    if LatencyScore(s) == 999000 then 200
    else if LatencyScore(s) / 1000 > 1000 then 1000
    else LatencyScore(s) / 1000
  }

  function Score(strategy: Strategy, s: Stats): nat {
    match strategy
    case LeastLoss => LossScore(s)
    case LowestLatency => LatencyScore(s)
    case _ => LossScore(s) * 8 + HybridPenalty(s)
  }

  predicate HasSignal(strategy: Strategy, s: Stats) {
    match strategy
    case LeastLoss => s.sent >= 5
    case LowestLatency => s.rttCount >= 5
    case _ => s.sent >= 5 || s.rttCount >= 5
  }

  // What the scores measure, in the statistics themselves.

  /** By loss: the share of 1000 packets lost, where fewer than five packets count as 200. */
  lemma LossOrder(a: Stats, b: Stats)
    ensures Score(LeastLoss, a) <= Score(LeastLoss, b) <==>
      if a.sent >= 5 && b.sent >= 5 then a.lost * 1000 / a.sent <= b.lost * 1000 / b.sent
      else if a.sent >= 5 then a.lost * 1000 / a.sent <= 200
      else if b.sent >= 5 then 200 <= b.lost * 1000 / b.sent
      else true
  {
  }

  /** So a connection that goes first never loses more, by a thousandth or beyond, than one that goes after it. */
  lemma NeverLossier(a: Stats, b: Stats)
    requires a.sent >= 5 && b.sent >= 5 && Score(LeastLoss, a) <= Score(LeastLoss, b)
    ensures a.lost * 1000 * b.sent < b.lost * 1000 * a.sent + a.sent * b.sent
  {
    LossOrder(a, b);
    ShareBounds(a.lost * 1000, a.sent, b.lost * 1000, b.sent);
  }

  lemma ShareBounds(x: nat, m: nat, y: nat, n: nat)
    requires m > 0 && n > 0 && x / m <= y / n
    ensures x * n < y * m + m * n
  {
    UpperShare(x, m, n);
    LowerShare(y, n, m);
    Scaled(x / m, y / n, m * n);
    assert n * m == m * n;
  }

  lemma UpperShare(x: nat, m: nat, n: nat)
    requires m > 0 && n > 0
    ensures x * n < (x / m) * (m * n) + m * n
  {
    var p := x / m;
    assert x + 1 <= p * m + m;
    Scaled(x + 1, p * m + m, n);
    assert (p * m + m) * n == p * (m * n) + m * n;
    assert (x + 1) * n == x * n + n;
  }

  lemma LowerShare(y: nat, n: nat, m: nat)
    requires n > 0
    ensures (y / n) * (n * m) <= y * m
  {
    var q := y / n;
    Scaled(q * n, y, m);
    assert q * n * m == q * (n * m);
  }

  lemma Scaled(a: nat, b: nat, k: nat)
    requires a <= b
    ensures a * k <= b * k
  {
  }

  /** By latency: the mean of the round trips in microseconds, where fewer than five count as 999000. */
  lemma LatencyOrder(a: Stats, b: Stats)
    ensures Score(LowestLatency, a) <= Score(LowestLatency, b) <==>
      if a.rttCount >= 5 && b.rttCount >= 5 then a.rttSum / a.rttCount <= b.rttSum / b.rttCount
      else if a.rttCount >= 5 then a.rttSum / a.rttCount <= 999000
      else if b.rttCount >= 5 then 999000 <= b.rttSum / b.rttCount
      else true
  {
  }

  /** A connection goes first only if it is not worse, in what the strategy looks at. */
  predicate NotWorse(strategy: Strategy, a: Stats, b: Stats) {
    match strategy
    case LeastLoss =>
      && (a.sent >= 5 && b.sent >= 5 ==> a.lost * 1000 / a.sent <= b.lost * 1000 / b.sent)
      && (a.sent >= 5 && b.sent < 5 ==> a.lost * 1000 / a.sent <= 200)
      && (a.sent < 5 && b.sent >= 5 ==> 200 <= b.lost * 1000 / b.sent)
    case LowestLatency =>
      && (a.rttCount >= 5 && b.rttCount >= 5 ==> a.rttSum / a.rttCount <= b.rttSum / b.rttCount)
      && (a.rttCount >= 5 && b.rttCount < 5 ==> a.rttSum / a.rttCount <= 999000)
      && (a.rttCount < 5 && b.rttCount >= 5 ==> 999000 <= b.rttSum / b.rttCount)
    case Hybrid =>
      a.sent >= 5 && b.sent >= 5 && a.rttCount >= 5 && b.rttCount >= 5
      && a.rttSum / a.rttCount != 999000 && b.rttSum / b.rttCount != 999000 ==>
        8 * (a.lost * 1000 / a.sent) + Min(a.rttSum / a.rttCount / 1000, 1000)
          <= 8 * (b.lost * 1000 / b.sent) + Min(b.rttSum / b.rttCount / 1000, 1000)
    case _ => true
  }

  lemma LowerIsNotWorse(strategy: Strategy, a: Stats, b: Stats)
    requires Score(strategy, a) <= Score(strategy, b)
    ensures NotWorse(strategy, a, b)
  {
    hide Score;
    LossOrder(a, b);
    LatencyOrder(a, b);
    if a.sent >= 5 && b.sent >= 5 && a.rttCount >= 5 && b.rttCount >= 5
      && a.rttSum / a.rttCount != 999000 && b.rttSum / b.rttCount != 999000 {
      HybridOrder(a, b);
    }
  }

  /** Both: eight times the loss, and the latency in milliseconds up to 1000, where an unknown latency counts as 200. */
  lemma HybridOrder(a: Stats, b: Stats)
    requires a.sent >= 5 && b.sent >= 5 && a.rttCount >= 5 && b.rttCount >= 5
    requires a.rttSum / a.rttCount != 999000 && b.rttSum / b.rttCount != 999000
    ensures Score(Hybrid, a) <= Score(Hybrid, b) <==>
      8 * (a.lost * 1000 / a.sent) + Min(a.rttSum / a.rttCount / 1000, 1000)
        <= 8 * (b.lost * 1000 / b.sent) + Min(b.rttSum / b.rttCount / 1000, 1000)
  {
    HybridIs(a);
    HybridIs(b);
  }

  lemma HybridIs(s: Stats)
    requires s.sent >= 5 && s.rttCount >= 5 && s.rttSum / s.rttCount != 999000
    ensures Score(Hybrid, s) == 8 * (s.lost * 1000 / s.sent) + Min(s.rttSum / s.rttCount / 1000, 1000)
  {
  }

  lemma HybridOfUnknown(s: Stats)
    ensures s.sent < 5 && s.rttCount < 5 ==> Score(Hybrid, s) == 1800
    ensures s.sent >= 5 && s.rttCount < 5 ==> Score(Hybrid, s) == 8 * (s.lost * 1000 / s.sent) + 200
    ensures s.sent < 5 && s.rttCount >= 5 && s.rttSum / s.rttCount != 999000 ==>
      Score(Hybrid, s) == 1600 + Min(s.rttSum / s.rttCount / 1000, 1000)
  {
  }

  /** A mean of exactly 999 milliseconds is taken for an unknown latency. With the same loss the hybrid score follows
      the latency if and only if this does not happen to the slower one while the faster is above 200 milliseconds. */
  lemma HybridFollowsLatencyIff(a: Stats, b: Stats)
    requires a.sent == b.sent && a.lost == b.lost && a.rttCount >= 5 && b.rttCount >= 5
    requires a.rttSum / a.rttCount < b.rttSum / b.rttCount
    ensures Score(Hybrid, a) <= Score(Hybrid, b) <==>
      b.rttSum / b.rttCount != 999000 || a.rttSum / a.rttCount / 1000 <= 200
  {
  }

  /** Ten round trips of 998 milliseconds rank behind ten of 999. */
  lemma SlowerRanksFirst()
    ensures Score(Hybrid, Stats(10, 0, 9990000, 10)) < Score(Hybrid, Stats(10, 0, 9980000, 10))
  {
  }

  /** With the same latency the hybrid score follows the loss. */
  lemma HybridFollowsLoss(a: Stats, b: Stats)
    requires a.rttSum == b.rttSum && a.rttCount == b.rttCount
    ensures Score(Hybrid, a) <= Score(Hybrid, b) <==> Score(LeastLoss, a) <= Score(LeastLoss, b)
  {
  }

  // ----- index lists -----

  predicate Distinct(ids: seq<nat>) {
    forall i, j :: 0 <= i < j < |ids| ==> ids[i] != ids[j]
  }

  /** Distinct members of a list, as many as asked for. */
  predicate Chosen(ids: seq<nat>, pool: seq<nat>, count: nat) {
    |ids| == count && Distinct(ids) && forall x :: x in ids ==> x in pool
  }

  function Normalized(active: nat, required: int): (count: nat)
    ensures count == if active > 0 then Min(Max(required, 1), active) else 0
  {
    if active == 0 then 0
    else
      var wanted := if required <= 0 then 1 else required;
      if wanted > active then active else wanted
  }

  /** The ring position a counter starts at. */
  function Ring(counter: nat, i: nat, n: nat): (pos: nat)
    requires n > 0
    ensures pos < n
  {
    (counter % n + i) % n
  }

  /** Up to a whole turn of the ring no position comes twice. */
  lemma RingIsDistinct(counter: nat, i: nat, j: nat, n: nat)
    requires 0 <= i < j < n
    ensures Ring(counter, i, n) != Ring(counter, j, n)
  {
    var start := counter % n;
    assert start < n;
    WrapOnce(start + i, n);
    WrapOnce(start + j, n);
  }

  lemma WrapOnce(x: nat, n: nat)
    requires 0 < n && x < 2 * n
    ensures x % n == if x < n then x else x - n
  {
    if x >= n {
      assert x == n + (x - n);
      assert x / n == 1;
    }
  }

  /** A later call goes on where an earlier one stopped, as long as the 64-bit counter did not wrap. */
  lemma RingGoesOn(counter: nat, count: nat, i: nat, n: nat)
    requires n > 0 && counter + count < M64
    ensures Ring((counter + count) % M64, i, n) == Ring(counter, count + i, n)
  {
    var a, b := counter + count, counter % n + count;
    assert a % n == b % n by {
      assert a == b + n * (counter / n);
      ModPlus(b, counter / n, n);
    }
    ModAdd(a, i, n);
    ModAdd(b, i, n);
  }

  lemma {:induction false} ModPlus(b: nat, k: nat, n: nat)
    requires n > 0
    ensures (b + n * k) % n == b % n
  {
    if k > 0 {
      ModPlus(b, k - 1, n);
      assert b + n * k == b + n * (k - 1) + n;
      StepMod(b + n * (k - 1), n);
    }
  }

  lemma StepMod(x: nat, n: nat)
    requires n > 0
    ensures (x + n) % n == x % n
  {
    var q, r := x / n, x % n;
    assert x + n == n * (q + 1) + r;
    UniqueMod(x + n, q + 1, r, n);
  }

  lemma UniqueMod(x: nat, q: nat, r: nat, n: nat)
    requires n > 0 && x == n * q + r && r < n
    ensures x % n == r
  {
    var d := x / n - q;
    assert n * d == r - x % n;
  }

  lemma ModAdd(a: nat, i: nat, n: nat)
    requires n > 0
    ensures (a % n + i) % n == (a + i) % n
  {
    assert a + i == (a % n + i) + n * (a / n);
    ModPlus(a % n + i, a / n, n);
  }

  // ----- the state -----

  /** Active and inactive indices partition the connections, active exactly the valid ones; a valid connection is
      the one its key leads to. */
  ghost predicate Partitioned(connections: seq<Connection>, index: map<string, nat>, active: seq<nat>,
      inactive: seq<nat>)
  {
    && Distinct(active) && Distinct(inactive)
    && (forall i :: i in active <==> 0 <= i < |connections| && connections[i].valid)
    && (forall i :: i in inactive <==> 0 <= i < |connections| && !connections[i].valid)
    && (forall k :: k in index ==> index[k] < |connections| && connections[index[k]].key == k)
    && (forall i :: 0 <= i < |connections| ==> connections[i].key != "" && connections[i].key in index)
    && (forall i :: 0 <= i < |connections| && connections[i].valid ==> index[connections[i].key] == i)
  }

  /** Active connections have different keys. */
  lemma ActiveKeysDiffer(connections: seq<Connection>, index: map<string, nat>, active: seq<nat>, inactive: seq<nat>,
                         i: nat, j: nat)
    requires Partitioned(connections, index, active, inactive) && i in active && j in active
    ensures i < |connections| && j < |connections|
    ensures connections[i].key == connections[j].key ==> i == j
  {
  }

  lemma PartitionCounts(connections: seq<Connection>, index: map<string, nat>, active: seq<nat>, inactive: seq<nat>)
    requires Partitioned(connections, index, active, inactive)
    ensures |active| + |inactive| == |connections|
  {
    var all := active + inactive;
    forall i, j | 0 <= i < j < |all|
      ensures all[i] != all[j]
    {
      if i < |active| <= j {
        assert all[i] in active && all[j] in inactive;
      }
    }
    DistinctSize(all, |connections|);
  }

  /** A list of different numbers that is exactly those below n has n of them. */
  lemma {:induction false} DistinctSize(ids: seq<nat>, n: nat)
    requires Distinct(ids) && forall x :: x in ids <==> 0 <= x < n
    ensures |ids| == n
  {
    if n == 0 {
      assert forall k :: 0 <= k < |ids| ==> ids[k] in ids;
    } else {
      assert n - 1 in ids;
      var k :| 0 <= k < |ids| && ids[k] == n - 1;
      var rest := ids[..k] + ids[k + 1..];
      assert forall x :: x in rest ==> x in ids && x != n - 1;
      forall x: nat | x < n - 1
        ensures x in rest
      {
        assert x in ids;
        var j :| 0 <= j < |ids| && ids[j] == x;
        assert x == if j < k then rest[j] else rest[j - 1];
      }
      DistinctSize(rest, n - 1);
    }
  }

  /** removeActiveIndexLocked and removeInactiveIndexLocked: the last entry takes the place of the removed one. */
  method RemoveIndex(ids: seq<nat>, idx: nat) returns (r: seq<nat>)
    requires Distinct(ids)
    ensures Distinct(r) && forall x :: x in r <==> x in ids && x != idx
  {
    r := ids;
    for i := 0 to |ids|
      invariant r == ids && idx !in ids[..i]
    {
      if ids[i] == idx {
        r := ids[i := ids[|ids| - 1]][..|ids| - 1];
        TakenOut(ids, i);
        return;
      }
      assert ids[..i + 1] == ids[..i] + [ids[i]];
    }
    assert ids[..|ids|] == ids;
  }

  lemma TakenOut(ids: seq<nat>, i: nat)
    requires Distinct(ids) && i < |ids|
    ensures var r := ids[i := ids[|ids| - 1]][..|ids| - 1];
      Distinct(r) && forall x :: x in r <==> x in ids && x != ids[i]
  {
    var n := |ids| - 1;
    var r := ids[i := ids[n]][..n];
    forall x | x in ids && x != ids[i]
      ensures x in r
    {
      var k :| 0 <= k < |ids| && ids[k] == x;
      if k == n { assert i < n && r[i] == x; } else { assert r[k] == x; }
    }
    forall x | x in r
      ensures x in ids && x != ids[i]
    {
      var k :| 0 <= k < n && r[k] == x;
    }
  }

  /** addActiveIndexLocked and addInactiveIndexLocked */
  method AddIndex(ids: seq<nat>, idx: nat) returns (r: seq<nat>)
    requires Distinct(ids)
    ensures Distinct(r) && forall x :: x in r <==> x in ids || x == idx
  {
    for i := 0 to |ids|
      invariant idx !in ids[..i]
    {
      if ids[i] == idx {
        return ids;
      }
      assert ids[..i + 1] == ids[..i] + [ids[i]];
    }
    assert ids[..|ids|] == ids;
    r := ids + [idx];
  }

  // ----- choosing -----

  /** No candidate left out has a smaller score than one taken. */
  ghost predicate Lowest(ids: seq<nat>, pool: seq<nat>, scores: seq<nat>) {
    forall x, y :: x in ids && y in pool && y !in ids && x < |scores| && y < |scores| ==> scores[x] <= scores[y]
  }

  /** The active indices from the ring position of the counter on. */
  function Rotated(active: seq<nat>, counter: nat): (r: seq<nat>)
    ensures |r| == |active|
  {
    if active == [] then []
    else seq(|active|, i requires 0 <= i < |active| => active[Ring(counter, i, |active|)])
  }

  /** Rotation keeps the members and their number. */
  lemma RotatedIsChosen(active: seq<nat>, counter: nat)
    requires Distinct(active)
    ensures Chosen(Rotated(active, counter), active, |active|)
    ensures forall x :: x in active ==> x in Rotated(active, counter)
  {
    var r, n := Rotated(active, counter), |active|;
    forall i, j | 0 <= i < j < |r|
      ensures r[i] != r[j]
    {
      RingIsDistinct(counter, i, j, n);
      var a, b := Ring(counter, i, n), Ring(counter, j, n);
      assert active[a] != active[b] by { if a < b {} else {} }
    }
    forall x | x in active
      ensures x in r
    {
      var k :| 0 <= k < n && active[k] == x;
      var i := RingPosition(counter, k, n);
      assert r[i] == x;
    }
  }

  /** Every position is reached within one turn. */
  lemma RingPosition(counter: nat, k: nat, n: nat) returns (i: nat)
    requires k < n
    ensures i < n && Ring(counter, i, n) == k
  {
    var start := counter % n;
    i := if k >= start then k - start else k + n - start;
    WrapOnce(start + i, n);
  }

  predicate Scored<T>(ids: seq<nat>, scores: seq<T>) {
    forall i :: 0 <= i < |ids| ==> ids[i] < |scores|
  }

  /** The first i entries are settled: none behind them scores less. */
  predicate Settled(ids: seq<nat>, scores: seq<nat>, i: nat)
    requires Scored(ids, scores) && i <= |ids|
  {
    forall p, q :: 0 <= p < i && p < q < |ids| ==> scores[ids[p]] <= scores[ids[q]]
  }

  /** Exchanging two entries keeps the members. */
  lemma SwapMembers(ids: seq<nat>, pool: seq<nat>, i: nat, m: nat)
    requires Distinct(ids) && (forall x :: x in ids <==> x in pool) && i <= m < |ids|
    ensures var r := ids[i := ids[m]][m := ids[i]];
      Distinct(r) && (forall x :: x in r <==> x in pool)
  {
    var r := ids[i := ids[m]][m := ids[i]];
    forall x | x in r
      ensures x in ids
    {
      var k :| 0 <= k < |r| && r[k] == x;
      assert x == ids[if k == m then i else if k == i then m else k];
    }
    forall x | x in ids
      ensures x in r
    {
      var k :| 0 <= k < |ids| && ids[k] == x;
      assert x == r[if k == m then i else if k == i then m else k];
    }
  }

  /** The least of the rest settles one more place. */
  lemma SwapKeeps(ids: seq<nat>, pool: seq<nat>, scores: seq<nat>, i: nat, m: nat)
    requires Distinct(ids) && (forall x :: x in ids <==> x in pool) && Scored(ids, scores)
    requires i <= m < |ids| && Settled(ids, scores, i)
    requires forall q :: i <= q < |ids| ==> scores[ids[m]] <= scores[ids[q]]
    ensures var r := ids[i := ids[m]][m := ids[i]];
      Distinct(r) && (forall x :: x in r <==> x in pool) && Scored(r, scores) && Settled(r, scores, i + 1)
  {
    SwapMembers(ids, pool, i, m);
  }

  lemma SettledIsLowest(ids: seq<nat>, pool: seq<nat>, scores: seq<nat>, count: nat)
    requires Distinct(ids) && (forall x :: x in ids <==> x in pool) && Scored(ids, scores)
    requires count <= |ids| && Settled(ids, scores, count)
    ensures Chosen(ids[..count], pool, count) && Lowest(ids[..count], pool, scores)
  {
    forall x, y | x in ids[..count] && y in pool && y !in ids[..count] && x < |scores| && y < |scores|
      ensures scores[x] <= scores[y]
    {
      var p :| 0 <= p < count && ids[p] == x;
      assert y in ids;
      var q :| 0 <= q < |ids| && ids[q] == y;
      assert forall k :: 0 <= k < count ==> ids[k] == ids[..count][k];
      assert q >= count;
    }
  }

  /** The partial selection sort of selectLowestScoreLocked. */
  method LowestScored(ordered: seq<nat>, scores: seq<nat>, count: nat) returns (ids: seq<nat>)
    requires Distinct(ordered) && Scored(ordered, scores) && count <= |ordered|
    ensures Chosen(ids, ordered, count) && Lowest(ids, ordered, scores)
  {
    hide Distinct, Lowest, Settled;
    var n := |ordered|;
    var scored := new nat[n](i requires 0 <= i < n => ordered[i]);
    assert scored[..] == ordered;
    SettledNone(ordered, scores);
    var i := 0;
    while i < count
      invariant 0 <= i <= count && Scored(scored[..], scores)
      invariant Distinct(scored[..]) && (forall x :: x in scored[..] <==> x in ordered)
      invariant Settled(scored[..], scores, i)
    {
      var minIdx := i;
      for j := i + 1 to n
        invariant i <= minIdx < n
        invariant forall q :: i <= q < j ==> scores[scored[..][minIdx]] <= scores[scored[..][q]]
      {
        if scores[scored[..][j]] < scores[scored[..][minIdx]] {
          minIdx := j;
        }
      }
      SwapKeeps(scored[..], ordered, scores, i, minIdx);
      ghost var swapped := scored[..][i := scored[minIdx]][minIdx := scored[i]];
      scored[i], scored[minIdx] := scored[minIdx], scored[i];
      assert scored[..] == swapped;
      i := i + 1;
    }
    SettledIsLowest(scored[..], ordered, scores, count);
    ids := scored[..count];
    assert ids == scored[..][..count];
  }

  lemma SettledNone(ids: seq<nat>, scores: seq<nat>)
    requires Scored(ids, scores)
    ensures Settled(ids, scores, 0)
  {
  }

  /** The partial shuffle of selectRandomLocked; every draw is arbitrary. */
  method Shuffled(active: seq<nat>, count: nat) returns (ids: seq<nat>)
    requires Distinct(active) && count <= |active|
    ensures Chosen(ids, active, count)
  {
    hide Distinct;
    var n := |active|;
    var indices := new nat[n](i requires 0 <= i < n => active[i]);
    assert indices[..] == active;
    var i := 0;
    while i < count
      invariant 0 <= i <= count
      invariant Distinct(indices[..]) && (forall x :: x in indices[..] <==> x in active)
    {
      var draw: nat := *;
      var j := i + draw % (n - i);
      SwapMembers(indices[..], active, i, j);
      ghost var swapped := indices[..][i := indices[j]][j := indices[i]];
      indices[i], indices[j] := indices[j], indices[i];
      assert indices[..] == swapped;
      i := i + 1;
    }
    PrefixIsChosen(indices[..], active, count);
    ids := indices[..count];
    assert ids == indices[..][..count];
  }

  lemma PrefixIsChosen(ids: seq<nat>, pool: seq<nat>, count: nat)
    requires Distinct(ids) && (forall x :: x in ids <==> x in pool) && count <= |ids|
    ensures Chosen(ids[..count], pool, count)
  {
  }

  /** The best of the ordered candidates that are not skipped; the first of equals. */
  method BestScored(ordered: seq<nat>, scores: seq<nat>, skip: set<nat>) returns (best: Option<nat>)
    requires Scored(ordered, scores)
    ensures best.None? <==> forall x :: x in ordered ==> x in skip
    ensures best.Some? ==> best.value in ordered && best.value !in skip
    ensures best.Some? ==> forall x :: x in ordered && x !in skip ==> x < |scores| && scores[best.value] <= scores[x]
  {
    best := None;
    for i := 0 to |ordered|
      invariant best.None? <==> forall x :: x in ordered[..i] ==> x in skip
      invariant best.Some? ==> best.value in ordered && best.value !in skip && best.value < |scores|
      invariant best.Some? ==>
        forall x :: x in ordered[..i] && x !in skip ==> x < |scores| && scores[best.value] <= scores[x]
    {
      var idx := ordered[i];
      assert ordered[..i + 1] == ordered[..i] + [idx];
      if idx in skip {
        continue;
      }
      if best.None? || scores[idx] < scores[best.value] {
        best := Some(idx);
      }
    }
    assert ordered[..|ordered|] == ordered;
  }

  // ----- the balancer -----

  /** Where a connection stands, for a connection the balancer handed out. */
  ghost predicate IsActive(c: Connection, connections: seq<Connection>, active: seq<nat>) {
    exists i :: i in active && i < |connections| && connections[i] == c
  }

  /** A selection: active connections with pairwise different keys. */
  ghost predicate Selection(selected: seq<Connection>, connections: seq<Connection>, active: seq<nat>) {
    && (forall c :: c in selected ==> IsActive(c, connections, active))
    && (forall i, j :: 0 <= i < j < |selected| ==> selected[i].key != selected[j].key)
  }

  function ScoresOf(strategy: Strategy, stats: seq<Stats>): (r: seq<nat>)
    ensures |r| == |stats|
  {
    seq(|stats|, i requires 0 <= i < |stats| => Score(strategy, stats[i]))
  }

  /** Some active connection has been used enough to be judged. */
  predicate Signal(strategy: Strategy, stats: seq<Stats>, active: seq<nat>) {
    exists i :: 0 <= i < |active| && active[i] < |stats| && HasSignal(strategy, stats[active[i]])
  }

  predicate ByScore(strategy: Strategy) {
    strategy.LeastLoss? || strategy.LowestLatency? || strategy.Hybrid?
  }

  predicate Below(ids: seq<nat>, n: nat) {
    forall i :: 0 <= i < |ids| ==> ids[i] < n
  }

  function At(connections: seq<Connection>, ids: seq<nat>): (r: seq<Connection>)
    requires Below(ids, |connections|)
    ensures |r| == |ids|
  {
    seq(|ids|, i requires 0 <= i < |ids| => connections[ids[i]])
  }

  lemma ActiveIsBelow(connections: seq<Connection>, index: map<string, nat>, active: seq<nat>, inactive: seq<nat>,
                      ids: seq<nat>)
    requires Partitioned(connections, index, active, inactive) && forall x :: x in ids ==> x in active
    ensures Below(ids, |connections|)
  {
    assert forall k :: 0 <= k < |ids| ==> ids[k] in ids;
  }

  /** Chosen indices hand out active connections with different keys. */
  lemma ChosenIsSelection(connections: seq<Connection>, index: map<string, nat>, active: seq<nat>, inactive: seq<nat>,
                          ids: seq<nat>, count: nat)
    requires Partitioned(connections, index, active, inactive) && Chosen(ids, active, count)
    ensures Below(ids, |connections|) && Selection(At(connections, ids), connections, active)
    ensures |At(connections, ids)| == count
  {
    ActiveIsBelow(connections, index, active, inactive, ids);
    var selected := At(connections, ids);
    forall c | c in selected
      ensures IsActive(c, connections, active)
    {
      var k :| 0 <= k < |selected| && selected[k] == c;
      assert ids[k] in active && connections[ids[k]] == c;
    }
    forall i, j | 0 <= i < j < |selected|
      ensures selected[i].key != selected[j].key
    {
      assert ids[i] in active && ids[j] in active;
    }
  }

  lemma IndexLeads(connections: seq<Connection>, index: map<string, nat>, active: seq<nat>, inactive: seq<nat>,
      key: string)
    requires Partitioned(connections, index, active, inactive) && key in index
    ensures index[key] < |connections| && Distinct(active) && Distinct(inactive)
  {
  }

  /** The lists partition the connections again once the connection's index changed lists with its state. */
  lemma SidesSwitched(connections: seq<Connection>, index: map<string, nat>, active: seq<nat>, inactive: seq<nat>,
                      key: string, valid: bool, active': seq<nat>, inactive': seq<nat>)
    requires Partitioned(connections, index, active, inactive) && key in index && index[key] < |connections|
    requires connections[index[key]].valid != valid && Distinct(active') && Distinct(inactive')
    requires forall x :: x in active' <==> if valid then x in active || x == index[key] else x in active && x != index[key]
    requires forall x :: x in inactive' <==>
      if valid then x in inactive && x != index[key] else x in inactive || x == index[key]
    ensures Partitioned(connections[index[key] := connections[index[key]].(valid := valid)], index, active', inactive')
  {
    hide Distinct;
  }

  class Balancer {
    const strategy: Strategy
    const failoverThreshold: int
    const failoverCooldown: int
    var rrCounter: nat
    var connections: seq<Connection>
    var indexByKey: map<string, nat>
    var activeIDs: seq<nat>
    var inactiveIDs: seq<nat>
    var stats: seq<Stats>
    var streamRoutes: map<uint16, Route>

    ghost predicate Valid()
      reads this
    {
      && Partitioned(connections, indexByKey, activeIDs, inactiveIDs)
      && |stats| == |connections| && rrCounter < M64
    }

    constructor (strategy: Strategy, threshold: int, cooldown: int)
      ensures Valid() && connections == [] && streamRoutes == map[] && this.strategy == strategy
    {
      this.strategy, failoverThreshold, failoverCooldown := strategy, threshold, cooldown;
      rrCounter, connections, indexByKey, activeIDs, inactiveIDs := 0, [], map[], [], [];
      stats, streamRoutes := [], map[];
    }

    /** SetConnections: every named connection starts inactive and unmeasured; a key leads to the last of its name. */
    method SetConnections(given: seq<Connection>)
      modifies this
      requires rrCounter < M64
      ensures Valid() && activeIDs == [] && streamRoutes == map[] && rrCounter == old(rrCounter)
      ensures connections == Named(given) && AllOff(connections) && Unmeasured(stats)
      ensures LeadsToLast(connections, indexByKey)
      ensures forall c :: c in given && c.key != "" ==> c.key in indexByKey
      ensures forall k :: k in indexByKey ==> exists c :: c in given && c.key == k
    {
      connections, indexByKey, activeIDs, inactiveIDs, stats := [], map[], [], [], [];
      streamRoutes := map[];
      assert Partitioned(connections, indexByKey, activeIDs, inactiveIDs);
      hide Partitioned, Taken;
      NoneTaken(given);
      for i := 0 to |given|
        invariant activeIDs == [] && streamRoutes == map[] && rrCounter == old(rrCounter)
        invariant Partitioned(connections, indexByKey, activeIDs, inactiveIDs) && |stats| == |connections|
        invariant Taken(given, i, connections, indexByKey, stats)
      {
        OneMoreTaken(given, i, connections, indexByKey, stats);
        if given[i].key == "" {
          continue;
        }
        Enlist(given[i].(valid := false));
      }
      AllTaken(given, connections, indexByKey, stats);
    }

    /** The body of that loop: one more inactive connection. */
    method Enlist(copied: Connection)
      requires copied.key != "" && !copied.valid && AllOff(connections)
      requires Partitioned(connections, indexByKey, [], inactiveIDs) && |stats| == |connections|
      modifies `connections, `indexByKey, `inactiveIDs, `stats
      ensures Partitioned(connections, indexByKey, [], inactiveIDs) && |stats| == |connections|
      ensures connections == old(connections) + [copied]
      ensures indexByKey == old(indexByKey)[copied.key := |old(connections)|]
      ensures stats == old(stats) + [Stats(0, 0, 0, 0)]
    {
      hide Partitioned;
      var idx := |connections|;
      Enlisted(connections, indexByKey, inactiveIDs, copied);
      connections := connections + [copied];
      indexByKey := indexByKey[copied.key := idx];
      inactiveIDs := inactiveIDs + [idx];
      stats := stats + [Stats(0, 0, 0, 0)];
    }

    /** moveConnectionStateLocked */
    method Move(idx: nat, valid: bool)
      requires Distinct(activeIDs) && Distinct(inactiveIDs)
      modifies `activeIDs, `inactiveIDs
      ensures Distinct(activeIDs) && Distinct(inactiveIDs)
      ensures forall x :: x in activeIDs <==> if valid then x in old(activeIDs) || x == idx
                                                       else x in old(activeIDs) && x != idx
      ensures forall x :: x in inactiveIDs <==> if valid then x in old(inactiveIDs) && x != idx
                                                         else x in old(inactiveIDs) || x == idx
    {
      if valid {
        inactiveIDs := RemoveIndex(inactiveIDs, idx);
        activeIDs := AddIndex(activeIDs, idx);
        return;
      }
      activeIDs := RemoveIndex(activeIDs, idx);
      inactiveIDs := AddIndex(inactiveIDs, idx);
    }

    /** SetConnectionValidity: the connection changes sides, and nothing else moves; no stream goes on preferring a
        connection that was turned off. */
    method SetConnectionValidity(key: string, valid: bool) returns (ok: bool)
      requires Valid()
      modifies `connections, `activeIDs, `inactiveIDs, `streamRoutes
      ensures Valid() && ok == (key in indexByKey)
      ensures !ok ==> connections == old(connections) && activeIDs == old(activeIDs) && streamRoutes == old(streamRoutes)
      ensures ok ==> connections == old(connections)[indexByKey[key] := old(connections)[indexByKey[key]].(valid := valid)]
      ensures ok && valid ==> streamRoutes == old(streamRoutes)
      ensures ok && !valid && old(connections)[indexByKey[key]].valid ==> streamRoutes == Cleared(old(streamRoutes), key)
    {
      if key !in indexByKey {
        return false;
      }
      hide Partitioned, Distinct, Cleared;
      IndexLeads(connections, indexByKey, activeIDs, inactiveIDs, key);
      var idx := indexByKey[key];
      if connections[idx].valid == valid {
        assert connections == connections[idx := connections[idx].(valid := valid)];
        return true;
      }
      ghost var before, active, inactive := connections, activeIDs, inactiveIDs;
      connections := connections[idx := connections[idx].(valid := valid)];
      if !valid {
        streamRoutes := Cleared(streamRoutes, key);
      }
      Move(idx, valid);
      SidesSwitched(before, indexByKey, active, inactive, key, valid, activeIDs, inactiveIDs);
      ok := true;
    }

    /** ApplyMTUProbeResult, as far as the sides are concerned: a failed probe clears the preferences for the
        connection even when it was off before. */
    method ApplyMTUProbeResult(key: string, active: bool) returns (ok: bool)
      requires Valid()
      modifies `connections, `activeIDs, `inactiveIDs, `streamRoutes
      ensures Valid() && ok == (key in indexByKey)
      ensures !ok ==> connections == old(connections) && activeIDs == old(activeIDs) && streamRoutes == old(streamRoutes)
      ensures ok ==> connections == old(connections)[indexByKey[key] := old(connections)[indexByKey[key]].(valid := active)]
      ensures ok ==> streamRoutes == if active then old(streamRoutes) else Cleared(old(streamRoutes), key)
    {
      if key !in indexByKey {
        return false;
      }
      hide Partitioned, Distinct, Cleared;
      IndexLeads(connections, indexByKey, activeIDs, inactiveIDs, key);
      var idx := indexByKey[key];
      var wasValid := connections[idx].valid;
      ghost var before, on, off := connections, activeIDs, inactiveIDs;
      connections := connections[idx := connections[idx].(valid := active)];
      if !active {
        streamRoutes := Cleared(streamRoutes, key);
      }
      if wasValid != active {
        Move(idx, active);
        SidesSwitched(before, indexByKey, on, off, key, active, activeIDs, inactiveIDs);
      } else {
        assert connections == before;
      }
      ok := true;
    }

    /** rotatedActiveIndicesLocked */
    method RotatedActive(step: nat) returns (ordered: seq<nat>)
      requires Valid() && step >= 1
      modifies `rrCounter
      ensures Valid() && ordered == Rotated(activeIDs, old(rrCounter))
      ensures activeIDs != [] ==> rrCounter == (old(rrCounter) + step) % M64
    {
      hide Partitioned;
      var n := |activeIDs|;
      if n == 0 {
        return [];
      }
      ghost var counter := rrCounter;
      rrCounter := (rrCounter + step) % M64;
      var start := CounterBefore(rrCounter, step) % n;
      CounterIs(counter, step);
      ordered := RotateFrom(activeIDs, start, counter);
    }

    method HasSignalNow() returns (signal: bool)
      requires Valid()
      ensures signal == Signal(strategy, stats, activeIDs)
    {
      for i := 0 to |activeIDs|
        invariant forall k :: 0 <= k < i && activeIDs[k] < |stats| ==> !HasSignal(strategy, stats[activeIDs[k]])
      {
        assert activeIDs[i] in activeIDs;
        if HasSignal(strategy, stats[activeIDs[i]]) {
          return true;
        }
      }
      signal := false;
    }

    /** What every selector promises: `ids` are the indices handed out. */
    ghost predicate Picked(selected: seq<Connection>, ids: seq<nat>, count: nat)
      reads this
    {
      && Chosen(ids, activeIDs, count) && Below(ids, |connections|) && selected == At(connections, ids)
      && (ByScore(strategy) && Signal(strategy, stats, activeIDs) ==>
            Lowest(ids, activeIDs, ScoresOf(strategy, stats)))
    }

    /** selectRoundRobinLocked */
    method SelectRoundRobin(count: nat) returns (selected: seq<Connection>, ghost ids: seq<nat>)
      requires Valid() && 0 < count <= |activeIDs|
      modifies `rrCounter
      ensures Valid() && rrCounter == (old(rrCounter) + count) % M64
      ensures Chosen(ids, activeIDs, count) && Below(ids, |connections|) && selected == At(connections, ids)
      ensures forall i :: 0 <= i < count ==> ids[i] == activeIDs[Ring(old(rrCounter), i, |activeIDs|)]
    {
      hide Partitioned, Distinct;
      var n := |activeIDs|;
      ghost var counter := rrCounter;
      PoolFacts(connections, indexByKey, activeIDs, inactiveIDs, ScoresOf(strategy, stats));
      rrCounter := (rrCounter + count) % M64;
      var start := CounterBefore(rrCounter, count) % n;
      CounterIs(counter, count);
      selected, ids := TakeTurn(connections, activeIDs, start, counter, count);
      TurnIsChosen(activeIDs, counter, ids);
    }

    /** selectRandomLocked */
    method SelectRandom(count: nat) returns (selected: seq<Connection>, ghost ids: seq<nat>)
      requires Valid() && 0 < count <= |activeIDs|
      ensures Chosen(ids, activeIDs, count) && Below(ids, |connections|) && selected == At(connections, ids)
    {
      if count == 1 {
        var draw: nat := *;
        var idx := activeIDs[draw % |activeIDs|];
        assert idx in activeIDs;
        ids, selected := [idx], [connections[idx]];
        return;
      }
      var indices := Shuffled(activeIDs, count);
      ActiveIsBelow(connections, indexByKey, activeIDs, inactiveIDs, indices);
      selected, ids := At(connections, indices), indices;
    }

    /** selectLowestScoreLocked */
    method SelectLowestScore(count: nat) returns (selected: seq<Connection>, ghost ids: seq<nat>)
      requires Valid() && 0 < count <= |activeIDs|
      modifies `rrCounter
      ensures Valid()
      ensures Chosen(ids, activeIDs, count) && Below(ids, |connections|) && selected == At(connections, ids)
      ensures Lowest(ids, activeIDs, ScoresOf(strategy, stats))
    {
      hide Distinct, Lowest, Partitioned;
      ghost var counter := rrCounter;
      var scores := ScoresOf(strategy, stats);
      ghost var pool := activeIDs;
      PoolFacts(connections, indexByKey, pool, inactiveIDs, scores);
      var ordered := RotatedActive(if count == 1 then 1 else count);
      RotatedIsChosen(pool, counter);
      ScoredRotated(pool, ordered, scores);
      if count == 1 {
        var best := BestScored(ordered, scores, {});
        assert ordered[0] in ordered;
        SingleIsChosen(best.value, pool, scores);
        ids := [best.value];
        PoolBelow(pool, ids, |connections|);
        selected := [connections[best.value]];
        return;
      }
      var indices := LowestScored(ordered, scores, count);
      LowestOverPool(indices, ordered, pool, scores, count);
      PoolBelow(pool, indices, |connections|);
      selected, ids := At(connections, indices), indices;
    }

    /** getUniqueConnectionsLocked: exactly the normalised number of different active connections. */
    method GetUnique(required: int) returns (selected: seq<Connection>, ghost ids: seq<nat>)
      requires Valid()
      modifies `rrCounter
      ensures Valid() && Picked(selected, ids, Normalized(|activeIDs|, required))
      ensures !strategy.Random? && !(ByScore(strategy) && Signal(strategy, stats, activeIDs)) ==>
        forall i :: 0 <= i < |ids| ==> ids[i] == activeIDs[Ring(old(rrCounter), i, |activeIDs|)]
    {
      hide Lowest, Partitioned;
      var count := Normalized(|activeIDs|, required);
      if count <= 0 {
        selected, ids := [], [];
        return;
      }
      if strategy.Random? {
        selected, ids := SelectRandom(count);
        return;
      }
      var signal := HasSignalNow();
      if !ByScore(strategy) || !signal {
        selected, ids := SelectRoundRobin(count);
        return;
      }
      selected, ids := SelectLowestScore(count);
    }

    /** Some active connection was used often enough for the strategy to judge it. */
    ghost predicate Judged()
      reads this
      requires Valid()
    {
      exists i :: i in activeIDs && i < |stats| && match strategy
        case LeastLoss => stats[i].sent >= 5
        case LowestLatency => stats[i].rttCount >= 5
        case Hybrid => stats[i].sent >= 5 || stats[i].rttCount >= 5
        case _ => false
    }

    lemma JudgedIsSignal()
      requires Valid()
      ensures Judged() <==> ByScore(strategy) && Signal(strategy, stats, activeIDs)
    {
      if Judged() {
        var i :| i in activeIDs && i < |stats| && HasSignal(strategy, stats[i]);
        var k :| 0 <= k < |activeIDs| && activeIDs[k] == i;
      }
      if ByScore(strategy) && Signal(strategy, stats, activeIDs) {
        var k :| 0 <= k < |activeIDs| && activeIDs[k] < |stats| && HasSignal(strategy, stats[activeIDs[k]]);
        assert activeIDs[k] in activeIDs;
      }
    }

    /** What a selection leaves out is not better than what it takes. */
    lemma PickedIsBest(selected: seq<Connection>, ids: seq<nat>, count: nat, x: nat, y: nat)
      requires Valid() && Judged() && Picked(selected, ids, count)
      requires x in ids && y in activeIDs && y !in ids && x < |stats| && y < |stats|
      ensures NotWorse(strategy, stats[x], stats[y])
      ensures var a, b := stats[x], stats[y];
        && (strategy.LeastLoss? && a.sent >= 5 && b.sent >= 5 ==> a.lost * 1000 / a.sent <= b.lost * 1000 / b.sent)
        && (strategy.LeastLoss? && a.sent >= 5 && b.sent < 5 ==> a.lost * 1000 / a.sent <= 200)
        && (strategy.LeastLoss? && a.sent < 5 && b.sent >= 5 ==> 200 <= b.lost * 1000 / b.sent)
        && (strategy.LowestLatency? && a.rttCount >= 5 && b.rttCount >= 5 ==>
             a.rttSum / a.rttCount <= b.rttSum / b.rttCount)
        && (strategy.LowestLatency? && a.rttCount < 5 && b.rttCount >= 5 ==> 999000 <= b.rttSum / b.rttCount)
    {
      hide Judged, Partitioned, Signal, Score, NotWorse;
      JudgedIsSignal();
      LowerIsNotWorse(strategy, stats[x], stats[y]);
      LossOrder(stats[x], stats[y]);
      LatencyOrder(stats[x], stats[y]);
    }

    /** An active connection of another key, and none of them better. */
    ghost predicate BestOther(c: Connection, key: string)
      reads this
      requires Valid()
    {
      exists idx :: idx in activeIDs && connections[idx] == c && c.key != key && NoneBetter(idx, key)
    }

    ghost predicate OnlyKey(key: string)
      reads this
      requires Valid()
    {
      forall i :: i in activeIDs ==> connections[i].key == key
    }

    /** No active connection of another key is better. */
    ghost predicate NoneBetter(idx: nat, key: string)
      reads this
      requires Valid()
    {
      idx in activeIDs && forall j :: j in activeIDs && connections[j].key != key ==>
        NotWorse(strategy, stats[idx], stats[j])
    }

    lemma NoneIsBetter(ordered: seq<nat>, scores: seq<nat>, key: string, idx: nat)
      requires Valid() && scores == ScoresOf(strategy, stats) && idx in activeIDs && Below(activeIDs, |connections|)
      requires forall x :: x in activeIDs ==> x in ordered
      requires var skip := OfKey(connections, activeIDs, key);
        idx < |scores| && forall x :: x in ordered && x !in skip ==> x < |scores| && scores[idx] <= scores[x]
      ensures NoneBetter(idx, key)
    {
      hide Score, NotWorse;
      forall j | j in activeIDs && connections[j].key != key
        ensures NotWorse(strategy, stats[idx], stats[j])
      {
        assert j !in OfKey(connections, activeIDs, key);
        LowerIsNotWorse(strategy, stats[idx], stats[j]);
      }
    }

    /** getBestConnectionExcludingLocked: an active connection of another key whenever there is one, by score the
        best of them. */
    method BestExcluding(excludeKey: string) returns (r: Option<Connection>, ghost idx: nat)
      requires Valid()
      modifies `rrCounter
      ensures Valid() && (r.None? <==> OnlyKey(excludeKey))
      ensures r.Some? ==> idx in activeIDs && connections[idx] == r.value && r.value.key != excludeKey
      ensures r.Some? && Judged() ==> NoneBetter(idx, excludeKey)
    {
      hide Partitioned, Score, Signal, Distinct, HasSignal, Judged, NoneBetter, ByScore;
      ghost var counter := rrCounter;
      var scores := ScoresOf(strategy, stats);
      PoolFacts(connections, indexByKey, activeIDs, inactiveIDs, scores);
      RotatedIsChosen(activeIDs, counter);
      var signal := HasSignalNow();
      var ordered := RotatedActive(1);
      ScoredRotated(activeIDs, ordered, scores);
      var skip := OfKey(connections, activeIDs, excludeKey);
      var best;
      if ByScore(strategy) && signal {
        best := BestScored(ordered, scores, skip);
      } else {
        best := FirstOther(ordered, skip);
      }
      if best.None? {
        r, idx := None, 0;
        return;
      }
      r, idx := Some(connections[best.value]), best.value;
      JudgedIsSignal();
      if ByScore(strategy) && signal {
        NoneIsBetter(ordered, scores, excludeKey, idx);
      }
    }

    /** selectAlternateConnectionLocked */
    method SelectAlternate(excludeKey: string) returns (r: Option<Connection>)
      requires Valid()
      modifies `rrCounter
      ensures Valid() && (r.None? <==> OnlyKey(excludeKey))
      ensures r.Some? ==> IsActive(r.value, connections, activeIDs) && r.value.key != excludeKey
      ensures r.Some? && excludeKey != "" && Judged() ==> BestOther(r.value, excludeKey)
    {
      hide Judged, NoneBetter;
      if excludeKey != "" {
        var replacement, _ := BestExcluding(excludeKey);
        if replacement.Some? {
          return replacement;
        }
      }
      var selected, ids := GetUnique(1);
      ChosenIsSelection(connections, indexByKey, activeIDs, inactiveIDs, ids, Normalized(|activeIDs|, 1));
      if |selected| == 0 {
        return None;
      }
      assert selected[0] in selected && ids[0] in activeIDs;
      assert selected[0].key != "";
      if excludeKey == "" || selected[0].key != excludeKey {
        return Some(selected[0]);
      }
      var replacement, _ := BestExcluding(excludeKey);
      r := replacement;
    }

    /** selectTargetByStrategyLocked */
    method SelectOne() returns (r: Option<Connection>)
      requires Valid()
      modifies `rrCounter
      ensures Valid() && (r.None? <==> activeIDs == [])
      ensures r.Some? ==> IsActive(r.value, connections, activeIDs)
    {
      var selected, ids := GetUnique(1);
      ChosenIsSelection(connections, indexByKey, activeIDs, inactiveIDs, ids, Normalized(|activeIDs|, 1));
      if |selected| == 0 {
        return None;
      }
      assert selected[0] in selected;
      r := Some(selected[0]);
    }

    /** One of so many that nothing left out is better than. */
    ghost predicate AmongBest(c: Connection, count: nat)
      reads this
      requires Valid()
    {
      exists selected, ids :: Picked(selected, ids, count) && c in selected
    }

    lemma IsAmongBest(c: Connection, selected: seq<Connection>, ids: seq<nat>, count: nat)
      requires Valid() && Picked(selected, ids, count) && c in selected
      ensures AmongBest(c, count)
    {
    }

    /** selectInitialPreferredConnectionLocked: by score, one of the ten best at random. */
    method SelectInitial() returns (r: Option<Connection>)
      requires Valid()
      modifies `rrCounter
      ensures Valid() && (r.None? <==> activeIDs == [])
      ensures r.Some? ==> IsActive(r.value, connections, activeIDs)
      ensures r.Some? && Judged() ==> AmongBest(r.value, Min(|activeIDs|, 10))
    {
      hide Judged, Partitioned, Lowest, AmongBest, Signal, ScoresOf;
      if |activeIDs| == 0 {
        return None;
      }
      var signal := HasSignalNow();
      if !ByScore(strategy) || !signal {
        r := SelectOne();
        JudgedIsSignal();
        return;
      }
      var topN := if |activeIDs| < 10 then |activeIDs| else 10;
      var pool, ids := SelectLowestScore(topN);
      ChosenIsSelection(connections, indexByKey, activeIDs, inactiveIDs, ids, topN);
      var draw: nat := *;
      assert pool[draw % |pool|] in pool;
      r := Some(pool[draw % |pool|]);
      IsAmongBest(r.value, pool, ids, topN);
    }

    /** The stream's preferred connection, if it is still there and valid. */
    function Preferred(state: Route): Option<Connection>
      reads this
      requires Valid()
    {
      if state.preferred == "" || state.preferred !in indexByKey then None
      else
        var c := connections[indexByKey[state.preferred]];
        if c.valid then Some(c) else None
    }

    /** It is found exactly while an active connection has its key. */
    lemma PreferredIff(state: Route)
      requires Valid()
      ensures Preferred(state).Some? <==> exists i :: i in activeIDs && connections[i].key == state.preferred
      ensures Preferred(state).Some? ==>
        Preferred(state).value.key == state.preferred && IsActive(Preferred(state).value, connections, activeIDs)
    {
      if Preferred(state).Some? {
        assert indexByKey[state.preferred] in activeIDs;
      }
    }

    /** selectPreferredConnectionForStreamLocked. Data keeps the preferred connection as long as it is valid; a resend
        leaves it only when the streak and the cooldown allow, and then for another one whenever there is another. */
    method SelectPreferred(kind: PacketKind, state: Route, now: int) returns (r: Option<Connection>, next: Route)
      requires Valid()
      modifies `rrCounter
      ensures Valid()
      ensures r.Some? ==> IsActive(r.value, connections, activeIDs) && next.preferred == r.value.key
      ensures r.None? ==> activeIDs == [] || (Preferred(state).None? && OnlyKey(state.preferred))
      ensures kind != Resend && Preferred(state).Some? ==> r == Preferred(state) && next == state
      ensures kind == Resend && Preferred(state).Some? ==>
        if state.streak + 1 < failoverThreshold || now - state.lastFailover < failoverCooldown || OnlyKey(state.preferred)
        then r == Preferred(state) && next == state.(streak := state.streak + 1)
        else r.Some? && r.value.key != state.preferred && next == Route(r.value.key, 0, now)
      ensures Preferred(state).None? && r.Some? ==> next == Route(r.value.key, 0, state.lastFailover)
    {
      next := state;
      var current := Preferred(state);
      if current.Some? {
        assert indexByKey[state.preferred] in activeIDs;
      }
      if kind == Resend {
        next := next.(streak := next.streak + 1);
        if current.Some? {
          if next.streak < failoverThreshold || now - next.lastFailover < failoverCooldown {
            r := current;
            return;
          }
          var replacement := SelectAlternate(current.value.key);
          if replacement.Some? {
            next := Route(replacement.value.key, 0, now);
            r := replacement;
            return;
          }
          r := current;
          return;
        }
      }
      if current.Some? {
        r := current;
        return;
      }
      var replacement;
      if next.preferred == "" {
        replacement := SelectInitial();
      } else {
        replacement := SelectAlternate(next.preferred);
      }
      if replacement.Some? {
        next := next.(preferred := replacement.value.key, streak := 0);
      }
      r := replacement;
    }

    /** getUniqueConnectionsExcludingLocked: with enough active connections, exactly as many others as asked for. */
    method GetUniqueExcluding(required: nat, excludeKey: string) returns (selected: seq<Connection>)
      requires Valid() && 0 < required < |activeIDs|
      modifies `rrCounter
      ensures Valid() && |selected| == required && Selection(selected, connections, activeIDs)
      ensures forall c :: c in selected ==> c.key != excludeKey
    {
      var all, ids := GetUnique(required + 1);
      ChosenIsSelection(connections, indexByKey, activeIDs, inactiveIDs, ids, required + 1);
      hide Valid, Partitioned, Picked, Chosen, IsActive;
      selected := TakeOthers(all, required, excludeKey, connections, activeIDs);
    }

    /** SelectTargets: exactly min(max(requested, 1), active) active connections with different keys, whatever the
        strategy; a stream's duplicated data goes first over its preferred connection. */
    method SelectTargets(kind: PacketKind, streamID: uint16, required: int, now: int) returns (r: Option<seq<Connection>>)
      requires Valid()
      modifies `rrCounter, `streamRoutes
      ensures Valid() && (r.None? <==> activeIDs == [])
      ensures r.Some? ==> |r.value| == Normalized(|activeIDs|, required) && Selection(r.value, connections, activeIDs)
      ensures streamRoutes.Keys == old(streamRoutes).Keys
      ensures forall id :: id in streamRoutes && id != streamID ==> streamRoutes[id] == old(streamRoutes)[id]
      ensures Sticky(kind, streamID, required) ==>
        r.Some? && |r.value| >= 2 && r.value[0].key == streamRoutes[streamID].preferred
      ensures !Sticky(kind, streamID, required) ==> streamRoutes == old(streamRoutes)
      ensures streamID == 0 || kind == Other || required <= 1 ==> streamRoutes == old(streamRoutes)
      ensures streamID != 0 && kind != Other && streamID in old(streamRoutes) && required >= 2 && |activeIDs| >= 2 ==>
        r.Some? && r.value[0].key == streamRoutes[streamID].preferred
      ensures !Sticky(kind, streamID, required) && r.Some? ==> exists ids :: Picked(r.value, ids, |r.value|)
      ensures Sticky(kind, streamID, required) && Preferred(old(streamRoutes[streamID])).Some? ==>
        var state := old(streamRoutes[streamID]);
        if kind != Resend then streamRoutes[streamID] == state
        else if state.streak + 1 < failoverThreshold || now - state.lastFailover < failoverCooldown
          then streamRoutes[streamID] == state.(streak := state.streak + 1)
        else streamRoutes[streamID].preferred != state.preferred && streamRoutes[streamID].lastFailover == now
    {
      hide Partitioned, Chosen, Selection, Lowest, Signal;
      var count := Normalized(|activeIDs|, required);
      if count <= 0 {
        return None;
      }
      if !(count > 1 && streamID != 0 && kind != Other && streamID in streamRoutes) {
        var selected, ids := GetUnique(count);
        ChosenIsSelection(connections, indexByKey, activeIDs, inactiveIDs, ids, count);
        return Some(selected);
      }
      var state := streamRoutes[streamID];
      SomeOther(connections, indexByKey, activeIDs, inactiveIDs, state.preferred);
      var preferred, next := SelectPreferred(kind, state, now);
      streamRoutes := streamRoutes[streamID := next];
      if preferred.None? {
        // the source's fallback here is never needed: with two active connections there is an alternate
        assert false;
      }
      var others := GetUniqueExcluding(count - 1, preferred.value.key);
      PreferredFirst(preferred.value, others, connections, activeIDs);
      r := Some([preferred.value] + others);
    }

    /** The calls that go through the stream's route. */
    predicate Sticky(kind: PacketKind, streamID: uint16, required: int)
      reads this
    {
      Normalized(|activeIDs|, required) > 1 && streamID != 0 && kind != Other && streamID in streamRoutes
    }
  }

  /** The active indices under a key. */
  function OfKey(connections: seq<Connection>, active: seq<nat>, key: string): set<nat>
    requires Below(active, |connections|)
  {
    set i | i in active && i < |connections| && connections[i].key == key
  }

  /** roundRobinBestConnectionExcludingLocked and the random strategy's walk: the first that is not skipped. */
  method FirstOther(ordered: seq<nat>, skip: set<nat>) returns (r: Option<nat>)
    ensures r.None? <==> forall x :: x in ordered ==> x in skip
    ensures r.Some? ==> r.value in ordered && r.value !in skip
  {
    for i := 0 to |ordered|
      invariant forall k :: 0 <= k < i ==> ordered[k] in skip
    {
      if ordered[i] !in skip {
        return Some(ordered[i]);
      }
    }
    r := None;
  }

  /** The filter loop of getUniqueConnectionsExcludingLocked. */
  method TakeOthers(all: seq<Connection>, required: nat, excludeKey: string, ghost connections: seq<Connection>,
                    ghost active: seq<nat>) returns (selected: seq<Connection>)
    requires |all| == required + 1 && Selection(all, connections, active)
    ensures |selected| == required && Selection(selected, connections, active)
    ensures forall c :: c in selected ==> c.key != excludeKey
  {
    selected := [];
    ghost var from: seq<nat> := [];
    for i := 0 to |all|
      invariant |selected| <= required && |selected| >= (if exists k :: 0 <= k < i && all[k].key == excludeKey then i - 1 else i)
      invariant |from| == |selected| && (forall k :: 0 <= k < |from| ==> from[k] < i && all[from[k]] == selected[k])
      invariant forall j, k :: 0 <= j < k < |from| ==> from[j] < from[k]
      invariant forall c :: c in selected ==> c.key != excludeKey
    {
      if |selected| >= required {
        break;
      }
      if all[i].key == excludeKey {
        continue;
      }
      selected := selected + [all[i]];
      from := from + [i];
    }
    forall c | c in selected
      ensures IsActive(c, connections, active)
    {
      assert c in all;
    }
  }

  lemma PreferredFirst(first: Connection, others: seq<Connection>, connections: seq<Connection>, active: seq<nat>)
    requires IsActive(first, connections, active) && Selection(others, connections, active)
    requires forall c :: c in others ==> c.key != first.key
    ensures Selection([first] + others, connections, active)
  {
    assert forall k :: 0 <= k < |others| ==> others[k] in others;
  }

  /** With two active connections there is one of another key. */
  lemma SomeOther(connections: seq<Connection>, index: map<string, nat>, active: seq<nat>, inactive: seq<nat>,
      key: string)
    requires Partitioned(connections, index, active, inactive) && |active| >= 2
    ensures exists i :: i in active && i < |connections| && connections[i].key != key
  {
    assert active[0] in active && active[1] in active && active[0] != active[1];
    ActiveKeysDiffer(connections, index, active, inactive, active[0], active[1]);
  }

  lemma AtOneMore(connections: seq<Connection>, ids: seq<nat>, idx: nat)
    requires Below(ids, |connections|) && idx < |connections|
    ensures Below(ids + [idx], |connections|)
    ensures At(connections, ids + [idx]) == At(connections, ids) + [connections[idx]]
  {
  }

  /** The loop of rotatedActiveIndicesLocked. */
  method RotateFrom(active: seq<nat>, start: nat, ghost counter: nat) returns (ordered: seq<nat>)
    requires active != [] && start == counter % |active|
    ensures ordered == Rotated(active, counter)
  {
    hide Ring;
    var n := |active|;
    ordered := [];
    for i := 0 to n
      invariant |ordered| == i && forall k :: 0 <= k < i ==> ordered[k] == active[Ring(counter, k, n)]
    {
      RingIs(counter, i, n);
      ordered := ordered + [active[(start + i) % n]];
    }
  }

  /** The loop of selectRoundRobinLocked. */
  method TakeTurn(connections: seq<Connection>, active: seq<nat>, start: nat, ghost counter: nat, count: nat)
    returns (selected: seq<Connection>, ghost ids: seq<nat>)
    requires active != [] && Below(active, |connections|) && start == counter % |active|
    ensures |ids| == count && forall k :: 0 <= k < count ==> ids[k] == active[Ring(counter, k, |active|)]
    ensures Below(ids, |connections|) && selected == At(connections, ids)
  {
    hide Ring, At;
    var n := |active|;
    selected, ids := [], [];
    for i := 0 to count
      invariant |ids| == i && forall k :: 0 <= k < i ==> ids[k] == active[Ring(counter, k, n)]
      invariant Below(ids, |connections|) && selected == At(connections, ids)
    {
      RingIs(counter, i, n);
      var idx := active[(start + i) % n];
      AtOneMore(connections, ids, idx);
      selected := selected + [connections[idx]];
      ids := ids + [idx];
    }
  }

  lemma RingIs(counter: nat, i: nat, n: nat)
    requires n > 0
    ensures Ring(counter, i, n) == (counter % n + i) % n
  {
  }

  /** The counter before a step was added, on 64 bits. */
  function CounterBefore(counter: nat, step: nat): nat {
    (counter - step) % M64
  }

  lemma CounterIs(counter: nat, step: nat)
    requires counter < M64
    ensures CounterBefore((counter + step) % M64, step) == counter
  {
  }

  lemma TurnIsChosen(active: seq<nat>, counter: nat, ids: seq<nat>)
    requires Distinct(active) && |ids| <= |active|
    requires forall k :: 0 <= k < |ids| ==> ids[k] == active[Ring(counter, k, |active|)]
    ensures Chosen(ids, active, |ids|)
  {
    forall i, j | 0 <= i < j < |ids|
      ensures ids[i] != ids[j]
    {
      RingIsDistinct(counter, i, j, |active|);
    }
  }

  lemma PoolFacts(connections: seq<Connection>, index: map<string, nat>, active: seq<nat>, inactive: seq<nat>,
                  scores: seq<nat>)
    requires Partitioned(connections, index, active, inactive) && |scores| == |connections|
    ensures Distinct(active) && Scored(active, scores)
  {
    assert forall k :: 0 <= k < |active| ==> active[k] in active;
  }

  lemma ScoredRotated(active: seq<nat>, ordered: seq<nat>, scores: seq<nat>)
    requires Scored(active, scores) && forall x :: x in ordered ==> x in active
    ensures Scored(ordered, scores)
  {
    assert forall k :: 0 <= k < |ordered| ==> ordered[k] in ordered;
  }

  lemma PoolBelow(pool: seq<nat>, ids: seq<nat>, n: nat)
    requires Below(pool, n) && forall x :: x in ids ==> x in pool
    ensures Below(ids, n)
  {
    assert forall k :: 0 <= k < |ids| ==> ids[k] in ids;
  }

  lemma SingleIsChosen(best: nat, pool: seq<nat>, scores: seq<nat>)
    requires best in pool && best < |scores|
    requires forall x :: x in pool ==> x < |scores| && scores[best] <= scores[x]
    ensures Chosen([best], pool, 1) && Lowest([best], pool, scores)
  {
  }

  lemma LowestOverPool(ids: seq<nat>, ordered: seq<nat>, pool: seq<nat>, scores: seq<nat>, count: nat)
    requires Chosen(ids, ordered, count) && Lowest(ids, ordered, scores)
    requires forall x :: x in ordered <==> x in pool
    ensures Chosen(ids, pool, count) && Lowest(ids, pool, scores)
  {
  }

  /** clearPreferredResolverReferencesLocked */
  function Cleared(routes: map<uint16, Route>, key: string): (r: map<uint16, Route>)
    ensures r.Keys == routes.Keys
    ensures key != "" ==> forall id :: id in r ==> r[id].preferred != key
    ensures forall id :: id in r && routes[id].preferred != key ==> r[id] == routes[id]
    ensures forall id :: id in r && routes[id].preferred == key ==> r[id] == Route("", 0, routes[id].lastFailover)
  {
    map id | id in routes :: if routes[id].preferred == key then routes[id].(preferred := "", streak := 0) else routes[id]
  }

  /** The connections that have a key, all of them off. */
  function Named(given: seq<Connection>): seq<Connection> {
    if given == [] then []
    else
      var last := given[|given| - 1];
      Named(given[..|given| - 1]) + if last.key == "" then [] else [last.(valid := false)]
  }

  predicate AllOff(connections: seq<Connection>) {
    forall c :: c in connections ==> !c.valid
  }

  predicate Unmeasured(stats: seq<Stats>) {
    forall i :: 0 <= i < |stats| ==> stats[i] == Stats(0, 0, 0, 0)
  }

  predicate LeadsToLast(connections: seq<Connection>, index: map<string, nat>) {
    && (forall i :: 0 <= i < |connections| ==> connections[i].key in index && i <= index[connections[i].key])
    && (forall k :: k in index ==> index[k] < |connections| && connections[index[k]].key == k)
  }

  /** The state of SetConnections once the first i were taken in. */
  predicate Taken(given: seq<Connection>, i: nat, connections: seq<Connection>, index: map<string, nat>,
                  stats: seq<Stats>)
  {
    && i <= |given| && connections == Named(given[..i]) && AllOff(connections)
    && Unmeasured(stats) && LeadsToLast(connections, index)
  }

  lemma NoneTaken(given: seq<Connection>)
    ensures Taken(given, 0, [], map[], [])
  {
    assert given[..0] == [];
  }

  lemma AllTaken(given: seq<Connection>, connections: seq<Connection>, index: map<string, nat>, stats: seq<Stats>)
    requires Taken(given, |given|, connections, index, stats)
    ensures connections == Named(given) && AllOff(connections) && Unmeasured(stats) && LeadsToLast(connections, index)
    ensures forall c :: c in given && c.key != "" ==> c.key in index
    ensures forall k :: k in index ==> exists c :: c in given && c.key == k
  {
    assert given[..|given|] == given;
    hide Named;
    NamedKeys(given);
    forall k | k in index
      ensures exists c :: c in given && c.key == k
    {
      assert connections[index[k]] in connections;
    }
  }

  lemma {:induction false} NamedKeys(given: seq<Connection>)
    ensures forall c :: c in given && c.key != "" ==> c.(valid := false) in Named(given)
    ensures forall c :: c in Named(given) ==> exists g :: g in given && g.key == c.key
  {
    if given != [] {
      var init, last := given[..|given| - 1], given[|given| - 1];
      assert given == init + [last];
      NamedKeys(init);
      forall c | c in Named(given)
        ensures exists g :: g in given && g.key == c.key
      {
        if c in Named(init) {
          var g :| g in init && g.key == c.key;
          assert g in given;
        } else {
          assert last in given && last.key == c.key;
        }
      }
    }
  }

  lemma OneMoreTaken(given: seq<Connection>, i: nat, connections: seq<Connection>, index: map<string, nat>,
                     stats: seq<Stats>)
    requires i < |given| && Taken(given, i, connections, index, stats)
    ensures AllOff(connections)
    ensures var c := given[i].(valid := false);
      if given[i].key == "" then Taken(given, i + 1, connections, index, stats)
      else Taken(given, i + 1, connections + [c], index[c.key := |connections|], stats + [Stats(0, 0, 0, 0)])
  {
    hide Named;
    NamedStep(given, i);
  }

  lemma NamedStep(given: seq<Connection>, i: nat)
    requires i < |given|
    ensures Named(given[..i + 1]) ==
      if given[i].key == "" then Named(given[..i]) else Named(given[..i]) + [given[i].(valid := false)]
  {
    assert given[..i + 1][..i] == given[..i];
  }

  lemma Enlisted(connections: seq<Connection>, index: map<string, nat>, inactive: seq<nat>, c: Connection)
    requires Partitioned(connections, index, [], inactive) && c.key != "" && !c.valid
    requires AllOff(connections)
    ensures Partitioned(connections + [c], index[c.key := |connections|], [], inactive + [|connections|])
  {
    var all, ids := connections + [c], inactive + [|connections|];
    assert forall i :: 0 <= i < |connections| ==> connections[i] in connections;
    assert |connections| !in inactive;
    forall i | 0 <= i < |all|
      ensures i in ids && !all[i].valid
    {
      if i < |connections| { assert i in inactive; } else { assert ids[|inactive|] == i; }
    }
  }
}
