/** Loss recovery: NACK selection and priority resends. */
module ArqRecovery {
  // Which missing numbers the receiver asks for, and which retransmissions the sender puts in the
  // priority lane. Both scan 16-bit numbers across the wrap.

  import opened Words

  /** k is the offset of a number that is expected and not buffered. */
  predicate Hole(rcvNxt: uint16, buffered: set<uint16>, k: nat) {
    Add16(rcvNxt, k) !in buffered
  }

  lemma OffsetsRoundTrip(rcvNxt: uint16, k: nat)
    requires k < M16
    ensures Sub16(Add16(rcvNxt, k), rcvNxt) == k
    ensures Add16(Add16(rcvNxt, k), 1) == Add16(rcvNxt, k + 1)
    ensures k > 0 ==> Add16(Add16(rcvNxt, k), -1) == Add16(rcvNxt, k - 1)
  {
  }

  /** The numbers at the given offsets, which must be distinct holes below the limit. */
  ghost predicate AreHoles(missing: seq<uint16>, rcvNxt: uint16, buffered: set<uint16>, below: nat) {
    && (forall i :: 0 <= i < |missing| ==> missing[i] !in buffered && Sub16(missing[i], rcvNxt) < below)
    && (forall i, j :: 0 <= i < j < |missing| ==> missing[i] != missing[j])
  }

  /** The first `count` of them lie before offset k. */
  predicate InFront(missing: seq<uint16>, rcvNxt: uint16, count: nat, k: nat) {
    count <= |missing| && forall i :: 0 <= i < count ==> Sub16(missing[i], rcvNxt) < k
  }

  predicate NoHole(rcvNxt: uint16, buffered: set<uint16>, from: nat, to: nat) {
    forall k: nat :: from <= k < to ==> !Hole(rcvNxt, buffered, k)
  }

  /** The numbers to ask for after sn arrived. The configured gap is clamped to 128 by both loaders;
      only its fitting in 16 bits matters. */
  method DataNacks(rcvNxt: uint16, sn: uint16, buffered: set<uint16>, gap: nat) returns (missing: seq<uint16>)
    requires gap < M16
    ensures |missing| <= gap
    ensures AreHoles(missing, rcvNxt, buffered, Sub16(sn, rcvNxt))
    ensures gap == 0 || Sub16(sn, rcvNxt) >= 32768 ==> missing == []
    ensures gap > 0 && Sub16(sn, rcvNxt) < 32768 ==>
      forall k: nat :: k < Sub16(sn, rcvNxt) && Hole(rcvNxt, buffered, k) ==>
        missing != [] && Sub16(missing[0], rcvNxt) <= k
    ensures Sub16(sn, rcvNxt) <= gap && Sub16(sn, rcvNxt) < 32768 ==>
      forall k: nat :: k < Sub16(sn, rcvNxt) && Hole(rcvNxt, buffered, k) ==> Add16(rcvNxt, k) in missing
    // beyond the gap: the first twentieth of it, rounded up, from the front, and the highest hole within it
    ensures 0 < gap < Sub16(sn, rcvNxt) < 32768 ==> |missing| <= (gap + 19) / 20 + 1
    ensures 0 < gap < Sub16(sn, rcvNxt) < 32768 ==>
      forall k: nat :: k < Sub16(sn, rcvNxt) && Hole(rcvNxt, buffered, k) ==>
        Add16(rcvNxt, k) in missing || InFront(missing, rcvNxt, (gap + 19) / 20, k)
    ensures 0 < gap < Sub16(sn, rcvNxt) < 32768 ==>
      forall k: nat :: k < gap && Hole(rcvNxt, buffered, k) && NoHole(rcvNxt, buffered, k + 1, gap) ==>
        Add16(rcvNxt, k) in missing
  {
    missing := [];
    if gap <= 0 {
      return;
    }
    var diff := Sub16(sn, rcvNxt);
    OffsetStart(rcvNxt, sn);
    if diff == 0 || diff >= 32768 {
      return;
    }
    if diff <= gap {
      missing := ScanHoles(rcvNxt, sn, buffered, gap);
    } else {
      var sampleCount := Max(1, (gap + 19) / 20);
      missing := ScanHoles(rcvNxt, sn, buffered, sampleCount);
      var frontier := HighestHole(rcvNxt, gap - 1, buffered);
      if frontier.Some? { OffsetStart(rcvNxt, frontier.value); }
      if Hole(rcvNxt, buffered, 0) { OffsetStart(rcvNxt, missing[0]); }
      if frontier.Some? && frontier.value !in missing {
        missing := missing + [frontier.value];
      }
      forall k: nat | k < gap && Hole(rcvNxt, buffered, k) && NoHole(rcvNxt, buffered, k + 1, gap)
        ensures Add16(rcvNxt, k) in missing
      {
        FrontierIs(rcvNxt, buffered, gap, frontier, k);
      }
    }
  }

  /** Two descriptions of the highest hole below the gap agree. */
  lemma FrontierIs(rcvNxt: uint16, buffered: set<uint16>, gap: nat, frontier: Option<uint16>, k: nat)
    requires k < gap < M16 && Hole(rcvNxt, buffered, k) && NoHole(rcvNxt, buffered, k + 1, gap)
    requires frontier.Some? ==> frontier.value !in buffered && Sub16(frontier.value, rcvNxt) < gap
    requires frontier.Some? ==> NoHole(rcvNxt, buffered, Sub16(frontier.value, rcvNxt) + 1, gap)
    requires frontier.None? ==> NoHole(rcvNxt, buffered, 0, gap)
    ensures frontier == Some(Add16(rcvNxt, k))
  {
    if frontier.Some? {
      OffsetStart(rcvNxt, frontier.value);
      assert Hole(rcvNxt, buffered, Sub16(frontier.value, rcvNxt));
    }
  }

  /** The first holes from rcvNxt up to sn, in order, at most the given number of them. */
  method ScanHoles(rcvNxt: uint16, sn: uint16, buffered: set<uint16>, most: nat) returns (missing: seq<uint16>)
    requires Sub16(sn, rcvNxt) < 32768
    ensures |missing| <= most && |missing| <= Sub16(sn, rcvNxt)
    ensures AreHoles(missing, rcvNxt, buffered, Sub16(sn, rcvNxt))
    ensures most > 0 ==> forall k: nat :: k < Sub16(sn, rcvNxt) && Hole(rcvNxt, buffered, k) ==>
      missing != [] && Sub16(missing[0], rcvNxt) <= k
    ensures forall k: nat :: k < Sub16(sn, rcvNxt) && Hole(rcvNxt, buffered, k) ==>
      Add16(rcvNxt, k) in missing || InFront(missing, rcvNxt, most, k)
    ensures |missing| < most || most >= Sub16(sn, rcvNxt) ==>
      forall k: nat :: k < Sub16(sn, rcvNxt) && Hole(rcvNxt, buffered, k) ==> Add16(rcvNxt, k) in missing
  {
    hide Sub16, Add16;
    missing := [];
    var candidate := rcvNxt;
    ghost var at: nat := 0;
    ghost var diff: nat := Sub16(sn, rcvNxt);
    OffsetStart(rcvNxt, sn);
    while candidate != sn && |missing| < most
      invariant at <= diff && candidate == Add16(rcvNxt, at)
      invariant |missing| <= at && |missing| <= most
      invariant AreHoles(missing, rcvNxt, buffered, at)
      invariant forall k: nat :: k < at && Hole(rcvNxt, buffered, k) ==> Add16(rcvNxt, k) in missing
      invariant forall k: nat :: k < at && Hole(rcvNxt, buffered, k) ==>
        missing != [] && Sub16(missing[0], rcvNxt) <= k
      decreases diff - at
    {
      assert at < diff;
      OffsetsRoundTrip(rcvNxt, at);
      if candidate !in buffered {
        missing := missing + [candidate];
      }
      candidate := Add16(candidate, 1);
      at := at + 1;
    }
    OffsetsRoundTrip(rcvNxt, at);
  }

  lemma OffsetStart(rcvNxt: uint16, sn: uint16)
    ensures Add16(rcvNxt, 0) == rcvNxt
    ensures Add16(rcvNxt, Sub16(sn, rcvNxt)) == sn
  {
  }

  /** Going down from offset top, the first number that is not buffered. */
  method HighestHole(rcvNxt: uint16, top: nat, buffered: set<uint16>) returns (hole: Option<uint16>)
    requires top < M16
    ensures hole.Some? ==> hole.value !in buffered && Sub16(hole.value, rcvNxt) <= top
    ensures hole.Some? ==>
      forall k: nat :: Sub16(hole.value, rcvNxt) < k <= top ==> !Hole(rcvNxt, buffered, k)
    ensures hole.None? ==> forall k: nat :: k <= top ==> !Hole(rcvNxt, buffered, k)
  {
    hide Sub16, Add16;
    var candidate := Add16(rcvNxt, top);
    ghost var at: nat := top;
    OffsetStart(rcvNxt, rcvNxt);
    while true
      invariant at <= top && candidate == Add16(rcvNxt, at)
      invariant forall k: nat :: at < k <= top ==> !Hole(rcvNxt, buffered, k)
      decreases at
    {
      OffsetsRoundTrip(rcvNxt, at);
      if candidate !in buffered {
        return Some(candidate);
      }
      if candidate == rcvNxt {
        OffsetsRoundTrip(rcvNxt, 0);
        return None;
      }
      candidate := Add16(candidate, -1);
      at := at - 1;
    }
  }

  // ----- the retransmit scheduler -----

  function Behind(sndNxt: uint16, jobs: seq<uint16>, i: nat): uint16
    requires i < |jobs|
  {
    Sub16(sndNxt, jobs[i])
  }

  /** best lists distinct job indices below seen, the furthest behind first. */
  ghost predicate Ranked(best: seq<nat>, jobs: seq<uint16>, sndNxt: uint16, seen: nat) {
    && seen <= |jobs|
    && (forall k :: 0 <= k < |best| ==> best[k] < seen)
    && (forall k, l :: 0 <= k < l < |best| ==> best[k] != best[l])
    && (forall k, l :: 0 <= k < l < |best| ==> Behind(sndNxt, jobs, best[k]) >= Behind(sndNxt, jobs, best[l]))
  }

  /** Every listed job is at least as far behind as job j. */
  ghost predicate Dominates(best: seq<nat>, jobs: seq<uint16>, sndNxt: uint16, j: nat) {
    && j < |jobs|
    && forall x :: x in best ==> x < |jobs| && Behind(sndNxt, jobs, x) >= Behind(sndNxt, jobs, j)
  }

  /** Where job idx goes in the ranking: behind every job at least as far behind. */
  method RankOf(best: seq<nat>, jobs: seq<uint16>, sndNxt: uint16, idx: nat) returns (pos: nat)
    requires Ranked(best, jobs, sndNxt, idx) && idx < |jobs|
    ensures pos <= |best|
    ensures forall k :: 0 <= k < pos ==> Behind(sndNxt, jobs, best[k]) >= Behind(sndNxt, jobs, idx)
    ensures forall k :: pos <= k < |best| ==> Behind(sndNxt, jobs, best[k]) <= Behind(sndNxt, jobs, idx)
  {
    hide Sub16;
    var dist := Behind(sndNxt, jobs, idx);
    pos := |best|;
    while pos > 0
      invariant 0 <= pos <= |best|
      invariant forall k :: pos <= k < |best| ==> Behind(sndNxt, jobs, best[k]) <= dist
    {
      var prevDist := Behind(sndNxt, jobs, best[pos - 1]);
      if prevDist > dist || (prevDist == dist && jobs[best[pos - 1]] <= jobs[idx]) {
        break;
      }
      pos := pos - 1;
    }
  }

  function InsertedAt(best: seq<nat>, pos: nat, idx: nat): seq<nat>
    requires pos <= |best|
  {
    best[..pos] + [idx] + best[pos..]
  }

  lemma InsertedIsRanked(best: seq<nat>, jobs: seq<uint16>, sndNxt: uint16, idx: nat, pos: nat)
    requires Ranked(best, jobs, sndNxt, idx) && idx < |jobs| && pos <= |best|
    requires forall k :: 0 <= k < pos ==> Behind(sndNxt, jobs, best[k]) >= Behind(sndNxt, jobs, idx)
    requires forall k :: pos <= k < |best| ==> Behind(sndNxt, jobs, best[k]) <= Behind(sndNxt, jobs, idx)
    ensures Ranked(InsertedAt(best, pos, idx), jobs, sndNxt, idx + 1)
    ensures forall x :: x in InsertedAt(best, pos, idx) <==> x in best || x == idx
  {
    hide Behind;
    var full := InsertedAt(best, pos, idx);
    forall k, l | 0 <= k < l < |full|
      ensures full[k] != full[l] && Behind(sndNxt, jobs, full[k]) >= Behind(sndNxt, jobs, full[l])
    {
      if l == pos || k == pos {} else if l < pos {} else if k < pos {} else {}
    }
  }

  /** Insert a job index into the ranking and keep the first `budget`. */
  method InsertBest(best: seq<nat>, jobs: seq<uint16>, sndNxt: uint16, idx: nat, budget: nat) returns (best': seq<nat>)
    requires Ranked(best, jobs, sndNxt, idx) && idx < |jobs| && 0 < budget && |best| <= budget
    ensures Ranked(best', jobs, sndNxt, idx + 1)
    ensures |best'| == Min(|best| + 1, budget)
    ensures forall x :: x in best' ==> x in best || x == idx
    ensures |best| < budget ==> forall x :: x in best || x == idx ==> x in best'
    ensures forall j :: (j in best || j == idx) && j !in best' ==> Dominates(best', jobs, sndNxt, j)
  {
    hide Sub16, Behind;
    var pos := RankOf(best, jobs, sndNxt, idx);
    var full := InsertedAt(best, pos, idx);
    InsertedIsRanked(best, jobs, sndNxt, idx, pos);
    if |full| > budget {
      best' := full[..budget];
      forall j | j in full && j !in best' ensures Dominates(best', jobs, sndNxt, j) {
        assert full[budget] == j;
      }
    } else {
      best' := full;
    }
  }

  function CountTrue(s: seq<bool>): nat {
    if s == [] then 0 else (if s[0] then 1 else 0) + CountTrue(s[1..])
  }

  lemma {:induction false} CountAfterMark(s: seq<bool>, i: nat)
    requires i < |s| && !s[i]
    ensures CountTrue(s[i := true]) == CountTrue(s) + 1
  {
    if i > 0 {
      CountAfterMark(s[1..], i - 1);
      assert s[i := true][1..] == s[1..][i - 1 := true];
    } else {
      assert s[0 := true][1..] == s[1..];
    }
  }

  lemma {:induction false} CountNone(n: nat)
    ensures CountTrue(seq(n, _ => false)) == 0
  {
    if n > 0 {
      CountNone(n - 1);
      assert seq(n, _ => false)[1..] == seq(n - 1, _ => false);
    }
  }

  /** Which retransmissions go out as priority resends: a tenth of the window, within 1 and 64, of the jobs
      furthest behind. */
  method PriorityKinds(jobs: seq<uint16>, sndNxt: uint16, windowSize: nat) returns (kinds: seq<bool>)
    ensures |kinds| == |jobs|
    ensures CountTrue(kinds) == Min(Min(Max(windowSize / 10, 1), 64), |jobs|)
    ensures forall i, j :: 0 <= i < |jobs| && 0 <= j < |jobs| && kinds[i] && !kinds[j] ==>
      Behind(sndNxt, jobs, i) >= Behind(sndNxt, jobs, j)
  {
    hide Sub16, Behind;
    if |jobs| == 0 {
      return [];
    }
    if |jobs| == 1 {
      assert CountTrue([true]) == 1 + CountTrue([]);
      return [true];
    }
    var frontBudget := windowSize / 10;
    if frontBudget < 1 { frontBudget := 1; }
    if frontBudget > 64 { frontBudget := 64; }
    if frontBudget > |jobs| { frontBudget := |jobs|; }
    var best := BestJobs(jobs, sndNxt, frontBudget);
    kinds := seq(|jobs|, _ => false);
    CountNone(|jobs|);
    for k := 0 to |best|
      invariant |kinds| == |jobs|
      invariant CountTrue(kinds) == k
      invariant forall i :: 0 <= i < |jobs| ==> (kinds[i] <==> i in best[..k])
    {
      assert best[..k + 1] == best[..k] + [best[k]];
      CountAfterMark(kinds, best[k]);
      kinds := kinds[best[k] := true];
    }
    assert best[..|best|] == best;
  }

  method BestJobs(jobs: seq<uint16>, sndNxt: uint16, frontBudget: nat) returns (best: seq<nat>)
    requires 0 < frontBudget <= |jobs|
    ensures Ranked(best, jobs, sndNxt, |jobs|) && |best| == frontBudget
    ensures forall j :: 0 <= j < |jobs| && j !in best ==> Dominates(best, jobs, sndNxt, j)
  {
    hide Sub16, Behind;
    best := [];
    for i := 0 to |jobs|
      invariant Ranked(best, jobs, sndNxt, i)
      invariant |best| == Min(i, frontBudget)
      invariant forall j :: 0 <= j < i && j !in best ==> |best| == frontBudget && Dominates(best, jobs, sndNxt, j)
    {
      var dist := Behind(sndNxt, jobs, i);
      if |best| < frontBudget {
        best := InsertBest(best, jobs, sndNxt, i, frontBudget);
      } else {
        var last := best[|best| - 1];
        if dist > Behind(sndNxt, jobs, last) || (dist == Behind(sndNxt, jobs, last) && jobs[i] < jobs[last]) {
          best := InsertBest(best, jobs, sndNxt, i, frontBudget);
        }
      }
    }
  }
}
