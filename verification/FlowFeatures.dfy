/** Burst, idle and early-packet features of a flow, and their agreement with the sequence tensor. */
module FlowFeatures {
  import opened Wrappers
  import opened Text
  import opened RealSums

  /** A stretch `[lo, hi)` of inter-arrival times below the threshold that cannot be made longer. */
  predicate IsRun(iats: seq<real>, thresh: real, lo: int, hi: int) {
    && 0 <= lo < hi <= |iats|
    && (forall i :: lo <= i < hi ==> iats[i] < thresh)
    && (lo == 0 || iats[lo - 1] >= thresh)
    && (hi == |iats| || iats[hi] >= thresh)
  }

  datatype Span = Span(lo: nat, hi: nat)

  /** All maximal runs that end before `end`, in order, no two sharing a packet. */
  ghost predicate RunsUpTo(iats: seq<real>, thresh: real, runs: seq<Span>, end: int) {
    && (forall k :: 0 <= k < |runs| ==> IsRun(iats, thresh, runs[k].lo, runs[k].hi) && runs[k].hi < end)
    && (forall k :: 0 < k < |runs| ==> runs[k - 1].hi < runs[k].lo)
    && (forall lo, hi :: IsRun(iats, thresh, lo, hi) && hi < end ==>
         exists k :: 0 <= k < |runs| && runs[k] == Span(lo, hi))
  }

  /** The packets of a run: one more than its inter-arrival times. */
  predicate BytesOf(lengths: seq<real>, runs: seq<Span>, bytes: seq<real>) {
    && |bytes| == |runs|
    && forall k :: 0 <= k < |runs| ==>
         runs[k].lo <= runs[k].hi < |lengths| && bytes[k] == Sum(lengths[runs[k].lo..runs[k].hi + 1])
  }

  /** A run that began at `start` and has not been seen to end. */
  predicate OpenRun(iats: seq<real>, thresh: real, start: nat, i: nat) {
    && start < i <= |iats|
    && (start == 0 || iats[start - 1] >= thresh)
    && forall j :: start <= j < i ==> iats[j] < thresh
  }

  /** The burst loop finds exactly the maximal runs and totals each one's packets. */
  method ScanBursts(iats: seq<real>, lengths: seq<real>, thresh: real)
    returns (burstCount: nat, burstBytes: seq<real>)
    requires |lengths| == |iats| + 1
    ensures exists runs ::
      RunsUpTo(iats, thresh, runs, |iats| + 1) && BytesOf(lengths, runs, burstBytes) && burstCount == |runs|
  {
    hide RunsUpTo, BytesOf, Sum;
    burstCount, burstBytes := 0, [];
    ghost var runs: seq<Span> := [];
    assert RunsUpTo(iats, thresh, runs, 0) by { NoRunsAtStart(iats, thresh); }
    assert BytesOf(lengths, [], []) by { NoBytesAtStart(lengths); }
    var inBurst, current := false, 0.0;
    ghost var start := 0;
    for i := 0 to |iats|
      invariant RunsUpTo(iats, thresh, runs, i)
      invariant BytesOf(lengths, runs, burstBytes)
      invariant burstCount == |runs|
      invariant !inBurst ==> i == 0 || iats[i - 1] >= thresh
      invariant inBurst ==> OpenRun(iats, thresh, start, i) && current == Sum(lengths[start..i + 1])
      invariant inBurst ==> runs == [] || runs[|runs| - 1].hi < start
    {
      if iats[i] < thresh {
        NoRunEnds(iats, thresh, runs, i);
        if !inBurst {
          inBurst, start := true, i;
          current := lengths[i] + lengths[i + 1];
          SumOfTwo(lengths, i);
        } else {
          current := current + lengths[i + 1];
          SumExtend(lengths, start, i + 1);
        }
      } else {
        if inBurst {
          CloseRun(iats, thresh, runs, start, i);
          AddBytes(lengths, runs, burstBytes, Span(start, i));
          burstCount := burstCount + 1;
          burstBytes := burstBytes + [current];
          runs := runs + [Span(start, i)];
          inBurst, current := false, 0.0;
        } else {
          NoRunEnds(iats, thresh, runs, i);
        }
      }
    }
    if inBurst {
      CloseRun(iats, thresh, runs, start, |iats|);
      AddBytes(lengths, runs, burstBytes, Span(start, |iats|));
      burstCount := burstCount + 1;
      burstBytes := burstBytes + [current];
      runs := runs + [Span(start, |iats|)];
    } else {
      NoRunEnds(iats, thresh, runs, |iats|);
    }
  }

  ghost predicate Ascending(s: seq<Span>) {
    forall i, j :: 0 <= i < j < |s| ==> s[i].lo < s[j].lo
  }

  lemma {:induction false} RunsAscend(iats: seq<real>, thresh: real, runs: seq<Span>, end: int, i: nat, j: nat)
    requires RunsUpTo(iats, thresh, runs, end) && i < j < |runs|
    ensures runs[i].lo < runs[j].lo
    decreases j
  {
    assert runs[j - 1].hi < runs[j].lo && IsRun(iats, thresh, runs[j - 1].lo, runs[j - 1].hi);
    if i < j - 1 { RunsAscend(iats, thresh, runs, end, i, j - 1); }
  }

  lemma {:induction false} SameMembersSameOrder(a: seq<Span>, b: seq<Span>)
    requires Ascending(a) && Ascending(b) && forall x :: x in a <==> x in b
    ensures a == b
  {
    assert (b != [] ==> b[0] in b) && (a != [] ==> a[0] in a);
    if a != [] {
      assert a[0] in b && b[0] in a;
      assert a[0].lo <= b[0].lo && b[0].lo <= a[0].lo;
      assert a[0] == b[0];
      assert a == [a[0]] + a[1..] && b == [b[0]] + b[1..];
      assert a[0] !in a[1..] && b[0] !in b[1..];
      assert forall x :: x in a[1..] <==> x in a && x != a[0];
      assert forall x :: x in b[1..] <==> x in b && x != b[0];
      SameMembersSameOrder(a[1..], b[1..]);
    }
  }

  /** There is one decomposition into maximal runs, so the bursts are determined. */
  lemma RunsAreUnique(iats: seq<real>, thresh: real, a: seq<Span>, b: seq<Span>, end: int)
    requires RunsUpTo(iats, thresh, a, end) && RunsUpTo(iats, thresh, b, end)
    ensures a == b
  {
    forall i, j | 0 <= i < j < |a| ensures a[i].lo < a[j].lo { RunsAscend(iats, thresh, a, end, i, j); }
    forall i, j | 0 <= i < j < |b| ensures b[i].lo < b[j].lo { RunsAscend(iats, thresh, b, end, i, j); }
    RunMembers(iats, thresh, a, end);
    RunMembers(iats, thresh, b, end);
    SameMembersSameOrder(a, b);
  }

  lemma RunMembers(iats: seq<real>, thresh: real, runs: seq<Span>, end: int)
    requires RunsUpTo(iats, thresh, runs, end)
    ensures forall x: Span :: x in runs <==> IsRun(iats, thresh, x.lo, x.hi) && x.hi < end
  {
    forall x: Span | IsRun(iats, thresh, x.lo, x.hi) && x.hi < end ensures x in runs {
      var k :| 0 <= k < |runs| && runs[k] == Span(x.lo, x.hi);
    }
  }

  lemma NoRunsAtStart(iats: seq<real>, thresh: real)
    ensures RunsUpTo(iats, thresh, [], 0)
  {}

  lemma NoBytesAtStart(lengths: seq<real>)
    ensures BytesOf(lengths, [], [])
  {}

  lemma NoRunEnds(iats: seq<real>, thresh: real, runs: seq<Span>, i: nat)
    requires RunsUpTo(iats, thresh, runs, i) && i <= |iats|
    requires (i < |iats| && iats[i] < thresh) || i == 0 || iats[i - 1] >= thresh
    ensures RunsUpTo(iats, thresh, runs, i + 1)
    ensures runs == [] || runs[|runs| - 1].hi < i
  {
    forall lo, hi | IsRun(iats, thresh, lo, hi) && hi < i + 1 ensures hi < i {}
  }

  lemma AddBytes(lengths: seq<real>, runs: seq<Span>, bytes: seq<real>, run: Span)
    requires BytesOf(lengths, runs, bytes) && run.lo <= run.hi < |lengths|
    ensures BytesOf(lengths, runs + [run], bytes + [Sum(lengths[run.lo..run.hi + 1])])
  {}

  lemma SumOfTwo(s: seq<real>, i: nat)
    requires i + 1 < |s|
    ensures Sum(s[i..i + 2]) == s[i] + s[i + 1]
  {
    assert s[i..i] == [];
    SumExtend(s, i, i);
    SumExtend(s, i, i + 1);
  }

  lemma CloseRun(iats: seq<real>, thresh: real, runs: seq<Span>, start: nat, end: nat)
    requires RunsUpTo(iats, thresh, runs, end)
    requires OpenRun(iats, thresh, start, end) && (end == |iats| || iats[end] >= thresh)
    requires runs == [] || runs[|runs| - 1].hi < start
    ensures RunsUpTo(iats, thresh, runs + [Span(start, end)], end + 1)
  {
    hide OpenRun;
    RunIsMaximal(iats, thresh, start, end);
    var more := runs + [Span(start, end)];
    forall lo, hi | IsRun(iats, thresh, lo, hi) && hi < end + 1
      ensures exists k :: 0 <= k < |more| && more[k] == Span(lo, hi)
    {
      if hi < end {
        var k :| 0 <= k < |runs| && runs[k] == Span(lo, hi);
        assert more[k] == Span(lo, hi);
      } else {
        OneRunEndsHere(iats, thresh, lo, start, end);
        assert more[|runs|] == Span(lo, hi);
      }
    }
    hide IsRun;
  }

  lemma RunIsMaximal(iats: seq<real>, thresh: real, start: nat, end: nat)
    requires OpenRun(iats, thresh, start, end) && (end == |iats| || iats[end] >= thresh)
    ensures IsRun(iats, thresh, start, end)
  {}

  lemma OneRunEndsHere(iats: seq<real>, thresh: real, a: int, b: int, end: int)
    requires IsRun(iats, thresh, a, end) && IsRun(iats, thresh, b, end)
    ensures a == b
  {}

  /** Bursts share no packet: their bytes and packets never exceed the flow's. */
  lemma {:induction false} BurstsAreDisjoint(
      iats: seq<real>, thresh: real, runs: seq<Span>, lengths: seq<real>, bytes: seq<real>, n: nat)
    requires |lengths| == |iats| + 1 && n <= |runs|
    requires RunsUpTo(iats, thresh, runs, |iats| + 1) && BytesOf(lengths, runs, bytes)
    requires forall i :: 0 <= i < |lengths| ==> lengths[i] >= 0.0
    ensures var end := if n == 0 then 0 else runs[n - 1].hi + 1;
      end <= |lengths| && Sum(bytes[..n]) <= Sum(lengths[..end]) && 2 * n <= end
    decreases n
  {
    hide Sum;
    if n == 0 { assert bytes[..0] == [] && lengths[..0] == []; }
    if n > 0 {
      BurstsAreDisjoint(iats, thresh, runs, lengths, bytes, n - 1);
      var before := if n == 1 then 0 else runs[n - 2].hi + 1;
      var lo, end := runs[n - 1].lo, runs[n - 1].hi + 1;
      SumWithin(lengths, before, lo, end);
      SumExtend(bytes, 0, n - 1);
      assert bytes[..n] == bytes[0..n] && bytes[..n - 1] == bytes[0..n - 1];
    }
  }

  lemma SumWithin(s: seq<real>, before: nat, lo: nat, end: nat)
    requires before <= lo <= end <= |s| && forall i :: 0 <= i < |s| ==> s[i] >= 0.0
    ensures Sum(s[..before]) + Sum(s[lo..end]) <= Sum(s[..end])
  {
    SumSplit(s[..end], lo);
    SumSplit(s[..lo], before);
    assert s[..end][..lo] == s[..lo] && s[..end][lo..] == s[lo..end] && s[..lo][..before] == s[..before];
    SumNonNegative(s[..lo][before..]);
  }

  lemma BurstTotals(iats: seq<real>, thresh: real, runs: seq<Span>, lengths: seq<real>, bytes: seq<real>)
    requires |lengths| == |iats| + 1
    requires RunsUpTo(iats, thresh, runs, |iats| + 1) && BytesOf(lengths, runs, bytes)
    requires forall i :: 0 <= i < |lengths| ==> lengths[i] >= 0.0
    ensures Sum(bytes) <= Sum(lengths) && 2 * |runs| <= |lengths|
  {
    hide Sum, RunsUpTo;
    BurstsAreDisjoint(iats, thresh, runs, lengths, bytes, |runs|);
    var end := if |runs| == 0 then 0 else runs[|runs| - 1].hi + 1;
    SumSplit(lengths, end);
    SumNonNegative(lengths[end..]);
    assert bytes[..|runs|] == bytes;
  }

  // Timing

  predicate Ordered(times: seq<real>) {
    forall i :: 0 < i < |times| ==> times[i - 1] <= times[i]
  }

  /** Inter-arrival times in milliseconds. */
  function Iats(times: seq<real>): (r: seq<real>)
    ensures |r| == if |times| == 0 then 0 else |times| - 1
    ensures forall i :: 0 <= i < |r| ==> r[i] == (times[i + 1] - times[i]) * 1000.0
  {
    if |times| <= 1 then [] else [(times[1] - times[0]) * 1000.0] + Iats(times[1..])
  }

  function DurationMs(times: seq<real>): real {
    if |times| > 1 then
      var seconds := times[|times| - 1] - times[0];
      (if seconds < 0.0 then 0.0 else seconds) * 1000.0
    else 0.0
  }

  lemma {:induction false} IatsTelescope(times: seq<real>)
    requires Ordered(times)
    ensures Sum(Iats(times)) == DurationMs(times)
    ensures |times| > 0 ==> times[0] <= times[|times| - 1]
  {
    if |times| > 1 {
      IatsTelescope(times[1..]);
      assert Iats(times)[1..] == Iats(times[1..]);
    }
  }

  /** The time spent in gaps longer than the threshold. */
  function IdleMs(iats: seq<real>, thresh: real): real {
    if iats == [] then 0.0 else (if iats[0] > thresh then iats[0] else 0.0) + IdleMs(iats[1..], thresh)
  }

  lemma {:induction false} IdleWithinTotal(iats: seq<real>, thresh: real)
    requires forall i :: 0 <= i < |iats| ==> iats[i] >= 0.0
    ensures 0.0 <= IdleMs(iats, thresh) <= Sum(iats)
  {
    if iats != [] { IdleWithinTotal(iats[1..], thresh); }
  }

  function Clamp01(x: real): real {
    if x < 0.0 then 0.0 else if x > 1.0 then 1.0 else x
  }

  function IdleRatio(times: seq<real>, thresh: real): real {
    if DurationMs(times) > 0.000001 && |Iats(times)| > 0 then Clamp01(IdleMs(Iats(times), thresh) / DurationMs(times))
    else 0.0
  }

  lemma IatsNonNegative(times: seq<real>)
    requires Ordered(times)
    ensures forall i :: 0 <= i < |Iats(times)| ==> Iats(times)[i] >= 0.0
    ensures DurationMs(times) > 0.0 ==> |Iats(times)| > 0
  {}

  /** Gaps telescope to the duration, so the ratio needs no clamping. */
  lemma IdleClampIsIdle(times: seq<real>, thresh: real)
    requires Ordered(times)
    ensures 0.0 <= IdleMs(Iats(times), thresh) <= DurationMs(times)
    ensures DurationMs(times) > 0.000001 ==> IdleRatio(times, thresh) == IdleMs(Iats(times), thresh) / DurationMs(times)
    ensures DurationMs(times) <= 0.000001 ==> IdleRatio(times, thresh) == 0.0
  {
    IatsTelescope(times);
    IatsNonNegative(times);
    IdleWithinTotal(Iats(times), thresh);
    hide Iats, IdleMs, DurationMs, Sum;
    if DurationMs(times) > 0.000001 {
      QuotientInUnit(IdleMs(Iats(times), thresh), DurationMs(times));
    }
  }

  // The sequence tensor

  datatype Schema = Schema(
    lengthNorm: real, deltaClip: real, padding: real, directionForward: real, directionReverse: real)

  /** A flow after direction resolution; `forward[i]` tells the direction of packet `i`. */
  datatype Flow = Flow(times: seq<real>, lengths: seq<real>, forward: seq<bool>)

  predicate Valid(f: Flow) {
    |f.times| == |f.lengths| == |f.forward| && |f.times| > 0 && Ordered(f.times)
    && forall i :: 0 <= i < |f.lengths| ==> f.lengths[i] >= 0.0
  }

  function Delta(f: Flow, s: Schema, i: nat): real
    requires Valid(f) && i < |f.times|
  {
    if i == 0 then 0.0
    else
      var raw := if f.times[i] - f.times[i - 1] < 0.0 then 0.0 else f.times[i] - f.times[i - 1];
      if raw < s.deltaClip then raw else s.deltaClip
  }

  /** Channel `c` at position `i` of the tensor with the given horizon; positions past the flow are padding. */
  function Cell(f: Flow, s: Schema, horizon: nat, c: nat, i: nat): real
    requires Valid(f) && s.lengthNorm != 0.0 && c < 3
  {
    if i >= Min(|f.times|, horizon) then s.padding
    else if c == 0 then (if f.forward[i] then s.directionForward else s.directionReverse)
    else if c == 1 then f.lengths[i] / s.lengthNorm
    else Delta(f, s, i)
  }

  /** The mask: does position `i` hold a packet? */
  predicate Valued(f: Flow, horizon: nat, i: nat) {
    i < Min(|f.times|, horizon)
  }

  // Packets, as both extractors read them

  datatype Packet = Packet(time: real, length: real, direction: Option<int>, spi: Option<string>)

  datatype ExtractionError = NoPackets | TimestampInversion | NegativeLength

  /** A stated direction counts by its sign; else the packet is forward unless its SPI differs from the flow's. */
  predicate Forward(p: Packet, flowSpi: Option<string>) {
    match p.direction
    case Some(d) => d > 0
    case None => flowSpi.Some? && p.spi.Some? && p.spi.value != "" ==> Lower(p.spi.value) == Lower(flowSpi.value)
  }

  /** The checks both extractors make before anything else; ordered packets are already sorted. */
  function FlowOf(packets: seq<Packet>, flowSpi: Option<string>): (r: Result<Flow, ExtractionError>)
    ensures r.Ok? ==> Valid(r.value) && |r.value.times| == |packets|
    ensures r.Ok? ==> forall i :: 0 <= i < |packets| ==>
      && r.value.times[i] == packets[i].time && r.value.lengths[i] == packets[i].length
      && r.value.forward[i] == Forward(packets[i], flowSpi)
    ensures r.Ok? <==>
      && packets != []
      && (forall i :: 0 < i < |packets| ==> packets[i - 1].time <= packets[i].time)
      && forall i :: 0 <= i < |packets| ==> packets[i].length >= 0.0
  {
    if packets == [] then Err(NoPackets)
    else if exists i :: 0 < i < |packets| && packets[i].time < packets[i - 1].time then Err(TimestampInversion)
    else if exists i :: 0 <= i < |packets| && packets[i].length < 0.0 then Err(NegativeLength)
    else
      Ok(Flow(
        seq(|packets|, i requires 0 <= i < |packets| => packets[i].time),
        seq(|packets|, i requires 0 <= i < |packets| => packets[i].length),
        seq(|packets|, i requires 0 <= i < |packets| => Forward(packets[i], flowSpi))))
  }

  method ExtractSequence(f: Flow, s: Schema, horizon: nat) returns (tensor: array2<real>, mask: array<bool>)
    requires Valid(f) && s.lengthNorm != 0.0 && horizon > 0
    ensures tensor.Length0 == 3 && tensor.Length1 == horizon && mask.Length == horizon
    ensures forall c, i :: 0 <= c < 3 && 0 <= i < horizon ==> tensor[c, i] == Cell(f, s, horizon, c, i)
    ensures forall i :: 0 <= i < horizon ==> mask[i] == Valued(f, horizon, i)
  {
    var k := Min(|f.times|, horizon);
    tensor := new real[3, horizon]((_, _) => s.padding);
    mask := new bool[horizon](_ => false);
    for i := 0 to k
      invariant forall c, j :: 0 <= c < 3 && 0 <= j < i ==> tensor[c, j] == Cell(f, s, horizon, c, j)
      invariant forall c, j :: 0 <= c < 3 && i <= j < horizon ==> tensor[c, j] == s.padding
      invariant forall j :: 0 <= j < horizon ==> mask[j] == (j < i)
    {
      tensor[0, i] := if f.forward[i] then s.directionForward else s.directionReverse;
      tensor[1, i] := f.lengths[i] / s.lengthNorm;
      var delta := 0.0;
      if i != 0 {
        var raw := if f.times[i] - f.times[i - 1] < 0.0 then 0.0 else f.times[i] - f.times[i - 1];
        delta := if raw < s.deltaClip then raw else s.deltaClip;
      }
      tensor[2, i] := delta;
      mask[i] := true;
    }
  }

  /** Cutting a tensor and its mask to a shorter horizon gives those of that horizon. */
  lemma TruncationAgrees(f: Flow, s: Schema, long: nat, short: nat, c: nat, i: nat)
    requires Valid(f) && s.lengthNorm != 0.0 && c < 3 && i < short <= long
    ensures Cell(f, s, long, c, i) == Cell(f, s, short, c, i) && Valued(f, long, i) == Valued(f, short, i)
  {}

  /** Sum of the first `n` entries of a channel. */
  function ChannelSum(f: Flow, s: Schema, horizon: nat, c: nat, n: nat): real
    requires Valid(f) && s.lengthNorm != 0.0 && c < 3
  {
    if n == 0 then 0.0 else ChannelSum(f, s, horizon, c, n - 1) + Cell(f, s, horizon, c, n - 1)
  }

  function FirstKBytes(f: Flow, earlyK: nat): real {
    Sum(f.lengths[..Min(earlyK, |f.lengths|)])
  }

  /** How many of the first `n` positions are padding. */
  function Padded(f: Flow, n: nat): nat {
    if n <= |f.times| then 0 else n - |f.times|
  }

  /** The length channel scaled back is the tabular early-byte feature, and the padding. */
  lemma {:induction false} EarlyBytesAndPadding(f: Flow, s: Schema, horizon: nat, earlyK: nat)
    requires Valid(f) && s.lengthNorm != 0.0 && earlyK <= horizon
    ensures s.lengthNorm * ChannelSum(f, s, horizon, 1, earlyK)
         == FirstKBytes(f, earlyK) + s.lengthNorm * s.padding * Padded(f, earlyK) as real
    decreases earlyK
  {
    hide FirstKBytes;
    if earlyK == 0 { assert FirstKBytes(f, 0) == 0.0 by { NoEarlyBytes(f); } }
    if earlyK > 0 {
      var n := earlyK - 1;
      EarlyBytesAndPadding(f, s, horizon, n);
      Distribute(s.lengthNorm, ChannelSum(f, s, horizon, 1, n), Cell(f, s, horizon, 1, n));
      FirstKGrows(f, n);
      if n < |f.lengths| {
        ScaleBack(f.lengths[n], s.lengthNorm);
      } else {
        var w := s.lengthNorm * s.padding;
        Distribute(w, Padded(f, n) as real, 1.0);
        assert Padded(f, earlyK) as real == Padded(f, n) as real + 1.0 && s.lengthNorm * Cell(f, s, horizon, 1, n) == w;
      }
    }
  }

  /**
   * The two extractors agree on the early bytes exactly when padding is 0 or there is none among the first
   * positions.
   */
  lemma EarlyBytesAgree(f: Flow, s: Schema, horizon: nat, earlyK: nat)
    requires Valid(f) && s.lengthNorm != 0.0 && earlyK <= horizon
    ensures FirstKBytes(f, earlyK) == s.lengthNorm * ChannelSum(f, s, horizon, 1, earlyK)
      <==> s.padding == 0.0 || earlyK <= |f.times|
  {
    EarlyBytesAndPadding(f, s, horizon, earlyK);
    hide FirstKBytes, ChannelSum;
    NonZero(s.lengthNorm, s.padding);
    NonZero(s.lengthNorm * s.padding, Padded(f, earlyK) as real);
  }

  lemma NonZero(a: real, b: real)
    ensures a * b == 0.0 <==> a == 0.0 || b == 0.0
  {
    if a != 0.0 && a * b == 0.0 { ScaleBack(0.0, a); }
  }

  lemma NoEarlyBytes(f: Flow)
    ensures FirstKBytes(f, 0) == 0.0
  {
    assert f.lengths[..0] == [];
  }

  lemma FirstKGrows(f: Flow, n: nat)
    requires Valid(f)
    ensures FirstKBytes(f, n + 1) == FirstKBytes(f, n) + (if n < |f.lengths| then f.lengths[n] else 0.0)
  {
    if n < |f.lengths| {
      SumExtend(f.lengths, 0, n);
      assert f.lengths[..n + 1] == f.lengths[0..n + 1] && f.lengths[..n] == f.lengths[0..n];
    }
  }

  /** The delta channel is the tabular inter-arrival time in seconds, up to the clip. */
  lemma DeltaIsClippedIat(f: Flow, s: Schema, i: nat)
    requires Valid(f) && 0 < i < |f.times| && s.deltaClip >= 0.0
    ensures 0.0 <= Delta(f, s, i) <= s.deltaClip
    ensures Iats(f.times)[i - 1] <= s.deltaClip * 1000.0 ==> Delta(f, s, i) * 1000.0 == Iats(f.times)[i - 1]
    ensures Iats(f.times)[i - 1] >= s.deltaClip * 1000.0 ==> Delta(f, s, i) == s.deltaClip
  {
    assert Ordered(f.times);
    assert f.times[i - 1] <= f.times[i];
    assert Iats(f.times)[i - 1] == (f.times[i] - f.times[i - 1]) * 1000.0;
  }

  /** Idle time is what is left of the gaps when those up to the threshold count as nothing. */
  lemma {:induction false} IdleIsLongGaps(iats: seq<real>, thresh: real)
    ensures IdleMs(iats, thresh) == Sum(seq(|iats|, i requires 0 <= i < |iats| =>
      if iats[i] > thresh then iats[i] else 0.0))
    decreases |iats|
  {
    if iats != [] {
      IdleIsLongGaps(iats[1..], thresh);
      var kept := seq(|iats|, i requires 0 <= i < |iats| => if iats[i] > thresh then iats[i] else 0.0);
      var rest := iats[1..];
      assert kept[1..] == seq(|rest|, i requires 0 <= i < |rest| => if rest[i] > thresh then rest[i] else 0.0);
    }
  }

  /** Equal up to the case of letters, the Kelvin sign counting as a k. */
  predicate SameSpi(a: string, b: string) {
    |a| == |b| && forall i :: 0 <= i < |a| ==> LowerChar(a[i]) == LowerChar(b[i])
  }

  /**
   * The direction channel from the packets: the forward code for a positive stated direction, or for an unstated one
   * unless packet and flow have different SPIs.
   */
  lemma DirectionChannel(packets: seq<Packet>, flowSpi: Option<string>, s: Schema, horizon: nat, i: nat)
    requires FlowOf(packets, flowSpi).Ok? && s.lengthNorm != 0.0 && i < |packets| && i < horizon
    ensures var p := packets[i];
      var forward := if p.direction.Some? then p.direction.value > 0
        else !(flowSpi.Some? && p.spi.Some? && p.spi.value != "" && !SameSpi(p.spi.value, flowSpi.value));
      Cell(FlowOf(packets, flowSpi).value, s, horizon, 0, i) ==
        if forward then s.directionForward else s.directionReverse
  {
    if packets[i].spi.Some? && flowSpi.Some? { LowerIsSame(packets[i].spi.value, flowSpi.value); }
    hide Lower, SameSpi;
  }

  lemma LowerIsSame(a: string, b: string)
    ensures Lower(a) == Lower(b) <==> SameSpi(a, b)
  {
    assert forall i :: 0 <= i < |a| ==> Lower(a)[i] == LowerChar(a[i]);
    assert forall i :: 0 <= i < |b| ==> Lower(b)[i] == LowerChar(b[i]);
  }

  /** The first packet has no gap before it, and every packet's length is normalized by the schema's factor. */
  lemma LengthAndFirstDelta(f: Flow, s: Schema, horizon: nat, i: nat)
    requires Valid(f) && s.lengthNorm != 0.0 && i < |f.times| && i < horizon
    ensures Cell(f, s, horizon, 1, i) * s.lengthNorm == f.lengths[i]
    ensures i == 0 ==> Cell(f, s, horizon, 2, i) == 0.0
  {
    ScaleBack(f.lengths[i], s.lengthNorm);
  }
}
