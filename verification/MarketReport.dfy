/** Market reports: the range is split into frames from its end backwards, and traded volume is added up per frame. */
module MarketReport {
  import opened Basics
  import opened UInt64

  // Times are nanoseconds; trades carry whole seconds.
  const SECOND := 1_000_000_000
  const HOUR := 3600 * SECOND

  datatype Frame = Frame(start: int, end: int) {
    predicate Holds(timestamp: int) {
      start <= timestamp * SECOND <= end
    }
  }

  /** The frames of [start, end], latest first, each starting one second after the end of the next. */
  function Frames(start: int, end: int, hours: int): seq<Frame>
    requires hours >= 1
    decreases if end > start then end - start else 0
  {
    if end <= start then []
    else
      var nextEnd := end - HOUR * hours;
      [Frame(if nextEnd > start then nextEnd + SECOND else start, end)] + Frames(start, nextEnd, hours)
  }

  method SplitTimeRange(start: int, end: int, hours: int) returns (frames: seq<Frame>)
    requires hours >= 1
    ensures frames == Frames(start, end, hours)
  {
    frames := [];
    var e := end;
    while !(e == start || e < start)
      invariant frames + Frames(start, e, hours) == Frames(start, end, hours)
      decreases if e > start then e - start else 0
    {
      var nextEnd := e - HOUR * hours;
      var nextStart := start;
      if nextEnd - start > 0 {
        nextStart := nextEnd + SECOND;
      }
      frames := frames + [Frame(nextStart, e)];
      e := nextEnd;
    }
  }

  /** How many frames hold a timestamp. */
  function CoverCount(frames: seq<Frame>, timestamp: int): nat {
    if frames == [] then 0 else (if frames[0].Holds(timestamp) then 1 else 0) + CoverCount(frames[1..], timestamp)
  }

  /** Every frame lies in the range, is not empty, and ends before the previous one starts: no two frames meet. */
  lemma {:induction false} FramesDisjoint(start: int, end: int, hours: int, i: nat, j: nat)
    requires hours >= 1 && i <= j < |Frames(start, end, hours)|
    ensures var fs := Frames(start, end, hours);
            start <= fs[j].start <= fs[j].end <= end && (i < j ==> fs[j].end < fs[i].start)
    decreases j
  {
    var nextEnd := end - HOUR * hours;
    if i > 0 {
      FramesDisjoint(start, nextEnd, hours, i - 1, j - 1);
    } else if j > 0 {
      FramesDisjoint(start, nextEnd, hours, j - 1, j - 1);
    }
  }

  lemma {:induction false} NotAfterEnd(start: int, end: int, hours: int, timestamp: int)
    requires hours >= 1 && timestamp * SECOND > end
    ensures CoverCount(Frames(start, end, hours), timestamp) == 0
    decreases if end > start then end - start else 0
  {
    if end > start {
      NotAfterEnd(start, end - HOUR * hours, hours, timestamp);
    }
  }

  /** The boundary `k + 1` frames before the end. */
  function Boundary(end: int, hours: int, k: nat): int
    decreases k
  {
    if k == 0 then end - HOUR * hours else Boundary(end - HOUR * hours, hours, k - 1)
  }

  lemma {:induction false} BoundaryBelow(end: int, hours: int, k: nat)
    requires hours >= 1
    ensures Boundary(end, hours, k) <= end - HOUR * hours
    ensures k > 0 ==> Boundary(end, hours, k) <= end - HOUR * hours - HOUR
    decreases k
  {
    if k > 0 { BoundaryBelow(end - HOUR * hours, hours, k - 1); }
  }

  lemma {:induction false} BoundaryAligned(end: int, hours: int, k: nat)
    ensures Boundary(end, hours, k) % SECOND == end % SECOND
    decreases k
  {
    assert end == SECOND * (end / SECOND) + end % SECOND;
    assert end - HOUR * hours == SECOND * (end / SECOND - 3600 * hours) + end % SECOND;
    assert (end - HOUR * hours) % SECOND == end % SECOND;
    if k > 0 { BoundaryAligned(end - HOUR * hours, hours, k - 1); }
  }

  /** A moment strictly within one second after an inner frame boundary. */
  ghost predicate InGap(start: int, end: int, hours: int, timestamp: int) {
    exists k: nat :: AtGap(start, end, hours, timestamp, k)
  }

  ghost predicate AtGap(start: int, end: int, hours: int, timestamp: int, k: nat) {
    start < Boundary(end, hours, k) < timestamp * SECOND < Boundary(end, hours, k) + SECOND
  }

  /** Every whole second of the range falls in exactly one frame, or in none and then just after a boundary. */
  lemma {:induction false} CoverOrGap(start: int, end: int, hours: int, timestamp: int)
    requires hours >= 1 && start < end && start <= timestamp * SECOND <= end
    ensures CoverCount(Frames(start, end, hours), timestamp) == if InGap(start, end, hours, timestamp) then 0 else 1
    decreases end - start
  {
    var nextEnd := end - HOUR * hours;
    var t := timestamp * SECOND;
    if t > nextEnd {
      NotAfterEnd(start, nextEnd, hours, timestamp);
      GapNearEnd(start, end, hours, timestamp);
    } else if nextEnd == start {
      NoGapAtStart(start, end, hours, timestamp);
    } else {
      CoverOrGap(start, nextEnd, hours, timestamp);
      GapShift(start, end, hours, timestamp);
    }
  }

  /** After the latest boundary, the only gap is the second behind that boundary. */
  lemma GapNearEnd(start: int, end: int, hours: int, timestamp: int)
    requires hours >= 1 && end - HOUR * hours < timestamp * SECOND
    ensures InGap(start, end, hours, timestamp) <==>
              start < end - HOUR * hours && timestamp * SECOND < end - HOUR * hours + SECOND
  {
    if InGap(start, end, hours, timestamp) {
      var k: nat :| AtGap(start, end, hours, timestamp, k);
      BoundaryBelow(end, hours, k);
    }
    if start < end - HOUR * hours && timestamp * SECOND < end - HOUR * hours + SECOND {
      assert AtGap(start, end, hours, timestamp, 0);
    }
  }

  lemma NoGapAtStart(start: int, end: int, hours: int, timestamp: int)
    requires hours >= 1 && end - HOUR * hours == start
    ensures !InGap(start, end, hours, timestamp)
  {
    if InGap(start, end, hours, timestamp) {
      var k: nat :| AtGap(start, end, hours, timestamp, k);
      BoundaryBelow(end, hours, k);
      assert false;
    }
  }

  lemma GapShift(start: int, end: int, hours: int, timestamp: int)
    requires hours >= 1 && timestamp * SECOND <= end - HOUR * hours
    ensures InGap(start, end, hours, timestamp) <==> InGap(start, end - HOUR * hours, hours, timestamp)
  {
    if InGap(start, end, hours, timestamp) {
      var k: nat :| AtGap(start, end, hours, timestamp, k);
      BoundaryBelow(end, hours, k);
      assert AtGap(start, end - HOUR * hours, hours, timestamp, k - 1);
    }
    if InGap(start, end - HOUR * hours, hours, timestamp) {
      var k: nat :| AtGap(start, end - HOUR * hours, hours, timestamp, k);
      assert AtGap(start, end, hours, timestamp, k + 1);
    }
  }

  /** Whole seconds all covered: exactly when the end is on a second, or a single frame spans the range. */
  lemma AllCoveredIff(start: int, end: int, hours: int)
    requires hours >= 1 && start < end
    ensures (forall t :: start <= t * SECOND <= end ==> CoverCount(Frames(start, end, hours), t) == 1)
            <==> end % SECOND == 0 || end - HOUR * hours <= start
  {
    if end % SECOND == 0 || end - HOUR * hours <= start {
      forall t | start <= t * SECOND <= end ensures CoverCount(Frames(start, end, hours), t) == 1 {
        CoverOrGap(start, end, hours, t);
        NoGap(start, end, hours, t);
      }
    } else {
      var boundary := end - HOUR * hours;
      var t := boundary / SECOND + 1;
      CoverOrGap(start, end, hours, t);
      BoundaryAligned(end, hours, 0);
      GapNearEnd(start, end, hours, t);
      assert CoverCount(Frames(start, end, hours), t) == 0;
    }
  }

  lemma NoGap(start: int, end: int, hours: int, timestamp: int)
    requires hours >= 1 && (end % SECOND == 0 || end - HOUR * hours <= start)
    ensures !InGap(start, end, hours, timestamp)
  {
    forall k: nat ensures !AtGap(start, end, hours, timestamp, k) {
      BoundaryBelow(end, hours, k);
      BoundaryAligned(end, hours, k);
    }
  }

  // ---- Volumes and fees ----

  /** A completed trade, as its swap request recorded it. */
  datatype TradeRecord = TradeRecord(
    timestamp: int, assetP: Asset, amountP: u64, assetR: Asset, amountR: u64, feeAsset: Asset, feeAmount: u64, marketBase: Asset)

  datatype Side = Base | Quote

  /** What a trade moved of one side of the market. */
  function AmountOf(t: TradeRecord, quote: Asset, side: Side): u64 {
    if (t.assetR == quote) == side.Quote? then t.amountR else t.amountP
  }

  datatype Volume = Volume(frame: Frame, base: u64, quote: u64)

  datatype Report = TooShort | Report(volumes: seq<Volume>, base: u64, quote: u64, baseFee: u64, quoteFee: u64)

  /** The volume of the trades that are in the range and in the frame. */
  function FrameVolume(trades: seq<TradeRecord>, range: Frame, f: Frame, quote: Asset, side: Side): nat {
    if trades == [] then 0
    else
      var n := |trades| - 1;
      var t := trades[n];
      FrameVolume(trades[..n], range, f, quote, side)
      + (if range.Holds(t.timestamp) && f.Holds(t.timestamp) then AmountOf(t, quote, side) else 0)
  }

  /** The volume of the trades in the range, each counted once. */
  function RangeVolume(trades: seq<TradeRecord>, range: Frame, quote: Asset, side: Side): nat {
    if trades == [] then 0
    else
      var n := |trades| - 1;
      RangeVolume(trades[..n], range, quote, side)
      + (if range.Holds(trades[n].timestamp) then AmountOf(trades[n], quote, side) else 0)
  }

  function SumVolumes(frames: seq<Frame>, trades: seq<TradeRecord>, range: Frame, quote: Asset, side: Side): nat {
    if frames == [] then 0
    else FrameVolume(trades, range, frames[0], quote, side) + SumVolumes(frames[1..], trades, range, quote, side)
  }

  lemma {:induction false} SumVolumesEmpty(frames: seq<Frame>, range: Frame, quote: Asset, side: Side)
    ensures SumVolumes(frames, [], range, quote, side) == 0
  {
    if frames != [] { SumVolumesEmpty(frames[1..], range, quote, side); }
  }

  /** An amount once for every frame that holds its timestamp. */
  function Repeated(frames: seq<Frame>, timestamp: int, amount: nat): nat {
    if frames == [] then 0 else (if frames[0].Holds(timestamp) then amount else 0) + Repeated(frames[1..], timestamp, amount)
  }

  lemma {:induction false} RepeatedOnce(frames: seq<Frame>, timestamp: int, amount: nat)
    ensures CoverCount(frames, timestamp) == 0 ==> Repeated(frames, timestamp, amount) == 0
    ensures CoverCount(frames, timestamp) == 1 ==> Repeated(frames, timestamp, amount) == amount
  {
    if frames != [] { RepeatedOnce(frames[1..], timestamp, amount); }
  }

  /** One more trade adds its amount once per frame that holds it. */
  lemma {:induction false} SumVolumesStep(frames: seq<Frame>, trades: seq<TradeRecord>, t: TradeRecord, range: Frame, quote: Asset, side: Side)
    ensures SumVolumes(frames, trades + [t], range, quote, side)
         == SumVolumes(frames, trades, range, quote, side)
            + (if range.Holds(t.timestamp) then Repeated(frames, t.timestamp, AmountOf(t, quote, side)) else 0)
  {
    if frames != [] {
      SumVolumesStep(frames[1..], trades, t, range, quote, side);
      assert (trades + [t])[..|trades|] == trades;
    }
  }

  /** The volume of the trades in the range that fall behind a frame boundary, into no frame. */
  ghost function GapVolume(trades: seq<TradeRecord>, range: Frame, hours: int, quote: Asset, side: Side): nat {
    if trades == [] then 0
    else
      var n := |trades| - 1;
      var t := trades[n];
      GapVolume(trades[..n], range, hours, quote, side)
      + (if range.Holds(t.timestamp) && InGap(range.start, range.end, hours, t.timestamp) then AmountOf(t, quote, side) else 0)
  }

  /** The volumes of the frames and that of the gaps add up to the volume of the range, every trade counted once. */
  lemma {:induction false} VolumesAddUp(start: int, end: int, hours: int, trades: seq<TradeRecord>, quote: Asset, side: Side)
    requires hours >= 1 && start < end
    ensures SumVolumes(Frames(start, end, hours), trades, Frame(start, end), quote, side)
            + GapVolume(trades, Frame(start, end), hours, quote, side)
         == RangeVolume(trades, Frame(start, end), quote, side)
    decreases |trades|
  {
    var frames, range := Frames(start, end, hours), Frame(start, end);
    if trades == [] {
      SumVolumesEmpty(frames, range, quote, side);
    } else {
      var n := |trades| - 1;
      VolumesAddUp(start, end, hours, trades[..n], quote, side);
      SumVolumesStep(frames, trades[..n], trades[n], range, quote, side);
      if range.Holds(trades[n].timestamp) {
        CoverOrGap(start, end, hours, trades[n].timestamp);
        RepeatedOnce(frames, trades[n].timestamp, AmountOf(trades[n], quote, side));
      }
      assert trades[..n] + [trades[n]] == trades;
    }
  }

  lemma {:induction false} NoGapVolume(trades: seq<TradeRecord>, range: Frame, hours: int, quote: Asset, side: Side)
    requires hours >= 1 && (range.end % SECOND == 0 || range.end - HOUR * hours <= range.start)
    ensures GapVolume(trades, range, hours, quote, side) == 0
  {
    if trades != [] {
      var n := |trades| - 1;
      NoGapVolume(trades[..n], range, hours, quote, side);
      NoGap(range.start, range.end, hours, trades[n].timestamp);
    }
  }

  /** For every range: the total of the frames is the sum over the trades in range, each counted once, exactly if the trades
      behind the frame boundaries moved nothing; an end on a second, or a single frame, leaves none of those. */
  lemma TotalVolume(start: int, end: int, hours: int, trades: seq<TradeRecord>, quote: Asset, side: Side)
    requires hours >= 1 && start < end
    ensures SumVolumes(Frames(start, end, hours), trades, Frame(start, end), quote, side)
         == RangeVolume(trades, Frame(start, end), quote, side)
         <==> GapVolume(trades, Frame(start, end), hours, quote, side) == 0
    ensures end % SECOND == 0 || end - HOUR * hours <= start ==> GapVolume(trades, Frame(start, end), hours, quote, side) == 0
  {
    VolumesAddUp(start, end, hours, trades, quote, side);
    if end % SECOND == 0 || end - HOUR * hours <= start {
      NoGapVolume(trades, Frame(start, end), hours, quote, side);
    }
  }

  /** The volumes hold, wrapped, what the trades moved in each frame. */
  ghost predicate Measures(vs: seq<Volume>, frames: seq<Frame>, trades: seq<TradeRecord>, range: Frame, quote: Asset) {
    && |vs| == |frames|
    && forall i :: 0 <= i < |vs| ==> MeasuresOne(vs[i], frames[i], trades, range, quote)
  }

  ghost predicate MeasuresOne(v: Volume, f: Frame, trades: seq<TradeRecord>, range: Frame, quote: Asset) {
    && v.frame == f
    && v.base == U64(FrameVolume(trades, range, f, quote, Base))
    && v.quote == U64(FrameVolume(trades, range, f, quote, Quote))
  }

  lemma MeasureTrade(v: Volume, f: Frame, trades: seq<TradeRecord>, t: TradeRecord, range: Frame, quote: Asset)
    requires MeasuresOne(v, f, trades, range, quote)
    ensures MeasuresOne(
              if range.Holds(t.timestamp) && f.Holds(t.timestamp)
              then v.(base := U64(v.base + AmountOf(t, quote, Base)), quote := U64(v.quote + AmountOf(t, quote, Quote))) else v,
              f, trades + [t], range, quote)
  {
    assert (trades + [t])[..|trades|] == trades;
    WrapAdd(FrameVolume(trades, range, f, quote, Base), AmountOf(t, quote, Base));
    WrapAdd(FrameVolume(trades, range, f, quote, Quote), AmountOf(t, quote, Quote));
  }

  /** Adds a trade of the range to every frame that holds it. */
  method AddTrade(vs: seq<Volume>, ghost frames: seq<Frame>, ghost trades: seq<TradeRecord>, t: TradeRecord, range: Frame, quote: Asset)
    returns (r: seq<Volume>)
    requires Measures(vs, frames, trades, range, quote)
    ensures Measures(r, frames, trades + [t], range, quote)
  {
    if !range.Holds(t.timestamp) {
      forall i | 0 <= i < |vs| ensures MeasuresOne(vs[i], frames[i], trades + [t], range, quote) {
        MeasureTrade(vs[i], frames[i], trades, t, range, quote);
      }
      return vs;
    }
    var base, quoted := t.amountR, t.amountP;
    if t.assetR == quote {
      base, quoted := quoted, base;
    }
    r := vs;
    for i := 0 to |vs|
      invariant |r| == |vs|
      invariant forall k :: i <= k < |vs| ==> r[k] == vs[k]
      invariant forall k :: 0 <= k < i ==> MeasuresOne(r[k], frames[k], trades + [t], range, quote)
    {
      MeasureTrade(vs[i], frames[i], trades, t, range, quote);
      if r[i].frame.Holds(t.timestamp) {
        r := r[i := r[i].(base := U64(r[i].base + base), quote := U64(r[i].quote + quoted))];
      }
    }
  }

  /** A sum so far and the volumes still to come, wrapped. */
  ghost function Remaining(sofar: u64, frames: seq<Frame>, i: nat, trades: seq<TradeRecord>, range: Frame, quote: Asset, side: Side): u64
    requires i <= |frames|
  {
    U64(sofar + SumVolumes(frames[i..], trades, range, quote, side))
  }

  /** The wrapped total of the volumes. */
  method SumUp(vs: seq<Volume>, ghost frames: seq<Frame>, ghost trades: seq<TradeRecord>, ghost range: Frame, ghost quote: Asset)
    returns (base: u64, quoted: u64)
    requires Measures(vs, frames, trades, range, quote)
    ensures base == U64(SumVolumes(frames, trades, range, quote, Base))
    ensures quoted == U64(SumVolumes(frames, trades, range, quote, Quote))
  {
    base, quoted := 0, 0;
    assert frames[0..] == frames;
    for i := 0 to |vs|
      invariant Remaining(base, frames, i, trades, range, quote, Base) == Remaining(0, frames, 0, trades, range, quote, Base)
      invariant Remaining(quoted, frames, i, trades, range, quote, Quote) == Remaining(0, frames, 0, trades, range, quote, Quote)
    {
      assert MeasuresOne(vs[i], frames[i], trades, range, quote);
      SumUpStep(base, vs[i].base, frames, i, trades, range, quote, Base);
      SumUpStep(quoted, vs[i].quote, frames, i, trades, range, quote, Quote);
      base, quoted := U64(base + vs[i].base), U64(quoted + vs[i].quote);
    }
  }

  lemma SumUpStep(sofar: u64, v: u64, frames: seq<Frame>, i: nat, trades: seq<TradeRecord>, range: Frame, quote: Asset, side: Side)
    requires i < |frames| && v == U64(FrameVolume(trades, range, frames[i], quote, side))
    ensures Remaining(U64(sofar + v), frames, i + 1, trades, range, quote, side)
         == Remaining(sofar, frames, i, trades, range, quote, side)
  {
    assert frames[i..][1..] == frames[i + 1..];
    WrapInto(sofar, FrameVolume(trades, range, frames[i], quote, side), SumVolumes(frames[i + 1..], trades, range, quote, side));
  }

  lemma WrapInto(a: int, b: int, rest: int)
    ensures U64(U64(a + U64(b)) + rest) == U64(a + (b + rest))
  {
    WrapAdd(a + U64(b), rest);
    WrapAdd(b, a + rest);
  }

  // ---- The report ----

  function DefaultTimeFrame(start: int, end: int): int {
    var days := if end >= start then (end - start) / (24 * HOUR) else 0;
    if days >= 365 * 5 then 24 * 30
    else if days >= 365 then 24 * 7
    else if days >= 88 then 24
    else if days >= 7 then 4
    else 1
  }

  const DAY := 24 * HOUR

  /** The default frame by the length of the range: a month from five years on, a week from a year, a day from 88 days, four
      hours from a week, an hour below; it fits every range of an hour or more. */
  lemma DefaultFrameBySpan(start: int, end: int)
    ensures var span, h := end - start, DefaultTimeFrame(start, end);
            && (span >= 5 * 365 * DAY <==> h == 30 * 24) && (365 * DAY <= span < 5 * 365 * DAY <==> h == 7 * 24)
            && (88 * DAY <= span < 365 * DAY <==> h == 24) && (7 * DAY <= span < 88 * DAY <==> h == 4)
            && (span < 7 * DAY <==> h == 1) && (HOUR * h <= span <==> span >= HOUR)
  {
  }

  /** The fees of the trades in the range charged in the market's base asset, or in any other. */
  function RangeFees(trades: seq<TradeRecord>, range: Frame, onBase: bool): nat {
    if trades == [] then 0
    else
      var n := |trades| - 1;
      var t := trades[n];
      RangeFees(trades[..n], range, onBase)
      + (if range.Holds(t.timestamp) && (t.feeAsset == t.marketBase) == onBase then t.feeAmount else 0)
  }

  method SumFees(trades: seq<TradeRecord>, range: Frame) returns (baseFee: u64, quoteFee: u64)
    ensures baseFee == U64(RangeFees(trades, range, true)) && quoteFee == U64(RangeFees(trades, range, false))
  {
    baseFee, quoteFee := 0, 0;
    for i := 0 to |trades|
      invariant baseFee == U64(RangeFees(trades[..i], range, true))
      invariant quoteFee == U64(RangeFees(trades[..i], range, false))
    {
      FeeStep(trades, i, range, true);
      FeeStep(trades, i, range, false);
      if range.Holds(trades[i].timestamp) {
        if trades[i].feeAsset == trades[i].marketBase {
          baseFee := U64(baseFee + trades[i].feeAmount);
        } else {
          quoteFee := U64(quoteFee + trades[i].feeAmount);
        }
      }
    }
    assert trades[..|trades|] == trades;
  }

  lemma FeeStep(trades: seq<TradeRecord>, i: nat, range: Frame, onBase: bool)
    requires i < |trades|
    ensures var t, sofar := trades[i], U64(RangeFees(trades[..i], range, onBase));
            U64(RangeFees(trades[..i + 1], range, onBase))
            == if range.Holds(t.timestamp) && (t.feeAsset == t.marketBase) == onBase then U64(sofar + t.feeAmount) else sofar
  {
    assert trades[..i + 1][..i] == trades[..i];
    WrapAdd(RangeFees(trades[..i], range, onBase), trades[i].feeAmount);
  }

  /** The volumes before any trade. */
  method EmptyVolumes(frames: seq<Frame>, ghost range: Frame, ghost quote: Asset) returns (vs: seq<Volume>)
    ensures Measures(vs, frames, [], range, quote)
  {
    vs := seq(|frames|, i requires 0 <= i < |frames| => Volume(frames[i], 0, 0));
  }

  /** The volume of the range without that of the gaps. */
  ghost function CountedVolume(trades: seq<TradeRecord>, range: Frame, hours: int, quote: Asset, side: Side): int {
    RangeVolume(trades, range, quote, side) - GapVolume(trades, range, hours, quote, side)
  }

  // ---- The report in terms of the assets ----

  /** A trade of the market: its legs are the two assets, one each, and its fee is in one of them. */
  predicate OfMarket(t: TradeRecord, base: Asset, quote: Asset) {
    && ((t.assetP == base && t.assetR == quote) || (t.assetP == quote && t.assetR == base))
    && t.feeAsset in {base, quote} && t.marketBase == base
  }

  ghost predicate AllOfMarket(trades: seq<TradeRecord>, base: Asset, quote: Asset) {
    forall k :: 0 <= k < |trades| ==> OfMarket(trades[k], base, quote)
  }

  /** What the legs of a trade carry of an asset. */
  function Carried(t: TradeRecord, asset: Asset): nat {
    (if t.assetP == asset then t.amountP else 0) + (if t.assetR == asset then t.amountR else 0)
  }

  /** The trades that are in the range and in some frame. */
  ghost predicate Covered(t: TradeRecord, range: Frame, hours: int) {
    range.Holds(t.timestamp) && !InGap(range.start, range.end, hours, t.timestamp)
  }

  /** What the covered trades carried of an asset. */
  ghost function Traded(trades: seq<TradeRecord>, range: Frame, hours: int, asset: Asset): nat {
    if trades == [] then 0
    else
      var n := |trades| - 1;
      Traded(trades[..n], range, hours, asset) + (if Covered(trades[n], range, hours) then Carried(trades[n], asset) else 0)
  }

  /** The fees of the trades in the range that were charged in an asset. */
  function FeesIn(trades: seq<TradeRecord>, range: Frame, asset: Asset): nat {
    if trades == [] then 0
    else
      var n := |trades| - 1;
      FeesIn(trades[..n], range, asset)
      + (if range.Holds(trades[n].timestamp) && trades[n].feeAsset == asset then trades[n].feeAmount else 0)
  }

  /** The two sides are the two assets. */
  lemma {:induction false} SidesAreAssets(trades: seq<TradeRecord>, range: Frame, hours: int, base: Asset, quote: Asset)
    requires base != quote && AllOfMarket(trades, base, quote)
    ensures CountedVolume(trades, range, hours, quote, Base) == Traded(trades, range, hours, base)
    ensures CountedVolume(trades, range, hours, quote, Quote) == Traded(trades, range, hours, quote)
  {
    if trades != [] {
      var n := |trades| - 1;
      SidesAreAssets(trades[..n], range, hours, base, quote);
      assert OfMarket(trades[n], base, quote);
    }
  }

  lemma {:induction false} FeesAreAssets(trades: seq<TradeRecord>, range: Frame, base: Asset, quote: Asset)
    requires base != quote && AllOfMarket(trades, base, quote)
    ensures RangeFees(trades, range, true) == FeesIn(trades, range, base)
    ensures RangeFees(trades, range, false) == FeesIn(trades, range, quote)
  {
    if trades != [] {
      var n := |trades| - 1;
      FeesAreAssets(trades[..n], range, base, quote);
      assert OfMarket(trades[n], base, quote);
    }
  }

  /** The trades of a frame, by asset. */
  function TradedIn(trades: seq<TradeRecord>, range: Frame, f: Frame, asset: Asset): nat {
    if trades == [] then 0
    else
      var n := |trades| - 1;
      TradedIn(trades[..n], range, f, asset)
      + (if range.Holds(trades[n].timestamp) && f.Holds(trades[n].timestamp) then Carried(trades[n], asset) else 0)
  }

  lemma {:induction false} FrameSidesAreAssets(trades: seq<TradeRecord>, range: Frame, f: Frame, base: Asset, quote: Asset)
    requires base != quote && AllOfMarket(trades, base, quote)
    ensures FrameVolume(trades, range, f, quote, Base) == TradedIn(trades, range, f, base)
    ensures FrameVolume(trades, range, f, quote, Quote) == TradedIn(trades, range, f, quote)
  {
    if trades != [] {
      var n := |trades| - 1;
      FrameSidesAreAssets(trades[..n], range, f, base, quote);
      assert OfMarket(trades[n], base, quote);
    }
  }

  /** What a report says of the trades of its market: per frame and in total what the trades carried of either asset, and
      the fees charged in either. */
  ghost predicate Reports(r: Report, trades: seq<TradeRecord>, range: Frame, hours: int, base: Asset, quote: Asset)
    requires r.Report? && hours >= 1
  {
    var frames := Frames(range.start, range.end, hours);
    && |r.volumes| == |frames|
    && (forall i :: 0 <= i < |frames| ==>
          && r.volumes[i].frame == frames[i]
          && r.volumes[i].base == U64(TradedIn(trades, range, frames[i], base))
          && r.volumes[i].quote == U64(TradedIn(trades, range, frames[i], quote)))
    && r.base == U64(Traded(trades, range, hours, base)) && r.quote == U64(Traded(trades, range, hours, quote))
    && r.baseFee == U64(FeesIn(trades, range, base)) && r.quoteFee == U64(FeesIn(trades, range, quote))
  }

  lemma ReportsAssets(r: Report, trades: seq<TradeRecord>, range: Frame, hours: int, base: Asset, quote: Asset)
    requires r.Report? && hours >= 1 && base != quote && AllOfMarket(trades, base, quote)
    requires Measures(r.volumes, Frames(range.start, range.end, hours), trades, range, quote)
    requires r.base == U64(CountedVolume(trades, range, hours, quote, Base)) && r.quote == U64(CountedVolume(trades, range, hours, quote, Quote))
    requires r.baseFee == U64(RangeFees(trades, range, true)) && r.quoteFee == U64(RangeFees(trades, range, false))
    ensures Reports(r, trades, range, hours, base, quote)
  {
    SidesAreAssets(trades, range, hours, base, quote);
    FeesAreAssets(trades, range, base, quote);
    var frames := Frames(range.start, range.end, hours);
    forall i | 0 <= i < |frames|
      ensures r.volumes[i].frame == frames[i]
      ensures r.volumes[i].base == U64(TradedIn(trades, range, frames[i], base))
      ensures r.volumes[i].quote == U64(TradedIn(trades, range, frames[i], quote))
    {
      assert MeasuresOne(r.volumes[i], frames[i], trades, range, quote);
      FrameSidesAreAssets(trades, range, frames[i], base, quote);
    }
  }

  /** A report over a range: the frames, what each moved, and the totals, all sums wrapping. */
  method GetMarketReport(trades: seq<TradeRecord>, start: int, end: int, timeFrame: nat, ghost base: Asset, quote: Asset)
    returns (r: Report)
    ensures var hours := if timeFrame == 0 then DefaultTimeFrame(start, end) else timeFrame;
            && (r.TooShort? <==> end - start < HOUR * hours)
            && (r.Report? ==>
                  && Measures(r.volumes, Frames(start, end, hours), trades, Frame(start, end), quote)
                  && r.base == U64(CountedVolume(trades, Frame(start, end), hours, quote, Base))
                  && r.quote == U64(CountedVolume(trades, Frame(start, end), hours, quote, Quote))
                  && r.baseFee == U64(RangeFees(trades, Frame(start, end), true))
                  && r.quoteFee == U64(RangeFees(trades, Frame(start, end), false))
                  && (base != quote && AllOfMarket(trades, base, quote) ==>
                        Reports(r, trades, Frame(start, end), hours, base, quote)))
  {
    var hours := if timeFrame == 0 then DefaultTimeFrame(start, end) else timeFrame;
    if end - start < HOUR * hours { return TooShort; }
    var range := Frame(start, end);
    var frames := SplitTimeRange(start, end, hours);
    var vs := EmptyVolumes(frames, range, quote);
    for k := 0 to |trades|
      invariant Measures(vs, frames, trades[..k], range, quote)
    {
      vs := AddTrade(vs, frames, trades[..k], trades[k], range, quote);
      assert trades[..k] + [trades[k]] == trades[..k + 1];
    }
    assert trades[..|trades|] == trades;
    var baseVolume, quoteVolume := SumUp(vs, frames, trades, range, quote);
    VolumesAddUp(start, end, hours, trades, quote, Base);
    VolumesAddUp(start, end, hours, trades, quote, Quote);
    var baseFee, quoteFee := SumFees(trades, range);
    r := Report(vs, baseVolume, quoteVolume, baseFee, quoteFee);
    if base != quote && AllOfMarket(trades, base, quote) { ReportsAssets(r, trades, range, hours, base, quote); }
  }
}
