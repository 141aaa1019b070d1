/** What a run of calls makes of a market, told from the calls: every field is what the last call taken wrote to it. */
module MarketHistory {
  import opened Basics
  import opened UInt64
  import opened Market

  /** The hex form of 32 bytes. */
  predicate IsAssetId(hex: string) {
    |hex| == 64 && forall k :: 0 <= k < 64 ==> hex[k] in "0123456789abcdefABCDEF"
  }

  lemma AssetIdExactly(a: Asset)
    ensures IsValidAsset(a) <==> IsAssetId(a.hex)
  {
    forall c: char ensures IsHex(c) <==> c in "0123456789abcdefABCDEF" { HexExactly(c); }
  }

  lemma HexExactly(c: char)
    ensures IsHex(c) <==> c in "0123456789abcdefABCDEF"
  {
    var digits := "0123456789abcdefABCDEF";
    if '0' <= c <= '9' { assert digits[(c - '0') as int] == c; }
    if 'a' <= c <= 'f' { assert digits[(c - 'a') as int + 10] == c; }
    if 'A' <= c <= 'F' { assert digits[(c - 'A') as int + 16] == c; }
  }

  /** When a market can be created. */
  predicate CanList(l: Listing) {
    && IsAssetId(l.baseAsset.hex) && IsAssetId(l.quoteAsset.hex)
    && l.pct.base <= 9999 && l.pct.quote <= 9999
    && (l.fixedFees.base < TWO_63 || l.fixedFees.base == TWO_64 - 1) && (l.fixedFees.quote < TWO_63 || l.fixedFees.quote == TWO_64 - 1)
    && l.basePrecision <= 8 && l.quotePrecision <= 8 && !l.strategy.Unbalanced?
  }

  /** A market is created exactly if its listing is valid; it is closed, has no price and carries what was listed. */
  lemma CreationExactly(l: Listing)
    ensures NewMarket(l).Created? <==> CanList(l)
    ensures NewMarket(l).Created? ==>
              var m := NewMarket(l).market;
              && !m.tradable && m.price.base.num == 0 == m.price.quote.num
              && m.baseAsset == l.baseAsset && m.quoteAsset == l.quoteAsset
              && m.basePrecision == l.basePrecision && m.quotePrecision == l.quotePrecision
              && m.percentageFee == l.pct && m.fixedFee == l.fixedFees
              && (m.strategy == Pluggable <==> l.strategy == Pluggable) && (m.strategy == Balanced <==> l.strategy != Pluggable)
              && (l.name != "" ==> m.name == l.name) && (l.name == "" ==> m.name == l.derivedName)
  {
    AssetIdExactly(l.baseAsset);
    AssetIdExactly(l.quoteAsset);
  }

  /** What a call must find to be taken. */
  predicate Takes(m: State, op: Op) {
    match op
    case Open => m.strategy != Pluggable || m.price.base.num != 0 || m.price.quote.num != 0
    case Close => true
    case UsePluggable => !m.tradable
    case UseBalanced => !m.tradable
    case SetPercentageFee(b, q) => !m.tradable && 0 <= b <= 9999 && 0 <= q <= 9999
    case SetFixedFee(b, q) => !m.tradable && b >= -1 && q >= -1
    case SetPrice(p) => p.base.num > 0 && p.quote.num > 0
    case SetPrecision(b, q) => !m.tradable && b <= 8 && q <= 8
  }

  datatype Field = Openness | StrategyKind | PercentageFees | FixedFees | Prices | Precisions

  predicate Writes(op: Op, f: Field) {
    match op
    case Open => f == Openness
    case Close => f == Openness
    case UsePluggable => f == StrategyKind || f == Prices
    case UseBalanced => f == StrategyKind
    case SetPercentageFee(_, _) => f == PercentageFees
    case SetFixedFee(_, _) => f == FixedFees
    case SetPrice(_) => f == Prices
    case SetPrecision(_, _) => f == Precisions
  }

  predicate Same(a: State, b: State, f: Field) {
    match f
    case Openness => a.tradable == b.tradable
    case StrategyKind => a.strategy == b.strategy
    case PercentageFees => a.percentageFee == b.percentageFee
    case FixedFees => a.fixedFee == b.fixedFee
    case Prices => a.price == b.price
    case Precisions => a.basePrecision == b.basePrecision && a.quotePrecision == b.quotePrecision
  }

  /** What a call that is taken leaves in the fields it writes; a negative fixed fee or precision keeps that side. */
  predicate Wrote(before: State, op: Op, after: State)
    requires WellTyped(op)
  {
    match op
    case Open => after.tradable
    case Close => !after.tradable
    case UsePluggable => after.strategy == Pluggable && after.price.base.num == 0 && after.price.quote.num == 0
    case UseBalanced => after.strategy == Balanced
    case SetPercentageFee(b, q) => after.percentageFee.base == b && after.percentageFee.quote == q
    case SetFixedFee(b, q) =>
      && after.fixedFee.base == (if b < 0 then before.fixedFee.base else b)
      && after.fixedFee.quote == (if q < 0 then before.fixedFee.quote else q)
    case SetPrice(p) => after.price == p
    case SetPrecision(b, q) =>
      && after.basePrecision == (if b < 0 then before.basePrecision else b)
      && after.quotePrecision == (if q < 0 then before.quotePrecision else q)
  }

  /** Every call: it answers yes exactly if it is taken, writes its fields then, and leaves everything else. */
  lemma TakenExactly(m: State, op: Op, f: Field)
    requires WellTyped(op)
    ensures Apply(m, op).1 == Done <==> Takes(m, op)
    ensures Takes(m, op) ==> Wrote(m, op, Apply(m, op).0)
    ensures !(Takes(m, op) && Writes(op, f)) ==> Same(Apply(m, op).0, m, f)
    ensures var m' := Apply(m, op).0; m'.baseAsset == m.baseAsset && m'.quoteAsset == m.quoteAsset && m'.name == m.name
  {
  }

  ghost predicate WrittenAt(m: State, ops: seq<Op>, i: nat, f: Field)
    requires i < |ops| && AllWellTyped(ops)
  {
    Takes(Run(m, ops[..i]), ops[i]) && Writes(ops[i], f)
  }

  /** A field that no call from `i` on writes stays. */
  lemma {:induction false} Untouched(m: State, ops: seq<Op>, i: nat, f: Field)
    requires AllWellTyped(ops) && i <= |ops| && forall j: nat :: i <= j < |ops| ==> !WrittenAt(m, ops, j, f)
    ensures Same(Run(m, ops), Run(m, ops[..i]), f)
    decreases |ops|
  {
    if i == |ops| {
      assert ops[..i] == ops;
    } else {
      var n := |ops| - 1;
      forall j: nat | i <= j < n ensures !WrittenAt(m, ops[..n], j, f) {
        assert ops[..n][..j] == ops[..j];
        assert !WrittenAt(m, ops, j, f);
      }
      Untouched(m, ops[..n], i, f);
      assert ops[..n][..i] == ops[..i];
      assert !WrittenAt(m, ops, n, f);
      TakenExactly(Run(m, ops[..n]), ops[n], f);
    }
  }

  /** Every run: a field holds what the last call that wrote it left there. */
  lemma LastWriter(m: State, ops: seq<Op>, i: nat, f: Field)
    requires AllWellTyped(ops) && i < |ops| && WrittenAt(m, ops, i, f)
    requires forall j: nat :: i < j < |ops| ==> !WrittenAt(m, ops, j, f)
    ensures Wrote(Run(m, ops[..i]), ops[i], Run(m, ops[..i + 1])) && Same(Run(m, ops), Run(m, ops[..i + 1]), f)
  {
    assert ops[..i + 1][..i] == ops[..i];
    TakenExactly(Run(m, ops[..i]), ops[i], f);
    Untouched(m, ops, i + 1, f);
  }

  // ---- When a market is open ----

  ghost predicate OpenedAt(m: State, ops: seq<Op>, i: nat)
    requires i < |ops| && AllWellTyped(ops)
  {
    ops[i].Open? && Takes(Run(m, ops[..i]), Open)
  }

  predicate NoClosing(ops: seq<Op>, i: nat) {
    forall j :: i <= j < |ops| ==> !ops[j].Close?
  }

  ghost predicate OpenSince(m: State, ops: seq<Op>, i: nat)
    requires AllWellTyped(ops)
  {
    i < |ops| && OpenedAt(m, ops, i) && NoClosing(ops, i + 1)
  }

  lemma OpenSinceStep(m: State, ops: seq<Op>, i: nat)
    requires AllWellTyped(ops) && i + 1 < |ops|
    ensures OpenSince(m, ops, i) <==> OpenSince(m, ops[..|ops| - 1], i) && !ops[|ops| - 1].Close?
  {
    assert ops[..|ops| - 1][..i] == ops[..i];
  }

  /** Every run: a market is open if and only if it was opened, from the start or by a call that was taken, and not closed
      since. */
  lemma {:induction false} OpenExactly(m: State, ops: seq<Op>)
    requires AllWellTyped(ops)
    ensures Run(m, ops).tradable <==> (m.tradable && NoClosing(ops, 0)) || exists i: nat :: OpenSince(m, ops, i)
  {
    if ops != [] {
      var n := |ops| - 1;
      OpenExactly(m, ops[..n]);
      TakenExactly(Run(m, ops[..n]), ops[n], Openness);
      forall i: nat | i < n ensures OpenSince(m, ops, i) <==> OpenSince(m, ops[..n], i) && !ops[n].Close? {
        OpenSinceStep(m, ops, i);
      }
      assert OpenSince(m, ops, n) <==> ops[n].Open? && Takes(Run(m, ops[..n]), Open);
    }
  }
}
