/** The market entity: its mutators and its price previews. */
module Market {
  import opened Basics
  import opened UInt64
  import opened Decimals

  datatype Fee = Fee(base: u64, quote: u64)

  /** An exact decimal, num / den; the zero decimal is what a missing price parses to. */
  datatype Rate = Rate(num: int, den: pos)

  const ZeroRate := Rate(0, 1)

  datatype MarketPrice = MarketPrice(base: Rate, quote: Rate) {
    predicate IsZero() {
      base.num == 0 && quote.num == 0
    }
  }

  const NoPrice := MarketPrice(ZeroRate, ZeroRate)

  datatype Strategy = Undefined | Pluggable | Balanced | Unbalanced

  datatype State = State(
    baseAsset: Asset, quoteAsset: Asset, name: string, basePrecision: nat, quotePrecision: nat,
    percentageFee: Fee, fixedFee: Fee, tradable: bool, strategy: Strategy, price: MarketPrice)

  datatype Error =
    | InvalidBaseAsset | InvalidQuoteAsset | InvalidPercentageFee | InvalidFixedFee
    | InvalidBasePrecision | InvalidQuotePrecision | UnknownStrategy
    | NotPriced | IsOpen | IsClosed | InvalidBasePrice | InvalidQuotePrice
    | UnknownAsset | UnknownFeeAsset | NoBalance | PreviewAmountTooLow | PreviewAmountTooBig

  datatype Status = Done | Rejected(error: Error)

  datatype Creation = Created(market: State) | NotCreated(reason: Error)

  // ---- Validation ----

  predicate IsHex(c: char) {
    '0' <= c <= '9' || 'a' <= c <= 'f' || 'A' <= c <= 'F'
  }

  predicate IsValidAsset(a: Asset) {
    |a.hex| == 64 && forall k :: 0 <= k < |a.hex| ==> IsHex(a.hex[k])
  }

  predicate IsValidPercentageFee(base: int, quote: int) {
    0 <= base <= 9999 && 0 <= quote <= 9999
  }

  predicate IsValidFixedFee(base: int, quote: int) {
    base >= -1 && quote >= -1
  }

  predicate IsValidPrecision(p: int) {
    0 <= p <= 8
  }

  /** What a market is created from; `derivedName` is the hash of the assets that names it otherwise. */
  datatype Listing = Listing(
    baseAsset: Asset, quoteAsset: Asset, name: string, derivedName: string, pct: Fee, fixedFees: Fee,
    basePrecision: nat, quotePrecision: nat, strategy: Strategy)

  /** A new market is closed, unpriced, and balanced unless the pluggable strategy is asked for. */
  function NewMarket(l: Listing): Creation {
    if !IsValidAsset(l.baseAsset) then NotCreated(InvalidBaseAsset)
    else if !IsValidAsset(l.quoteAsset) then NotCreated(InvalidQuoteAsset)
    else if !IsValidPercentageFee(I64(l.pct.base), I64(l.pct.quote)) then NotCreated(InvalidPercentageFee)
    else if !IsValidFixedFee(I64(l.fixedFees.base), I64(l.fixedFees.quote)) then NotCreated(InvalidFixedFee)
    else if !IsValidPrecision(l.basePrecision) then NotCreated(InvalidBasePrecision)
    else if !IsValidPrecision(l.quotePrecision) then NotCreated(InvalidQuotePrecision)
    else if l.strategy.Unbalanced? then NotCreated(UnknownStrategy)
    else Created(State(l.baseAsset, l.quoteAsset, if l.name == "" then l.derivedName else l.name, l.basePrecision, l.quotePrecision,
                       l.pct, l.fixedFees, false, if l.strategy.Undefined? then Balanced else l.strategy, NoPrice))
  }

  // ---- Mutators ----

  datatype Op =
    | Open | Close | UsePluggable | UseBalanced
    | SetPercentageFee(pctBase: int, pctQuote: int)
    | SetFixedFee(fixedBase: int, fixedQuote: int)
    | SetPrice(newPrice: MarketPrice)
    | SetPrecision(newBase: int, newQuote: int)

  /** Fees are `int64` arguments. */
  predicate WellTyped(op: Op) {
    match op
    case SetPercentageFee(b, q) => b < TWO_63 && q < TWO_63
    case SetFixedFee(b, q) => b < TWO_63 && q < TWO_63
    case _ => true
  }

  function Apply(m: State, op: Op): (State, Status)
    requires WellTyped(op)
  {
    match op
    case Open => if m.strategy.Pluggable? && m.price.IsZero() then (m, Rejected(NotPriced)) else (m.(tradable := true), Done)
    case Close => (m.(tradable := false), Done)
    case UsePluggable => if m.tradable then (m, Rejected(IsOpen)) else (m.(strategy := Pluggable, price := NoPrice), Done)
    case UseBalanced => if m.tradable then (m, Rejected(IsOpen)) else (m.(strategy := Balanced), Done)
    case SetPercentageFee(b, q) =>
      if m.tradable then (m, Rejected(IsOpen))
      else if !IsValidPercentageFee(b, q) then (m, Rejected(InvalidPercentageFee))
      else (m.(percentageFee := Fee(b, q)), Done)
    case SetFixedFee(b, q) =>
      if m.tradable then (m, Rejected(IsOpen))
      else if !IsValidFixedFee(b, q) then (m, Rejected(InvalidFixedFee))
      else (m.(fixedFee := Fee(if b >= 0 then b else m.fixedFee.base, if q >= 0 then q else m.fixedFee.quote)), Done)
    case SetPrice(p) =>
      if p.base.num <= 0 then (m, Rejected(InvalidBasePrice))
      else if p.quote.num <= 0 then (m, Rejected(InvalidQuotePrice))
      else (m.(price := p), Done)
    case SetPrecision(b, q) =>
      if m.tradable then (m, Rejected(IsOpen))
      else if b >= 0 && !IsValidPrecision(b) then (m, Rejected(InvalidBasePrecision))
      else if q >= 0 && !IsValidPrecision(q) then (m, Rejected(InvalidQuotePrecision))
      else (m.(basePrecision := if b >= 0 then b else m.basePrecision, quotePrecision := if q >= 0 then q else m.quotePrecision), Done)
  }

  class MarketEntity {
    const baseAsset: Asset
    const quoteAsset: Asset
    const name: string
    var basePrecision: nat
    var quotePrecision: nat
    var percentageFee: Fee
    var fixedFee: Fee
    var tradable: bool
    var strategy: Strategy
    var price: MarketPrice

    ghost function Current(): State
      reads this
    {
      State(baseAsset, quoteAsset, name, basePrecision, quotePrecision, percentageFee, fixedFee, tradable, strategy, price)
    }

    constructor (m: State)
      ensures Current() == m
    {
      baseAsset, quoteAsset, name, basePrecision, quotePrecision := m.baseAsset, m.quoteAsset, m.name, m.basePrecision, m.quotePrecision;
      percentageFee, fixedFee, tradable, strategy, price := m.percentageFee, m.fixedFee, m.tradable, m.strategy, m.price;
    }

    method MakeTradable() returns (r: Status)
      modifies this
      ensures (Current(), r) == Apply(old(Current()), Open)
    {
      if strategy.Pluggable? && price.IsZero() { return Rejected(NotPriced); }
      tradable := true;
      r := Done;
    }

    method MakeNotTradable()
      modifies this
      ensures Current() == Apply(old(Current()), Close).0
    {
      tradable := false;
    }

    method MakeStrategyPluggable() returns (r: Status)
      modifies this
      ensures (Current(), r) == Apply(old(Current()), UsePluggable)
    {
      if tradable { return Rejected(IsOpen); }
      strategy := Pluggable;
      price := NoPrice;
      r := Done;
    }

    method MakeStrategyBalanced() returns (r: Status)
      modifies this
      ensures (Current(), r) == Apply(old(Current()), UseBalanced)
    {
      if tradable { return Rejected(IsOpen); }
      strategy := Balanced;
      r := Done;
    }

    method ChangePercentageFee(b: int, q: int) returns (r: Status)
      requires b < TWO_63 && q < TWO_63
      modifies this
      ensures (Current(), r) == Apply(old(Current()), SetPercentageFee(b, q))
    {
      if tradable { return Rejected(IsOpen); }
      if !IsValidPercentageFee(b, q) { return Rejected(InvalidPercentageFee); }
      if b >= 0 { percentageFee := percentageFee.(base := b); }
      if q >= 0 { percentageFee := percentageFee.(quote := q); }
      r := Done;
    }

    method ChangeFixedFee(b: int, q: int) returns (r: Status)
      requires b < TWO_63 && q < TWO_63
      modifies this
      ensures (Current(), r) == Apply(old(Current()), SetFixedFee(b, q))
    {
      if tradable { return Rejected(IsOpen); }
      if !IsValidFixedFee(b, q) { return Rejected(InvalidFixedFee); }
      if b >= 0 { fixedFee := fixedFee.(base := b); }
      if q >= 0 { fixedFee := fixedFee.(quote := q); }
      r := Done;
    }

    method ChangePrice(p: MarketPrice) returns (r: Status)
      modifies this
      ensures (Current(), r) == Apply(old(Current()), SetPrice(p))
    {
      if p.base.num <= 0 { return Rejected(InvalidBasePrice); }
      if p.quote.num <= 0 { return Rejected(InvalidQuotePrice); }
      price := p;
      r := Done;
    }

    method ChangeAssetPrecision(b: int, q: int) returns (r: Status)
      modifies this
      ensures (Current(), r) == Apply(old(Current()), SetPrecision(b, q))
    {
      if tradable { return Rejected(IsOpen); }
      if b >= 0 { if !IsValidPrecision(b) { return Rejected(InvalidBasePrecision); } }
      if q >= 0 { if !IsValidPrecision(q) { return Rejected(InvalidQuotePrecision); } }
      if b >= 0 { basePrecision := b; }
      if q >= 0 { quotePrecision := q; }
      r := Done;
    }
  }

  // ---- Every reachable market ----

  predicate AllWellTyped(ops: seq<Op>) {
    forall k :: 0 <= k < |ops| ==> WellTyped(ops[k])
  }

  function Run(m: State, ops: seq<Op>): State
    requires AllWellTyped(ops)
  {
    if ops == [] then m else Apply(Run(m, ops[..|ops| - 1]), ops[|ops| - 1]).0
  }

  /** Precisions stay within eight digits, the strategy stays a known one, and an open pluggable market is priced. */
  ghost predicate Inv(m: State) {
    && m.basePrecision <= 8 && m.quotePrecision <= 8
    && (m.strategy.Pluggable? || m.strategy.Balanced?)
    && ((m.price.base.num > 0 && m.price.quote.num > 0) || m.price.IsZero())
    && (m.tradable && m.strategy.Pluggable? ==> m.price.base.num > 0 && m.price.quote.num > 0)
    && m.percentageFee.base <= 9999 && m.percentageFee.quote <= 9999
  }

  /** What an open market may not change. */
  ghost predicate SameTerms(a: State, b: State) {
    && a.strategy == b.strategy && a.percentageFee == b.percentageFee && a.fixedFee == b.fixedFee
    && a.basePrecision == b.basePrecision && a.quotePrecision == b.quotePrecision
  }

  lemma {:induction false} RunKeepsInv(m: State, ops: seq<Op>)
    requires Inv(m) && AllWellTyped(ops)
    ensures Inv(Run(m, ops))
  {
    if ops != [] { RunKeepsInv(m, ops[..|ops| - 1]); }
  }

  /** A market that some creation and some sequence of mutators lead to. */
  ghost predicate Reachable(m: State) {
    exists l: Listing, ops: seq<Op> :: LeadTo(l, ops, m)
  }

  ghost predicate LeadTo(l: Listing, ops: seq<Op>, m: State) {
    NewMarket(l).Created? && AllWellTyped(ops) && m == Run(NewMarket(l).market, ops)
  }

  lemma ReachableInv(m: State)
    requires Reachable(m)
    ensures Inv(m)
  {
    var l: Listing, ops: seq<Op> :| LeadTo(l, ops, m);
    RunKeepsInv(NewMarket(l).market, ops);
  }

  /** From one opening to the next closing, strategy, fees and precisions stay what they were. */
  lemma {:induction false} FrozenWhileOpen(m: State, ops: seq<Op>)
    requires m.tradable && AllWellTyped(ops) && forall k :: 0 <= k < |ops| ==> !ops[k].Close?
    ensures Run(m, ops).tradable && SameTerms(m, Run(m, ops))
  {
    if ops != [] { FrozenWhileOpen(m, ops[..|ops| - 1]); }
  }

  method Perform(m: MarketEntity, op: Op) returns (r: Status)
    requires WellTyped(op)
    modifies m
    ensures (m.Current(), r) == Apply(old(m.Current()), op)
  {
    match op {
      case Open => r := m.MakeTradable();
      case Close => m.MakeNotTradable(); r := Done;
      case UsePluggable => r := m.MakeStrategyPluggable();
      case UseBalanced => r := m.MakeStrategyBalanced();
      case SetPercentageFee(b, q) => r := m.ChangePercentageFee(b, q);
      case SetFixedFee(b, q) => r := m.ChangeFixedFee(b, q);
      case SetPrice(p) => r := m.ChangePrice(p);
      case SetPrecision(b, q) => r := m.ChangeAssetPrecision(b, q);
    }
  }

  /** Any calls on any market that can be created: the entity is reachable and keeps the invariant. */
  method CreateAndRun(l: Listing, ops: seq<Op>) returns (m: MarketEntity?)
    requires AllWellTyped(ops)
    ensures m != null <==> NewMarket(l).Created?
    ensures m != null ==> fresh(m) && m.Current() == Run(NewMarket(l).market, ops) && Reachable(m.Current()) && Inv(m.Current())
  {
    var creation := NewMarket(l);
    if creation.NotCreated? { return null; }
    var entity := new MarketEntity(creation.market);
    for i := 0 to |ops|
      invariant fresh(entity) && entity.Current() == Run(creation.market, ops[..i])
    {
      assert ops[..i + 1][..i] == ops[..i];
      var _ := Perform(entity, ops[i]);
    }
    assert ops[..|ops|] == ops;
    assert LeadTo(l, ops, entity.Current());
    ReachableInv(entity.Current());
    m := entity;
  }
}
