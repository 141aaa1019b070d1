/** When a market previews, why it does not, and which prices the daemon accepts. */
module PreviewConditions {
  import opened Basics
  import opened UInt64
  import opened Decimals
  import opened Formula
  import opened Market
  import opened Preview

  /** What is asked of a market: its balances, an amount of an asset, and the asset the fee is charged in. */
  datatype Query = Query(baseBalance: u64, quoteBalance: u64, amount: u64, asset: Asset, feeAsset: Asset, isBuy: bool)

  function Answered(m: State, q: Query): Result {
    PreviewTrade(m, q.baseBalance, q.quoteBalance, q.amount, q.asset, q.feeAsset, q.isBuy)
  }

  function OtherAsset(m: State, asset: Asset): Asset {
    if asset == m.baseAsset then m.quoteAsset else m.baseAsset
  }

  /** The amount given and the reserves paid into and out of, as decimals. */
  function Given(m: State, q: Query): nat {
    ToDecimal(q.amount, PrecisionOf(m, q.asset))
  }

  function ReserveIn(m: State, q: Query): nat {
    if q.isBuy then ToDecimal(q.quoteBalance, m.quotePrecision) else ToDecimal(q.baseBalance, m.basePrecision)
  }

  function ReserveOut(m: State, q: Query): nat {
    if q.isBuy then ToDecimal(q.baseBalance, m.basePrecision) else ToDecimal(q.quoteBalance, m.quotePrecision)
  }

  function QuoteFor(m: State, q: Query): Quote {
    QuoteOf(m, q.baseBalance, q.quoteBalance, Given(m, q), q.asset == m.baseAsset, q.isBuy)
  }

  predicate KnownAssets(m: State, q: Query) {
    q.asset in {m.baseAsset, m.quoteAsset} && q.feeAsset in {m.baseAsset, m.quoteAsset}
  }

  /** The satoshis of the other asset that a quote is worth. */
  function QuotedSats(m: State, q: Query): u64
    requires QuoteFor(m, q).Quoted?
  {
    QuotedPositive(m, q.baseBalance, q.quoteBalance, Given(m, q), q.asset == m.baseAsset, q.isBuy);
    ToSats(QuoteFor(m, q).amount, if q.asset == m.baseAsset then m.quotePrecision else m.basePrecision)
  }

  /** The amount that the fee is charged on. */
  function Charged(m: State, q: Query): u64
    requires QuoteFor(m, q).Quoted?
  {
    if q.feeAsset == OtherAsset(m, q.asset) then QuotedSats(m, q) else q.amount
  }

  /** A fee on what the proposer receives comes off it: base when buying, quote when selling. */
  predicate TakenOff(m: State, q: Query) {
    if q.isBuy then q.feeAsset == m.baseAsset else q.feeAsset == m.quoteAsset
  }

  /** Every market previews exactly if it is open, knows the assets, has a price and a quote worth a satoshi, and any fee that
      comes off the amount received is below it. The preview is then of the quote, the other asset and the fee. */
  lemma PreviewsExactly(m: State, q: Query)
    ensures Answered(m, q).Previewed? <==>
              && m.tradable && KnownAssets(m, q) && PriceForStrategy(m, q.baseBalance, q.quoteBalance).Priced?
              && QuoteFor(m, q).Quoted? && QuotedSats(m, q) > 0
              && (TakenOff(m, q) ==> FeeOn(m, Charged(m, q), q.feeAsset) < Charged(m, q))
    ensures Answered(m, q).Previewed? ==>
              Answered(m, q).info == PreviewInfo(PriceForStrategy(m, q.baseBalance, q.quoteBalance).price, QuotedSats(m, q),
                                                 OtherAsset(m, q.asset), q.feeAsset, FeeOn(m, Charged(m, q), q.feeAsset))
  {
  }

  /** The refusals that name their reason. */
  lemma PreviewRefusals(m: State, q: Query)
    ensures Answered(m, q) == NoPreview(IsClosed) <==> !m.tradable
    ensures Answered(m, q) == NoPreview(UnknownAsset) <==> m.tradable && q.asset !in {m.baseAsset, m.quoteAsset}
    ensures Answered(m, q) == NoPreview(UnknownFeeAsset) <==>
              m.tradable && q.asset in {m.baseAsset, m.quoteAsset} && q.feeAsset !in {m.baseAsset, m.quoteAsset}
    ensures Answered(m, q) == NoPreview(NoBalance) <==>
              && m.tradable && KnownAssets(m, q) && !m.strategy.Pluggable? && (ReserveIn(m, q) == 0 || ReserveOut(m, q) == 0)
    ensures Answered(m, q) == NoPreview(PreviewAmountTooBig) <==>
              && m.tradable && KnownAssets(m, q) && PriceForStrategy(m, q.baseBalance, q.quoteBalance).Priced?
              && QuoteFor(m, q) == Refused(AmountTooBig)
    ensures Answered(m, q).Panics? <==>
              m.tradable && KnownAssets(m, q) && PriceForStrategy(m, q.baseBalance, q.quoteBalance).DividesByZero?
  {
    PriceExactly(m, q.baseBalance, q.quoteBalance);
  }

  /** A pluggable market always has its price; another one exactly if neither balance is zero and the ratio rounds to
      something, and it panics exactly if only the latter fails. */
  lemma PriceExactly(m: State, baseBalance: u64, quoteBalance: u64)
    ensures var b, q := ToDecimal(baseBalance, m.basePrecision), ToDecimal(quoteBalance, m.quotePrecision);
            var price := PriceForStrategy(m, baseBalance, quoteBalance);
            && (m.strategy.Pluggable? ==> price == Priced(m.price))
            && (!m.strategy.Pluggable? ==> (price.Priced? <==> b > 0 && q > 0 && 2 * (q * SCALE) >= b))
            && (!m.strategy.Pluggable? ==> (price.DividesByZero? <==> b > 0 && q > 0 && 2 * (q * SCALE) < b))
  {
    SpotExactly(ToDecimal(baseBalance, m.basePrecision), ToDecimal(quoteBalance, m.quotePrecision));
  }

  /** A quote of at least one satoshi, and of fewer than 2^64, is worth a satoshi. */
  lemma WorthASatoshi(amount: nat, p: nat)
    requires p <= 8 && Pow10(8 - p) <= amount < TWO_64 * Pow10(8 - p)
    ensures ToSats(amount, p) > 0
  {
    ToSatsCutsOff(amount, p);
    var k, unit := amount * Pow10(p) / SCALE, Pow10(8 - p);
    MulCancel(1, k + 1, unit);
    MulCancel(k, TWO_64, unit);
  }

  /** A balanced market that pays out for a given amount in quotes it wherever the exact amount out, bo * a / (bi + a), is
      further from one satoshi and from the reserve than the rounding goes. */
  lemma PaysForGiven(m: State, q: Query)
    requires Inv(m) && m.strategy.Balanced? && KnownAssets(m, q) && (q.isBuy <==> q.asset != m.baseAsset)
    requires ReserveIn(m, q) > 0 && ReserveOut(m, q) > 0 && Given(m, q) > 0
    requires var bi, bo, a := ReserveIn(m, q), ReserveOut(m, q), Given(m, q);
             var unit := Pow10(8 - (if q.isBuy then m.basePrecision else m.quotePrecision));
             && 2 * SCALE * bo * a > (bo + SCALE) * (bi + a) + 2 * SCALE * (bi + a) * (unit - 1)
             && 2 * SCALE * bo * a + (bo + SCALE) * (bi + a) < 2 * SCALE * (bi + a) * bo
    ensures QuoteFor(m, q).Quoted? && QuotedSats(m, q) > 0
  {
    var bi, bo, a := ReserveIn(m, q), ReserveOut(m, q), Given(m, q);
    var precision := if q.isBuy then m.basePrecision else m.quotePrecision;
    var unit := Pow10(8 - precision);
    OutQuoted(bi, bo, a, unit);
    var amount := BalancedOutGivenIn(bi, bo, a).amount;
    assert QuoteFor(m, q) == Quoted(amount) && amount < bo;
    ToDecimalExact(if q.isBuy then q.baseBalance else q.quoteBalance, precision);
    MulLe(if q.isBuy then q.baseBalance else q.quoteBalance, TWO_64, unit);
    WorthASatoshi(amount, precision);
  }

  /** One that asks for a given amount out, wherever the exact amount in, bi * a / (bo - a), is further from one satoshi, and
      from 2^64 of them, than the rounding goes. */
  lemma AsksForGiven(m: State, q: Query)
    requires Inv(m) && m.strategy.Balanced? && KnownAssets(m, q) && (q.isBuy <==> q.asset == m.baseAsset)
    requires ReserveIn(m, q) > 0 && 0 < Given(m, q) < ReserveOut(m, q)
    requires var bi, bo, a := ReserveIn(m, q), ReserveOut(m, q), Given(m, q);
             var unit := Pow10(8 - (if q.isBuy then m.quotePrecision else m.basePrecision));
             && 2 * SCALE * bi * a > (bi + SCALE) * (bo - a) + 2 * SCALE * (bo - a) * (unit - 1)
             && 2 * SCALE * bi * a + (bi + SCALE) * (bo - a) < 2 * SCALE * (bo - a) * (TWO_64 * unit)
    ensures QuoteFor(m, q).Quoted? && QuotedSats(m, q) > 0
  {
    var bi, bo, a := ReserveIn(m, q), ReserveOut(m, q), Given(m, q);
    var precision := if q.isBuy then m.quotePrecision else m.basePrecision;
    var unit := Pow10(8 - precision);
    InQuoted(bi, bo, a, unit);
    var amount := BalancedInGivenOut(bi, bo, a).amount;
    InGivenOutError(bi, bo, a);
    if amount >= TWO_64 * unit { QuoteHigh(SCALE, bo - a, amount, TWO_64 * unit, 2 * SCALE * bi * a, (bi + SCALE) * (bo - a)); }
    WorthASatoshi(amount, precision);
  }

  // ---- Which prices are accepted ----

  /** `quoted` is within the tolerance of `expected`. */
  predicate Within(expected: int, quoted: int, s: Slippage) {
    expected * (s.den - s.num) <= quoted * s.den && quoted * s.den <= expected * (s.den + s.num)
  }

  /** A proposal is accepted if and only if a preview of one of its sides is there and within the tolerance of the other
      side's amount. */
  lemma AcceptsExactly(m: State, balance: map<Asset, u64>, isBuy: bool, p: Proposal, s: Slippage)
    requires Oriented(isBuy, p.assetP, p.assetR, m.baseAsset, m.quoteAsset)
    ensures var ofP := TradePreview(m, balance, isBuy, p.feeAsset, p.assetP, p.amountP);
            var ofR := TradePreview(m, balance, isBuy, p.feeAsset, p.assetR, p.amountR);
            IsValidTradePrice(m, balance, isBuy, p, s) <==>
              || (ofP.Previewed? && Within(I64(p.amountR), I64(ofP.info.amount), s))
              || (ofR.Previewed? && Within(I64(p.amountP), I64(ofR.info.amount), s))
  {
    SideExactly(m, balance, isBuy, p, p.assetP, p.amountP, p.amountR, s);
    SideExactly(m, balance, isBuy, p, p.assetR, p.amountR, p.amountP, s);
  }

  lemma SideExactly(m: State, balance: map<Asset, u64>, isBuy: bool, p: Proposal, asset: Asset, amount: u64, expected: u64, s: Slippage)
    requires Oriented(isBuy, p.assetP, p.assetR, m.baseAsset, m.quoteAsset)
    requires (asset == p.assetP && expected == p.amountR) || (asset == p.assetR && expected == p.amountP)
    ensures var r := TradePreview(m, balance, isBuy, p.feeAsset, asset, amount);
            SideMatches(m, balance, isBuy, p, asset, amount, s) <==> r.Previewed? && Within(I64(expected), I64(r.info.amount), s)
  {
  }
}
