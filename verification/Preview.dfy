/** Price previews of a market and the daemon's check of a proposed price against them. */
module Preview {
  import opened Basics
  import opened UInt64
  import opened Decimals
  import opened Formula
  import opened Market

  function Pow10(k: nat): (r: nat)
    ensures r > 0
  {
    if k == 0 then 1 else 10 * Pow10(k - 1)
  }

  /** An amount of satoshis as a decimal amount of an asset with the given precision. */
  function ToDecimal(sats: nat, precision: nat): int {
    RoundDiv(sats * SCALE, Pow10(precision))
  }

  /** A decimal amount as satoshis, the fraction cut off and the integer wrapped. */
  function ToSats(amount: nat, precision: nat): u64 {
    U64(amount * Pow10(precision) / SCALE)
  }

  datatype PreviewInfo = PreviewInfo(price: MarketPrice, amount: u64, asset: Asset, feeAsset: Asset, feeAmount: u64)

  /** A preview, an error, or the panic of dividing by a spot price that rounds to zero. */
  datatype Result = Previewed(info: PreviewInfo) | NoPreview(error: Error) | Panics

  function ErrorOf(r: Refusal): Error {
    match r
    case BalanceTooLow => NoBalance
    case AmountTooLow => PreviewAmountTooLow
    case AmountTooBig => PreviewAmountTooBig
  }

  /** The fee on an amount of an asset. */
  function FeeOn(m: State, amount: u64, asset: Asset): u64 {
    var onQuote := asset == m.quoteAsset;
    var pct := if onQuote then m.percentageFee.quote else m.percentageFee.base;
    var fixed := if onQuote then m.fixedFee.quote else m.fixedFee.base;
    var signed := I64(amount);
    U64(U64((if signed < 0 then 0 - signed else signed) * pct / 10000) + fixed)
  }

  function PreviewFees(m: State, amount: u64, asset: Asset, isBuy: bool): Option<u64> {
    var fee := FeeOn(m, amount, asset);
    var toSubtract := (isBuy && asset == m.baseAsset) || (!isBuy && asset == m.quoteAsset);
    if toSubtract && fee >= amount then None else Some(fee)
  }

  /** The formula of the strategy, on the reserves the direction of the trade pays into and out of. */
  function QuoteOf(m: State, baseBalance: u64, quoteBalance: u64, given: int, isBaseAsset: bool, isBuy: bool): Quote
  {
    var b, q := ToDecimal(baseBalance, m.basePrecision), ToDecimal(quoteBalance, m.quotePrecision);
    var balanceIn, balanceOut := if isBuy then q else b, if isBuy then b else q;
    if m.strategy.Pluggable? then
      var rate := if isBaseAsset then m.price.quote else m.price.base;
      if isBuy == isBaseAsset then PluggableInGivenOut(balanceOut, rate.num, rate.den, given)
      else PluggableOutGivenIn(balanceOut, rate.num, rate.den, given)
    else if isBuy == isBaseAsset then BalancedInGivenOut(balanceIn, balanceOut, given)
    else BalancedOutGivenIn(balanceIn, balanceOut, given)
  }

  datatype Pricing = Priced(price: MarketPrice) | Unpriced(error: Error) | DividesByZero

  function PriceForStrategy(m: State, baseBalance: u64, quoteBalance: u64): Pricing {
    if m.strategy.Pluggable? then Priced(m.price)
    else
      match BalancedSpotPrice(ToDecimal(baseBalance, m.basePrecision), ToDecimal(quoteBalance, m.quotePrecision))
      case Refused(e) => Unpriced(ErrorOf(e))
      case Quoted(quotePrice) =>
        if quotePrice == 0 then DividesByZero
        else Priced(MarketPrice(Rate(Div(SCALE, quotePrice), SCALE), Rate(quotePrice, SCALE)))
  }

  function PreviewTrade(m: State, baseBalance: u64, quoteBalance: u64, amount: u64, asset: Asset, feeAsset: Asset, isBuy: bool): Result
  {
    if !m.tradable then NoPreview(IsClosed)
    else if asset != m.baseAsset && asset != m.quoteAsset then NoPreview(UnknownAsset)
    else if feeAsset != m.baseAsset && feeAsset != m.quoteAsset then NoPreview(UnknownFeeAsset)
    else
      var isBaseAsset := asset == m.baseAsset;
      match PriceForStrategy(m, baseBalance, quoteBalance)
      case Unpriced(e) => NoPreview(e)
      case DividesByZero => Panics
      case Priced(price) =>
        var given := ToDecimal(amount, if isBaseAsset then m.basePrecision else m.quotePrecision);
        match QuoteOf(m, baseBalance, quoteBalance, given, isBaseAsset, isBuy)
        case Refused(e) => NoPreview(ErrorOf(e))
        case Quoted(quoted) =>
          QuotedPositive(m, baseBalance, quoteBalance, given, isBaseAsset, isBuy);
          var sats := ToSats(quoted, if isBaseAsset then m.quotePrecision else m.basePrecision);
          var previewAsset := if isBaseAsset then m.quoteAsset else m.baseAsset;
          if sats == 0 then NoPreview(PreviewAmountTooLow)
          else
            match PreviewFees(m, if feeAsset == previewAsset then sats else amount, feeAsset, isBuy)
            case None => NoPreview(PreviewAmountTooLow)
            case Some(fee) => Previewed(PreviewInfo(price, sats, previewAsset, feeAsset, fee))
  }

  /** What a formula quotes is positive; what it pays out, quoted or given, is below the reserve it comes from. */
  lemma QuotedPositive(m: State, baseBalance: u64, quoteBalance: u64, given: int, isBaseAsset: bool, isBuy: bool)
    requires QuoteOf(m, baseBalance, quoteBalance, given, isBaseAsset, isBuy).Quoted?
    ensures QuoteOf(m, baseBalance, quoteBalance, given, isBaseAsset, isBuy).amount > 0
    ensures var out := if isBuy then ToDecimal(baseBalance, m.basePrecision) else ToDecimal(quoteBalance, m.quotePrecision);
            (if isBuy == isBaseAsset then given else QuoteOf(m, baseBalance, quoteBalance, given, isBaseAsset, isBuy).amount) < out
  {
  }

  // ---- Satoshis and decimals, up to eight digits of precision ----

  lemma Pow10Values(p: nat)
    requires p <= 8
    ensures Pow10(p) * Pow10(8 - p) == SCALE
  {
    assert Pow10(0) == 1 && Pow10(1) == 10 && Pow10(2) == 100 && Pow10(3) == 1000 && Pow10(4) == 10000;
    assert Pow10(5) == 100000 && Pow10(6) == 1000000 && Pow10(7) == 10000000 && Pow10(8) == 100000000;
  }

  /** With at most eight digits the conversion to a decimal is exact. */
  lemma ToDecimalExact(sats: nat, p: nat)
    requires p <= 8
    ensures ToDecimal(sats, p) == sats * Pow10(8 - p)
  {
    Pow10Values(p);
    assert sats * SCALE == (sats * Pow10(8 - p)) * Pow10(p);
    RoundExact(sats * Pow10(8 - p), Pow10(p));
  }

  lemma CutOffBounds(amount: int, a: int, whole: int, b: int)
    requires a > 0 && whole * a <= amount * a < (whole + b) * a
    ensures whole <= amount < whole + b
  {
    assert (amount + 1) * a == amount * a + a;
    MulCancel(amount, whole + b, a);
    MulCancel(whole, amount + 1, a);
  }

  lemma QuotientBounds(n: nat, d: nat)
    requires d > 0
    ensures d * (n / d) <= n < d * (n / d) + d
  {
    assert n == d * (n / d) + n % d;
  }

  lemma CutOff(amount: nat, a: nat, b: nat)
    requires a > 0 && b > 0 && a * b > 0
    ensures var q := amount * a / (a * b); q * b <= amount < (q + 1) * b
  {
    QuotientBounds(amount * a, a * b);
    CutOffUnits(amount, a, b, amount * a / (a * b));
  }

  lemma CutOffUnits(amount: int, a: int, b: int, q: int)
    requires a > 0 && (a * b) * q <= amount * a < (a * b) * q + a * b
    ensures q * b <= amount < (q + 1) * b
  {
    assert (q * b) * a == (a * b) * q;
    assert (q * b + b) * a == (q * b) * a + a * b;
    CutOffBounds(amount, a, q * b, b);
  }

  /** With at most eight digits, satoshis are the decimal rounded down, unless the integer wraps. */
  lemma ToSatsCutsOff(amount: nat, p: nat)
    requires p <= 8
    ensures var q := amount * Pow10(p) / SCALE;
            q * Pow10(8 - p) <= amount < (q + 1) * Pow10(8 - p) && (q < TWO_64 ==> ToSats(amount, p) == q)
  {
    Pow10Values(p);
    CutOff(amount, Pow10(p), Pow10(8 - p));
  }

  /** A decimal below that of a balance has fewer satoshis than the balance, and so does not wrap. */
  lemma BelowBalance(amount: nat, balance: u64, p: nat)
    requires p <= 8 && amount < ToDecimal(balance, p)
    ensures ToSats(amount, p) < balance
  {
    ToDecimalExact(balance, p);
    ToSatsCutsOff(amount, p);
    MulCancel(amount * Pow10(p) / SCALE, balance, Pow10(8 - p));
  }

  lemma GivenBelowBalance(amount: nat, balance: u64, p: nat)
    requires p <= 8 && ToDecimal(amount, p) < ToDecimal(balance, p)
    ensures amount < balance
  {
    ToDecimalExact(balance, p);
    ToDecimalExact(amount, p);
    MulCancel(amount, balance, Pow10(8 - p));
  }

  /** Every preview of every reachable market: what the market pays out, previewed or given, is strictly less, in satoshis,
      than its balance of that asset; and a fee that comes off the amount received is less than that amount. */
  lemma PaysOutLess(m: State, baseBalance: u64, quoteBalance: u64, amount: u64, asset: Asset, feeAsset: Asset, isBuy: bool)
    requires Reachable(m)
    requires PreviewTrade(m, baseBalance, quoteBalance, amount, asset, feeAsset, isBuy).Previewed?
    ensures var info := PreviewTrade(m, baseBalance, quoteBalance, amount, asset, feeAsset, isBuy).info;
            && (if isBuy == (asset == m.baseAsset) then amount else info.amount) < (if isBuy then baseBalance else quoteBalance)
            && info.amount > 0
            && ((isBuy && feeAsset == m.baseAsset) || (!isBuy && feeAsset == m.quoteAsset) ==>
                  info.feeAmount < (if feeAsset == info.asset then info.amount else amount))
  {
    ReachableInv(m);
    var isBaseAsset := asset == m.baseAsset;
    var given := ToDecimal(amount, if isBaseAsset then m.basePrecision else m.quotePrecision);
    QuotedPositive(m, baseBalance, quoteBalance, given, isBaseAsset, isBuy);
    var quoted := QuoteOf(m, baseBalance, quoteBalance, given, isBaseAsset, isBuy).amount;
    if isBuy == isBaseAsset {
      GivenBelowBalance(amount, if isBuy then baseBalance else quoteBalance, if isBuy then m.basePrecision else m.quotePrecision);
    } else {
      BelowBalance(quoted, if isBuy then baseBalance else quoteBalance, if isBuy then m.basePrecision else m.quotePrecision);
    }
  }

  /** The fee of a preview is the fixed fee plus the percentage, in basis points and rounded down, of the amount in the
      asset the fee is charged in, wherever neither wraps. */
  lemma FeeIsShare(m: State, baseBalance: u64, quoteBalance: u64, amount: u64, asset: Asset, feeAsset: Asset, isBuy: bool)
    requires Inv(m) && PreviewTrade(m, baseBalance, quoteBalance, amount, asset, feeAsset, isBuy).Previewed?
    ensures var info := PreviewTrade(m, baseBalance, quoteBalance, amount, asset, feeAsset, isBuy).info;
            var charged := if feeAsset == info.asset then info.amount else amount;
            var pct := if feeAsset == m.quoteAsset then m.percentageFee.quote else m.percentageFee.base;
            var fixed := if feeAsset == m.quoteAsset then m.fixedFee.quote else m.fixedFee.base;
            charged < TWO_63 && charged + fixed < TWO_64 ==>
              10000 * (info.feeAmount - fixed) <= charged * pct < 10000 * (info.feeAmount - fixed + 1)
  {
    var info := PreviewTrade(m, baseBalance, quoteBalance, amount, asset, feeAsset, isBuy).info;
    var charged := if feeAsset == info.asset then info.amount else amount;
    var pct := if feeAsset == m.quoteAsset then m.percentageFee.quote else m.percentageFee.base;
    MulLe(pct, 9999, charged);
    ShareBelow(charged, pct);
  }

  lemma ShareBelow(charged: nat, pct: nat)
    requires pct * charged <= 9999 * charged
    ensures var share := charged * pct / 10000; 0 <= share <= charged && 10000 * share <= charged * pct < 10000 * (share + 1)
  {
    var n := charged * pct;
    assert n == pct * charged;
  }

  /** A pluggable market quotes the given amount at the price of the other asset, to the nearest 10^-8. */
  lemma PluggableAtPrice(m: State, baseBalance: u64, quoteBalance: u64, given: int, isBaseAsset: bool, isBuy: bool)
    requires m.strategy.Pluggable? && QuoteOf(m, baseBalance, quoteBalance, given, isBaseAsset, isBuy).Quoted?
    ensures var rate := if isBaseAsset then m.price.quote else m.price.base;
            var quoted := QuoteOf(m, baseBalance, quoteBalance, given, isBaseAsset, isBuy).amount;
            0 - rate.den <= 2 * (rate.den * quoted - given * rate.num) <= rate.den
  {
  }

  /** A balanced market's price is, to the nearest 10^-8, the ratio of its balances and the reciprocal of that. */
  lemma PricedAtSpot(m: State, baseBalance: u64, quoteBalance: u64)
    requires m.strategy.Balanced? && PriceForStrategy(m, baseBalance, quoteBalance).Priced?
    ensures var b, q := ToDecimal(baseBalance, m.basePrecision), ToDecimal(quoteBalance, m.quotePrecision);
            var price := PriceForStrategy(m, baseBalance, quoteBalance).price;
            && price.base.den == price.quote.den == SCALE
            && -b <= 2 * (b * price.quote.num - q * SCALE) <= b
            && -price.quote.num <= 2 * (price.quote.num * price.base.num - SCALE * SCALE) <= price.quote.num
  {
  }

  // ---- The check of a proposed price ----

  /** A tolerated deviation, num / den. */
  datatype Slippage = Slippage(num: nat, den: pos)

  datatype Proposal = Proposal(assetP: Asset, amountP: u64, assetR: Asset, amountR: u64, feeAsset: Asset)

  function BalanceOf(balance: map<Asset, u64>, a: Asset): u64 {
    if a in balance then balance[a] else 0
  }

  function TradePreview(m: State, balance: map<Asset, u64>, isBuy: bool, feeAsset: Asset, asset: Asset, amount: u64): Result {
    PreviewTrade(m, BalanceOf(balance, m.baseAsset), BalanceOf(balance, m.quoteAsset), amount, asset, feeAsset, isBuy)
  }

  predicate IsPriceInRange(p: Proposal, info: PreviewInfo, s: Slippage) {
    var expected := I64(if info.asset == p.assetR then p.amountR else p.amountP);
    var check := I64(info.amount);
    expected * (s.den - s.num) <= check * s.den <= expected * (s.den + s.num)
  }

  /** Whether the preview of a side is there and within the tolerance; a panic ends the request like a refusal. */
  predicate SideMatches(m: State, balance: map<Asset, u64>, isBuy: bool, p: Proposal, asset: Asset, amount: u64, s: Slippage) {
    var r := TradePreview(m, balance, isBuy, p.feeAsset, asset, amount);
    r.Previewed? && IsPriceInRange(p, r.info, s)
  }

  predicate IsValidTradePrice(m: State, balance: map<Asset, u64>, isBuy: bool, p: Proposal, s: Slippage) {
    || SideMatches(m, balance, isBuy, p, p.assetP, p.amountP, s)
    || SideMatches(m, balance, isBuy, p, p.assetR, p.amountR, s)
  }

  lemma Tolerated(x: int, s: Slippage)
    requires x >= 0 || s.num == 0
    ensures x * (s.den - s.num) <= x * s.den <= x * (s.den + s.num)
  {
    if s.num > 0 {
      MulLe(s.den - s.num, s.den, x);
      MulLe(s.den, s.den + s.num, x);
    }
  }

  /** A proposal at what a preview of either of its sides quotes passes the check on the same balances. */
  lemma PreviewedPriceAccepted(m: State, balance: map<Asset, u64>, isBuy: bool, p: Proposal, s: Slippage)
    requires p.assetP != p.assetR
    requires
      var ofP := TradePreview(m, balance, isBuy, p.feeAsset, p.assetP, p.amountP);
      var ofR := TradePreview(m, balance, isBuy, p.feeAsset, p.assetR, p.amountR);
      || (ofP.Previewed? && ofP.info.asset == p.assetR && ofP.info.amount == p.amountR && (p.amountR < TWO_63 || s.num == 0))
      || (ofR.Previewed? && ofR.info.asset == p.assetP && ofR.info.amount == p.amountP && (p.amountP < TWO_63 || s.num == 0))
    ensures IsValidTradePrice(m, balance, isBuy, p, s)
  {
    var ofP := TradePreview(m, balance, isBuy, p.feeAsset, p.assetP, p.amountP);
    if ofP.Previewed? && ofP.info.asset == p.assetR && ofP.info.amount == p.amountR && (p.amountR < TWO_63 || s.num == 0) {
      Tolerated(I64(p.amountR), s);
    } else {
      Tolerated(I64(p.amountP), s);
    }
  }

  /** A balanced market of the two assets, traded in the direction of the proposal. */
  predicate BalancedFor(m: State, isBuy: bool, p: Proposal) {
    m.strategy.Balanced? && Oriented(isBuy, p.assetP, p.assetR, m.baseAsset, m.quoteAsset)
  }

  function PrecisionOf(m: State, a: Asset): nat {
    if a == m.baseAsset then m.basePrecision else m.quotePrecision
  }

  /** One satoshi of an asset as a decimal. */
  function Unit(m: State, a: Asset): nat {
    if PrecisionOf(m, a) <= 8 then Pow10(8 - PrecisionOf(m, a)) else 1
  }

  /** An amount of satoshis in units of 10^-8. */
  function InUnits(m: State, a: Asset, sats: nat): int {
    sats * Unit(m, a)
  }

  lemma UnitsAreDecimals(m: State, a: Asset, sats: nat)
    requires Inv(m)
    ensures ToDecimal(sats, PrecisionOf(m, a)) == InUnits(m, a, sats)
  {
    ToDecimalExact(sats, PrecisionOf(m, a));
  }

  /** The rounded amount a balanced market would pay for P, before it is cut to satoshis. */
  function QuoteForP(m: State, balance: map<Asset, u64>, p: Proposal): Quote {
    BalancedOutGivenIn(InUnits(m, p.assetP, BalanceOf(balance, p.assetP)), InUnits(m, p.assetR, BalanceOf(balance, p.assetR)),
                       InUnits(m, p.assetP, p.amountP))
  }

  /** The rounded amount it would ask for R. */
  function QuoteForR(m: State, balance: map<Asset, u64>, p: Proposal): Quote {
    BalancedInGivenOut(InUnits(m, p.assetP, BalanceOf(balance, p.assetP)), InUnits(m, p.assetR, BalanceOf(balance, p.assetR)),
                       InUnits(m, p.assetR, p.amountR))
  }

  /** A preview of either side of an oriented proposal goes through the corresponding quote. */
  lemma PreviewIsQuote(m: State, balance: map<Asset, u64>, isBuy: bool, p: Proposal, ofP: bool)
    requires Inv(m) && BalancedFor(m, isBuy, p)
    requires TradePreview(m, balance, isBuy, p.feeAsset, if ofP then p.assetP else p.assetR, if ofP then p.amountP else p.amountR).Previewed?
    ensures var info := TradePreview(m, balance, isBuy, p.feeAsset, if ofP then p.assetP else p.assetR, if ofP then p.amountP else p.amountR).info;
            var q := if ofP then QuoteForP(m, balance, p) else QuoteForR(m, balance, p);
            var asset := if ofP then p.assetR else p.assetP;
            q.Quoted? && q.amount > 0 && info.asset == asset && info.amount == ToSats(q.amount, PrecisionOf(m, asset))
  {
    UnitsAreDecimals(m, p.assetP, BalanceOf(balance, p.assetP));
    UnitsAreDecimals(m, p.assetR, BalanceOf(balance, p.assetR));
    UnitsAreDecimals(m, p.assetP, p.amountP);
    UnitsAreDecimals(m, p.assetR, p.amountR);
  }

  lemma WrappedBelow(q: nat)
    ensures U64(q) <= q
  {
  }

  /** Arithmetic of the two acceptances: scaling by the denominator and monotonicity of products. */
  lemma ScaleUp(x: int, y: int, z: int, den: int, s: int, term: int)
    requires den > 0 && s > 0 && x >= 0
    requires den * y <= z && 2 * s * (x * y) >= term
    ensures 2 * s * (x * z) >= den * term
  {
    MulLe(den * y, z, x);
    assert (den * y) * x == den * (x * y) && z * x == x * z;
    MulLe(den * (x * y), x * z, 2 * s);
    assert den * (x * y) * (2 * s) == den * (2 * s * (x * y)) && x * z * (2 * s) == 2 * s * (x * z);
    MulLe(term, 2 * s * (x * y), den);
    assert term * den == den * term && 2 * s * (x * y) * den == den * (2 * s * (x * y));
  }

  /** (balanceIn + paid) * (balanceOut - (1 - num / den) received) is at least the product less the rounding term; both
      sides times the denominator, and twice SCALE. */
  ghost predicate OnCurveIn(bi: int, bo: int, paid: int, received: int, den: int, num: int) {
    2 * SCALE * ((bi + paid) * (den * bo - (den - num) * received)) >= den * (2 * SCALE * (bi * bo) - InTerm(bi, bo, paid))
  }

  /** (balanceIn + (1 + num / den) paid + unit) * (balanceOut - received) likewise. */
  ghost predicate OnCurveOut(bi: int, bo: int, received: int, paid: int, unit: int, den: int, num: int) {
    2 * SCALE * ((bo - received) * (den * bi + (den + num) * paid + den * unit))
      >= den * (2 * SCALE * (bi * bo) - OutTerm(bi, bo, received))
  }

  lemma SlipIn(bi: nat, bo: nat, paid: int, received: int, den: int, num: int)
    requires BalancedOutGivenIn(bi, bo, paid).Quoted? && den > 0
    requires (den - num) * received <= den * BalancedOutGivenIn(bi, bo, paid).amount
    ensures OnCurveIn(bi, bo, paid, received, den, num)
  {
    var quoted := BalancedOutGivenIn(bi, bo, paid).amount;
    InKeepsProduct(bi, bo, paid);
    assert den * (bo - quoted) == den * bo - den * quoted;
    ScaleUp(bi + paid, bo - quoted, den * bo - (den - num) * received, den, SCALE, 2 * SCALE * (bi * bo) - InTerm(bi, bo, paid));
  }

  lemma SlipOut(bi: nat, bo: nat, received: int, paid: int, unit: int, den: int, num: int)
    requires BalancedInGivenOut(bi, bo, received).Quoted? && den > 0
    requires den * BalancedInGivenOut(bi, bo, received).amount <= (den + num) * paid + den * unit
    ensures OnCurveOut(bi, bo, received, paid, unit, den, num)
  {
    var quoted := BalancedInGivenOut(bi, bo, received).amount;
    OutKeepsProduct(bi, bo, received);
    assert (bi + quoted) * (bo - received) == (bo - received) * (bi + quoted);
    assert den * (bi + quoted) == den * bi + den * quoted;
    ScaleUp(bo - received, bi + quoted, den * bi + (den + num) * paid + den * unit, den, SCALE,
            2 * SCALE * (bi * bo) - OutTerm(bi, bo, received));
  }

  lemma CheckNegative(expected: int, check: int, den: int, num: int)
    requires den > 0 && num >= 0 && expected < 0 && check * den <= expected * (den + num)
    ensures check < 0
  {
    MulLe(expected, -1, den + num);
    if check >= 0 { MulLe(0, check, den); }
  }

  /** The lower bound on the conversions of the two amounts is one on the amounts, also where both are negative. */
  lemma ReceivedCheck(r: u64, sats: u64, expected: int, check: int, den: int, num: int)
    requires den > 0 && num >= 0 && expected == I64(r) && check == I64(sats)
    requires expected * (den - num) <= check * den <= expected * (den + num)
    ensures r * (den - num) <= sats * den
  {
    if r < TWO_63 {
      MulLe(check, sats, den);
    } else {
      CheckNegative(expected, check, den, num);
      Shifted(r, sats, TWO_64, den, den - num);
      MulLe(0, num, TWO_64);
    }
  }

  lemma Shifted(a: int, b: int, w: int, x: int, y: int)
    ensures (a - w) * y == a * y - w * y && (b - w) * x == b * x - w * x && w * (x - y) == w * x - w * y
  {
  }

  lemma ReceivedBound(r: int, sats: int, unit: int, quoted: int, den: int, num: int)
    requires den > 0 && unit >= 0 && r * (den - num) <= sats * den && sats * unit <= quoted
    ensures (den - num) * (r * unit) <= den * quoted
  {
    MulLe(r * (den - num), sats * den, unit);
    assert r * (den - num) * unit == (den - num) * (r * unit) && sats * den * unit == sats * unit * den;
    MulLe(sats * unit, quoted, den);
    assert quoted * den == den * quoted;
  }

  lemma PaidBound(p: int, sats: int, unit: int, quoted: int, den: int, num: int)
    requires den > 0 && unit >= 0 && sats * den <= p * (den + num) && quoted <= (sats + 1) * unit
    ensures den * quoted <= (den + num) * (p * unit) + den * unit
  {
    MulLe(quoted, (sats + 1) * unit, den);
    assert (sats + 1) * unit * den == sats * den * unit + den * unit && quoted * den == den * quoted;
    MulLe(sats * den, p * (den + num), unit);
    assert p * (den + num) * unit == (den + num) * (p * unit);
  }

  /** Paying (1 - s) R for P stays on the curve. */
  ghost predicate RespectsCurveIn(m: State, balance: map<Asset, u64>, p: Proposal, s: Slippage) {
    OnCurveIn(InUnits(m, p.assetP, BalanceOf(balance, p.assetP)), InUnits(m, p.assetR, BalanceOf(balance, p.assetR)),
              InUnits(m, p.assetP, p.amountP), InUnits(m, p.assetR, p.amountR), s.den, s.num)
  }

  /** Receiving (1 + s) P and one satoshi for R stays on the curve. */
  ghost predicate RespectsCurveOut(m: State, balance: map<Asset, u64>, p: Proposal, s: Slippage) {
    OnCurveOut(InUnits(m, p.assetP, BalanceOf(balance, p.assetP)), InUnits(m, p.assetR, BalanceOf(balance, p.assetR)),
               InUnits(m, p.assetR, p.amountR), InUnits(m, p.assetP, p.amountP), Unit(m, p.assetP), s.den, s.num)
  }

  lemma QuoteRespectsIn(m: State, balance: map<Asset, u64>, p: Proposal, s: Slippage)
    requires QuoteForP(m, balance, p).Quoted?
    requires (s.den - s.num) * InUnits(m, p.assetR, p.amountR) <= s.den * QuoteForP(m, balance, p).amount
    ensures RespectsCurveIn(m, balance, p, s)
  {
    SlipIn(InUnits(m, p.assetP, BalanceOf(balance, p.assetP)), InUnits(m, p.assetR, BalanceOf(balance, p.assetR)),
           InUnits(m, p.assetP, p.amountP), InUnits(m, p.assetR, p.amountR), s.den, s.num);
  }

  lemma QuoteRespectsOut(m: State, balance: map<Asset, u64>, p: Proposal, s: Slippage)
    requires QuoteForR(m, balance, p).Quoted?
    requires s.den * QuoteForR(m, balance, p).amount
             <= (s.den + s.num) * InUnits(m, p.assetP, p.amountP) + s.den * Unit(m, p.assetP)
    ensures RespectsCurveOut(m, balance, p, s)
  {
    SlipOut(InUnits(m, p.assetP, BalanceOf(balance, p.assetP)), InUnits(m, p.assetR, BalanceOf(balance, p.assetR)),
            InUnits(m, p.assetR, p.amountR), InUnits(m, p.assetP, p.amountP), Unit(m, p.assetP), s.den, s.num);
  }

  lemma ReceivedWithinQuote(m: State, balance: map<Asset, u64>, isBuy: bool, p: Proposal, s: Slippage)
    requires Inv(m) && BalancedFor(m, isBuy, p)
    requires SideMatches(m, balance, isBuy, p, p.assetP, p.amountP, s)
    ensures QuoteForP(m, balance, p).Quoted?
    ensures (s.den - s.num) * InUnits(m, p.assetR, p.amountR) <= s.den * QuoteForP(m, balance, p).amount
  {
    PreviewIsQuote(m, balance, isBuy, p, true);
    var quoted, precision := QuoteForP(m, balance, p).amount, PrecisionOf(m, p.assetR);
    var whole := quoted * Pow10(precision) / SCALE;
    var sats: nat := ToSats(quoted, precision);
    ToSatsCutsOff(quoted, precision);
    WrappedBelow(whole);
    MulLe(sats, whole, Unit(m, p.assetR));
    ReceivedCheck(p.amountR, sats, I64(p.amountR), I64(sats), s.den, s.num);
    ReceivedBound(p.amountR, sats, Unit(m, p.assetR), quoted, s.den, s.num);
  }

  /** A swap accepted by the preview of P: paying (1 - s) R for P stays on the curve up to the rounding term. */
  lemma AcceptedByP(m: State, balance: map<Asset, u64>, isBuy: bool, p: Proposal, s: Slippage)
    requires Inv(m) && BalancedFor(m, isBuy, p)
    requires SideMatches(m, balance, isBuy, p, p.assetP, p.amountP, s)
    ensures RespectsCurveIn(m, balance, p, s)
  {
    ReceivedWithinQuote(m, balance, isBuy, p, s);
    QuoteRespectsIn(m, balance, p, s);
  }

  /** The satoshis a balanced market asks for R, before they are cut to 64 bits. */
  function AskedSats(m: State, balance: map<Asset, u64>, p: Proposal): nat {
    var q := QuoteForR(m, balance, p);
    if q.Quoted? && q.amount > 0 then q.amount * Pow10(PrecisionOf(m, p.assetP)) / SCALE else 0
  }

  /** The amount asked survives the conversions; a tolerance of a whole amount or more also needs it to fit an int64. */
  predicate AskedFits(m: State, balance: map<Asset, u64>, p: Proposal, s: Slippage) {
    AskedSats(m, balance, p) < (if s.num < s.den then TWO_64 else TWO_63)
  }

  lemma CheckNotNegative(paid: nat, check: int, den: int, num: int)
    requires 0 <= num < den && paid * (den - num) <= check * den
    ensures check >= 0
  {
    MulLe(0, paid, den - num);
    if check < 0 { MulLe(check + 1, 0, den); }
  }

  lemma PaidBelow(paid: nat, half: nat, asked: int, den: int, num: int)
    requires 0 <= num < den && paid < half && 2 * half <= asked
    ensures paid * (den + num) < asked * den
  {
    MulLe(den + num, 2 * den, paid);
    MulLe(2 * paid + 1, asked, den);
    assert (den + num) * paid == paid * (den + num) && 2 * den * paid + den == (2 * paid + 1) * den;
  }

  lemma AskedCheck(asked: nat, paid: u64, expected: int, check: int, den: int, num: int)
    requires den > 0 && num >= 0 && expected == I64(paid) && check == I64(U64(asked))
    requires expected * (den - num) <= check * den <= expected * (den + num)
    ensures asked < (if num < den then TWO_64 else TWO_63) ==> asked * den <= paid * (den + num)
    ensures num < den && paid < TWO_63 ==> (asked < TWO_64 <==> asked * den <= paid * (den + num))
  {
    if paid >= TWO_63 {
      CheckNegative(expected, check, den, num);
      Shifted(paid, asked, TWO_64, den, den + num);
      MulLe(0, num, TWO_64);
    } else if num < den {
      CheckNotNegative(paid, check, den, num);
      if asked >= TWO_64 { PaidBelow(paid, TWO_63, asked, den, num); }
    }
  }

  /** What a swap accepted by the preview of R pays, with the tolerance, is what the market asks, exactly when the amount
      asked fits 64 bits: past that the preview the price is checked against is the wrapped amount. */
  lemma AskedIsPaid(m: State, balance: map<Asset, u64>, isBuy: bool, p: Proposal, s: Slippage)
    requires Inv(m) && BalancedFor(m, isBuy, p)
    requires SideMatches(m, balance, isBuy, p, p.assetR, p.amountR, s)
    ensures AskedFits(m, balance, p, s) ==> AskedSats(m, balance, p) * s.den <= p.amountP * (s.den + s.num)
    ensures s.num < s.den && p.amountP < TWO_63 ==>
              (AskedSats(m, balance, p) < TWO_64 <==> AskedSats(m, balance, p) * s.den <= p.amountP * (s.den + s.num))
  {
    PreviewIsQuote(m, balance, isBuy, p, false);
    AskedCheck(AskedSats(m, balance, p), p.amountP, I64(p.amountP), I64(U64(AskedSats(m, balance, p))), s.den, s.num);
  }

  lemma WrappedAskOffCurve(bi: int)
    requires bi == TWO_63 + 5
    ensures !OnCurveIn(bi, 3, 10, 2, 1, 0) && !OnCurveOut(bi, 3, 2, 10, 1, 1, 0)
  {
  }

  const ThinBalance: u64 := TWO_63 + 5

  function ThinReserves(m: State): map<Asset, u64> {
    map[m.baseAsset := 3, m.quoteAsset := ThinBalance]
  }

  function Cheap(m: State): Proposal {
    Proposal(m.quoteAsset, 10, m.baseAsset, 2, m.quoteAsset)
  }

  ghost predicate EightDigits(m: State) {
    m.strategy.Balanced? && m.tradable && m.baseAsset != m.quoteAsset && m.basePrecision == 8 && m.quotePrecision == 8
  }

  lemma CheapAsk(m: State)
    requires EightDigits(m)
    ensures QuoteForR(m, ThinReserves(m), Cheap(m)) == Quoted(TWO_64 + 10)
    ensures AskedSats(m, ThinReserves(m), Cheap(m)) == TWO_64 + 10
  {
    Pow10Values(8);
  }

  lemma CheapMatches(m: State)
    requires EightDigits(m)
    ensures SideMatches(m, ThinReserves(m), true, Cheap(m), m.baseAsset, 2, Slippage(0, 1))
  {
    ToDecimalExact(3, 8);
    ToDecimalExact(ThinBalance, 8);
    ToDecimalExact(2, 8);
    CheapAsk(m);
  }

  lemma CheapOffCurve(m: State)
    requires EightDigits(m)
    ensures !RespectsCurveIn(m, ThinReserves(m), Cheap(m), Slippage(0, 1))
    ensures !RespectsCurveOut(m, ThinReserves(m), Cheap(m), Slippage(0, 1))
  {
    assert Unit(m, m.baseAsset) == 1 && Unit(m, m.quoteAsset) == 1;
    WrappedAskOffCurve(InUnits(m, m.quoteAsset, ThinBalance));
  }

  /** Ten satoshis of quote are accepted for two of base where the market asks 2^64 + 10, off the curve on either side. */
  lemma WrappedAskAccepted(m: State)
    requires EightDigits(m)
    ensures AskedSats(m, ThinReserves(m), Cheap(m)) == TWO_64 + 10
    ensures IsValidTradePrice(m, ThinReserves(m), true, Cheap(m), Slippage(0, 1))
    ensures !RespectsCurveIn(m, ThinReserves(m), Cheap(m), Slippage(0, 1))
    ensures !RespectsCurveOut(m, ThinReserves(m), Cheap(m), Slippage(0, 1))
  {
    CheapAsk(m);
    CheapMatches(m);
    CheapOffCurve(m);
  }

  lemma QuoteWithinPaid(m: State, balance: map<Asset, u64>, isBuy: bool, p: Proposal, s: Slippage)
    requires Inv(m) && BalancedFor(m, isBuy, p)
    requires SideMatches(m, balance, isBuy, p, p.assetR, p.amountR, s) && AskedFits(m, balance, p, s)
    ensures QuoteForR(m, balance, p).Quoted?
    ensures s.den * QuoteForR(m, balance, p).amount
            <= (s.den + s.num) * InUnits(m, p.assetP, p.amountP) + s.den * Unit(m, p.assetP)
  {
    PreviewIsQuote(m, balance, isBuy, p, false);
    AskedIsPaid(m, balance, isBuy, p, s);
    var quoted := QuoteForR(m, balance, p).amount;
    ToSatsCutsOff(quoted, PrecisionOf(m, p.assetP));
    PaidBound(p.amountP, AskedSats(m, balance, p), Unit(m, p.assetP), quoted, s.den, s.num);
  }

  /** A swap accepted by the preview of R, when the amount asked survives the conversions. */
  lemma AcceptedByR(m: State, balance: map<Asset, u64>, isBuy: bool, p: Proposal, s: Slippage)
    requires Inv(m) && BalancedFor(m, isBuy, p)
    requires SideMatches(m, balance, isBuy, p, p.assetR, p.amountR, s) && AskedFits(m, balance, p, s)
    ensures RespectsCurveOut(m, balance, p, s)
  {
    QuoteWithinPaid(m, balance, isBuy, p, s);
    QuoteRespectsOut(m, balance, p, s);
  }

  /** Every swap the check accepts on a balanced market respects the curve up to the slippage and the rounding term, on
      the side whose preview matched; by the preview of R, when the amount asked survives the conversions. */
  lemma AcceptedRespectsCurve(m: State, balance: map<Asset, u64>, isBuy: bool, p: Proposal, s: Slippage)
    requires Reachable(m) && BalancedFor(m, isBuy, p) && IsValidTradePrice(m, balance, isBuy, p, s)
    ensures SideMatches(m, balance, isBuy, p, p.assetP, p.amountP, s) ==> RespectsCurveIn(m, balance, p, s)
    ensures SideMatches(m, balance, isBuy, p, p.assetR, p.amountR, s) && AskedFits(m, balance, p, s) ==>
              RespectsCurveOut(m, balance, p, s)
    ensures AskedFits(m, balance, p, s) ==> RespectsCurveIn(m, balance, p, s) || RespectsCurveOut(m, balance, p, s)
  {
    ReachableInv(m);
    if SideMatches(m, balance, isBuy, p, p.assetP, p.amountP, s) { AcceptedByP(m, balance, isBuy, p, s); }
    if SideMatches(m, balance, isBuy, p, p.assetR, p.amountR, s) && AskedFits(m, balance, p, s) {
      AcceptedByR(m, balance, isBuy, p, s);
    }
  }
}
