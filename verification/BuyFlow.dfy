/** A BUY from the market's preview to the completed transaction. */
module BuyFlow {
  import opened Basics
  import opened UInt64
  import opened Ledger
  import opened SwapRequest
  import opened WalletService
  import Combinations
  import CoinSelection
  import Market
  import Preview
  import Trader

  /** What the market previews to a proposer who buys for `sats` of quote. */
  function BuyPreview(m: Market.State, balance: map<Asset, u64>, feeAsset: Asset, sats: u64): Preview.Result {
    Preview.TradePreview(m, balance, true, feeAsset, m.quoteAsset, sats)
  }

  function Shown(info: Preview.PreviewInfo): Trader.Offer {
    Trader.Offer(info.amount, info.asset, info.feeAsset, info.feeAmount)
  }

  /** The amounts with their fee stay below 2^63. */
  predicate AmountsFit(sats: u64, info: Preview.PreviewInfo) {
    sats + info.feeAmount < TWO_63 && info.amount + info.feeAmount < TWO_63
  }

  /** Every preview a reachable market gives to a buyer is one that the trader's request can be built from. */
  lemma PreviewIsFair(m: Market.State, balance: map<Asset, u64>, feeAsset: Asset, sats: u64)
    requires Market.Reachable(m) && m.baseAsset != m.quoteAsset
    requires BuyPreview(m, balance, feeAsset, sats).Previewed?
    requires AmountsFit(sats, BuyPreview(m, balance, feeAsset, sats).info)
    ensures Trader.FairPreview(m.quoteAsset, sats, Shown(BuyPreview(m, balance, feeAsset, sats).info))
    ensures BuyPreview(m, balance, feeAsset, sats).info.asset == m.baseAsset
  {
    Preview.PaysOutLess(m, Preview.BalanceOf(balance, m.baseAsset), Preview.BalanceOf(balance, m.quoteAsset), sats,
                        m.quoteAsset, feeAsset, true);
  }

  /** The price check of a proposal at the preview. */
  method CheckPrice(m: Market.State, balance: map<Asset, u64>, tolerance: Preview.Slippage, feeAsset: Asset, sats: u64,
                    info: Preview.PreviewInfo) returns (fair: bool)
    requires m.baseAsset != m.quoteAsset && BuyPreview(m, balance, feeAsset, sats) == Preview.Previewed(info)
    requires info.asset == m.baseAsset && info.amount < TWO_63
    ensures fair
  {
    var p := Preview.Proposal(m.quoteAsset, sats, m.baseAsset, info.amount, feeAsset);
    Preview.PreviewedPriceAccepted(m, balance, true, p, tolerance);
    fair := Preview.IsValidTradePrice(m, balance, true, p, tolerance);
  }

  datatype Outcome =
    | NotPreviewed
    | PriceRefused
    | NotProposed
    | Answered(request: Request, verdict: Verdict, completed: Option<Completion>)

  /** The request is valid and completed if the wallet answers, and the transaction conserves every asset exactly when the
      wallet's fee coins cover its second estimate for that request. */
  ghost predicate AnsweredWell(w: Wallet, native: Asset, account: AccountId, r: Outcome)
    requires r.Answered?
  {
    var feesToAdd := r.request.feeAsset == r.request.assetP;
    && r.verdict == Valid && (AlwaysAnswers(w) ==> r.completed.Some?)
    && (r.completed.Some? ==>
          && Completes(w, native, account, r.request, feesToAdd, r.completed.value)
          && (Balanced(r.completed.value.tx) <==> SwapFeeCovered(w, native, account, r.request, feesToAdd)))
  }

  method Propose(
    e: Combinations.Enumerator, w: Wallet, native: Asset, account: AccountId, base: Asset, quote: Asset, sats: u64,
    offer: Trader.Offer, utxos: seq<Trader.Utxo>, seen: Trader.Utxo -> bool) returns (r: Outcome)
    requires e.combination == [] && Sound(w)
    requires Trader.FairPreview(quote, sats, offer) && offer.asset == base
    requires CoinSelection.Total(CoinSelection.OfAsset(utxos, quote)) < TWO_63
    modifies e
    ensures r.NotProposed? || r.Answered?
    ensures r.NotProposed? ==> Trader.Short(quote, Trader.InAmount(offer.feeAsset == quote, sats, offer), utxos)
    ensures r.Answered? ==> Trader.Carries(r.request, quote, sats, offer) && AnsweredWell(w, native, account, r)
  {
    var proposal, verdict, completed := Trader.BuyEndToEnd(e, w, native, account, base, quote, sats, offer, utxos, seen);
    if proposal.None? { return NotProposed; }
    Trader.ProposedMatches(quote, sats, offer, utxos, seen, proposal.value);
    r := Answered(proposal.value, verdict, completed);
  }

  /** The preview is taken at its word: while the balances stay, the price check accepts the proposal built from it,
      whatever the tolerance, the request is valid, and what the wallet completes conserves every asset exactly when its
      fee coins cover its second estimate for that request. */
  method BuyAtPreview(
    e: Combinations.Enumerator, w: Wallet, native: Asset, m: Market.State, balance: map<Asset, u64>,
    tolerance: Preview.Slippage, feeAsset: Asset, sats: u64, utxos: seq<Trader.Utxo>, seen: Trader.Utxo -> bool)
    returns (r: Outcome)
    requires e.combination == [] && Sound(w)
    requires Market.Reachable(m) && m.baseAsset != m.quoteAsset
    requires BuyPreview(m, balance, feeAsset, sats).Previewed? ==> AmountsFit(sats, BuyPreview(m, balance, feeAsset, sats).info)
    requires CoinSelection.Total(CoinSelection.OfAsset(utxos, m.quoteAsset)) < TWO_63
    modifies e
    ensures r.NotPreviewed? <==> !BuyPreview(m, balance, feeAsset, sats).Previewed?
    ensures !r.PriceRefused?
    ensures r.NotProposed? ==>
              Trader.Short(m.quoteAsset, Trader.InAmount(feeAsset == m.quoteAsset, sats, Shown(BuyPreview(m, balance, feeAsset, sats).info)), utxos)
    ensures r.Answered? ==>
              && Trader.Carries(r.request, m.quoteAsset, sats, Shown(BuyPreview(m, balance, feeAsset, sats).info))
              && AnsweredWell(w, native, Named(m.name), r)
  {
    var preview := BuyPreview(m, balance, feeAsset, sats);
    if !preview.Previewed? { return NotPreviewed; }
    PreviewIsFair(m, balance, feeAsset, sats);
    var fair := CheckPrice(m, balance, tolerance, feeAsset, sats, preview.info);
    if !fair { return PriceRefused; }
    r := Propose(e, w, native, Named(m.name), m.baseAsset, m.quoteAsset, sats, Shown(preview.info), utxos, seen);
  }
}
