/** The reference trader: a BUY proposal built from selected coins, and the swap the daemon completes from it. */
module Trader {
  import opened Basics
  import opened UInt64
  import opened Ledger
  import opened SwapRequest
  import opened WalletService
  import Combinations
  import CoinSelection

  type Utxo = CoinSelection.Utxo

  datatype Offer = Offer(amount: u64, asset: Asset, feeAsset: Asset, feeAmount: u64)

  /** The trader's coins as transaction inputs; `seen(u)` tells whether the daemon's wallet can fetch their origin. */
  function Inputs(coins: seq<Utxo>, seen: Utxo -> bool): seq<Coin> {
    if coins == [] then []
    else
      var n := |coins| - 1;
      Inputs(coins[..n], seen) + [Coin(Outside, coins[n].asset, coins[n].value, seen(coins[n]))]
  }

  function Revealed(coins: seq<Utxo>): (r: seq<UnblindedInput>)
    ensures |r| == |coins|
    ensures forall k :: 0 <= k < |r| ==> r[k].index == k
  {
    if coins == [] then []
    else
      var n := |coins| - 1;
      Revealed(coins[..n]) + [UnblindedInput(n, coins[n].asset, coins[n].value)]
  }

  /** Inputs and revealed inputs agree with the selected coins, coin for coin. */
  lemma {:induction false} InputsTotal(coins: seq<Utxo>, seen: Utxo -> bool, asset: Asset)
    requires forall k :: 0 <= k < |coins| ==> coins[k].asset == asset
    ensures |Inputs(coins, seen)| == |coins|
    ensures forall k :: 0 <= k < |coins| ==> Inputs(coins, seen)[k].asset == asset
    ensures Tot(Inputs(coins, seen), asset) == CoinSelection.Total(coins) == RevealedTot(Revealed(coins), asset)
  {
    if coins != [] {
      var n := |coins| - 1;
      InputsTotal(coins[..n], seen, asset);
      assert coins == coins[..n] + [coins[n]];
      CoinSelection.TotalAppend(coins[..n], coins[n]);
      assert Revealed(coins)[..n] == Revealed(coins[..n]);
      TotAppend(Inputs(coins[..n], seen), Coin(Outside, asset, coins[n].value, seen(coins[n])), asset);
    }
  }

  function Outputs(asset: Asset, preview: Offer, outAmount: u64, change: u64): seq<Coin> {
    [Coin(Outside, preview.asset, outAmount, true)]
    + (if change > 0 then [Coin(Outside, asset, change, true)] else [])
  }

  lemma OutputsTotal(asset: Asset, preview: Offer, outAmount: u64, change: u64)
    requires asset != preview.asset
    ensures Tot(Outputs(asset, preview, outAmount, change), asset) == change
    ensures Tot(Outputs(asset, preview, outAmount, change), preview.asset) == outAmount
  {
    var paid := Coin(Outside, preview.asset, outAmount, true);
    TotOne(paid, asset);
    TotOne(paid, preview.asset);
    if change > 0 {
      var back := Coin(Outside, asset, change, true);
      TotOne(back, asset);
      TotOne(back, preview.asset);
      TotConcat([paid], [back], asset);
      TotConcat([paid], [back], preview.asset);
    } else {
      assert Outputs(asset, preview, outAmount, change) == [paid];
    }
  }

  function InAmount(feeOnSent: bool, sats: u64, preview: Offer): u64 {
    if feeOnSent then U64(sats + preview.feeAmount) else sats
  }

  function OutAmount(feeOnSent: bool, preview: Offer): u64 {
    if feeOnSent then preview.amount else U64(preview.amount - preview.feeAmount)
  }

  function Proposal(asset: Asset, feeOnSent: bool, sats: u64, preview: Offer, coins: seq<Utxo>, change: u64,
                    seen: Utxo -> bool): Request
  {
    Request(asset, sats, preview.asset, preview.amount, preview.feeAsset, preview.feeAmount,
            Tx(Inputs(coins, seen), Outputs(asset, preview, OutAmount(feeOnSent, preview), change)), Revealed(coins))
  }

  /** A preview of a BUY given in quote: base is received, the fee is on either side and, on base, below the amount. */
  ghost predicate FairPreview(quote: Asset, sats: u64, preview: Offer) {
    && preview.asset != quote
    && (preview.feeAsset == quote || preview.feeAsset == preview.asset)
    && (preview.feeAsset == preview.asset ==> preview.feeAmount < preview.amount)
    && sats + preview.feeAmount < TWO_63 && preview.amount + preview.feeAmount < TWO_63
  }

  /** What the trader builds always passes the daemon's check, by the branch matching the fee's side. */
  lemma ProposalMatches(quote: Asset, sats: u64, preview: Offer, coins: seq<Utxo>, change: u64, seen: Utxo -> bool)
    requires FairPreview(quote, sats, preview)
    requires coins != [] && forall k :: 0 <= k < |coins| ==> coins[k].asset == quote
    requires CoinSelection.Total(coins) == InAmount(preview.feeAsset == quote, sats, preview) + change < TWO_63
    ensures var req := Proposal(quote, preview.feeAsset == quote, sats, preview, coins, change, seen);
            WellFormed(req) && MatchingBranch(req) && Accepted(req)
  {
    var feeOnSent := preview.feeAsset == quote;
    var req := Proposal(quote, feeOnSent, sats, preview, coins, change, seen);
    InputsTotal(coins, seen, quote);
    OutputsTotal(quote, preview, OutAmount(feeOnSent, preview), change);
    MatchingIsExact(req);
  }

  lemma SelectedAreOfAsset(utxos: seq<Utxo>, asset: Asset, target: u64, coins: seq<Utxo>)
    requires CoinSelection.IsSelection(CoinSelection.OfAsset(utxos, asset), target, coins)
    ensures forall k :: 0 <= k < |coins| ==> coins[k].asset == asset
  {
    forall k | 0 <= k < |coins| ensures coins[k].asset == asset {
      assert coins[k] in multiset(coins);
      CoinSelection.OfAssetCount(utxos, asset, coins[k]);
    }
  }

  lemma SelectedProposalMatches(quote: Asset, sats: u64, preview: Offer, utxos: seq<Utxo>,
                                selection: CoinSelection.Selection, seen: Utxo -> bool)
    requires FairPreview(quote, sats, preview) && selection.Selected?
    requires CoinSelection.Total(CoinSelection.OfAsset(utxos, quote)) < TWO_63
    requires CoinSelection.IsOutcome(CoinSelection.OfAsset(utxos, quote),
                                     InAmount(preview.feeAsset == quote, sats, preview), selection)
    ensures var req := Proposal(quote, preview.feeAsset == quote, sats, preview, selection.coins, selection.change, seen);
            WellFormed(req) && MatchingBranch(req) && Accepted(req)
  {
    var available, target := CoinSelection.OfAsset(utxos, quote), InAmount(preview.feeAsset == quote, sats, preview);
    SelectedAreOfAsset(utxos, quote, target, selection.coins);
    CoinSelection.SelectionCovers(available, target, selection.coins);
    ProposalMatches(quote, sats, preview, selection.coins, selection.change, seen);
  }

  method BuildProposal(quote: Asset, feeOnSent: bool, sats: u64, preview: Offer, coins: seq<Utxo>, change: u64,
                       seen: Utxo -> bool) returns (req: Request)
    ensures req == Proposal(quote, feeOnSent, sats, preview, coins, change, seen)
  {
    var unblinded: seq<UnblindedInput>, ins: seq<Coin> := [], [];
    for i := 0 to |coins|
      invariant ins == Inputs(coins[..i], seen) && unblinded == Revealed(coins[..i])
    {
      assert coins[..i + 1][..i] == coins[..i];
      ins := ins + [Coin(Outside, coins[i].asset, coins[i].value, seen(coins[i]))];
      unblinded := unblinded + [UnblindedInput(i, coins[i].asset, coins[i].value)];
    }
    assert coins[..|coins|] == coins;
    var outAmount: u64 := preview.amount;
    if !feeOnSent {
      outAmount := U64(outAmount - preview.feeAmount);
    }
    var outs := [Coin(Outside, preview.asset, outAmount, true)];
    if change > 0 {
      outs := outs + [Coin(Outside, quote, change, true)];
    }
    assert outs == Outputs(quote, preview, outAmount, change);
    req := Request(quote, sats, preview.asset, preview.amount, preview.feeAsset, preview.feeAmount, Tx(ins, outs), unblinded);
  }

  /** The request spends a selection of the trader's quote coins for the amount, fee included when it is on quote. */
  ghost predicate Proposes(quote: Asset, sats: u64, preview: Offer, utxos: seq<Utxo>, seen: Utxo -> bool, req: Request) {
    ProposesFor(quote, InAmount(preview.feeAsset == quote, sats, preview), sats, preview, utxos, seen, req)
  }

  ghost predicate ProposesFor(quote: Asset, amount: u64, sats: u64, preview: Offer, utxos: seq<Utxo>, seen: Utxo -> bool, req: Request) {
    exists s: CoinSelection.Selection ::
      s.Selected? && CoinSelection.IsOutcome(CoinSelection.OfAsset(utxos, quote), amount, s)
      && req == Proposal(quote, preview.feeAsset == quote, sats, preview, s.coins, s.change, seen)
  }

  /** The coins that make the trader give up: one not unblinded, or quote coins short of the amount. */
  ghost predicate Short(quote: Asset, amount: u64, utxos: seq<Utxo>) {
    || !CoinSelection.AllRevealed(utxos)
    || (0 < amount && CoinSelection.CoversGap(amount) ==> CoinSelection.Total(CoinSelection.OfAsset(utxos, quote)) < amount)
  }

  method MakeTradeBuyPreview(
    e: Combinations.Enumerator, quote: Asset, sats: u64, preview: Offer, utxos: seq<Utxo>, seen: Utxo -> bool)
    returns (r: Option<Request>)
    requires e.combination == []
    modifies e
    ensures e.combination == []
    ensures r.Some? ==> Proposes(quote, sats, preview, utxos, seen, r.value)
    ensures r.None? && CoinSelection.Total(CoinSelection.OfAsset(utxos, quote)) < TWO_64 ==>
              Short(quote, InAmount(preview.feeAsset == quote, sats, preview), utxos)
  {
    var feeOnSent := preview.feeAsset == quote;
    var inAmount: u64 := sats;
    if feeOnSent {
      inAmount := U64(inAmount + preview.feeAmount);
    }
    assert inAmount == InAmount(feeOnSent, sats, preview);
    r := ProposeFor(e, quote, inAmount, sats, preview, utxos, seen);
  }

  method ProposeFor(
    e: Combinations.Enumerator, quote: Asset, amount: u64, sats: u64, preview: Offer, utxos: seq<Utxo>, seen: Utxo -> bool)
    returns (r: Option<Request>)
    requires e.combination == []
    modifies e
    ensures e.combination == []
    ensures r.Some? ==> ProposesFor(quote, amount, sats, preview, utxos, seen, r.value)
    ensures r.None? && CoinSelection.Total(CoinSelection.OfAsset(utxos, quote)) < TWO_64 ==> Short(quote, amount, utxos)
  {
    var selection := SelectFor(e, quote, amount, utxos);
    if selection.Failed? { return None; }
    var req := ProposeSelected(quote, amount, sats, preview, utxos, seen, selection);
    r := Some(req);
  }

  method ProposeSelected(quote: Asset, ghost amount: u64, sats: u64, preview: Offer, ghost utxos: seq<Utxo>, seen: Utxo -> bool,
                         s: CoinSelection.Selection) returns (req: Request)
    requires s.Selected? && CoinSelection.IsOutcome(CoinSelection.OfAsset(utxos, quote), amount, s)
    ensures ProposesFor(quote, amount, sats, preview, utxos, seen, req)
  {
    req := BuildProposal(quote, preview.feeAsset == quote, sats, preview, s.coins, s.change, seen);
  }

  /** The selection of quote coins for an amount, or a reason to give up. */
  method SelectFor(e: Combinations.Enumerator, quote: Asset, amount: u64, utxos: seq<Utxo>) returns (s: CoinSelection.Selection)
    requires e.combination == []
    modifies e
    ensures e.combination == []
    ensures s.Selected? ==> CoinSelection.IsOutcome(CoinSelection.OfAsset(utxos, quote), amount, s)
    ensures s.Failed? && CoinSelection.Total(CoinSelection.OfAsset(utxos, quote)) < TWO_64 ==> Short(quote, amount, utxos)
  {
    s := CoinSelection.SelectUnspents(e, utxos, amount, quote);
  }

  /** The request is for the amounts, the assets and the fee of the preview. */
  predicate Carries(req: Request, quote: Asset, sats: u64, preview: Offer) {
    && req.assetP == quote && req.amountP == sats && req.assetR == preview.asset && req.amountR == preview.amount
    && req.feeAsset == preview.feeAsset && req.feeAmount == preview.feeAmount
  }

  /** Whatever the utxos, the amount and the fee's side, a proposal passes by the matching branch. */
  lemma ProposedMatches(quote: Asset, sats: u64, preview: Offer, utxos: seq<Utxo>, seen: Utxo -> bool, req: Request)
    requires FairPreview(quote, sats, preview) && CoinSelection.Total(CoinSelection.OfAsset(utxos, quote)) < TWO_63
    requires Proposes(quote, sats, preview, utxos, seen, req)
    ensures WellFormed(req) && MatchingBranch(req) && Accepted(req)
    ensures Carries(req, quote, sats, preview)
  {
    var s: CoinSelection.Selection :|
      s.Selected? && CoinSelection.IsOutcome(CoinSelection.OfAsset(utxos, quote), InAmount(preview.feeAsset == quote, sats, preview), s)
      && req == Proposal(quote, preview.feeAsset == quote, sats, preview, s.coins, s.change, seen);
    SelectedProposalMatches(quote, sats, preview, utxos, s, seen);
  }

  /** From the trader's coins to the completed transaction: whatever the utxos, the amount and the fee's side, the
      proposal is accepted, and what the wallet completes from it conserves every asset exactly when the wallet's fee coins
      cover its second estimate for that proposal. */
  method BuyEndToEnd(
    e: Combinations.Enumerator, w: Wallet, native: Asset, account: AccountId, base: Asset, quote: Asset,
    sats: u64, preview: Offer, utxos: seq<Utxo>, seen: Utxo -> bool)
    returns (proposal: Option<Request>, verdict: Verdict, completed: Option<Completion>)
    requires e.combination == [] && Sound(w)
    requires FairPreview(quote, sats, preview) && preview.asset == base
    requires CoinSelection.Total(CoinSelection.OfAsset(utxos, quote)) < TWO_63
    modifies e
    ensures proposal.Some? ==> verdict == Valid && Proposes(quote, sats, preview, utxos, seen, proposal.value)
    ensures proposal.None? ==> Short(quote, InAmount(preview.feeAsset == quote, sats, preview), utxos)
    ensures proposal.Some? && AlwaysAnswers(w) ==> completed.Some?
    ensures completed.Some? ==>
              && proposal.Some?
              && Completes(w, native, account, proposal.value, preview.feeAsset == quote, completed.value)
              && (Balanced(completed.value.tx) <==>
                    SwapFeeCovered(w, native, account, proposal.value, preview.feeAsset == quote))
  {
    verdict, completed := AmountsDoNotMatch, None;
    proposal := MakeTradeBuyPreview(e, quote, sats, preview, utxos, seen);
    if proposal.None? { return; }
    var req := proposal.value;
    ProposedMatches(quote, sats, preview, utxos, seen, req);
    verdict := Validate(req);
    completed := CompleteSwap(w, native, account, req, FeesToAdd(true, req.feeAsset, base, quote));
  }
}
