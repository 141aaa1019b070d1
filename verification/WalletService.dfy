/** How the daemon's wallet completes a swap and sends funds: inputs, outputs, change and the network fee. */
module WalletService {
  import opened Basics
  import opened UInt64
  import opened Ledger
  import opened SwapRequest

  datatype Selection = Selection(utxos: seq<Coin>, change: u64)

  /** The ocean wallet: coin selection and fee estimation of the k-th call, and address derivation, each may fail. */
  datatype Wallet = Wallet(
    select: (nat, AccountId, Asset, u64) -> Option<Selection>,
    estimate: (nat, seq<Coin>, seq<Coin>) -> Option<u64>,
    derive: nat -> bool)

  /** The contract of coin selection: coins of the account and asset worth the amount plus the change. */
  ghost predicate Delivers(account: AccountId, asset: Asset, amount: u64, s: Selection) {
    && AllOf(s.utxos, Account(account), asset)
    && Tot(s.utxos, asset) == amount + s.change < TWO_64
  }

  ghost predicate Sound(w: Wallet) {
    forall k, account, asset, amount ::
      w.select(k, account, asset, amount).Some? ==>
        Delivers(account, asset, amount, w.select(k, account, asset, amount).value)
  }

  ghost predicate AlwaysAnswers(w: Wallet) {
    && (forall k, account, asset, amount :: w.select(k, account, asset, amount).Some?)
    && (forall k, ins, outs :: w.estimate(k, ins, outs).Some?)
    && (forall k :: w.derive(k))
  }

  /** The network fee: first over-estimated, then, if there is change, estimated again with the change output. */
  datatype FeePayment = FeePayment(dummy: u64, utxos: seq<Coin>, change: u64, amount: u64, refund: u64)

  function FeeOutputs(native: Asset, fee: FeePayment): seq<Coin> {
    (if fee.change > 0
     then [Coin(Account(FeeAccount), native, fee.refund, true)] else [])
    + [Coin(FeeScript, native, fee.amount, true)]
  }

  ghost predicate PaysFee(native: Asset, fee: FeePayment) {
    && Delivers(FeeAccount, native, fee.dummy, Selection(fee.utxos, fee.change))
    && (fee.change == 0 ==> fee.amount == fee.dummy)
    && (fee.change > 0 ==> fee.refund == U64(fee.change + U64(fee.dummy - fee.amount)))
  }

  /** Where the figures come from: the estimate without fee coins plus 150, the coins selected for that much and, if they
      leave change, the estimate of the transaction with those coins and that change. */
  ghost predicate Estimated(w: Wallet, native: Asset, existing: Tx, inputs: seq<Coin>, outputs: seq<Coin>, fee: FeePayment) {
    var first := w.estimate(0, existing.inputs + inputs, existing.outputs + outputs);
    var again := w.estimate(1, existing.inputs + (inputs + fee.utxos),
                            existing.outputs + (outputs + [Coin(Account(FeeAccount), native, fee.change, true)]));
    && first.Some? && fee.dummy == U64(first.value + 150)
    && w.select(1, FeeAccount, native, fee.dummy) == Some(Selection(fee.utxos, fee.change))
    && (fee.change > 0 ==> again == Some(fee.amount))
  }

  /** The second estimate leaves a change that is not negative. */
  predicate FeeFits(fee: FeePayment) {
    fee.amount <= fee.dummy + fee.change
  }

  /** Asked of the wallet beforehand: the fee coins, if they leave change, cover the estimate with that change. */
  predicate FeeCovered(w: Wallet, native: Asset, existing: Tx, inputs: seq<Coin>, outputs: seq<Coin>) {
    match w.estimate(0, existing.inputs + inputs, existing.outputs + outputs)
    case None => true
    case Some(first) =>
      var dummy := U64(first + 150);
      match w.select(1, FeeAccount, native, dummy)
      case None => true
      case Some(s) =>
        var again := w.estimate(1, existing.inputs + (inputs + s.utxos),
                                existing.outputs + (outputs + [Coin(Account(FeeAccount), native, s.change, true)]));
        s.change > 0 && again.Some? ==> again.value <= dummy + s.change
  }

  lemma CoveredIffFits(w: Wallet, native: Asset, existing: Tx, inputs: seq<Coin>, outputs: seq<Coin>, fee: FeePayment)
    requires PaysFee(native, fee) && Estimated(w, native, existing, inputs, outputs, fee)
    ensures FeeCovered(w, native, existing, inputs, outputs) <==> FeeFits(fee)
  {
  }

  lemma RefundValue(fee: FeePayment)
    requires fee.refund == U64(fee.change + U64(fee.dummy - fee.amount)) && fee.dummy + fee.change < TWO_64
    ensures fee.refund == fee.change + fee.dummy - fee.amount + (if FeeFits(fee) then 0 else TWO_64)
  {
    WrapAdd(fee.dummy - fee.amount, fee.change);
  }

  /** The fee outputs are worth the fee coins, or 2^64 more when the change wraps below zero. */
  lemma FeeOutputsTotal(native: Asset, fee: FeePayment)
    requires PaysFee(native, fee)
    ensures Tot(FeeOutputs(native, fee), native)
         == Tot(fee.utxos, native) + (if FeeFits(fee) then 0 else TWO_64)
  {
    var paid := Coin(FeeScript, native, fee.amount, true);
    TotOne(paid, native);
    if fee.change > 0 {
      RefundValue(fee);
      var back := Coin(Account(FeeAccount), native, fee.refund, true);
      TotOne(back, native);
      TotConcat([back], [paid], native);
    } else {
      assert FeeOutputs(native, fee) == [paid];
    }
  }

  lemma FeeOutputsOther(native: Asset, fee: FeePayment, asset: Asset)
    requires PaysFee(native, fee) && asset != native
    ensures Tot(FeeOutputs(native, fee), asset) == 0 == Tot(fee.utxos, asset)
  {
    TotOther(FeeOutputs(native, fee), asset);
    TotOther(fee.utxos, asset);
  }

  /** Estimates, selects fee coins and, if they leave change, estimates again and hands the difference back. */
  method PayNetworkFee(w: Wallet, native: Asset, existing: Tx, inputs: seq<Coin>, outputs: seq<Coin>)
    returns (r: Option<(FeePayment, seq<Coin>, seq<Coin>)>)
    requires Sound(w)
    ensures r.Some? ==>
              var (fee, ins, outs) := r.value;
              && PaysFee(native, fee) && Estimated(w, native, existing, inputs, outputs, fee)
              && ins == inputs + fee.utxos && outs == outputs + FeeOutputs(native, fee)
    ensures AlwaysAnswers(w) ==> r.Some?
  {
    var estimated := w.estimate(0, existing.inputs + inputs, existing.outputs + outputs);
    if estimated.None? { return None; }
    var first: int := estimated.value;
    var dummy: u64 := U64(first + 150);
    var selected := w.select(1, FeeAccount, native, dummy);
    if selected.None? { return None; }
    var Selection(utxos, change) := selected.value;
    var ins := inputs + utxos;
    var outs := outputs;
    var feeAmount: u64, refund: u64 := dummy, 0;
    if change > 0 {
      if !w.derive(0) { return None; }
      outs := outs + [Coin(Account(FeeAccount), native, change, true)];
      var again := w.estimate(1, existing.inputs + ins, existing.outputs + outs);
      if again.None? { return None; }
      feeAmount := again.value;
      var last := outs[|outs| - 1];
      var diff: u64 := U64(dummy - feeAmount);
      refund := U64(last.amount + diff);
      outs := outs[|outs| - 1 := last.(amount := refund)];
      assert outs == outputs + [Coin(Account(FeeAccount), native, refund, true)];
    }
    outs := outs + [Coin(FeeScript, native, feeAmount, true)];
    var fee := FeePayment(dummy, utxos, change, feeAmount, refund);
    assert outs == outputs + FeeOutputs(native, fee);
    r := Some((fee, ins, outs));
  }

  // ---- Completing a swap ----

  datatype Completion = Completion(tx: Tx, utxos: seq<Coin>, change: u64, received: u64, fee: FeePayment)

  /** Whether the fee is added to what the proposer sends, as the trade service decides it. */
  function FeesToAdd(isBuy: bool, feeAsset: Asset, base: Asset, quote: Asset): bool {
    (isBuy && feeAsset == quote) || (!isBuy && feeAsset == base)
  }

  function RequestedR(req: Request, feesToAdd: bool): u64 {
    if req.feeAsset == req.assetR && !feesToAdd then U64(req.amountR - req.feeAmount) else req.amountR
  }

  function ReceivedP(req: Request, feesToAdd: bool): u64 {
    if req.feeAsset == req.assetP && feesToAdd then U64(req.amountP + req.feeAmount) else req.amountP
  }

  function MarketOutputs(account: AccountId, req: Request, received: u64, change: u64): seq<Coin> {
    [Coin(Account(account), req.assetP, received, true)]
    + (if change > 0 then [Coin(Account(account), req.assetR, change, true)] else [])
  }

  /** The trader's half, the market's coins and change, and the network fee, in that order. */
  ghost predicate IsCompletion(native: Asset, account: AccountId, req: Request, feesToAdd: bool, c: Completion) {
    && Delivers(account, req.assetR, RequestedR(req, feesToAdd), Selection(c.utxos, c.change))
    && c.received == ReceivedP(req, feesToAdd)
    && PaysFee(native, c.fee)
    && c.tx.inputs == req.tx.inputs + (c.utxos + c.fee.utxos)
    && c.tx.outputs == req.tx.outputs + (MarketOutputs(account, req, c.received, c.change) + FeeOutputs(native, c.fee))
  }

  /** A completion by the wallet: the coins it selects for what is requested, and the fee it estimates. */
  ghost predicate Completes(w: Wallet, native: Asset, account: AccountId, req: Request, feesToAdd: bool, c: Completion) {
    && IsCompletion(native, account, req, feesToAdd, c)
    && w.select(0, account, req.assetR, RequestedR(req, feesToAdd)) == Some(Selection(c.utxos, c.change))
    && Estimated(w, native, req.tx, c.utxos, MarketOutputs(account, req, c.received, c.change), c.fee)
  }

  /** Whether the network fee of a swap will be covered, asked of the wallet for the request. */
  predicate SwapFeeCovered(w: Wallet, native: Asset, account: AccountId, req: Request, feesToAdd: bool) {
    match w.select(0, account, req.assetR, RequestedR(req, feesToAdd))
    case None => true
    case Some(s) =>
      FeeCovered(w, native, req.tx, s.utxos, MarketOutputs(account, req, ReceivedP(req, feesToAdd), s.change))
  }

  method CompleteSwap(w: Wallet, native: Asset, account: AccountId, req: Request, feesToAdd: bool)
    returns (r: Option<Completion>)
    requires Sound(w)
    ensures r.Some? ==> Completes(w, native, account, req, feesToAdd, r.value)
    ensures r.Some? && WellFormed(req) && feesToAdd == (req.feeAsset == req.assetP) ==>
              (Balanced(r.value.tx) <==> MatchingBranch(req) && SwapFeeCovered(w, native, account, req, feesToAdd))
    ensures AlwaysAnswers(w) ==> r.Some?
  {
    var market := MarketHalf(w, account, req, feesToAdd);
    if market.None? { return None; }
    var (Selection(utxos, change), amountP, outputs) := market.value;
    var paid := PayNetworkFee(w, native, req.tx, utxos, outputs);
    if paid.None? { return None; }
    var (fee, ins, outs) := paid.value;
    r := Some(Completion(Tx(req.tx.inputs + ins, req.tx.outputs + outs), utxos, change, amountP, fee));
    CompletionLaw(w, native, account, req, feesToAdd, r.value);
  }

  /** The market's coins for what is requested, what it receives, and its outputs. */
  method MarketHalf(w: Wallet, account: AccountId, req: Request, feesToAdd: bool)
    returns (r: Option<(Selection, u64, seq<Coin>)>)
    ensures r.Some? ==>
              && w.select(0, account, req.assetR, RequestedR(req, feesToAdd)) == Some(r.value.0)
              && r.value.1 == ReceivedP(req, feesToAdd)
              && r.value.2 == MarketOutputs(account, req, r.value.1, r.value.0.change)
    ensures AlwaysAnswers(w) ==> r.Some?
  {
    var amountR := req.amountR;
    if req.feeAsset == req.assetR && !feesToAdd {
      amountR := U64(amountR - req.feeAmount);
    }
    var selected := w.select(0, account, req.assetR, amountR);
    if selected.None? { return None; }
    var change := selected.value.change;
    if !w.derive(1) { return None; }
    var amountP := req.amountP;
    if req.feeAsset == req.assetP && feesToAdd {
      amountP := U64(amountP + req.feeAmount);
    }
    var outputs := [Coin(Account(account), req.assetP, amountP, true)];
    if change > 0 {
      if !w.derive(2) { return None; }
      outputs := outputs + [Coin(Account(account), req.assetR, change, true)];
    }
    r := Some((selected.value, amountP, outputs));
  }

  /** What a completed transaction holds of each asset, in and out. */
  lemma CompletionTotals(native: Asset, account: AccountId, req: Request, feesToAdd: bool, c: Completion, asset: Asset)
    requires IsCompletion(native, account, req, feesToAdd, c)
    requires req.assetP != req.assetR
    ensures Tot(c.tx.inputs, asset) == Tot(req.tx.inputs, asset) + Tot(c.utxos, asset) + Tot(c.fee.utxos, asset)
    ensures Tot(c.tx.outputs, asset)
         == Tot(req.tx.outputs, asset) + Tot(FeeOutputs(native, c.fee), asset)
            + (if asset == req.assetP then c.received else if asset == req.assetR then c.change else 0)
    ensures asset != req.assetR ==> Tot(c.utxos, asset) == 0
  {
    TotConcat(req.tx.inputs, c.utxos + c.fee.utxos, asset);
    TotConcat(c.utxos, c.fee.utxos, asset);
    var market := MarketOutputs(account, req, c.received, c.change);
    TotConcat(req.tx.outputs, market + FeeOutputs(native, c.fee), asset);
    TotConcat(market, FeeOutputs(native, c.fee), asset);
    MarketTotal(account, req, c.received, c.change, asset);
    if asset != req.assetR { TotOther(c.utxos, asset); }
  }

  lemma MarketTotal(account: AccountId, req: Request, received: u64, change: u64, asset: Asset)
    requires req.assetP != req.assetR
    ensures Tot(MarketOutputs(account, req, received, change), asset)
         == if asset == req.assetP then received else if asset == req.assetR then change else 0
  {
    var first := Coin(Account(account), req.assetP, received, true);
    TotOne(first, asset);
    if change > 0 {
      TotOne(Coin(Account(account), req.assetR, change, true), asset);
      TotConcat([first], [Coin(Account(account), req.assetR, change, true)], asset);
    } else {
      assert MarketOutputs(account, req, received, change) == [first];
    }
  }

  /** How far the inputs of an asset exceed the outputs, leaving the network fee aside. */
  ghost function TraderGap(req: Request, feesToAdd: bool, asset: Asset): int {
    Tot(req.tx.inputs, asset) - Tot(req.tx.outputs, asset)
    + (if asset == req.assetP then 0 - ReceivedP(req, feesToAdd)
       else if asset == req.assetR then RequestedR(req, feesToAdd) else 0)
  }

  lemma CompletionGap(native: Asset, account: AccountId, req: Request, feesToAdd: bool, c: Completion, asset: Asset)
    requires IsCompletion(native, account, req, feesToAdd, c)
    requires req.assetP != req.assetR
    ensures Tot(c.tx.inputs, asset) - Tot(c.tx.outputs, asset)
         == TraderGap(req, feesToAdd, asset) - (if asset == native && !FeeFits(c.fee) then TWO_64 else 0)
  {
    CompletionTotals(native, account, req, feesToAdd, c, asset);
    if asset == native { FeeOutputsTotal(native, c.fee); } else { FeeOutputsOther(native, c.fee, asset); }
  }

  /** The trader's half and the market's side meet in every asset exactly when the matching branch holds. */
  lemma GapsCloseOnMatch(req: Request)
    requires WellFormed(req)
    ensures MatchingBranch(req) <==>
              TraderGap(req, req.feeAsset == req.assetP, req.assetP) == 0
              && TraderGap(req, req.feeAsset == req.assetP, req.assetR) == 0
    ensures TraderGap(req, req.feeAsset == req.assetP, req.assetP) < TWO_64
    ensures TraderGap(req, req.feeAsset == req.assetP, req.assetR) < TWO_64
  {
    MatchingIsExact(req);
    TotOther(req.tx.inputs, req.assetR);
  }

  lemma NoGapElsewhere(req: Request, feesToAdd: bool, asset: Asset)
    requires WellFormed(req) && asset != req.assetP && asset != req.assetR
    ensures TraderGap(req, feesToAdd, asset) == 0
  {
    TotOther(req.tx.inputs, asset);
    TotOther(req.tx.outputs, asset);
  }

  lemma BalancedIfFits(native: Asset, account: AccountId, req: Request, c: Completion)
    requires WellFormed(req) && IsCompletion(native, account, req, req.feeAsset == req.assetP, c)
    ensures Balanced(c.tx) <==> MatchingBranch(req) && FeeFits(c.fee)
  {
    var feesToAdd := req.feeAsset == req.assetP;
    GapsCloseOnMatch(req);
    CompletionGap(native, account, req, feesToAdd, c, req.assetP);
    CompletionGap(native, account, req, feesToAdd, c, req.assetR);
    CompletionGap(native, account, req, feesToAdd, c, native);
    if native != req.assetP && native != req.assetR { NoGapElsewhere(req, feesToAdd, native); }
    if MatchingBranch(req) && FeeFits(c.fee) {
      forall asset ensures Tot(c.tx.inputs, asset) == Tot(c.tx.outputs, asset) {
        CompletionGap(native, account, req, feesToAdd, c, asset);
        if asset != req.assetP && asset != req.assetR { NoGapElsewhere(req, feesToAdd, asset); }
      }
    }
  }

  lemma CompletionBalanced(w: Wallet, native: Asset, account: AccountId, req: Request, c: Completion)
    requires WellFormed(req) && Completes(w, native, account, req, req.feeAsset == req.assetP, c)
    ensures Balanced(c.tx) <==> MatchingBranch(req) && SwapFeeCovered(w, native, account, req, req.feeAsset == req.assetP)
  {
    BalancedIfFits(native, account, req, c);
    CoveredIffFits(w, native, req.tx, c.utxos, MarketOutputs(account, req, c.received, c.change), c.fee);
  }

  lemma CompletionLaw(w: Wallet, native: Asset, account: AccountId, req: Request, feesToAdd: bool, c: Completion)
    requires Completes(w, native, account, req, feesToAdd, c)
    ensures WellFormed(req) && feesToAdd == (req.feeAsset == req.assetP) ==>
              (Balanced(c.tx) <==> MatchingBranch(req) && SwapFeeCovered(w, native, account, req, feesToAdd))
  {
    if WellFormed(req) && feesToAdd == (req.feeAsset == req.assetP) { CompletionBalanced(w, native, account, req, c); }
  }

  /** The central law: a completed swap conserves every asset exactly when its request passed by the branch matching the
      fee's side and the wallet's fee coins cover its second estimate. */
  lemma SwapBalanced(w: Wallet, native: Asset, account: AccountId, isBuy: bool, base: Asset, quote: Asset, req: Request, c: Completion)
    requires Oriented(isBuy, req.assetP, req.assetR, base, quote) && WellFormed(req)
    requires Completes(w, native, account, req, FeesToAdd(isBuy, req.feeAsset, base, quote), c)
    ensures Balanced(c.tx) <==>
              MatchingBranch(req) && SwapFeeCovered(w, native, account, req, FeesToAdd(isBuy, req.feeAsset, base, quote))
  {
    CompletionBalanced(w, native, account, req, c);
  }

  /** With a positive fee, a request that passed by the other branch never completes to a balanced transaction. */
  lemma OtherBranchNeverBalances(w: Wallet, native: Asset, account: AccountId, isBuy: bool, base: Asset, quote: Asset,
                                 req: Request, c: Completion)
    requires Oriented(isBuy, req.assetP, req.assetR, base, quote)
    requires WellFormed(req) && OtherBranch(req) && req.feeAmount > 0
    requires Completes(w, native, account, req, FeesToAdd(isBuy, req.feeAsset, base, quote), c)
    ensures !Balanced(c.tx)
  {
    SwapBalanced(w, native, account, isBuy, base, quote, req, c);
    BranchesExclude(req);
  }

  /** A BUY that underpays is accepted, and every wallet that answers completes it to an unbalanced transaction. */
  method CompleteUnderpaid(w: Wallet, native: Asset, account: AccountId, base: Asset, quote: Asset)
    returns (verdict: Verdict, r: Option<Completion>)
    requires Sound(w) && AlwaysAnswers(w) && base != quote
    ensures verdict == Valid && r.Some? && !Balanced(r.value.tx)
  {
    var req := Underpaying(quote, base);
    OtherBranchHappens(quote, base);
    verdict := Validate(req);
    r := CompleteSwap(w, native, account, req, FeesToAdd(true, req.feeAsset, base, quote));
    OtherBranchNeverBalances(w, native, account, true, base, quote, req, r.value);
  }

  // ---- A wallet whose second estimate is not covered ----

  /** Selects one coin worth one more than asked, and estimates nothing first and 152 with the change. */
  function Overcharging(): Wallet {
    Wallet((k: nat, account: AccountId, asset: Asset, amount: u64) => Some(OneCoin(account, asset, amount)),
           (k: nat, ins: seq<Coin>, outs: seq<Coin>) => Some(if k == 0 then 0 else 152),
           (k: nat) => true)
  }

  function OneCoin(account: AccountId, asset: Asset, amount: u64): (s: Selection)
    ensures s.change == if amount < TWO_64 - 1 then 1 else 0
  {
    var change: u64 := if amount < TWO_64 - 1 then 1 else 0;
    Selection([Coin(Account(account), asset, amount + change, true)], change)
  }

  lemma OverchargingIsSound()
    ensures Sound(Overcharging()) && AlwaysAnswers(Overcharging())
  {
    forall account, asset, amount: u64 ensures Delivers(account, asset, amount, OneCoin(account, asset, amount)) {
      TotOne(OneCoin(account, asset, amount).utxos[0], asset);
    }
  }

  lemma NeverCovered(native: Asset, existing: Tx, inputs: seq<Coin>, outputs: seq<Coin>)
    ensures !FeeCovered(Overcharging(), native, existing, inputs, outputs)
  {
  }

  /** With it no well-formed request, however it passed, completes to a balanced transaction. */
  method CompleteOvercharged(native: Asset, account: AccountId, req: Request) returns (r: Option<Completion>)
    requires WellFormed(req)
    ensures r.Some? && !Balanced(r.value.tx)
  {
    OverchargingIsSound();
    r := CompleteSwap(Overcharging(), native, account, req, req.feeAsset == req.assetP);
  }

  // ---- Sending to many ----

  datatype Sent = Sent(tx: Tx, selected: seq<Coin>, changes: seq<Coin>, fee: FeePayment)

  ghost predicate OwnedBy(coins: seq<Coin>, account: AccountId) {
    forall k :: 0 <= k < |coins| ==> coins[k].owner == Account(account) && coins[k].fetchable
  }

  ghost predicate AllPositive(coins: seq<Coin>) {
    forall k :: 0 <= k < |coins| ==> coins[k].amount > 0
  }

  /** Coins of the account worth, per asset, the (wrapping) amount to send plus the change, then the fee. */
  ghost predicate IsSending(native: Asset, account: AccountId, outs: seq<Coin>, s: Sent) {
    && (forall asset :: Tot(s.selected, asset) == U64(Tot(outs, asset)) + Tot(s.changes, asset))
    && Assets(s.selected) <= Assets(outs)
    && OwnedBy(s.selected, account) && OwnedBy(s.changes, account) && AllPositive(s.changes)
    && PaysFee(native, s.fee)
    && s.tx.inputs == s.selected + s.fee.utxos
    && s.tx.outputs == outs + s.changes + FeeOutputs(native, s.fee)
  }

  /** Entry of a map, absent meaning zero. */
  function Get(m: map<Asset, u64>, asset: Asset): u64 {
    if asset in m then m[asset] else 0
  }

  /** The map holds, per asset, the wrapped total of the coins. */
  ghost predicate Accumulates(tot: map<Asset, u64>, coins: seq<Coin>) {
    forall asset :: HoldsTotal(tot, coins, asset)
  }

  ghost predicate HoldsTotal(tot: map<Asset, u64>, coins: seq<Coin>, asset: Asset) {
    Get(tot, asset) == U64(Tot(coins, asset))
  }

  lemma AccumulateOne(tot: map<Asset, u64>, coins: seq<Coin>, c: Coin)
    requires Accumulates(tot, coins)
    ensures Accumulates(tot[c.asset := U64(Get(tot, c.asset) + c.amount)], coins + [c])
  {
    var tot' := tot[c.asset := U64(Get(tot, c.asset) + c.amount)];
    forall asset ensures HoldsTotal(tot', coins + [c], asset) {
      assert HoldsTotal(tot, coins, asset);
      TotAppend(coins, c, asset);
      if asset == c.asset { WrapAdd(Tot(coins, asset), c.amount); }
    }
  }

  /** The wrapped total of every asset sent. */
  function SentTotals(outs: seq<Coin>): map<Asset, u64> {
    map a | a in Assets(outs) :: U64(Tot(outs, a))
  }

  method TotOutputAmountPerAsset(outs: seq<Coin>) returns (tot: map<Asset, u64>)
    ensures tot == SentTotals(outs) && Accumulates(tot, outs)
  {
    tot := map[];
    for i := 0 to |outs|
      invariant tot.Keys == Assets(outs[..i]) && Accumulates(tot, outs[..i])
    {
      assert outs[..i + 1] == outs[..i] + [outs[i]];
      AssetsAppend(outs[..i], outs[i]);
      AccumulateOne(tot, outs[..i], outs[i]);
      tot := tot[outs[i].asset := U64(Get(tot, outs[i].asset) + outs[i].amount)];
    }
    assert outs[..|outs|] == outs;
    AccumulatedIsSent(tot, outs);
  }

  lemma AccumulatedIsSent(tot: map<Asset, u64>, outs: seq<Coin>)
    requires tot.Keys == Assets(outs) && Accumulates(tot, outs)
    ensures tot == SentTotals(outs)
  {
    forall a | a in tot ensures tot[a] == SentTotals(outs)[a] {
      assert HoldsTotal(tot, outs, a);
    }
  }

  // The order in which a map is visited is a parameter.

  ghost predicate IsOrder(order: seq<Asset>, keys: set<Asset>) {
    && (forall k :: 0 <= k < |order| ==> order[k] in keys)
    && (forall a :: a in keys ==> a in order)
    && (forall j, k :: 0 <= j < k < |order| ==> order[j] != order[k])
  }

  datatype Collection = Collection(coins: seq<Coin>, changes: map<Asset, u64>)

  function AddSelection(c: Collection, asset: Asset, s: Selection): Collection {
    Collection(c.coins + s.utxos, if s.change > 0 then c.changes[asset := s.change] else c.changes)
  }

  /** The coins the wallet selects for the totals, asset after asset, and the changes. */
  function CollectedBy(w: Wallet, account: AccountId, totals: map<Asset, u64>, order: seq<Asset>): Option<Collection> {
    if order == [] then Some(Collection([], map[]))
    else
      var n := |order| - 1;
      match CollectedBy(w, account, totals, order[..n])
      case None => None
      case Some(c) =>
        match w.select(2 + n, account, order[n], Get(totals, order[n]))
        case None => None
        case Some(s) => Some(AddSelection(c, order[n], s))
  }

  lemma {:induction false} CollectionFails(w: Wallet, account: AccountId, totals: map<Asset, u64>, order: seq<Asset>, i: nat)
    requires i <= |order| && CollectedBy(w, account, totals, order[..i]).None?
    ensures CollectedBy(w, account, totals, order).None?
  {
    if i == |order| {
      assert order[..i] == order;
    } else {
      assert order[..|order| - 1][..i] == order[..i];
      CollectionFails(w, account, totals, order[..|order| - 1], i);
    }
  }

  /** What has been selected after the assets `done`. */
  ghost predicate Collected(done: set<Asset>, totals: map<Asset, u64>, c: Collection, account: AccountId) {
    && done <= totals.Keys
    && c.changes.Keys <= done && (forall a :: a in c.changes ==> c.changes[a] > 0)
    && (forall a :: Tot(c.coins, a) == if a in done then totals[a] + Get(c.changes, a) else 0)
    && OwnedBy(c.coins, account) && Assets(c.coins) <= done
  }

  lemma CollectOne(done: set<Asset>, totals: map<Asset, u64>, c: Collection, account: AccountId, asset: Asset, s: Selection)
    requires Collected(done, totals, c, account)
    requires asset in totals && asset !in done && Delivers(account, asset, totals[asset], s)
    ensures Collected(done + {asset}, totals, AddSelection(c, asset, s), account)
  {
    var c' := AddSelection(c, asset, s);
    forall a ensures Tot(c'.coins, a) == if a in done + {asset} then totals[a] + Get(c'.changes, a) else 0 {
      TotConcat(c.coins, s.utxos, a);
      if a != asset { TotOther(s.utxos, a); }
    }
    forall a | a in Assets(c'.coins) ensures a in done + {asset} {
      var k :| 0 <= k < |c'.coins| && c'.coins[k].asset == a;
      if k < |c.coins| { assert c.coins[k].asset in Assets(c.coins); } else { assert c'.coins[k] == s.utxos[k - |c.coins|]; }
    }
  }

  ghost function Visited(order: seq<Asset>): set<Asset> {
    set k | 0 <= k < |order| :: order[k]
  }

  lemma {:induction false} CollectedSoundly(w: Wallet, account: AccountId, totals: map<Asset, u64>, order: seq<Asset>)
    requires Sound(w) && (forall k :: 0 <= k < |order| ==> order[k] in totals)
    requires forall j, k :: 0 <= j < k < |order| ==> order[j] != order[k]
    ensures var c := CollectedBy(w, account, totals, order); c.Some? ==> Collected(Visited(order), totals, c.value, account)
  {
    if order != [] {
      var n := |order| - 1;
      CollectedSoundly(w, account, totals, order[..n]);
      assert Visited(order) == Visited(order[..n]) + {order[n]};
      if CollectedBy(w, account, totals, order).Some? {
        var s := w.select(2 + n, account, order[n], totals[order[n]]);
        CollectOne(Visited(order[..n]), totals, CollectedBy(w, account, totals, order[..n]).value, account, order[n], s.value);
      }
    }
  }

  lemma {:induction false} CollectionAnswered(w: Wallet, account: AccountId, totals: map<Asset, u64>, order: seq<Asset>)
    requires AlwaysAnswers(w)
    ensures CollectedBy(w, account, totals, order).Some?
  {
    if order != [] { CollectionAnswered(w, account, totals, order[..|order| - 1]); }
  }

  /** Coins for every asset to send. */
  method SelectForOutputs(w: Wallet, account: AccountId, totals: map<Asset, u64>, order: seq<Asset>)
    returns (r: Option<Collection>)
    requires Sound(w) && IsOrder(order, totals.Keys)
    ensures r == CollectedBy(w, account, totals, order)
    ensures r.Some? ==> Collected(totals.Keys, totals, r.value, account)
    ensures AlwaysAnswers(w) ==> r.Some?
  {
    CollectedSoundly(w, account, totals, order);
    if AlwaysAnswers(w) { CollectionAnswered(w, account, totals, order); }
    assert Visited(order) == totals.Keys;
    r := SelectInOrder(w, account, totals, order);
  }

  method SelectInOrder(w: Wallet, account: AccountId, totals: map<Asset, u64>, order: seq<Asset>)
    returns (r: Option<Collection>)
    ensures r == CollectedBy(w, account, totals, order)
  {
    var c := Collection([], map[]);
    for i := 0 to |order|
      invariant CollectedBy(w, account, totals, order[..i]) == Some(c)
    {
      assert order[..i + 1][..i] == order[..i];
      var selected := w.select(2 + i, account, order[i], Get(totals, order[i]));
      if selected.None? {
        CollectionFails(w, account, totals, order, i + 1);
        return None;
      }
      c := AddSelection(c, order[i], selected.value);
    }
    assert order[..|order|] == order;
    r := Some(c);
  }

  /** One change output per entry of the map, in the order the entries are visited. */
  function ChangeCoins(account: AccountId, changes: map<Asset, u64>, order: seq<Asset>): seq<Coin> {
    if order == [] then []
    else
      var n := |order| - 1;
      ChangeCoins(account, changes, order[..n])
      + (if order[n] in changes then [Coin(Account(account), order[n], changes[order[n]], true)] else [])
  }

  lemma {:induction false} ChangeCoinsTotal(account: AccountId, changes: map<Asset, u64>, order: seq<Asset>, a: Asset)
    requires forall j, k :: 0 <= j < k < |order| ==> order[j] != order[k]
    ensures Tot(ChangeCoins(account, changes, order), a) == if a in order then Get(changes, a) else 0
  {
    if order != [] {
      var n := |order| - 1;
      ChangeCoinsTotal(account, changes, order[..n], a);
      assert a in order <==> a in order[..n] || a == order[n];
      if order[n] in changes {
        TotAppend(ChangeCoins(account, changes, order[..n]), Coin(Account(account), order[n], changes[order[n]], true), a);
      } else {
        assert ChangeCoins(account, changes, order) == ChangeCoins(account, changes, order[..n]);
      }
    }
  }

  method ChangeOutputs(account: AccountId, changes: map<Asset, u64>, order: seq<Asset>, ghost keys: set<Asset>)
    returns (outs: seq<Coin>)
    requires IsOrder(order, keys) && changes.Keys <= keys && forall a :: a in changes ==> changes[a] > 0
    ensures outs == ChangeCoins(account, changes, order)
    ensures forall a :: Tot(outs, a) == Get(changes, a)
    ensures OwnedBy(outs, account) && AllPositive(outs)
  {
    outs := [];
    for i := 0 to |order|
      invariant outs == ChangeCoins(account, changes, order[..i])
      invariant OwnedBy(outs, account) && AllPositive(outs)
    {
      assert order[..i + 1][..i] == order[..i];
      if order[i] in changes {
        outs := outs + [Coin(Account(account), order[i], changes[order[i]], true)];
      }
    }
    assert order[..|order|] == order;
    forall a ensures Tot(outs, a) == Get(changes, a) {
      ChangeCoinsTotal(account, changes, order, a);
    }
  }

  /** Whether the network fee of a sending will be covered, asked of the wallet for what is sent. */
  predicate SendFeeCovered(w: Wallet, native: Asset, account: AccountId, outs: seq<Coin>, order: seq<Asset>, changeOrder: seq<Asset>) {
    match CollectedBy(w, account, SentTotals(outs), order)
    case None => true
    case Some(c) => FeeCovered(w, native, Tx([], []), c.coins, outs + ChangeCoins(account, c.changes, changeOrder))
  }

  /** A sending by the wallet: the coins it selects asset after asset, and the fee it estimates. */
  ghost predicate Sends(w: Wallet, native: Asset, account: AccountId, outs: seq<Coin>, order: seq<Asset>, changeOrder: seq<Asset>, s: Sent) {
    var c := CollectedBy(w, account, SentTotals(outs), order);
    && IsSending(native, account, outs, s)
    && c.Some? && s.selected == c.value.coins && s.changes == ChangeCoins(account, c.value.changes, changeOrder)
    && Estimated(w, native, Tx([], []), s.selected, outs + s.changes, s.fee)
  }

  method SendToMany(w: Wallet, native: Asset, account: AccountId, outs: seq<Coin>, order: seq<Asset>, changeOrder: seq<Asset>)
    returns (r: Option<Sent>)
    requires Sound(w) && IsOrder(order, Assets(outs)) && IsOrder(changeOrder, Assets(outs))
    ensures r.Some? ==> Sends(w, native, account, outs, order, changeOrder, r.value)
    ensures r.Some? ==>
              (Balanced(r.value.tx) <==>
                 (forall asset :: Tot(outs, asset) < TWO_64) && SendFeeCovered(w, native, account, outs, order, changeOrder))
    ensures AlwaysAnswers(w) ==> r.Some?
  {
    var totals := TotOutputAmountPerAsset(outs);
    var collected := SelectForOutputs(w, account, totals, order);
    if collected.None? { return None; }
    var Collection(selected, changeAmounts) := collected.value;
    var changes := ChangeOutputs(account, changeAmounts, changeOrder, totals.Keys);
    if |changeAmounts| > 0 && !w.derive(1) { return None; }
    forall asset ensures Tot(selected, asset) == U64(Tot(outs, asset)) + Tot(changes, asset) {
      assert HoldsTotal(totals, outs, asset);
    }
    var paid := PayNetworkFee(w, native, Tx([], []), selected, outs + changes);
    if paid.None? { return None; }
    var (fee, ins, allOuts) := paid.value;
    r := Some(Sent(Tx(ins, allOuts), selected, changes, fee));
    SendBalanced(w, native, account, outs, order, changeOrder, r.value);
  }

  lemma SendGap(native: Asset, account: AccountId, outs: seq<Coin>, s: Sent, asset: Asset)
    requires IsSending(native, account, outs, s)
    ensures Tot(s.tx.inputs, asset) - Tot(s.tx.outputs, asset)
         == U64(Tot(outs, asset)) - Tot(outs, asset) - (if asset == native && !FeeFits(s.fee) then TWO_64 else 0)
    ensures Tot(s.tx.inputs, asset) == Tot(s.tx.outputs, asset) <==>
              Tot(outs, asset) < TWO_64 && (asset == native ==> FeeFits(s.fee))
  {
    TotConcat(s.selected, s.fee.utxos, asset);
    TotConcat(outs + s.changes, FeeOutputs(native, s.fee), asset);
    TotConcat(outs, s.changes, asset);
    if asset == native { FeeOutputsTotal(native, s.fee); } else { FeeOutputsOther(native, s.fee, asset); }
  }

  /** A sending conserves every asset exactly when no asset's amounts wrap and the wallet's fee coins cover its second
      estimate. */
  lemma SendBalanced(w: Wallet, native: Asset, account: AccountId, outs: seq<Coin>, order: seq<Asset>, changeOrder: seq<Asset>, s: Sent)
    requires Sends(w, native, account, outs, order, changeOrder, s)
    ensures Balanced(s.tx) <==>
              (forall asset :: Tot(outs, asset) < TWO_64) && SendFeeCovered(w, native, account, outs, order, changeOrder)
  {
    CoveredIffFits(w, native, Tx([], []), s.selected, outs + s.changes, s.fee);
    assert SendFeeCovered(w, native, account, outs, order, changeOrder) <==> FeeFits(s.fee);
    SendGap(native, account, outs, s, native);
    if Balanced(s.tx) {
      assert Tot(s.tx.inputs, native) == Tot(s.tx.outputs, native);
      forall asset ensures Tot(outs, asset) < TWO_64 {
        SendGap(native, account, outs, s, asset);
        assert Tot(s.tx.inputs, asset) == Tot(s.tx.outputs, asset);
      }
    } else {
      var asset :| Tot(s.tx.inputs, asset) != Tot(s.tx.outputs, asset);
      SendGap(native, account, outs, s, asset);
    }
  }

  /** With the overcharging wallet no sending is balanced. */
  method SendOvercharged(native: Asset, account: AccountId, outs: seq<Coin>, order: seq<Asset>, changeOrder: seq<Asset>)
    returns (r: Option<Sent>)
    requires IsOrder(order, Assets(outs)) && IsOrder(changeOrder, Assets(outs))
    ensures r.Some? && !Balanced(r.value.tx)
  {
    OverchargingIsSound();
    var w := Overcharging();
    r := SendToMany(w, native, account, outs, order, changeOrder);
    assert !SendFeeCovered(w, native, account, outs, order, changeOrder) by {
      NeverCovered(native, Tx([], []), r.value.selected, outs + r.value.changes);
    }
  }
}
