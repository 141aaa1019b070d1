# A Dafny model of the TDEX daemon's swap engine

The TDEX daemon makes markets on the Liquid network. A trader proposes a swap of one asset for another. The daemon checks
the price and the amounts, completes the transaction with its own coins, and follows the trade until it settles or expires.
This project models the parts of the daemon where the arithmetic and the state are hardest, and proves what they promise:

- **Ledger** (`Ledger`, `SwapRequest`, `WalletService`, `TxInfo`, `Trader`, `BuyFlow`): which swap and send transactions
  conserve every asset, how they read back as deposits and withdrawals, and a whole BUY from the market's preview to the
  completed transaction.
- **Coin selection** (`Combinations`, `CoinSelection`): soundness, completeness and minimality of the search, and the
  combination enumerator behind it.
- **Pricing** (`Decimals`, `Formula`, `Market`, `MarketHistory`, `Preview`, `PreviewConditions`): rounding bounds of the
  balanced-reserves formula, the product of the reserves over any sequence of trades, when a market previews and which prices
  are accepted, the price check against the curve, and the market entity over every run.
- **Trades and notifications** (`Trade`, `TradeHistory`, `Notifications`): the trade state machine over every run, told from
  its calls, and the handler queue with registrations interleaved anywhere.
- **Storage and text** (`Compaction`, `Webhooks`, `MarketReport`, `DerivationPath`, `Separated`): database compaction, the
  webhook index, report frames and volumes, and the derivation-path round trip.

`Basics` and `UInt64` hold shared types and 64-bit wrap-around. `dafny verify dfyconfig.toml` checks the whole project.

## How the code is represented

- An amount is an integer in the uint64 range. Every sum and difference that the code computes in uint64 wraps (`UInt64.U64`),
  and `int64(x)` is `UInt64.I64`.
- A decimal is an integer count of 10^-8. Division and `Round(8)` go to the nearest count with halves away from zero;
  `BigInt()` cuts the fraction off.
- A transaction is a list of inputs and a list of outputs, each with an owner, an asset and an amount.
- The wallet server is a value with three functions (select coins, estimate fees, derive addresses). Each may fail and each
  depends on the number of the call. `WalletService.Sound` is its contract: selected coins belong to the account and the asset
  and are worth the requested amount plus the change.
- The clock is a parameter in nanoseconds. It is read once per call.
- Parser and codec results are parameters: any outcome for the swap parser, and for webhooks an injective codec whose output is
  not empty and never holds byte 255, as for UTF-8 (section 1 of RFC 3629).
- A map that the code ranges over is visited in an arbitrary order. Where the order shows in the result it is a parameter.
- A panic of the code (a division by a zero price) is an outcome of its own.

What is assumed of a request (`SwapRequest.WellFormed`): the two assets differ, the fee is in one of them, the trader's half
spends only the asset sent and pays only the two assets, its inputs are revealed in full and truthfully, and the sums
concerned stay below 2^63. BUY means that quote is sent and base received; SELL is the reverse.

## Where the code does less than it seems to promise

Each of these is a theorem, with the exact condition or a concrete input.

- A request can pass the swap check by the branch that does not match the fee's side. With a positive fee the completed
  transaction then never balances (`WalletService.SwapBalanced`, `WalletService.OtherBranchNeverBalances`, and the method
  `WalletService.CompleteUnderpaid`).
- When the wallet's second fee estimate exceeds the fee coins selected for the first, the change wraps below zero and the
  transaction is unbalanced (`SwapFeeCovered` and `SendFeeCovered` in the two balance theorems, and the methods
  `WalletService.CompleteOvercharged` and `WalletService.SendOvercharged`).
- The ten-fold bound of the coin search wraps for large targets, and sufficient coins can then be refused
  (`CoinSelection.GapExact`, `CoinSelection.SomeTargetNotCovered`, and the method `CoinSelection.RefuseSufficient`).
- The amount that a balanced market asks can exceed 64 bits. The price is then checked against the wrapped amount
  (`Preview.WrappedAskAccepted`, `Preview.AskedIsPaid`).
- Report frames leave a second behind every inner boundary uncovered unless the end is on a whole second
  (`MarketReport.AllCoveredIff`). A report loses exactly the volume traded there (`MarketReport.VolumesAddUp`).
- The price check computes fee-adjusted amounts and drops them (internal/core/application/trade/utils.go:59-69). The model has
  no adjustment, like the code.

## Model

| member | source | states |
|---|---|---|
| `Combinations.Enumerator.GetCombination` | pkg/explorer/coinselection.go:108-126 | Returns the buffer extended by every choice of positions, in the order of `Choices`, and leaves the shared buffer as it found it. |
| `Combinations.ChoicesSound` | pkg/explorer/coinselection.go:108-126 | Everything enumerated is a strictly increasing choice of the given size from the offset on. |
| `Combinations.ChoicesComplete` | pkg/explorer/coinselection.go:108-126 | No such choice is missed. |
| `Combinations.ChoicesInOrder` | pkg/explorer/coinselection.go:108-126 | The choices come in strictly increasing lexicographic order. |
| `Combinations.ChoicesDistinct` | pkg/explorer/coinselection.go:108-126 | No choice comes twice. |
| `Combinations.ChoicesCount` | pkg/explorer/coinselection.go:108-126 | There are binomial(n - offset, size) of them. |
| `CoinSelection.SumItems` | pkg/explorer/coinselection.go:127-133 | The total, wrapped at 64 bits. |
| `CoinSelection.GetBestCombination` | pkg/explorer/coinselection.go:143-169 | A non-empty subset in the target window with the fewest coins if any subset is in it; else the first coin above the target; else nothing. |
| `CoinSelection.FindIndexes` | pkg/explorer/coinselection.go:81-106 | Distinct positions holding the values, copy for copy; all of them when the values are available. |
| `CoinSelection.GetCoinsIndexes` | pkg/explorer/coinselection.go:60-79 | The positions select an acceptable collection with the fewest coins, else the largest coin, else the coins do not cover the target. |
| `CoinSelection.SelectUnspents` | pkg/explorer/coinselection.go:12-55 | Refuses to work exactly if some coin is confidential and not revealed; otherwise it succeeds if and only if a subset is in the (wrapping) window or a coin exceeds the target. The coins are distinct members of the asset's coins, fewest possible in the window, worth target plus change. |
| `CoinSelection.GapCovered` | pkg/explorer/coinselection.go:143-169 | Enough coins in total are always selected: a subset in the window exists or a single coin exceeds the target. |
| `CoinSelection.TwoCoins` | pkg/explorer/coinselection.go:143-159 | Where the wrapped bound falls short, two coins that suffice together are neither in the window nor above the target. |
| `CoinSelection.GapExact` | pkg/explorer/coinselection.go:143-169 | For every positive target: every sufficient set of coins can be selected if and only if the wrapped ten-fold bound reaches twice the target less two, or the target is the largest uint64. |
| `CoinSelection.SomeTargetNotCovered` | pkg/explorer/coinselection.go:143-159 | 2^63 is a target for which that fails. |
| `CoinSelection.RefuseSufficient` | pkg/explorer/coinselection.go:12-55 | For every target for which it fails, a call with revealed coins worth the target that is refused. |
| `CoinSelection.SmallTargetsCovered` | pkg/explorer/coinselection.go:143-159 | For every target below a tenth of the uint64 range the bound holds up. |
| `SwapRequest.Validate` | pkg/swap/utils.go:65-118 | The verdict for each request: no revealed inputs (tested at pkg/swap/request.go:47-49), an index at or past the number of inputs, valid exactly if the net amounts match with the fee added or with it taken off. |
| `SwapRequest.SumOutputs` | pkg/swap/utils.go:79-89 | The two accumulators end at the wrapped difference and the wrapped total. |
| `SwapRequest.MatchAmounts` | pkg/swap/utils.go:95-115 | The map comparison is the two equations, also when both assets share an entry. |
| `SwapRequest.MatchingIsExact` | pkg/swap/utils.go:65-118 | Behind the wrapping comparison, the branch matching the fee's side is the exact equation on both assets. |
| `SwapRequest.BranchesExclude` | pkg/swap/utils.go:95-115 | Both branches hold only for a zero fee. |
| `SwapRequest.OtherBranchHappens` | pkg/swap/utils.go:95-115 | A well-formed request with a positive fee that is accepted by the branch not matching the fee's side. |
| `WalletService.PayNetworkFee` | internal/core/application/wallet/service.go:288-344 | The fee coins cover the first estimate plus 150; the fee is that or the second estimate, and the change is corrected by the difference; it succeeds if the wallet answers. |
| `WalletService.FeeOutputsTotal` | internal/core/application/wallet/service.go:311-344 | Fee output and corrected change are worth the fee coins exactly when the second estimate does not exceed them, and 2^64 more otherwise. |
| `WalletService.CoveredIffFits` | internal/core/application/wallet/service.go:288-342 | Whether it exceeds them can be asked of the wallet beforehand, from its two estimates and its selection. |
| `WalletService.CompleteSwap` | internal/core/application/wallet/service.go:200-344 | The trader's half, the market's coins for what is requested, what the market receives and its change, and the network fee; it succeeds if the wallet answers. A well-formed request completes to a balanced transaction if and only if it passed by the matching branch and the wallet's fee coins cover its second estimate. |
| `WalletService.SwapBalanced` | internal/core/application/wallet/service.go:200-344 | With the service's choice of fee side: a completed swap conserves every asset if and only if its request passed by the branch matching the fee's side and the wallet, asked for that request, covers its second estimate. |
| `WalletService.OtherBranchNeverBalances` | pkg/swap/utils.go:95-115 | With a positive fee, a request accepted by the other branch never completes to a balanced transaction. |
| `WalletService.CompleteUnderpaid` | internal/core/application/wallet/service.go:200-344 | A BUY that is accepted and that every wallet which answers completes to an unbalanced transaction. |
| `WalletService.CompleteOvercharged` | internal/core/application/wallet/service.go:288-344 | A wallet that keeps its contract and with which no well-formed request completes to a balanced transaction. |
| `WalletService.TotOutputAmountPerAsset` | internal/core/application/wallet/utils.go:5-11 | The wrapped total per asset, with an entry exactly for the assets sent. |
| `WalletService.SelectForOutputs` | internal/core/application/wallet/service.go:90-109 | For any order of the map: the wallet's selections one after the other, worth the amount plus the change of every asset and of no other. |
| `WalletService.ChangeOutputs` | internal/core/application/wallet/service.go:111-128 | For any order of the map: outputs worth the change of every asset. |
| `WalletService.SendToMany` | internal/core/application/wallet/service.go:80-178 | The coins, changes and network fee of a sending, per asset; it succeeds if the wallet answers. It is balanced if and only if no asset's amounts wrap and the wallet's fee coins cover its second estimate. |
| `WalletService.SendBalanced` | internal/core/application/wallet/service.go:80-178 | A sending conserves every asset if and only if no asset's amounts wrap and the wallet, asked for what is sent, covers its second estimate. |
| `WalletService.SendOvercharged` | internal/core/application/wallet/service.go:130-178 | A wallet that keeps its contract and with which no sending is balanced. |
| `TxInfo.GetTxInfo` | internal/core/application/operator/service.go:347-408 | The owned and foreign inputs and outputs of a transaction as an account sees it, and the fee. |
| `TxInfo.InfoExactly` | internal/core/application/operator/service.go:376-403 | Every owned coin is reported as often as it occurs, among the inputs if its transaction can be fetched; every other fetched input and every other output but the fee is counted as foreign. |
| `TxInfo.LastFeeExactly` | internal/core/application/operator/service.go:391-396 | The fee is the amount of the last output without a script. |
| `TxInfo.CheckWithdrawal` | internal/core/application/operator/types.go:276-292 | For the fee account the three counts; for others a withdrawal exactly if every owned output is in an asset of an owned input. |
| `TxInfo.WithdrawalAmountPerAsset` | internal/core/application/operator/types.go:302-318 | For every asset spent, what went in less what came back, wrapped. |
| `TxInfo.SendIsWithdrawal` | internal/core/application/operator/types.go:272-318 | Read back by the sending account, a sending to others is no deposit and a withdrawal of exactly the totals sent: the same map when every total is positive. |
| `TxInfo.FeeAccountSend` | internal/core/application/operator/service.go:219-345 | The fee account's own sending is a withdrawal of exactly the totals sent once the network fee is taken off. |
| `TxInfo.SwapForMarket` | internal/core/application/operator/types.go:272-292 | For the market account a completed swap is never a withdrawal, and a deposit only if the market spent no coin. |
| `TxInfo.SwapForFeeAccount` | internal/core/application/operator/types.go:272-292 | For the fee account it is never a deposit, and a withdrawal only if no coin of the two sides is seen. |
| `Trader.BuildProposal` | examples/buy.go:115-159 | The request spends the selected coins, reveals each of them, and pays the amount received and the change. |
| `Trader.MakeTradeBuyPreview` | examples/buy.go:81-169 | Proposes from a selection for the amount, with the fee when it is on the asset sent; gives up only when the coins are hidden or short. |
| `Trader.ProposedMatches` | examples/buy.go:99-159 | Whatever the coins, the amount and the fee's side, the request is well formed and passes by the matching branch. |
| `Trader.BuyEndToEnd` | examples/buy.go:81-169 | From the trader's coins to the wallet: every proposal is valid, and what is completed from it conserves every asset if and only if the wallet, asked for that proposal, covers its second estimate. |
| `BuyFlow.PreviewIsFair` | internal/core/domain/market.go:269-340 | Every preview that a reachable market gives a buyer is one from which a valid request can be built. |
| `BuyFlow.BuyAtPreview` | internal/core/application/trade/trading.go:43-125 | A BUY at the market's own preview never fails the price check, carries the preview's amounts, is valid, and completes to a transaction that conserves every asset if and only if the wallet, asked for that request, covers its second estimate. |
| `Decimals.RoundDiv` | pkg/mathutil/math.go:17-19 | At most half a unit away from the exact quotient, with its sign, and a half goes away from zero. |
| `Formula.OutGivenInError` | pkg/marketmaking/formula/balanced_reserves.go:52-84 | The rounded amount out differs from the exact one by at most (balanceOut + 1) halves of 10^-8. |
| `Formula.InGivenOutError` | pkg/marketmaking/formula/balanced_reserves.go:87-121 | The same for the amount in, with balanceIn. |
| `Formula.OutRefusals` | pkg/marketmaking/formula/balanced_reserves.go:59-81 | Why an amount in is refused: an empty reserve, nothing paid, or an exact amount out within the rounding of nothing or of the whole reserve. |
| `Formula.InRefusals` | pkg/marketmaking/formula/balanced_reserves.go:94-117 | The same for an amount out, which is too big exactly if it is not below the reserve. |
| `Formula.OutQuoted` | pkg/marketmaking/formula/balanced_reserves.go:52-84 | A quote of at least a given unit exists wherever the exact amount out is further from that unit and from the reserve than the rounding goes. |
| `Formula.InQuoted` | pkg/marketmaking/formula/balanced_reserves.go:87-121 | The same for the amount in. |
| `Formula.PluggableOutExactly` | pkg/marketmaking/formula/pluggable.go:27-51 | At a plugged-in price an amount in is quoted if and only if the exact amount out rounds to something below the reserve. |
| `Formula.PluggableInExactly` | pkg/marketmaking/formula/pluggable.go:54-79 | An amount out is quoted if and only if it is below the reserve and the exact amount in rounds to something. |
| `Formula.SpotExactly` | pkg/marketmaking/formula/balanced_reserves.go:35-49 | A spot price exists if and only if neither reserve is empty, and is zero if and only if the ratio rounds to nothing. |
| `Formula.TradeKeepsProduct` | pkg/marketmaking/formula/balanced_reserves.go:52-121 | One trade at its quote, either way, lowers the product of the reserves by no more than its rounding term. |
| `Formula.ProductOverTrades` | pkg/marketmaking/formula/balanced_reserves.go:52-121 | Over any sequence of trades the product falls by no more than the sum of the rounding terms. |
| `Market.MarketEntity.constructor` | internal/core/domain/market.go:122-133 | Holds the state it is created with. |
| `Market.MarketEntity.MakeTradable` | internal/core/domain/market.go:150-157 | Refuses a pluggable market without a price, opens any other. |
| `Market.MarketEntity.MakeNotTradable` | internal/core/domain/market.go:160-163 | Closes and changes nothing else. |
| `Market.MarketEntity.MakeStrategyPluggable` | internal/core/domain/market.go:166-176 | Only while closed; drops the price. |
| `Market.MarketEntity.MakeStrategyBalanced` | internal/core/domain/market.go:179-188 | Only while closed; keeps the price. |
| `Market.MarketEntity.ChangePercentageFee` | internal/core/domain/market.go:191-208 | Only while closed and within bounds. |
| `Market.MarketEntity.ChangeFixedFee` | internal/core/domain/market.go:210-227 | Only while closed; a negative argument keeps that side's fee. |
| `Market.MarketEntity.ChangePrice` | internal/core/domain/market.go:229-240 | Only positive prices, open or closed. |
| `Market.MarketEntity.ChangeAssetPrecision` | internal/core/domain/market.go:242-267 | Only while closed; both precisions are checked before either changes. |
| `Market.RunKeepsInv` | internal/core/domain/market.go:150-267 | Over every run of mutators: precisions at most 8, a known strategy, an open pluggable market priced on both sides, fees within bounds. |
| `Market.ReachableInv` | internal/core/domain/market.go:80-267 | The same from every creation that succeeds. |
| `Market.CreateAndRun` | internal/core/domain/market.go:80-267 | Any calls on any market that can be created leave the entity in the state of the run, reachable and with the invariant. |
| `MarketHistory.CreationExactly` | internal/core/domain/market.go:80-133 | A market is created if and only if its listing is valid, each asset being 64 hexadecimal digits; it is closed, has no price and carries what was listed. |
| `MarketHistory.TakenExactly` | internal/core/domain/market.go:150-267 | Every call is answered yes if and only if the market is in the state it needs and its arguments are in bounds; it then writes its fields and leaves all others. |
| `MarketHistory.LastWriter` | internal/core/domain/market.go:150-267 | After every run each field holds what the last call that wrote it left there. |
| `MarketHistory.OpenExactly` | internal/core/domain/market.go:150-163 | After every run a market is open if and only if it was opened and not closed since. |
| `Market.FrozenWhileOpen` | internal/core/domain/market.go:150-267 | Until the next closing an open market keeps strategy, fees and precisions. |
| `Preview.ToDecimalExact` | internal/core/domain/market.go:298-302 | With at most eight digits the conversion to a decimal loses nothing. |
| `Preview.ToSatsCutsOff` | internal/core/domain/market.go:315-317 | The conversion back is the decimal rounded down, unless it exceeds 64 bits. |
| `Preview.PaysOutLess` | internal/core/domain/market.go:269-340 | For every reachable market, strategy, direction and given asset, a preview makes the market pay out strictly less in satoshis than its balance, and a fee taken off the amount received is below it. |
| `Preview.FeeIsShare` | internal/core/domain/market.go:451-474 | The fee is the fixed fee plus the rounded-down percentage of the amount in the fee's asset, previewed or given. |
| `Preview.PluggableAtPrice` | pkg/marketmaking/formula/pluggable.go:27-79 | At a plugged-in price either direction quotes the given amount at the price of the other asset, to the nearest 10^-8. |
| `Preview.PricedAtSpot` | internal/core/domain/market.go:426-449 | The price of a balanced market is the ratio of its balances and its reciprocal, each to the nearest 10^-8. |
| `PreviewConditions.PreviewsExactly` | internal/core/domain/market.go:269-340 | Every market previews if and only if it is open, knows the assets, has a price and a quote worth a satoshi, and a fee that comes off the amount received is below it; the preview is of that quote, the other asset and that fee. |
| `PreviewConditions.PreviewRefusals` | internal/core/domain/market.go:273-281 | A closed market, an unknown asset, an unknown fee asset, an empty balance of a market that is not pluggable and an amount too big are each named, in that order and in no other case; it fails by dividing by zero exactly where the price does. |
| `PreviewConditions.PriceExactly` | internal/core/domain/market.go:416-449 | When a market has a price, and when its computation divides by zero. |
| `PreviewConditions.PaysForGiven` | internal/core/domain/market.go:295-321 | A balanced market quotes a given amount in, worth a satoshi or more, wherever the exact amount out is further from one satoshi and from the reserve than the rounding goes. |
| `PreviewConditions.AsksForGiven` | internal/core/domain/market.go:295-321 | The same for a given amount out, below 2^64 satoshis. |
| `PreviewConditions.AcceptsExactly` | internal/core/application/trade/utils.go:15-76 | A proposal is accepted if and only if a preview of one of its sides is there and within the tolerance of the other side's amount, both read as signed 64-bit numbers. |
| `Preview.PreviewedPriceAccepted` | internal/core/application/trade/utils.go:15-76 | In particular, a proposal at what a preview of either side quotes passes the price check for every tolerance. |
| `Preview.AskedIsPaid` | internal/core/application/trade/utils.go:32-41 | A swap accepted by the preview of R pays, with the tolerance, what the market asks when the amount asked fits 64 bits; below 2^63 and for a tolerance below one, only then. |
| `Preview.WrappedAskAccepted` | internal/core/domain/market.go:315-317 | A price that is accepted because the amount asked wraps, and that violates the curve on both sides. |
| `Preview.AcceptedByP` | internal/core/application/trade/utils.go:21-30 | Accepted by the preview of P: (Bin + P)(Bout - (1 - s) R) is at least the product less the rounding term. |
| `Preview.AcceptedByR` | internal/core/application/trade/utils.go:32-41 | Accepted by the preview of R: (Bin + (1 + s) P + 1 sat)(Bout - R) is at least the product less the rounding term. |
| `Preview.AcceptedRespectsCurve` | internal/core/application/trade/utils.go:15-76 | Every swap that the price check accepts on a reachable balanced market satisfies the inequality of the side that matched; for the preview of R, when the amount asked fits. |
| `Trade.TradeEntity.constructor` | internal/core/domain/trade.go:62-66 | A new trade is empty. |
| `Trade.TradeEntity.DoPropose` | internal/core/domain/trade.go:68-111 | The whole new state and the answer, for every parser outcome, and the panic on a zero amount. |
| `Trade.TradeEntity.DoAccept` | internal/core/domain/trade.go:113-151 | The same for accepting. |
| `Trade.TradeEntity.DoComplete` | internal/core/domain/trade.go:153-199 | The same for completing, late calls included. |
| `Trade.TradeEntity.DoSettle` | internal/core/domain/trade.go:201-216 | The same for settling. |
| `Trade.TradeEntity.DoFail` | internal/core/domain/trade.go:218-233 | A first failure sets the flag and the message; a later one changes nothing. |
| `Trade.TradeEntity.DoExpire` | internal/core/domain/trade.go:235-250 | The same for expiring. |
| `Trade.RunProgress` | internal/core/domain/trade.go:68-250 | Between any two moments of any run the status does not go back, Settled and Expired stay, the failed flag stays, and every message stays as first written. |
| `Trade.RunInv` | internal/core/domain/trade.go:68-250 | In every reachable trade an expiry is set exactly in Accepted, Completed and Expired, the messages match the status, and request, accept, complete and expiry times are in order. |
| `Trade.FailedWithoutMessage` | internal/core/domain/trade.go:153-199 | A trade is failed without a message if and only if some call to complete it, not failed before, found it past its expiry. |
| `Trade.RunCalls` | internal/core/domain/trade.go:62-250 | Any calls on a new trade leave the entity in the state of the run, with the invariant. |
| `TradeHistory.StatusOfRun` | internal/core/domain/trade.go:68-250 | After every run the status is that of the last call that found what it needs: Propose an empty trade of a known type, Accept a proposal with a later expiry, Complete an accepted trade in time, Settle an accepted or completed trade that has not failed, Expire one past its expiry; parser outcomes included. |
| `TradeHistory.EachStatus` | internal/core/domain/trade.go:68-250 | Status by status: reached if and only if such a call happened and no later one moved on. |
| `TradeHistory.ReachedOnce` | internal/core/domain/trade.go:68-250 | One call of a run reaches a status. |
| `TradeHistory.StoredByCall` | internal/core/domain/trade.go:81-213 | At the end of every run the terms, messages, times, price, transaction hex and id, and settlement time are those of the calls that reached the statuses. |
| `TradeHistory.PsetOfRun` | internal/core/domain/trade.go:90-190 | The transaction is the proposed one, then the accepted one, then the completed one; the expiry is that of the acceptance until a settlement clears it. |
| `TradeHistory.PriceIsNearest` | internal/core/domain/trade.go:334-357 | The stored prices are quote per base and base per quote of the proposal, to the nearest 10^-8; a zero amount has none. |
| `TradeHistory.FailureOfRun` | internal/core/domain/trade.go:68-233 | A trade is failed if and only if some call fails it, and its message is that of the first such call unless that was a late completion. |
| `TradeHistory.AnswersYes` | internal/core/domain/trade.go:68-250 | A call answers yes if and only if it reaches its status or finds it reached, and no without an error if and only if it fails the trade. |
| `Notifications.HandlerQueue.PushBack` | internal/core/application/wallet/types.go:66-73 | Appends. |
| `Notifications.HandlerQueue.Pop` | internal/core/application/wallet/types.go:75-85 | Takes the first, or nothing from an empty queue. |
| `Notifications.CallAll` | internal/core/application/wallet/service.go:406-413 | With registrations before every pop, exactly the handlers counted at the start are called, in order, and none is missing; the trade changes as its handler says. |
| `Notifications.PushBackAll` | internal/core/application/wallet/service.go:414-416 | The queue after registrations before every push. |
| `Notifications.PushedBackIsRequeued` | internal/core/application/wallet/service.go:414-416 | In that queue the unfinished handlers are in their order, and nothing is lost or doubled. |
| `Notifications.HandleNotification` | internal/core/application/wallet/service.go:403-418 | One notification calls each queued handler once and in order, never a missing one, and leaves the unfinished ones and all that was registered. |
| `Notifications.CallHandler` | internal/core/application/trade/trading.go:208-229 | A handler is done exactly if the notification holds one of its coins. |
| `Notifications.ActsOnceOnFirst` | internal/core/application/wallet/service.go:403-418 | Over every run a handler is called, once per round, exactly until the first notification holding one of its coins, and never again. |
| `Notifications.FirstDecides` | internal/core/application/trade/trading.go:217-281 | Over every run the first notification holding one of its coins decides the trade, and no other changes it. |
| `Notifications.Listen` | internal/core/application/wallet/service.go:403-418 | The listener over any notifications and registrations goes through such a run, and the trade changes as the run says. |
| `Notifications.ListenForTrade` | internal/core/application/trade/trading.go:217-281 | A trade whose handler is queued once ends as its first touching notification says, in its fields: a spent coin settles it at the block's positive time or the clock's second if it is accepted or completed and not failed, an unlocked coin expires it past its expiry, and nothing else changes it. |
| `Notifications.SettleOrExpire` | internal/core/application/trade/trading.go:217-281 | Without one of its coins nothing changes; a spent coin settles the trade at the block's time or now, an unlocked one expires it. |
| `Compaction.Compacter.Commit` | pkg/securestore/kvdb/bolt_compact.go:150-153 | The destination becomes what the transaction saw; its sizes are recorded. |
| `Compaction.Compacter.MakeRoom` | pkg/securestore/kvdb/bolt_compact.go:147-161 | Every transaction stays within the limit or holds one entry, and every byte is accounted for once. |
| `Compaction.Compacter.Copy` | pkg/securestore/kvdb/bolt_compact.go:145-201 | One entry is stored under its path; the error cases are exactly a missing path and what the database refuses. |
| `Compaction.Compacter.WalkBucket` | pkg/securestore/kvdb/bolt_compact.go:230-254 | A whole subtree, sequences included, is stored under its path wherever the commits fall; every path descended exists. |
| `Compaction.Compacter.Walk` | pkg/securestore/kvdb/bolt_compact.go:215-227 | Succeeds exactly if the destination has none of the source's buckets, and then holds both. |
| `Compaction.Compacter.Compact` | pkg/securestore/kvdb/bolt_compact.go:132-206 | The same once committed, with no transaction above the limit unless it holds a single entry. |
| `Compaction.CompactIntoNew` | pkg/securestore/kvdb/bolt_compact.go:132-254 | The copy equals the source for every tree and every limit, and the transactions wrote its bytes once. |
| `Separated.SplitJoin` | internal/infrastructure/pubsub/service.go:155-215 | Splitting undoes joining when the separator occurs in no part. |
| `Separated.JoinSplit` | cmd/migration/v0-v1/v0-domain/vault_domain.go:190-200 | Joining undoes splitting, whatever the separator. |
| `Webhooks.WebhookStore.GetSerialized` | internal/infrastructure/pubsub/service.go:199-215 | The stored list of an event splits back into its subscriptions. |
| `Webhooks.WebhookStore.AddForTopic` | internal/infrastructure/pubsub/service.go:155-161 | One more subscription in the event's list. |
| `Webhooks.WebhookStore.AddSubscription` | internal/infrastructure/pubsub/service.go:80-97 | Both buckets gain the subscription, or neither when its id is taken. |
| `Webhooks.WebhookStore.Subscribe` | internal/infrastructure/pubsub/service.go:42-49 | A taken id is no error and changes nothing; bad arguments are refused. |
| `Webhooks.WebhookStore.SubscribeWithID` | internal/infrastructure/pubsub/service.go:51-66 | A taken id is an error; bad arguments and an empty id are refused. |
| `Webhooks.WebhookStore.FindInTopic` | internal/infrastructure/pubsub/service.go:163-173 | The live subscription with the id is always found in its event's list. |
| `Webhooks.WebhookStore.RemoveForTopic` | internal/infrastructure/pubsub/service.go:163-184 | The index agrees with the live subscriptions without that one; an event without any has no entry. |
| `Webhooks.WebhookStore.RemoveSubscription` | internal/infrastructure/pubsub/service.go:118-133 | Exactly that subscription goes, from both buckets; an unknown id is an error. |
| `Webhooks.WebhookStore.ListSubscriptions` | internal/infrastructure/pubsub/service.go:135-142 | Each recipient once: for a topic its live subscriptions and those to any topic, for no topic everybody. |
| `Webhooks.AgreesAdd` | internal/infrastructure/pubsub/service.go:80-97 | Adding keeps the index equal to the live subscriptions of each event. |
| `Webhooks.AgreesRemove` | internal/infrastructure/pubsub/service.go:118-133 | So does removing. |
| `Webhooks.LiveExactly` | internal/infrastructure/pubsub/service.go:42-133 | After any run a subscription is alive if and only if some call asked for it with good arguments while its id was free, and none removed it since. |
| `Webhooks.RecipientsExactly` | internal/infrastructure/pubsub/service.go:135-142 | The recipients of a topic are the live subscriptions to it or to `*`; of no topic, all. |
| `Webhooks.RunAndPublish` | internal/infrastructure/pubsub/service.go:42-153 | After any run of calls, publishing reaches each live subscription to the topic or to `*` once, and nobody else. |
| `MarketReport.SplitTimeRange` | internal/core/application/operator/market_account.go:447-466 | Terminates for every frame of at least one hour with the frames of `Frames`. |
| `MarketReport.FramesDisjoint` | internal/core/application/operator/market_account.go:447-466 | The frames lie in the range and no two meet. |
| `MarketReport.CoverOrGap` | internal/core/application/operator/market_account.go:447-471 | A whole second of the range is in exactly one frame, or in none and then strictly within one second after an inner boundary. |
| `MarketReport.AllCoveredIff` | internal/core/application/operator/market_account.go:447-471 | Every whole second is covered if and only if the end is on a second or one frame spans the range. |
| `MarketReport.VolumesAddUp` | internal/core/application/operator/market_account.go:146-180 | For every range, the frames' volumes and that of the trades in the gaps add up to the volume of the range. |
| `MarketReport.TotalVolume` | internal/core/application/operator/market_account.go:146-180 | For every range: the frames' volumes are the volume of the trades in range, each counted once, if and only if the trades behind the frame boundaries moved nothing; an end on a second or a single frame leaves none. |
| `MarketReport.AddTrade` | internal/core/application/operator/market_account.go:146-171 | A trade adds its amounts to the volumes of the frames that hold it. |
| `MarketReport.GetMarketReport` | internal/core/application/operator/market_account.go:110-198 | Refused if and only if the range is shorter than a frame. For trades of the market, the volumes per frame and in total are what the legs of the covered trades carried of base and of quote, and the fees those charged in each; all wrapped. |
| `MarketReport.SidesAreAssets` | internal/core/application/operator/market_account.go:158-167 | The base side of a trade is the leg that carries base, the quote side the leg that carries quote. |
| `MarketReport.FeesAreAssets` | internal/core/application/operator/market_account.go:182-189 | The two fee totals are the fees charged in base and in quote. |
| `MarketReport.DefaultFrameBySpan` | internal/core/application/operator/market_account.go:480-496 | The default frame by the length of the range; it fits every range of an hour or more. |
| `DerivationPath.Print` | cmd/migration/v0-v1/v0-domain/vault_domain.go:163-181 | The joined form of the components. |
| `DerivationPath.Parse` | cmd/migration/v0-v1/v0-domain/vault_domain.go:183-244 | The path or the first error, for every string. |
| `DerivationPath.ParseRoot` | cmd/migration/v0-v1/v0-domain/vault_domain.go:149-161 | The two-step hardened paths, or the reason for the refusal. |
| `DerivationPath.ParsesExactly` | cmd/migration/v0-v1/v0-domain/vault_domain.go:183-244 | A string parses if and only if it has two or more elements, none empty, the first `m` where an absolute path is asked for, and every step is a number in range; the path holds those numbers. |
| `DerivationPath.RefusedFor` | cmd/migration/v0-v1/v0-domain/vault_domain.go:183-208 | What a refused string lacks, error by error. |
| `DerivationPath.AbsoluteBegins` | cmd/migration/v0-v1/v0-domain/vault_domain.go:194-198 | Where an absolute path is asked for, only strings that begin with `m/` parse. |
| `DerivationPath.RootParses` | cmd/migration/v0-v1/v0-domain/vault_domain.go:149-161 | The root parser accepts if and only if the string is an absolute path of two hardened steps. |
| `DerivationPath.ElemOfDigits` | cmd/migration/v0-v1/v0-domain/vault_domain.go:210-232 | Decimal digits, with or without the hardened mark and with any spaces, stand for their step, or are out of range. |
| `DerivationPath.ParseLiteral` | cmd/migration/v0-v1/v0-domain/vault_domain.go:219-221 | Binary, octal and hexadecimal literals have their value. |
| `DerivationPath.ParseSeparated` | cmd/migration/v0-v1/v0-domain/vault_domain.go:219-221 | An underscore between digits leaves the number as it is; one at the end, or two together, is refused. |
| `DerivationPath.RoundTrip` | cmd/migration/v0-v1/v0-domain/vault_domain.go:163-235 | Parsing the printed form of any non-empty path of 32-bit steps returns it, hardened steps (section "Extended keys" of BIP-32) included. |
| `DerivationPath.RootRoundTrip` | cmd/migration/v0-v1/v0-domain/vault_domain.go:149-181 | Through the root parser exactly the two-step all-hardened paths come back, and every other path fails for the stated reason. |

## Left out

- Servers, clients and configuration (gRPC, HTTP, CLI, macaroons, TLS, explorers, price feeders): plumbing over libraries that are not part of this model.
- Transaction encoding, blinding, signing and broadcasting, and the confidential form of amounts; transaction sizes only appear through the fee estimate.
- The version 0 request format (pkg/swap/utils.go:23-63) and validation of accept messages: only key checks.
- Interleaved write-backs of whole trade records: the run theorems are about the trade entity and sequential calls.
- Re-registration of pending trades at start-up, and trades read back from storage.
- The trader in pkg/trade/buy.go: it lists other inputs than it spends; the model follows examples/buy.go, and examples/sell.go is symmetric.
- Password change of the secure storage, encryption and key derivation.
- Fragmenters, fee helpers and migration mappers: the daemon does not use them to price, validate or complete a swap.
- Writes that fail half-way in the webhook store, and the order by id in which subscriptions are listed; recipients are stated as a collection.
- The listener of transaction notifications has the same loop as that of utxo notifications; one is modelled.
- Open database iterators, page fill and the logging of the compaction; its size counter is an unbounded integer.
- Parsing of report time ranges and the order of the trades in a report; a negative frame length, for which the code's loop does not end, is not modelled.
- CoinSelection.SortByValue: a stable insertion on sequences stands for the library's in-place sort; coins of equal value may come in another order there.
- CoinSelection.SelectUnspents: the exact sum is stated for coins of the asset that total less than 2^64; beyond that the change is the wrapped difference.
- WalletService.SwapBalanced: stated for well-formed requests, as described above.
- Trader.BuyEndToEnd: the trader's coins and the amounts with their fee are below 2^63.
- Preview.AcceptedRespectsCurve: by the preview of R the asked amount must survive the conversion to 64 bits, and for a tolerance of one or more fit an int64; past that the wrapped amount is compared (`Preview.AskedIsPaid`).
- Preview.AskedIsPaid: the equivalence is for a tolerance below one and a payment below 2^63; from one on every higher payment is accepted, and past 2^63 a wrapped amount can be paid by accident.
- Market.MarketEntity.ChangePercentageFee: the arguments are below 2^63, as int64 arguments are.
