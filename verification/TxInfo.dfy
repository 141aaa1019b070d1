/** Reading a transaction back from an account's point of view: deposit, withdrawal or neither. */
module TxInfo {
  import opened Basics
  import opened UInt64
  import opened Ledger
  import opened SwapRequest
  import opened WalletService

  datatype Info = Info(
    account: AccountId, ownedInputs: seq<Coin>, notOwnedInputs: nat,
    ownedOutputs: seq<Coin>, notOwnedOutputs: nat, fee: u64)

  function Keep(coins: seq<Coin>, p: Coin -> bool): seq<Coin> {
    if coins == [] then []
    else
      var n := |coins| - 1;
      Keep(coins[..n], p) + (if p(coins[n]) then [coins[n]] else [])
  }

  /** Inputs whose origin the wallet cannot fetch are passed over. */
  function MineIn(account: AccountId): Coin -> bool {
    (c: Coin) => c.fetchable && c.owner == Account(account)
  }

  function OthersIn(account: AccountId): Coin -> bool {
    (c: Coin) => c.fetchable && c.owner != Account(account)
  }

  function MineOut(account: AccountId): Coin -> bool {
    (c: Coin) => c.owner == Account(account)
  }

  function OthersOut(account: AccountId): Coin -> bool {
    (c: Coin) => c.owner != FeeScript && c.owner != Account(account)
  }

  function LastFee(outputs: seq<Coin>): u64 {
    if outputs == [] then 0
    else
      var n := |outputs| - 1;
      if outputs[n].owner == FeeScript then outputs[n].amount else LastFee(outputs[..n])
  }

  function InfoOf(tx: Tx, account: AccountId): Info {
    Info(account, Keep(tx.inputs, MineIn(account)), |Keep(tx.inputs, OthersIn(account))|,
         Keep(tx.outputs, MineOut(account)), |Keep(tx.outputs, OthersOut(account))|, LastFee(tx.outputs))
  }

  method GetTxInfo(tx: Tx, account: AccountId) returns (info: Info)
    ensures info == InfoOf(tx, account)
  {
    var ownedInputs: seq<Coin>, notOwnedInputs := [], 0;
    for i := 0 to |tx.inputs|
      invariant ownedInputs == Keep(tx.inputs[..i], MineIn(account))
      invariant notOwnedInputs == |Keep(tx.inputs[..i], OthersIn(account))|
    {
      assert tx.inputs[..i + 1][..i] == tx.inputs[..i];
      if tx.inputs[i].fetchable {
        if tx.inputs[i].owner == Account(account) {
          ownedInputs := ownedInputs + [tx.inputs[i]];
        } else {
          notOwnedInputs := notOwnedInputs + 1;
        }
      }
    }
    assert tx.inputs[..|tx.inputs|] == tx.inputs;
    var ownedOutputs: seq<Coin>, notOwnedOutputs, fee := [], 0, 0;
    for i := 0 to |tx.outputs|
      invariant ownedOutputs == Keep(tx.outputs[..i], MineOut(account))
      invariant notOwnedOutputs == |Keep(tx.outputs[..i], OthersOut(account))|
      invariant fee == LastFee(tx.outputs[..i])
    {
      assert tx.outputs[..i + 1][..i] == tx.outputs[..i];
      if tx.outputs[i].owner == FeeScript {
        fee := tx.outputs[i].amount;
      } else if tx.outputs[i].owner == Account(account) {
        ownedOutputs := ownedOutputs + [tx.outputs[i]];
      } else {
        notOwnedOutputs := notOwnedOutputs + 1;
      }
    }
    assert tx.outputs[..|tx.outputs|] == tx.outputs;
    info := Info(account, ownedInputs, notOwnedInputs, ownedOutputs, notOwnedOutputs, fee);
  }

  lemma {:induction false} KeepCount(coins: seq<Coin>, p: Coin -> bool, c: Coin)
    ensures multiset(Keep(coins, p))[c] == if p(c) then multiset(coins)[c] else 0
    ensures |Keep(coins, p)| <= |coins|
  {
    if coins != [] {
      var n := |coins| - 1;
      KeepCount(coins[..n], p, c);
      assert coins == coins[..n] + [coins[n]];
    }
  }

  lemma {:induction false} KeepParts(coins: seq<Coin>, p: Coin -> bool, q: Coin -> bool, r: Coin -> bool)
    requires forall k :: 0 <= k < |coins| ==> (p(coins[k]) || q(coins[k]) <==> r(coins[k])) && !(p(coins[k]) && q(coins[k]))
    ensures |Keep(coins, p)| + |Keep(coins, q)| == |Keep(coins, r)|
  {
    if coins != [] { KeepParts(coins[..|coins| - 1], p, q, r); }
  }

  /** The fee is the amount of the last fee output. */
  lemma {:induction false} LastFeeExactly(outputs: seq<Coin>, k: nat)
    requires k < |outputs| && outputs[k].owner == FeeScript
    requires forall j :: k < j < |outputs| ==> outputs[j].owner != FeeScript
    ensures LastFee(outputs) == outputs[k].amount
  {
    if k < |outputs| - 1 { LastFeeExactly(outputs[..|outputs| - 1], k); }
  }

  /** What an account sees of a transaction: of the inputs whose origin can be fetched its own and the number of others, of
      the outputs its own and the number of others without the fee. */
  lemma InfoExactly(tx: Tx, account: AccountId, c: Coin)
    ensures multiset(InfoOf(tx, account).ownedInputs)[c]
         == if c.fetchable && c.owner == Account(account) then multiset(tx.inputs)[c] else 0
    ensures multiset(InfoOf(tx, account).ownedOutputs)[c] == if c.owner == Account(account) then multiset(tx.outputs)[c] else 0
    ensures |InfoOf(tx, account).ownedInputs| + InfoOf(tx, account).notOwnedInputs == |Keep(tx.inputs, (x: Coin) => x.fetchable)|
    ensures |InfoOf(tx, account).ownedOutputs| + InfoOf(tx, account).notOwnedOutputs == |Keep(tx.outputs, (x: Coin) => x.owner != FeeScript)|
  {
    KeepCount(tx.inputs, MineIn(account), c);
    KeepCount(tx.outputs, MineOut(account), c);
    KeepParts(tx.inputs, MineIn(account), OthersIn(account), (x: Coin) => x.fetchable);
    KeepParts(tx.outputs, MineOut(account), OthersOut(account), (x: Coin) => x.owner != FeeScript);
  }

  predicate IsDeposit(info: Info) {
    |info.ownedInputs| == 0 && |info.ownedOutputs| > 0
  }

  ghost predicate IsWithdrawal(info: Info) {
    if info.account == FeeAccount
    then |info.ownedInputs| > 0 && info.notOwnedInputs == 0 && info.notOwnedOutputs > 0
    else Assets(info.ownedOutputs) <= Assets(info.ownedInputs)
  }

  method CheckWithdrawal(info: Info) returns (r: bool)
    ensures r <==> IsWithdrawal(info)
    ensures info.account != FeeAccount ==>
              (r <==> forall k :: 0 <= k < |info.ownedOutputs| ==> info.ownedOutputs[k].asset in Assets(info.ownedInputs))
  {
    if info.account == FeeAccount {
      return |info.ownedInputs| > 0 && info.notOwnedInputs <= 0 && info.notOwnedOutputs > 0;
    }
    var inAssets := {};
    for i := 0 to |info.ownedInputs|
      invariant inAssets == Assets(info.ownedInputs[..i])
    {
      assert info.ownedInputs[..i + 1] == info.ownedInputs[..i] + [info.ownedInputs[i]];
      AssetsAppend(info.ownedInputs[..i], info.ownedInputs[i]);
      inAssets := inAssets + {info.ownedInputs[i].asset};
    }
    assert info.ownedInputs[..|info.ownedInputs|] == info.ownedInputs;
    for i := 0 to |info.ownedOutputs|
      invariant forall k :: 0 <= k < i ==> info.ownedOutputs[k].asset in inAssets
    {
      if info.ownedOutputs[i].asset !in inAssets {
        assert info.ownedOutputs[i].asset in Assets(info.ownedOutputs);
        return false;
      }
    }
    r := true;
  }

  /** The amounts a withdrawal is stored with: per asset spent, what went in minus what came back, wrapping. */
  ghost predicate Withdraws(info: Info, m: map<Asset, u64>) {
    && m.Keys == Assets(info.ownedInputs)
    && forall a :: a in m ==> m[a] == U64(Tot(info.ownedInputs, a) - Tot(info.ownedOutputs, a))
  }

  method WithdrawalAmountPerAsset(info: Info) returns (m: map<Asset, u64>)
    ensures Withdraws(info, m)
  {
    var ins := TotOutputAmountPerAsset(info.ownedInputs);
    var outs := TotOutputAmountPerAsset(info.ownedOutputs);
    assert ins.Keys == Assets(info.ownedInputs);
    m := Differences(ins, outs);
    DifferencesWithdraw(info, ins, outs, m);
  }

  lemma DifferencesWithdraw(info: Info, ins: map<Asset, u64>, outs: map<Asset, u64>, m: map<Asset, u64>)
    requires Accumulates(ins, info.ownedInputs) && Accumulates(outs, info.ownedOutputs)
    requires ins.Keys == Assets(info.ownedInputs) == m.Keys && forall a :: a in m ==> m[a] == U64(ins[a] - Get(outs, a))
    ensures Withdraws(info, m)
  {
    forall a | a in m ensures m[a] == U64(Tot(info.ownedInputs, a) - Tot(info.ownedOutputs, a)) {
      assert HoldsTotal(ins, info.ownedInputs, a) && HoldsTotal(outs, info.ownedOutputs, a);
      DifferenceWraps(Get(ins, a), Get(outs, a), Tot(info.ownedInputs, a), Tot(info.ownedOutputs, a));
    }
  }

  /** Entry by entry, whatever order the entries are visited in. */
  method Differences(ins: map<Asset, u64>, outs: map<Asset, u64>) returns (m: map<Asset, u64>)
    ensures m.Keys == ins.Keys && forall a :: a in m ==> m[a] == U64(ins[a] - Get(outs, a))
  {
    m := map[];
    var pending := ins.Keys;
    while pending != {}
      invariant pending <= ins.Keys && m.Keys == ins.Keys - pending
      invariant forall a :: a in m ==> m[a] == U64(ins[a] - Get(outs, a))
      decreases |pending|
    {
      var asset :| asset in pending;
      m, pending := m[asset := U64(ins[asset] - Get(outs, asset))], pending - {asset};
    }
  }

  lemma DifferenceWraps(spent: u64, returned: u64, ins: int, outs: int)
    requires spent == U64(ins) && returned == U64(outs)
    ensures U64(spent - returned) == U64(ins - outs)
  {
    WrapDiff(ins, outs);
  }

  // ---- Splitting a transaction by owner ----

  lemma {:induction false} KeepConcat(a: seq<Coin>, b: seq<Coin>, p: Coin -> bool)
    ensures Keep(a + b, p) == Keep(a, p) + Keep(b, p)
  {
    if b == [] {
      assert a + b == a;
    } else {
      var n := |b| - 1;
      KeepConcat(a, b[..n], p);
      assert (a + b)[..|a| + n] == a + b[..n];
    }
  }

  lemma {:induction false} KeepAll(coins: seq<Coin>, p: Coin -> bool)
    requires forall k :: 0 <= k < |coins| ==> p(coins[k])
    ensures Keep(coins, p) == coins
  {
    if coins != [] { KeepAll(coins[..|coins| - 1], p); }
  }

  lemma {:induction false} KeepNone(coins: seq<Coin>, p: Coin -> bool)
    requires forall k :: 0 <= k < |coins| ==> !p(coins[k])
    ensures Keep(coins, p) == []
  {
    if coins != [] { KeepNone(coins[..|coins| - 1], p); }
  }

  lemma {:induction false} KeepSome(coins: seq<Coin>, p: Coin -> bool)
    requires Keep(coins, p) == []
    ensures forall k :: 0 <= k < |coins| ==> !p(coins[k])
  {
    if coins != [] { KeepSome(coins[..|coins| - 1], p); }
  }

  ghost predicate AllOwner(coins: seq<Coin>, owner: Owner) {
    forall k :: 0 <= k < |coins| ==> coins[k].owner == owner
  }

  ghost predicate AllFetchable(coins: seq<Coin>) {
    forall k :: 0 <= k < |coins| ==> coins[k].fetchable
  }

  /** Inputs of one owner are all the account's or none. */
  lemma KeepInputs(coins: seq<Coin>, owner: Owner, x: AccountId)
    requires AllOwner(coins, owner)
    ensures owner == Account(x) && AllFetchable(coins) ==> Keep(coins, MineIn(x)) == coins
    ensures owner != Account(x) ==> Keep(coins, MineIn(x)) == []
    ensures owner == Account(x) ==> Keep(coins, OthersIn(x)) == []
    ensures owner != Account(x) && AllFetchable(coins) ==> Keep(coins, OthersIn(x)) == coins
  {
    if owner == Account(x) {
      if AllFetchable(coins) { KeepAll(coins, MineIn(x)); }
      KeepNone(coins, OthersIn(x));
    } else {
      if AllFetchable(coins) { KeepAll(coins, OthersIn(x)); }
      KeepNone(coins, MineIn(x));
    }
  }

  lemma KeepOutputs(coins: seq<Coin>, owner: Owner, x: AccountId)
    requires AllOwner(coins, owner)
    ensures Keep(coins, MineOut(x)) == if owner == Account(x) then coins else []
    ensures Keep(coins, OthersOut(x)) == if owner == Account(x) || owner == FeeScript then [] else coins
  {
    if owner == Account(x) {
      KeepAll(coins, MineOut(x));
      KeepNone(coins, OthersOut(x));
    } else {
      KeepNone(coins, MineOut(x));
      if owner == FeeScript { KeepNone(coins, OthersOut(x)); } else { KeepAll(coins, OthersOut(x)); }
    }
  }

  lemma Keep3(a: seq<Coin>, b: seq<Coin>, c: seq<Coin>, p: Coin -> bool)
    ensures Keep(a + (b + c), p) == Keep(a, p) + (Keep(b, p) + Keep(c, p))
  {
    KeepConcat(a, b + c, p);
    KeepConcat(b, c, p);
  }

  /** A transaction's inputs: strangers' coins, one account's and the fee account's. */
  lemma SplitInputs(others: seq<Coin>, mine: seq<Coin>, fee: seq<Coin>, account: AccountId, x: AccountId)
    requires AllOwner(others, Outside) && AllOwner(mine, Account(account)) && AllOwner(fee, Account(FeeAccount))
    requires AllFetchable(mine) && AllFetchable(fee)
    ensures Keep(others + (mine + fee), MineIn(x))
         == (if x == account then mine else []) + (if x == FeeAccount then fee else [])
    ensures Keep(others + (mine + fee), OthersIn(x))
         == Keep(others, OthersIn(x)) + ((if x == account then [] else mine) + (if x == FeeAccount then [] else fee))
  {
    KeepInputs(others, Outside, x);
    KeepInputs(mine, Account(account), x);
    KeepInputs(fee, Account(FeeAccount), x);
    Keep3(others, mine, fee, MineIn(x));
    Keep3(others, mine, fee, OthersIn(x));
  }

  /** The change the fee account gets back, without the fee output that nobody owns. */
  function FeeChange(native: Asset, fee: FeePayment): (r: seq<Coin>)
    ensures FeeOutputs(native, fee) == r + [Coin(FeeScript, native, fee.amount, true)]
    ensures AllOwner(r, Account(FeeAccount)) && (r == [] <==> fee.change == 0)
    ensures forall k :: 0 <= k < |r| ==> r[k].asset == native
  {
    if fee.change > 0
    then [Coin(Account(FeeAccount), native, fee.refund, true)] else []
  }

  lemma KeepAppend(coins: seq<Coin>, c: Coin, p: Coin -> bool)
    ensures Keep(coins + [c], p) == if p(c) then Keep(coins, p) + [c] else Keep(coins, p)
  {
    assert (coins + [c])[..|coins|] == coins;
  }

  lemma KeepFeeOutputs(native: Asset, fee: FeePayment, x: AccountId)
    ensures Keep(FeeOutputs(native, fee), MineOut(x)) == if x == FeeAccount then FeeChange(native, fee) else []
    ensures x == FeeAccount ==> Keep(FeeOutputs(native, fee), OthersOut(x)) == []
  {
    var change, paid := FeeChange(native, fee), Coin(FeeScript, native, fee.amount, true);
    KeepAppend(change, paid, MineOut(x));
    KeepAppend(change, paid, OthersOut(x));
    KeepOutputs(change, Account(FeeAccount), x);
  }

  /** Its outputs: somebody's coins, one account's, and the fee outputs. */
  lemma SplitOutputs(others: seq<Coin>, mine: seq<Coin>, native: Asset, fee: FeePayment, account: AccountId, x: AccountId)
    requires AllOwner(mine, Account(account))
    requires forall k :: 0 <= k < |others| ==> others[k].owner != Account(x)
    ensures Keep(others + (mine + FeeOutputs(native, fee)), MineOut(x))
         == (if x == account then mine else []) + (if x == FeeAccount then FeeChange(native, fee) else [])
  {
    KeepNone(others, MineOut(x));
    KeepOutputs(mine, Account(account), x);
    KeepFeeOutputs(native, fee, x);
    Keep3(others, mine, FeeOutputs(native, fee), MineOut(x));
  }

  lemma OthersOutputs(others: seq<Coin>, mine: seq<Coin>, native: Asset, fee: FeePayment, account: AccountId)
    requires AllOwner(mine, Account(account))
    ensures Keep(others + (mine + FeeOutputs(native, fee)), OthersOut(FeeAccount))
         == Keep(others, OthersOut(FeeAccount)) + (if account == FeeAccount then [] else mine)
  {
    KeepOutputs(mine, Account(account), FeeAccount);
    KeepFeeOutputs(native, fee, FeeAccount);
    Keep3(others, mine, FeeOutputs(native, fee), OthersOut(FeeAccount));
  }

  // ---- A sending is a withdrawal of what was sent ----

  lemma SendShape(native: Asset, account: AccountId, outs: seq<Coin>, s: Sent)
    requires IsSending(native, account, outs, s)
    ensures s.tx.inputs == [] + (s.selected + s.fee.utxos)
    ensures s.tx.outputs == outs + (s.changes + FeeOutputs(native, s.fee))
    ensures AllOwner(s.selected, Account(account)) && AllFetchable(s.selected) && AllOwner(s.changes, Account(account))
    ensures AllOwner(s.fee.utxos, Account(FeeAccount)) && AllFetchable(s.fee.utxos)
  {
  }

  lemma SendOwned(native: Asset, account: AccountId, outs: seq<Coin>, s: Sent)
    requires IsSending(native, account, outs, s) && account != FeeAccount
    requires forall k :: 0 <= k < |outs| ==> outs[k].owner != Account(account)
    ensures InfoOf(s.tx, account).ownedInputs == s.selected
    ensures InfoOf(s.tx, account).ownedOutputs == s.changes
  {
    SendShape(native, account, outs, s);
    SplitInputs([], s.selected, s.fee.utxos, account, account);
    SplitOutputs(outs, s.changes, native, s.fee, account, account);
  }

  lemma {:induction false} TotAtLeast(coins: seq<Coin>, k: nat)
    requires k < |coins|
    ensures Tot(coins, coins[k].asset) >= coins[k].amount
  {
    if k < |coins| - 1 { TotAtLeast(coins[..|coins| - 1], k); }
  }

  lemma ChangeWasSelected(native: Asset, account: AccountId, outs: seq<Coin>, s: Sent)
    requires IsSending(native, account, outs, s)
    ensures Assets(s.changes) <= Assets(s.selected)
  {
    forall a | a in Assets(s.changes) ensures a in Assets(s.selected) {
      var k :| 0 <= k < |s.changes| && s.changes[k].asset == a;
      TotAtLeast(s.changes, k);
      TotPositive(s.selected, a);
    }
  }

  /** From the sending account, a sending that pays nobody of that account reads back as a withdrawal of exactly
      the amounts sent per asset, with no entry for any other asset, and as no deposit. */
  lemma SendIsWithdrawal(native: Asset, account: AccountId, outs: seq<Coin>, s: Sent, m: map<Asset, u64>)
    requires IsSending(native, account, outs, s) && account != FeeAccount
    requires forall k :: 0 <= k < |outs| ==> outs[k].owner != Account(account)
    requires Withdraws(InfoOf(s.tx, account), m)
    ensures IsWithdrawal(InfoOf(s.tx, account)) && !IsDeposit(InfoOf(s.tx, account))
    ensures Accumulates(m, outs)
    ensures m.Keys <= Assets(outs)
    ensures AllTotalsPositive(outs) ==> m == SentTotals(outs)
  {
    SendReadsBack(native, account, outs, s);
    SendOwned(native, account, outs, s);
    SendAmounts(native, account, outs, s, m);
  }

  lemma SendReadsBack(native: Asset, account: AccountId, outs: seq<Coin>, s: Sent)
    requires IsSending(native, account, outs, s) && account != FeeAccount
    requires forall k :: 0 <= k < |outs| ==> outs[k].owner != Account(account)
    ensures IsWithdrawal(InfoOf(s.tx, account)) && !IsDeposit(InfoOf(s.tx, account))
  {
    SendOwned(native, account, outs, s);
    ChangeWasSelected(native, account, outs, s);
    if s.changes != [] { assert s.changes[0].asset in Assets(s.changes); }
  }

  lemma SendAmounts(native: Asset, account: AccountId, outs: seq<Coin>, s: Sent, m: map<Asset, u64>)
    requires IsSending(native, account, outs, s) && m.Keys == Assets(s.selected)
    requires forall a :: a in m ==> m[a] == U64(Tot(s.selected, a) - Tot(s.changes, a))
    ensures Accumulates(m, outs) && m.Keys <= Assets(outs)
    ensures AllTotalsPositive(outs) ==> m == SentTotals(outs)
  {
    forall a ensures HoldsTotal(m, outs, a) {
      SendHoldsTotal(native, account, outs, s, m, a);
    }
    if AllTotalsPositive(outs) { TotalsAreSent(m, outs); }
  }

  lemma SendHoldsTotal(native: Asset, account: AccountId, outs: seq<Coin>, s: Sent, m: map<Asset, u64>, a: Asset)
    requires IsSending(native, account, outs, s) && m.Keys == Assets(s.selected)
    requires a in m ==> m[a] == U64(Tot(s.selected, a) - Tot(s.changes, a))
    ensures HoldsTotal(m, outs, a)
  {
    SpentIsKeyed(s.selected, a);
  }

  ghost predicate AllTotalsPositive(outs: seq<Coin>) {
    forall a :: a in Assets(outs) ==> U64(Tot(outs, a)) > 0
  }

  lemma TotalsAreSent(m: map<Asset, u64>, outs: seq<Coin>)
    requires Accumulates(m, outs) && m.Keys <= Assets(outs) && AllTotalsPositive(outs)
    ensures m == SentTotals(outs)
  {
    forall a | a in Assets(outs) ensures a in m {
      assert HoldsTotal(m, outs, a);
    }
    AccumulatedIsSent(m, outs);
  }

  lemma SpentIsKeyed(coins: seq<Coin>, asset: Asset)
    ensures Tot(coins, asset) > 0 ==> asset in Assets(coins)
  {
    if Tot(coins, asset) > 0 { TotPositive(coins, asset); }
  }

  /** The fee account's own sendings: once the network fee is taken off the native asset, again exactly the amounts sent. */
  lemma FeeAccountSend(native: Asset, outs: seq<Coin>, s: Sent, m: map<Asset, u64>)
    requires IsSending(native, FeeAccount, outs, s)
    requires outs != [] && AllOwner(outs, Outside) && s.tx.inputs != []
    requires Withdraws(InfoOf(s.tx, FeeAccount), m)
    ensures IsWithdrawal(InfoOf(s.tx, FeeAccount)) && InfoOf(s.tx, FeeAccount).fee == s.fee.amount
    ensures Accumulates(m[native := U64(Get(m, native) - s.fee.amount)], outs)
  {
    FeeAccountOwned(native, outs, s);
    FeeAccountAmounts(native, outs, s, m);
  }

  lemma FeeAccountAmounts(native: Asset, outs: seq<Coin>, s: Sent, m: map<Asset, u64>)
    requires IsSending(native, FeeAccount, outs, s) && m.Keys == Assets(s.tx.inputs)
    requires forall a :: a in m ==> m[a] == U64(Tot(s.tx.inputs, a) - Tot(s.changes + FeeChange(native, s.fee), a))
    ensures Accumulates(m[native := U64(Get(m, native) - s.fee.amount)], outs)
  {
    var m' := m[native := U64(Get(m, native) - s.fee.amount)];
    forall a ensures HoldsTotal(m', outs, a) {
      FeeAccountAsset(native, outs, s, m, a);
    }
  }

  lemma FeeTakenOff(entry: u64, difference: int, sent: u64, fee: u64, wrapped: bool, isNative: bool)
    requires entry == U64(difference)
    requires difference == sent + (if isNative then fee - (if wrapped then TWO_64 else 0) else 0)
    ensures sent == if isNative then U64(entry - fee) else entry
  {
    if isNative { WrapUndo(sent, fee, wrapped); }
  }

  lemma FeeAccountAsset(native: Asset, outs: seq<Coin>, s: Sent, m: map<Asset, u64>, a: Asset)
    requires IsSending(native, FeeAccount, outs, s)
    requires m.Keys == Assets(s.tx.inputs)
    requires a in m ==> m[a] == U64(Tot(s.tx.inputs, a) - Tot(s.changes + FeeChange(native, s.fee), a))
    ensures U64(Tot(outs, a)) == if a == native then U64(Get(m, a) - s.fee.amount) else Get(m, a)
  {
    SpentIsKeyed(s.tx.inputs, a);
    if a in m {
      FeeAccountDifference(native, outs, s, a);
      FeeTakenOff(m[a], Tot(s.tx.inputs, a) - Tot(s.changes + FeeChange(native, s.fee), a), U64(Tot(outs, a)), s.fee.amount,
                  !FeeFits(s.fee), a == native);
    } else {
      NothingSpent(native, outs, s, a);
    }
  }

  lemma NothingSpent(native: Asset, outs: seq<Coin>, s: Sent, a: Asset)
    requires IsSending(native, FeeAccount, outs, s) && Tot(s.tx.inputs, a) == 0
    ensures U64(Tot(outs, a)) == 0 && (a == native ==> s.fee.amount == 0)
  {
    TotConcat(s.selected, s.fee.utxos, a);
  }

  /** What the fee account spends of an asset beyond what it gets back: the amount sent, and the fee. */
  lemma FeeAccountDifference(native: Asset, outs: seq<Coin>, s: Sent, a: Asset)
    requires IsSending(native, FeeAccount, outs, s)
    ensures Tot(s.tx.inputs, a) - Tot(s.changes + FeeChange(native, s.fee), a)
         == U64(Tot(outs, a))
            + (if a == native then s.fee.amount - (if FeeFits(s.fee) then 0 else TWO_64) else 0)
  {
    var back := FeeChange(native, s.fee);
    TotConcat(s.selected, s.fee.utxos, a);
    TotConcat(s.changes, back, a);
    if a == native {
      FeeOutputsTotal(native, s.fee);
      TotAppend(back, Coin(FeeScript, native, s.fee.amount, true), a);
    } else {
      FeeOutputsOther(native, s.fee, a);
      TotOther(back, a);
    }
  }

  lemma FeeAccountOwned(native: Asset, outs: seq<Coin>, s: Sent)
    requires IsSending(native, FeeAccount, outs, s) && AllOwner(outs, Outside)
    ensures InfoOf(s.tx, FeeAccount).ownedInputs == s.tx.inputs
    ensures InfoOf(s.tx, FeeAccount).ownedOutputs == s.changes + FeeChange(native, s.fee)
    ensures InfoOf(s.tx, FeeAccount).notOwnedInputs == 0
    ensures InfoOf(s.tx, FeeAccount).notOwnedOutputs == |outs|
    ensures InfoOf(s.tx, FeeAccount).fee == s.fee.amount
  {
    SendShape(native, FeeAccount, outs, s);
    SplitInputs([], s.selected, s.fee.utxos, FeeAccount, FeeAccount);
    SplitOutputs(outs, s.changes, native, s.fee, FeeAccount, FeeAccount);
    OthersOutputs(outs, s.changes, native, s.fee, FeeAccount);
    KeepOutputs(outs, Outside, FeeAccount);
    assert s.tx.outputs[|s.tx.outputs| - 1] == Coin(FeeScript, native, s.fee.amount, true);
  }

  // ---- A completed swap is neither ----

  /** The trader is outside the wallet. */
  ghost predicate FromOutside(req: Request) {
    AllOwner(req.tx.inputs, Outside) && AllOwner(req.tx.outputs, Outside)
  }

  lemma SwapShape(native: Asset, account: AccountId, req: Request, feesToAdd: bool, c: Completion)
    requires IsCompletion(native, account, req, feesToAdd, c)
    ensures c.tx.inputs == req.tx.inputs + (c.utxos + c.fee.utxos)
    ensures c.tx.outputs == req.tx.outputs + (MarketOutputs(account, req, c.received, c.change) + FeeOutputs(native, c.fee))
    ensures AllOwner(c.utxos, Account(account)) && AllFetchable(c.utxos)
    ensures AllOwner(MarketOutputs(account, req, c.received, c.change), Account(account))
    ensures AllOwner(c.fee.utxos, Account(FeeAccount)) && AllFetchable(c.fee.utxos)
    ensures c.change > 0 || RequestedR(req, feesToAdd) > 0 ==> c.utxos != []
    ensures c.fee.change > 0 ==> c.fee.utxos != []
    ensures forall k :: 0 <= k < |c.utxos| ==> c.utxos[k].asset == req.assetR
  {
    assert Tot(c.utxos, req.assetR) > 0 ==> c.utxos != [];
    assert Tot(c.fee.utxos, native) > 0 ==> c.fee.utxos != [];
  }

  /** For the market account a completed swap is never a withdrawal, and a deposit only if no market coin was spent. */
  lemma SwapForMarket(native: Asset, account: AccountId, req: Request, feesToAdd: bool, c: Completion)
    requires IsCompletion(native, account, req, feesToAdd, c) && account != FeeAccount && FromOutside(req)
    requires req.assetP != req.assetR
    ensures !IsWithdrawal(InfoOf(c.tx, account))
    ensures IsDeposit(InfoOf(c.tx, account)) <==> c.utxos == []
    ensures RequestedR(req, feesToAdd) > 0 ==> !IsDeposit(InfoOf(c.tx, account))
  {
    SwapShape(native, account, req, feesToAdd, c);
    var market := MarketOutputs(account, req, c.received, c.change);
    SplitInputs(req.tx.inputs, c.utxos, c.fee.utxos, account, account);
    SplitOutputs(req.tx.outputs, market, native, c.fee, account, account);
    assert InfoOf(c.tx, account).ownedInputs == c.utxos && InfoOf(c.tx, account).ownedOutputs == market;
    assert market[0].asset == req.assetP;
    assert req.assetP in Assets(market) && req.assetP !in Assets(c.utxos);
  }

  /** For the fee account it is never a deposit, and a withdrawal only if neither side's coins are seen. */
  lemma SwapForFeeAccount(native: Asset, account: AccountId, req: Request, feesToAdd: bool, c: Completion)
    requires IsCompletion(native, account, req, feesToAdd, c) && account != FeeAccount && FromOutside(req)
    ensures !IsDeposit(InfoOf(c.tx, FeeAccount))
    ensures IsWithdrawal(InfoOf(c.tx, FeeAccount)) <==>
              c.fee.utxos != [] && c.utxos == [] && forall k :: 0 <= k < |req.tx.inputs| ==> !req.tx.inputs[k].fetchable
    ensures RequestedR(req, feesToAdd) > 0 ==> !IsWithdrawal(InfoOf(c.tx, FeeAccount))
  {
    SwapShape(native, account, req, feesToAdd, c);
    var market := MarketOutputs(account, req, c.received, c.change);
    SplitInputs(req.tx.inputs, c.utxos, c.fee.utxos, account, FeeAccount);
    SplitOutputs(req.tx.outputs, market, native, c.fee, account, FeeAccount);
    OthersOutputs(req.tx.outputs, market, native, c.fee, account);
    assert market != [];
    if Keep(req.tx.inputs, OthersIn(FeeAccount)) == [] {
      KeepSome(req.tx.inputs, OthersIn(FeeAccount));
    } else if forall k :: 0 <= k < |req.tx.inputs| ==> !req.tx.inputs[k].fetchable {
      KeepNone(req.tx.inputs, OthersIn(FeeAccount));
    }
  }
}
