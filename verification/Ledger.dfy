/** Transactions as lists of coins, and totals per asset. */
module Ledger {
  import opened Basics
  import opened UInt64

  /** Who can spend a coin: a wallet account, someone outside the wallet, or nobody (the fee output). */
  datatype Owner = Account(id: AccountId) | Outside | FeeScript

  /** `fetchable`: the wallet can fetch the transaction that created the coin. */
  datatype Coin = Coin(owner: Owner, asset: Asset, amount: u64, fetchable: bool)

  datatype Tx = Tx(inputs: seq<Coin>, outputs: seq<Coin>)

  function Tot(coins: seq<Coin>, asset: Asset): nat {
    if coins == [] then 0
    else
      var n := |coins| - 1;
      Tot(coins[..n], asset) + (if coins[n].asset == asset then coins[n].amount else 0)
  }

  lemma TotAppend(coins: seq<Coin>, c: Coin, asset: Asset)
    ensures Tot(coins + [c], asset) == Tot(coins, asset) + (if c.asset == asset then c.amount else 0)
  {
    assert (coins + [c])[..|coins|] == coins;
  }

  lemma TotOne(c: Coin, asset: Asset)
    ensures Tot([c], asset) == if c.asset == asset then c.amount else 0
  {
    assert [c][..0] == [];
  }

  lemma {:induction false} TotConcat(a: seq<Coin>, b: seq<Coin>, asset: Asset)
    ensures Tot(a + b, asset) == Tot(a, asset) + Tot(b, asset)
  {
    if b == [] {
      assert a + b == a;
    } else {
      var n := |b| - 1;
      TotConcat(a, b[..n], asset);
      assert a + b == a + b[..n] + [b[n]];
      TotAppend(a + b[..n], b[n], asset);
    }
  }

  lemma {:induction false} TotPositive(coins: seq<Coin>, asset: Asset)
    requires Tot(coins, asset) > 0
    ensures exists k :: 0 <= k < |coins| && coins[k].asset == asset
  {
    var n := |coins| - 1;
    if coins[n].asset != asset {
      TotPositive(coins[..n], asset);
    }
  }

  /** Only coins of `asset` count towards nothing but `asset`. */
  lemma {:induction false} TotOther(coins: seq<Coin>, asset: Asset)
    requires forall k :: 0 <= k < |coins| ==> coins[k].asset != asset
    ensures Tot(coins, asset) == 0
  {
    if coins != [] {
      TotOther(coins[..|coins| - 1], asset);
    }
  }

  function Assets(coins: seq<Coin>): set<Asset> {
    set k | 0 <= k < |coins| :: coins[k].asset
  }

  lemma AssetsAppend(coins: seq<Coin>, c: Coin)
    ensures Assets(coins + [c]) == Assets(coins) + {c.asset}
  {
    assert forall k :: 0 <= k < |coins| ==> (coins + [c])[k] == coins[k];
    assert (coins + [c])[|coins|] == c;
    forall a | a in Assets(coins) ensures a in Assets(coins + [c]) {
      var k :| 0 <= k < |coins| && coins[k].asset == a;
      assert (coins + [c])[k].asset == a;
    }
  }

  /** Nothing is created or lost: every asset's inputs and outputs have equal totals. */
  ghost predicate Balanced(tx: Tx) {
    forall asset :: Tot(tx.inputs, asset) == Tot(tx.outputs, asset)
  }

  ghost predicate AllOf(coins: seq<Coin>, owner: Owner, asset: Asset) {
    forall k :: 0 <= k < |coins| ==> coins[k].owner == owner && coins[k].asset == asset && coins[k].fetchable
  }
}
