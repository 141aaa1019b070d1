/** Types shared by the models of the daemon's components. */
module Basics {

  datatype Option<+T> = None | Some(value: T)

  newtype byte = x: int | 0 <= x < 256
  type Bytes = seq<byte>

  /** An asset, by the hex form of its id. */
  datatype Asset = Asset(hex: string)

  /** A wallet account: the one that pays network fees, or any other by its name. */
  datatype AccountId = FeeAccount | Named(name: string)

  /** The market's assets as a proposer trades them: quote is sent and base received when buying, the reverse when selling. */
  predicate Oriented(isBuy: bool, assetP: Asset, assetR: Asset, base: Asset, quote: Asset) {
    && base != quote
    && assetP == (if isBuy then quote else base)
    && assetR == (if isBuy then base else quote)
  }

  lemma WithoutOne<T>(list: seq<T>, i: nat)
    requires i < |list|
    ensures multiset(list[..i] + list[i + 1..]) == multiset(list) - multiset{list[i]}
  {
    assert list == list[..i] + [list[i]] + list[i + 1..];
  }
}
