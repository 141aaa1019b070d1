/** The trader's half of a swap and the daemon's check of its amounts. */
module SwapRequest {
  import opened Basics
  import opened UInt64
  import opened Ledger

  datatype UnblindedInput = UnblindedInput(index: nat, asset: Asset, amount: u64)

  datatype Request = Request(
    assetP: Asset, amountP: u64, assetR: Asset, amountR: u64, feeAsset: Asset, feeAmount: u64,
    tx: Tx, unblinded: seq<UnblindedInput>)

  datatype Verdict = Valid | MissingUnblindedInputs | IndexOutOfRange | AmountsDoNotMatch

  function RevealedTot(ins: seq<UnblindedInput>, asset: Asset): nat {
    if ins == [] then 0
    else
      var n := |ins| - 1;
      RevealedTot(ins[..n], asset) + (if ins[n].asset == asset then ins[n].amount else 0)
  }

  predicate IndexesInRange(req: Request) {
    forall k :: 0 <= k < |req.unblinded| ==> req.unblinded[k].index < |req.tx.inputs|
  }

  /** What the trader puts in of the asset to send, net of their change, as the code accumulates it. */
  function NetP(req: Request): u64 {
    U64(RevealedTot(req.unblinded, req.assetP) - Tot(req.tx.outputs, req.assetP))
  }

  function PaidR(req: Request): u64 {
    U64(Tot(req.tx.outputs, req.assetR))
  }

  /** The two amounts agree with the request once `sign` times the fee is added on the fee's side.
      With equal assets there is a single accumulator, the received amount. */
  predicate MatchesWithFee(req: Request, sign: int) {
    var p := if req.assetP == req.assetR then PaidR(req) else NetP(req);
    && U64(p + (if req.feeAsset == req.assetP then sign * req.feeAmount else 0)) == req.amountP
    && U64(PaidR(req) + (if req.feeAsset == req.assetR then sign * req.feeAmount else 0)) == req.amountR
  }

  predicate FeesAdded(req: Request) {
    MatchesWithFee(req, 1)
  }

  predicate FeesSubtracted(req: Request) {
    MatchesWithFee(req, -1)
  }

  predicate Accepted(req: Request) {
    req.unblinded != [] && IndexesInRange(req) && (FeesAdded(req) || FeesSubtracted(req))
  }

  /** The revealed amount of the asset sent; `ok == false` at the first index out of range. */
  method SumRevealed(req: Request) returns (ok: bool, amountP: u64)
    ensures ok <==> IndexesInRange(req)
    ensures ok ==> amountP == U64(RevealedTot(req.unblinded, req.assetP))
  {
    amountP := 0;
    for i := 0 to |req.unblinded|
      invariant forall k :: 0 <= k < i ==> req.unblinded[k].index < |req.tx.inputs|
      invariant amountP == U64(RevealedTot(req.unblinded[..i], req.assetP))
    {
      var input := req.unblinded[i];
      if input.index >= |req.tx.inputs| {
        return false, amountP;
      }
      assert req.unblinded[..i + 1][..i] == req.unblinded[..i];
      if input.asset == req.assetP {
        WrapAdd(RevealedTot(req.unblinded[..i], req.assetP), input.amount);
        amountP := U64(amountP + input.amount);
      }
    }
    assert req.unblinded[..|req.unblinded|] == req.unblinded;
    ok := true;
  }

  /** Adding the outputs of an asset one by one, wrapping at each. */
  ghost function Added(start: u64, outs: seq<Coin>, asset: Asset): u64 {
    if outs == [] then start
    else
      var n := |outs| - 1;
      var sofar := Added(start, outs[..n], asset);
      if outs[n].asset == asset then U64(sofar + outs[n].amount) else sofar
  }

  lemma {:induction false} AddedIsTotal(start: u64, outs: seq<Coin>, asset: Asset)
    ensures Added(start, outs, asset) == U64(start + Tot(outs, asset))
  {
    if outs != [] {
      var n := |outs| - 1;
      AddedIsTotal(start, outs[..n], asset);
      WrapAdd(start + Tot(outs[..n], asset), outs[n].amount);
    }
  }

  /** Taking them off one by one. */
  ghost function TakenOff(start: u64, outs: seq<Coin>, asset: Asset): u64 {
    if outs == [] then start
    else
      var n := |outs| - 1;
      var sofar := TakenOff(start, outs[..n], asset);
      if outs[n].asset == asset then U64(sofar - outs[n].amount) else sofar
  }

  lemma {:induction false} TakenOffIsTotal(start: u64, outs: seq<Coin>, asset: Asset)
    ensures TakenOff(start, outs, asset) == U64(start - Tot(outs, asset))
  {
    if outs != [] {
      var n := |outs| - 1;
      TakenOffIsTotal(start, outs[..n], asset);
      WrapAdd(start - Tot(outs[..n], asset), 0 - outs[n].amount);
    }
  }

  method SumOutputs(req: Request, revealed: u64) returns (amountP: u64, amountR: u64)
    ensures amountP == U64(revealed - Tot(req.tx.outputs, req.assetP))
    ensures amountR == PaidR(req)
  {
    amountP, amountR := revealed, 0;
    var outs := req.tx.outputs;
    for i := 0 to |outs|
      invariant amountR == Added(0, outs[..i], req.assetR)
      invariant amountP == TakenOff(revealed, outs[..i], req.assetP)
    {
      assert outs[..i + 1][..i] == outs[..i];
      if outs[i].asset == req.assetR {
        amountR := U64(amountR + outs[i].amount);
      }
      if outs[i].asset == req.assetP {
        amountP := U64(amountP - outs[i].amount);
      }
    }
    assert outs[..|outs|] == outs;
    AddedIsTotal(0, outs, req.assetR);
    TakenOffIsTotal(revealed, outs, req.assetP);
  }

  /** Adds (or, with `sign == -1`, takes off) the fee in a map of the two amounts and compares. */
  method MatchAmounts(req: Request, amountP: u64, amountR: u64, sign: int) returns (ok: bool)
    requires amountP == NetP(req) && amountR == PaidR(req)
    requires sign == 1 || sign == -1
    ensures ok <==> MatchesWithFee(req, sign)
  {
    var amounts := map[req.assetP := amountP, req.assetR := amountR];
    var current := if req.feeAsset in amounts then amounts[req.feeAsset] else 0;
    amounts := amounts[req.feeAsset := U64(current + sign * req.feeAmount)];
    ok := amounts[req.assetP] == req.amountP && amounts[req.assetR] == req.amountR;
  }

  method Validate(req: Request) returns (v: Verdict)
    ensures v == MissingUnblindedInputs <==> req.unblinded == []
    ensures v == IndexOutOfRange <==> exists k :: 0 <= k < |req.unblinded| && req.unblinded[k].index >= |req.tx.inputs|
    ensures v == Valid <==> Accepted(req)
  {
    if |req.unblinded| <= 0 {
      return MissingUnblindedInputs;
    }
    var inRange, revealed := SumRevealed(req);
    if !inRange {
      return IndexOutOfRange;
    }
    var amountP, amountR := SumOutputs(req, revealed);
    WrapAdd(RevealedTot(req.unblinded, req.assetP), 0 - Tot(req.tx.outputs, req.assetP));
    var added := MatchAmounts(req, amountP, amountR, 1);
    if added {
      return Valid;
    }
    var subtracted := MatchAmounts(req, amountP, amountR, -1);
    v := if !subtracted then AmountsDoNotMatch else Valid;
  }

  /** The shape every request is assumed to have: distinct assets, a fee on one of them, a half that spends only
      the asset sent, pays only the two assets, reveals each of its inputs truthfully, and sums that do not wrap. */
  ghost predicate WellFormed(req: Request) {
    && req.assetP != req.assetR
    && (req.feeAsset == req.assetP || req.feeAsset == req.assetR)
    && (forall k :: 0 <= k < |req.tx.inputs| ==> req.tx.inputs[k].asset == req.assetP)
    && (forall k :: 0 <= k < |req.tx.outputs| ==> req.tx.outputs[k].asset in {req.assetP, req.assetR})
    && RevealedTot(req.unblinded, req.assetP) == Tot(req.tx.inputs, req.assetP)
    && Tot(req.tx.inputs, req.assetP) < TWO_63
    && Tot(req.tx.outputs, req.assetP) < TWO_63 && Tot(req.tx.outputs, req.assetR) < TWO_63
    && req.amountP + req.feeAmount < TWO_63 && req.amountR + req.feeAmount < TWO_63
  }

  /** The branch that agrees with the side the fee is on. */
  predicate MatchingBranch(req: Request) {
    if req.feeAsset == req.assetP then FeesSubtracted(req) else FeesAdded(req)
  }

  predicate OtherBranch(req: Request) {
    if req.feeAsset == req.assetP then FeesAdded(req) else FeesSubtracted(req)
  }

  /** What the trader owes and is owed in the two assets, in exact integers. */
  function OwedP(req: Request): int {
    req.amountP + (if req.feeAsset == req.assetP then req.feeAmount else 0)
  }

  function OwedR(req: Request): int {
    req.amountR - (if req.feeAsset == req.assetR then req.feeAmount else 0)
  }

  /** Behind the modular check: the matching branch is the exact equation on both assets. */
  lemma MatchingIsExact(req: Request)
    requires WellFormed(req)
    ensures MatchingBranch(req) <==>
              Tot(req.tx.inputs, req.assetP) - Tot(req.tx.outputs, req.assetP) == OwedP(req)
              && Tot(req.tx.outputs, req.assetR) == OwedR(req)
  {
    WrapAdd(RevealedTot(req.unblinded, req.assetP) - Tot(req.tx.outputs, req.assetP), 0 - req.feeAmount);
  }

  /** With a positive fee the other branch accepts only what the matching one refuses. */
  lemma BranchesExclude(req: Request)
    requires WellFormed(req) && OtherBranch(req)
    ensures MatchingBranch(req) <==> req.feeAmount == 0
  {
    MatchingIsExact(req);
    WrapAdd(RevealedTot(req.unblinded, req.assetP) - Tot(req.tx.outputs, req.assetP), req.feeAmount);
  }

  /** Paying 5 of the 7 sent, for 3, with a fee of 2 on the side sent: the fee is missing and added by the check. */
  function Underpaying(p: Asset, r: Asset): Request {
    Request(p, 7, r, 3, p, 2, Tx([Coin(Outside, p, 5, false)], [Coin(Outside, r, 3, true)]), [UnblindedInput(0, p, 5)])
  }

  /** Such a request is well formed and accepted, by the branch that does not match. */
  lemma OtherBranchHappens(p: Asset, r: Asset)
    requires p != r
    ensures var req := Underpaying(p, r); WellFormed(req) && Accepted(req) && OtherBranch(req) && req.feeAmount > 0
  {
    var req := Underpaying(p, r);
    TotOne(req.tx.inputs[0], p);
    TotOne(req.tx.outputs[0], p);
    TotOne(req.tx.outputs[0], r);
    assert req.unblinded[..0] == [];
    assert RevealedTot(req.unblinded, p) == 5;
  }
}
