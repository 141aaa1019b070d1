/** The trade entity: six operations, a clock and a parser that may reject any message. */
module Trade {
  import opened Basics
  import opened UInt64
  import opened Decimals

  const SECOND := 1_000_000_000

  datatype Code = Undefined | Proposal | Accepted | Completed | Settled | Expired {
    function Rank(): nat {
      match this
      case Undefined => 0
      case Proposal => 1
      case Accepted => 2
      case Completed => 3
      case Settled => 4
      case Expired => 5
    }
  }

  datatype Swap = Swap(id: string, message: string, timestamp: int)

  /** What the parser makes of a message: the value, or an error code. */
  datatype Parsed<+T> = Parsed(value: T) | Rejected(errCode: nat)

  datatype Message = Message(id: string, content: string)

  datatype TxDetails = TxDetails(txHex: string, txid: string, pset: string)

  datatype Terms = Terms(
    tradeType: int, marketName: string, base: Asset, quote: Asset, feeAsset: Asset, feeAmount: u64, traderPubkey: string)

  datatype Price = Price(basePrice: int, quotePrice: int)

  datatype ProposedSwap = ProposedSwap(id: string, assetP: Asset, amountP: u64, amountR: u64, pset: string)

  datatype Failure = UnknownType | MustBeProposal | InvalidExpiryTime | MustBeAccepted | TradeExpired
                   | MustBeCompletedOrAccepted | NullExpiryTime | ExpiryTimeNotReached

  /** What a call returns: a flag, an error, or the panic of a division by zero. */
  datatype Outcome = Returns(ok: bool) | Fails(failure: Failure) | Panics

  datatype State = State(
    code: Code, failed: bool, terms: Option<Terms>, price: Option<Price>, pset: string, txHex: string, txid: string,
    expiryTime: int, settlementTime: int,
    request: Option<Swap>, accept: Option<Swap>, complete: Option<Swap>, fail: Option<Swap>)

  const NewState := State(Undefined, false, None, None, "", "", "", 0, 0, None, None, None, None)

  datatype Op =
    | Propose(terms: Terms, swap: ProposedSwap, serialized: Parsed<string>)
    | Accept(pset: string, expiryTime: int, acceptMsg: Parsed<Message>)
    | Complete(parsed: Parsed<TxDetails>, completeMsg: Parsed<Message>)
    | Settle(settlementTime: int)
    | Fail
    | Expire

  /** A call at a moment of the clock, in nanoseconds; `failMsg` is what a failure would be serialized to. */
  datatype Event = Event(op: Op, now: nat, failMsg: Message)

  function Unix(now: int): int {
    now / SECOND
  }

  /** The market price of a swap; none when a division by zero panics. */
  function MarketPrice(swap: ProposedSwap, quote: Asset): Option<Price> {
    var p, r := I64(swap.amountP), I64(swap.amountR);
    if p == 0 || r == 0 then None
    else if swap.assetP == quote then Some(Price(Div(r, p), Div(p, r)))
    else Some(Price(Div(p, r), Div(r, p)))
  }

  // ---- What each operation does to the state ----

  function Failing(s: State, failMsg: Message): State {
    if s.failed then s else s.(fail := Some(Swap(failMsg.id, failMsg.content, 0)), failed := true)
  }

  predicate PastExpiry(s: State, now: int) {
    s.code == Expired || (s.expiryTime > 0 && now > s.expiryTime * SECOND)
  }

  function AfterPropose(s: State, terms: Terms, swap: ProposedSwap, serialized: Parsed<string>, now: nat, failMsg: Message): (State, Outcome) {
    if s.code.Rank() >= Proposal.Rank() then (s, Returns(true))
    else if terms.tradeType != 0 && terms.tradeType != 1 then (s, Fails(UnknownType))
    else
      var s' := s.(terms := Some(terms), request := Some(Swap(swap.id, "", Unix(now))), pset := swap.pset, code := Proposal);
      match serialized
      case Rejected(_) => (Failing(s', failMsg), Returns(false))
      case Parsed(msg) =>
        match MarketPrice(swap, terms.quote)
        case None => (s', Panics)
        case Some(price) =>
          (s'.(request := Some(Swap(swap.id, msg, Unix(now))), price := Some(price)), Returns(true))
  }

  function AfterAccept(s: State, pset: string, expiryTime: int, acceptMsg: Parsed<Message>, now: nat, failMsg: Message): (State, Outcome) {
    if s.code.Rank() >= Accepted.Rank() then (s, Returns(true))
    else if s.code != Proposal then (s, Fails(MustBeProposal))
    else if s.request.None? then (s, Panics)
    else if expiryTime <= s.request.value.timestamp then (s, Fails(InvalidExpiryTime))
    else
      match acceptMsg
      case Rejected(_) => (Failing(s, failMsg), Returns(false))
      case Parsed(m) =>
        (s.(expiryTime := expiryTime, code := Accepted, accept := Some(Swap(m.id, m.content, Unix(now))), pset := pset), Returns(true))
  }

  function AfterComplete(s: State, parsed: Parsed<TxDetails>, completeMsg: Parsed<Message>, now: nat, failMsg: Message): (State, Outcome) {
    if s.code.Rank() >= Completed.Rank() then (s, Returns(true))
    else if s.code != Accepted then (s, Fails(MustBeAccepted))
    else if PastExpiry(s, now) then (s.(failed := true), Fails(TradeExpired))
    else if parsed.Rejected? || completeMsg.Rejected? then (Failing(s, failMsg), Returns(false))
    else
      var d, m := parsed.value, completeMsg.value;
      (s.(complete := Some(Swap(m.id, m.content, Unix(now))), code := Completed, txHex := d.txHex, txid := d.txid,
          pset := if |s.pset| > 0 then d.pset else s.pset), Returns(true))
  }

  function AfterSettle(s: State, settlementTime: int): (State, Outcome) {
    if s.code == Settled then (s, Returns(true))
    else if !(s.code == Completed || s.code == Accepted) || s.failed then (s, Fails(MustBeCompletedOrAccepted))
    else (s.(expiryTime := 0, settlementTime := settlementTime, code := Settled), Returns(true))
  }

  function AfterExpire(s: State, now: nat): (State, Outcome) {
    if s.code == Expired then (s, Returns(true))
    else if s.expiryTime <= 0 then (s, Fails(NullExpiryTime))
    else if now < s.expiryTime * SECOND then (s, Fails(ExpiryTimeNotReached))
    else (s.(code := Expired), Returns(true))
  }

  function Step(s: State, e: Event): State {
    match e.op
    case Propose(terms, swap, serialized) => AfterPropose(s, terms, swap, serialized, e.now, e.failMsg).0
    case Accept(pset, expiryTime, acceptMsg) => AfterAccept(s, pset, expiryTime, acceptMsg, e.now, e.failMsg).0
    case Complete(parsed, completeMsg) => AfterComplete(s, parsed, completeMsg, e.now, e.failMsg).0
    case Settle(settlementTime) => AfterSettle(s, settlementTime).0
    case Fail => Failing(s, e.failMsg)
    case Expire => AfterExpire(s, e.now).0
  }

  // ---- The entity itself ----

  class TradeEntity {
    var code: Code
    var failed: bool
    var terms: Option<Terms>
    var price: Option<Price>
    var pset: string
    var txHex: string
    var txid: string
    var expiryTime: int
    var settlementTime: int
    var swapRequest: Option<Swap>
    var swapAccept: Option<Swap>
    var swapComplete: Option<Swap>
    var swapFail: Option<Swap>

    ghost function Current(): State
      reads this
    {
      State(code, failed, terms, price, pset, txHex, txid, expiryTime, settlementTime,
            swapRequest, swapAccept, swapComplete, swapFail)
    }

    constructor ()
      ensures Current() == NewState
    {
      code, failed, terms, price, pset, txHex, txid := Undefined, false, None, None, "", "", "";
      expiryTime, settlementTime := 0, 0;
      swapRequest, swapAccept, swapComplete, swapFail := None, None, None, None;
    }

    method DoFail(failMsg: Message)
      modifies this
      ensures Current() == Failing(old(Current()), failMsg)
    {
      if failed { return; }
      swapFail := Some(Swap(failMsg.id, failMsg.content, 0));
      failed := true;
    }

    method DoPropose(newTerms: Terms, swap: ProposedSwap, serialized: Parsed<string>, now: nat, failMsg: Message) returns (r: Outcome)
      modifies this
      ensures (Current(), r) == AfterPropose(old(Current()), newTerms, swap, serialized, now, failMsg)
    {
      if code.Rank() >= Proposal.Rank() { return Returns(true); }
      if newTerms.tradeType != 0 && newTerms.tradeType != 1 { return Fails(UnknownType); }
      terms := Some(newTerms);
      swapRequest := Some(Swap(swap.id, "", Unix(now)));
      pset := swap.pset;
      code := Proposal;
      if serialized.Rejected? {
        DoFail(failMsg);
        return Returns(false);
      }
      var computed := MarketPrice(swap, newTerms.quote);
      if computed.None? { return Panics; }
      swapRequest := Some(Swap(swap.id, serialized.value, Unix(now)));
      price := computed;
      r := Returns(true);
    }

    method DoAccept(newPset: string, newExpiry: int, acceptMsg: Parsed<Message>, now: nat, failMsg: Message) returns (r: Outcome)
      modifies this
      ensures (Current(), r) == AfterAccept(old(Current()), newPset, newExpiry, acceptMsg, now, failMsg)
    {
      if code.Rank() >= Accepted.Rank() { return Returns(true); }
      if code != Proposal { return Fails(MustBeProposal); }
      if swapRequest.None? { return Panics; }
      if newExpiry <= swapRequest.value.timestamp { return Fails(InvalidExpiryTime); }
      if acceptMsg.Rejected? {
        DoFail(failMsg);
        return Returns(false);
      }
      expiryTime := newExpiry;
      code := Accepted;
      swapAccept := Some(Swap(acceptMsg.value.id, acceptMsg.value.content, Unix(now)));
      pset := newPset;
      r := Returns(true);
    }

    method DoComplete(parsed: Parsed<TxDetails>, completeMsg: Parsed<Message>, now: nat, failMsg: Message) returns (r: Outcome)
      modifies this
      ensures (Current(), r) == AfterComplete(old(Current()), parsed, completeMsg, now, failMsg)
    {
      if code.Rank() >= Completed.Rank() { return Returns(true); }
      if code != Accepted { return Fails(MustBeAccepted); }
      if code == Expired || (expiryTime > 0 && now > expiryTime * SECOND) {
        if !failed { failed := true; }
        return Fails(TradeExpired);
      }
      if parsed.Rejected? {
        DoFail(failMsg);
        return Returns(false);
      }
      if completeMsg.Rejected? {
        DoFail(failMsg);
        return Returns(false);
      }
      swapComplete := Some(Swap(completeMsg.value.id, completeMsg.value.content, Unix(now)));
      code := Completed;
      txHex, txid := parsed.value.txHex, parsed.value.txid;
      if |pset| > 0 { pset := parsed.value.pset; }
      r := Returns(true);
    }

    method DoSettle(newSettlement: int) returns (r: Outcome)
      modifies this
      ensures (Current(), r) == AfterSettle(old(Current()), newSettlement)
    {
      if code == Settled { return Returns(true); }
      if !(code == Completed || code == Accepted) || failed { return Fails(MustBeCompletedOrAccepted); }
      expiryTime, settlementTime, code := 0, newSettlement, Settled;
      r := Returns(true);
    }

    method DoExpire(now: nat) returns (r: Outcome)
      modifies this
      ensures (Current(), r) == AfterExpire(old(Current()), now)
    {
      if code == Expired { return Returns(true); }
      if expiryTime <= 0 { return Fails(NullExpiryTime); }
      if now < expiryTime * SECOND { return Fails(ExpiryTimeNotReached); }
      code := Expired;
      r := Returns(true);
    }
  }

  // ---- Whole runs ----

  function Run(es: seq<Event>): State {
    if es == [] then NewState else Step(Run(es[..|es| - 1]), es[|es| - 1])
  }

  ghost predicate ClockNeverGoesBack(es: seq<Event>) {
    forall i, j :: 0 <= i <= j < |es| ==> es[i].now <= es[j].now
  }

  /** The status never goes back, ends stay ends, the failed flag stays and every message stays as first written. */
  ghost predicate Progress(a: State, b: State) {
    && a.code.Rank() <= b.code.Rank()
    && (a.code == Settled || a.code == Expired ==> b.code == a.code)
    && (a.failed ==> b.failed)
    && (a.request.Some? ==> b.request == a.request)
    && (a.accept.Some? ==> b.accept == a.accept)
    && (a.complete.Some? ==> b.complete == a.complete)
    && (a.fail.Some? ==> b.fail == a.fail)
  }

  /** What holds of every trade at a moment no earlier than its last call. */
  ghost predicate Inv(s: State, now: int) {
    && (s.request.Some? <==> s.code != Undefined)
    && (s.accept.Some? <==> s.code.Rank() >= Accepted.Rank())
    && (s.complete.Some? ==> s.code.Rank() >= Completed.Rank()) && (s.code == Completed ==> s.complete.Some?)
    && (s.expiryTime > 0 <==> s.code in {Accepted, Completed, Expired})
    && (s.fail.Some? ==> s.failed)
    && (s.request.Some? ==> 0 <= s.request.value.timestamp <= Unix(now))
    && (s.accept.Some? ==> s.request.value.timestamp <= s.accept.value.timestamp <= Unix(now))
    && (s.complete.Some? ==> s.accept.value.timestamp <= s.complete.value.timestamp <= Unix(now))
    && (s.complete.Some? && s.expiryTime > 0 ==> s.complete.value.timestamp <= s.expiryTime)
  }

  lemma StepProgress(s: State, e: Event)
    requires Inv(s, e.now)
    ensures Progress(s, Step(s, e))
  {
  }

  lemma StepKeepsInv(s: State, e: Event)
    requires Inv(s, e.now)
    ensures Inv(Step(s, e), e.now)
  {
  }

  lemma {:induction false} RunInv(es: seq<Event>, now: nat)
    requires ClockNeverGoesBack(es)
    requires es != [] ==> es[|es| - 1].now <= now
    ensures Inv(Run(es), now)
  {
    if es != [] {
      var n := |es| - 1;
      assert n > 0 ==> es[n - 1].now <= es[n].now;
      RunInv(es[..n], es[n].now);
      StepKeepsInv(Run(es[..n]), es[n]);
    }
  }

  /** Between any two moments of any run, with any parser outcomes, the trade only progresses. */
  lemma {:induction false} RunProgress(es: seq<Event>, i: nat)
    requires i <= |es| && ClockNeverGoesBack(es)
    ensures Progress(Run(es[..i]), Run(es))
  {
    if i == |es| {
      assert es[..i] == es;
    } else {
      var n := |es| - 1;
      RunProgress(es[..n], i);
      assert es[..n][..i] == es[..i];
      assert n > 0 ==> es[n - 1].now <= es[n].now;
      RunInv(es[..n], es[n].now);
      StepProgress(Run(es[..n]), es[n]);
    }
  }

  /** A call to complete a trade, not failed before, that finds it past its expiry. */
  ghost predicate FoundLate(s: State, e: Event) {
    e.op.Complete? && s.code == Accepted && !s.failed && PastExpiry(s, e.now)
  }

  lemma StepFailsSilently(s: State, e: Event)
    requires s.fail.Some? ==> s.failed
    ensures Step(s, e).failed && Step(s, e).fail.None? <==> (s.failed && s.fail.None?) || FoundLate(s, e)
  {
  }

  ghost predicate LateAt(es: seq<Event>, i: nat)
    requires i < |es|
  {
    FoundLate(Run(es[..i]), es[i])
  }

  ghost predicate EverFoundLate(es: seq<Event>) {
    exists i: nat :: i < |es| && LateAt(es, i)
  }

  lemma LateAtPrefix(es: seq<Event>, n: nat, i: nat)
    requires i < n <= |es|
    ensures LateAt(es[..n], i) <==> LateAt(es, i)
  {
    assert es[..n][..i] == es[..i];
  }

  lemma EverFoundLateStep(es: seq<Event>)
    requires es != []
    ensures EverFoundLate(es) <==> EverFoundLate(es[..|es| - 1]) || LateAt(es, |es| - 1)
  {
    var n := |es| - 1;
    forall i: nat | i < n ensures LateAt(es[..n], i) <==> LateAt(es, i) {
      LateAtPrefix(es, n, i);
    }
  }

  /** A trade is failed without a fail message exactly if some call to complete it found it late. */
  lemma {:induction false} FailedWithoutMessage(es: seq<Event>)
    requires ClockNeverGoesBack(es)
    ensures Run(es).failed && Run(es).fail.None? <==> EverFoundLate(es)
  {
    if es != [] {
      var n := |es| - 1;
      FailedWithoutMessage(es[..n]);
      assert n > 0 ==> es[n - 1].now <= es[n].now;
      RunInv(es[..n], es[n].now);
      StepFailsSilently(Run(es[..n]), es[n]);
      EverFoundLateStep(es);
    }
  }

  method Perform(t: TradeEntity, e: Event)
    modifies t
    ensures t.Current() == Step(old(t.Current()), e)
  {
    match e.op {
      case Propose(terms, swap, serialized) => var _ := t.DoPropose(terms, swap, serialized, e.now, e.failMsg);
      case Accept(pset, expiryTime, acceptMsg) => var _ := t.DoAccept(pset, expiryTime, acceptMsg, e.now, e.failMsg);
      case Complete(parsed, completeMsg) => var _ := t.DoComplete(parsed, completeMsg, e.now, e.failMsg);
      case Settle(settlementTime) => var _ := t.DoSettle(settlementTime);
      case Fail => t.DoFail(e.failMsg);
      case Expire => var _ := t.DoExpire(e.now);
    }
  }

  /** Any calls on a new trade, with a clock that does not go back: the entity is in the state of the run, with the invariant. */
  method RunCalls(es: seq<Event>) returns (t: TradeEntity)
    requires ClockNeverGoesBack(es)
    ensures fresh(t) && t.Current() == Run(es)
    ensures Inv(t.Current(), if es == [] then 0 else es[|es| - 1].now)
  {
    t := new TradeEntity();
    for i := 0 to |es|
      invariant fresh(t) && t.Current() == Run(es[..i])
    {
      assert es[..i + 1][..i] == es[..i];
      Perform(t, es[i]);
    }
    assert es[..|es|] == es;
    RunInv(es, if es == [] then 0 else es[|es| - 1].now);
  }
}
