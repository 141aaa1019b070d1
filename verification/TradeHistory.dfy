/** What a run of calls makes of a trade, told from the calls: which status is reached, by which call, and what it stored. */
module TradeHistory {
  import opened Basics
  import opened UInt64
  import opened Decimals
  import opened Trade

  datatype Milestone = ToProposal | ToAccepted | ToCompleted | ToSettled | ToExpired

  /** What a call must find for the trade to reach a status. */
  predicate Reaches(s: State, e: Event, m: Milestone) {
    match m
    case ToProposal => e.op.Propose? && s.code == Undefined && e.op.terms.tradeType in {0, 1}
    case ToAccepted =>
      && e.op.Accept? && s.code == Proposal
      && s.request.Some? && s.request.value.timestamp < e.op.expiryTime && e.op.acceptMsg.Parsed?
    case ToCompleted =>
      && e.op.Complete? && s.code == Accepted
      && e.now <= s.expiryTime * SECOND && e.op.parsed.Parsed? && e.op.completeMsg.Parsed?
    case ToSettled => e.op.Settle? && s.code in {Accepted, Completed} && !s.failed
    case ToExpired => e.op.Expire? && s.code in {Accepted, Completed} && e.now >= s.expiryTime * SECOND
  }

  function CodeOf(m: Milestone): Code {
    match m
    case ToProposal => Proposal
    case ToAccepted => Accepted
    case ToCompleted => Completed
    case ToSettled => Settled
    case ToExpired => Expired
  }

  predicate ReachesNone(s: State, e: Event) {
    && !Reaches(s, e, ToProposal) && !Reaches(s, e, ToAccepted) && !Reaches(s, e, ToCompleted)
    && !Reaches(s, e, ToSettled) && !Reaches(s, e, ToExpired)
  }

  lemma StepReaches(s: State, e: Event, m: Milestone)
    requires Inv(s, e.now)
    ensures Reaches(s, e, m) ==> Step(s, e).code == CodeOf(m)
    ensures ReachesNone(s, e) ==> Step(s, e).code == s.code
  {
  }

  // ---- The status of a run ----

  ghost predicate ReachedAt(es: seq<Event>, i: nat, m: Milestone)
    requires i < |es|
  {
    Reaches(Run(es[..i]), es[i], m)
  }

  /** Some call of the run took the trade to the status. */
  ghost predicate Reached(es: seq<Event>, m: Milestone) {
    exists i: nat :: i < |es| && ReachedAt(es, i, m)
  }

  lemma ReachedAtPrefix(es: seq<Event>, n: nat, i: nat, m: Milestone)
    requires i < n <= |es|
    ensures ReachedAt(es[..n], i, m) <==> ReachedAt(es, i, m)
  {
    assert es[..n][..i] == es[..i];
  }

  lemma ReachedStep(es: seq<Event>, m: Milestone)
    requires es != []
    ensures Reached(es, m) <==> Reached(es[..|es| - 1], m) || ReachedAt(es, |es| - 1, m)
  {
    var n := |es| - 1;
    forall i: nat | i < n ensures ReachedAt(es[..n], i, m) <==> ReachedAt(es, i, m) {
      ReachedAtPrefix(es, n, i, m);
    }
  }

  /** The status that the last milestone reached stands for. */
  ghost function StatusFrom(es: seq<Event>): Code {
    if Reached(es, ToExpired) then Expired
    else if Reached(es, ToSettled) then Settled
    else if Reached(es, ToCompleted) then Completed
    else if Reached(es, ToAccepted) then Accepted
    else if Reached(es, ToProposal) then Proposal
    else Undefined
  }

  lemma BeforeLast(es: seq<Event>)
    requires es != [] && ClockNeverGoesBack(es)
    ensures ClockNeverGoesBack(es[..|es| - 1]) && Inv(Run(es[..|es| - 1]), es[|es| - 1].now)
  {
    var n := |es| - 1;
    assert n > 0 ==> es[n - 1].now <= es[n].now;
    RunInv(es[..n], es[n].now);
  }

  /** Of the two ends a run reaches at most one, and every status needs the ones before it. */
  ghost predicate InSequence(es: seq<Event>) {
    && !(Reached(es, ToExpired) && Reached(es, ToSettled))
    && (Reached(es, ToCompleted) || Reached(es, ToSettled) || Reached(es, ToExpired) ==> Reached(es, ToAccepted))
    && (Reached(es, ToAccepted) ==> Reached(es, ToProposal))
  }

  /** Every run: the status is decided by the calls that reached one. */
  lemma {:induction false} StatusOfRun(es: seq<Event>)
    requires ClockNeverGoesBack(es)
    ensures Run(es).code == StatusFrom(es) && InSequence(es)
  {
    if es != [] {
      var n := |es| - 1;
      BeforeLast(es);
      StatusOfRun(es[..n]);
      ReachedStep(es, ToProposal);
      ReachedStep(es, ToAccepted);
      ReachedStep(es, ToCompleted);
      ReachedStep(es, ToSettled);
      ReachedStep(es, ToExpired);
      StepStatus(Run(es[..n]), es[n]);
    }
  }

  lemma StepStatus(s: State, e: Event)
    requires Inv(s, e.now)
    ensures Step(s, e).code
         == if Reaches(s, e, ToProposal) then Proposal
            else if Reaches(s, e, ToAccepted) then Accepted
            else if Reaches(s, e, ToCompleted) then Completed
            else if Reaches(s, e, ToSettled) then Settled
            else if Reaches(s, e, ToExpired) then Expired
            else s.code
  {
    StepReaches(s, e, ToProposal);
    StepReaches(s, e, ToAccepted);
    StepReaches(s, e, ToCompleted);
    StepReaches(s, e, ToSettled);
    StepReaches(s, e, ToExpired);
  }

  /** Status by status, both ways. */
  lemma EachStatus(es: seq<Event>)
    requires ClockNeverGoesBack(es)
    ensures Run(es).code == Settled <==> Reached(es, ToSettled)
    ensures Run(es).code == Expired <==> Reached(es, ToExpired)
    ensures Run(es).code == Completed <==> Reached(es, ToCompleted) && !Reached(es, ToSettled) && !Reached(es, ToExpired)
    ensures Run(es).code == Accepted <==>
              Reached(es, ToAccepted) && !Reached(es, ToCompleted) && !Reached(es, ToSettled) && !Reached(es, ToExpired)
    ensures Run(es).code == Proposal <==> Reached(es, ToProposal) && !Reached(es, ToAccepted)
  {
    StatusOfRun(es);
  }

  // ---- What the calls stored ----

  /** A proposal whose message was serialized and whose amounts have a price. */
  predicate Priced(e: Event) {
    e.op.Propose? && e.op.serialized.Parsed? && e.op.swap.amountP != 0 && e.op.swap.amountR != 0
  }

  /** The amounts of the quote and the base asset that a proposal exchanges. */
  function QuoteSide(swap: ProposedSwap, quote: Asset): u64 {
    if swap.assetP == quote then swap.amountP else swap.amountR
  }

  function BaseSide(swap: ProposedSwap, quote: Asset): u64 {
    if swap.assetP == quote then swap.amountR else swap.amountP
  }

  /** To the nearest 10^-8: the quote price is quote per base, the base price the reverse. */
  ghost predicate IsPriceOf(price: Price, swap: ProposedSwap, quote: Asset) {
    var q, b := QuoteSide(swap, quote), BaseSide(swap, quote);
    q < TWO_63 && b < TWO_63 ==>
      && 0 - b <= 2 * (b * price.quotePrice - q * SCALE) <= b
      && 0 - q <= 2 * (q * price.basePrice - b * SCALE) <= q
  }

  /** A call of the kind that reaches a status, with the messages it needs. */
  predicate Fits(e: Event, m: Milestone) {
    match m
    case ToProposal => e.op.Propose?
    case ToAccepted => e.op.Accept? && e.op.acceptMsg.Parsed?
    case ToCompleted => e.op.Complete? && e.op.parsed.Parsed? && e.op.completeMsg.Parsed?
    case ToSettled => e.op.Settle?
    case ToExpired => e.op.Expire?
  }

  /** What a trade keeps of the call that reached a status. */
  ghost predicate Keeps(s: State, e: Event, m: Milestone)
    requires Fits(e, m)
  {
    match m
    case ToProposal =>
      && s.terms == Some(e.op.terms)
      && s.request == Some(Swap(e.op.swap.id, if Priced(e) then e.op.serialized.value else "", e.now / SECOND))
      && (s.price.Some? <==> Priced(e))
      && (s.price.Some? ==> IsPriceOf(s.price.value, e.op.swap, e.op.terms.quote))
    case ToAccepted =>
      s.accept == Some(Swap(e.op.acceptMsg.value.id, e.op.acceptMsg.value.content, e.now / SECOND))
    case ToCompleted =>
      && s.complete == Some(Swap(e.op.completeMsg.value.id, e.op.completeMsg.value.content, e.now / SECOND))
      && s.txHex == e.op.parsed.value.txHex && s.txid == e.op.parsed.value.txid
    case ToSettled =>
      s.settlementTime == e.op.settlementTime && s.expiryTime == 0
    case ToExpired =>
      s.expiryTime > 0
  }

  lemma PriceIsNearest(swap: ProposedSwap, quote: Asset)
    ensures MarketPrice(swap, quote).Some? <==> swap.amountP != 0 && swap.amountR != 0
    ensures MarketPrice(swap, quote).Some? ==> IsPriceOf(MarketPrice(swap, quote).value, swap, quote)
  {
  }

  /** The call that reaches a status stores it. */
  lemma StepStores(s: State, e: Event, m: Milestone)
    requires Inv(s, e.now) && Reaches(s, e, m) && (s.code == Undefined ==> s.price.None?)
    ensures Keeps(Step(s, e), e, m)
  {
    if m.ToProposal? { PriceIsNearest(e.op.swap, e.op.terms.quote); }
  }

  /** The fields that the call reaching a status writes. */
  ghost predicate SameFields(s: State, t: State, m: Milestone) {
    match m
    case ToProposal => t.terms == s.terms && t.request == s.request && t.price == s.price
    case ToAccepted => t.accept == s.accept
    case ToCompleted => t.complete == s.complete && t.txHex == s.txHex && t.txid == s.txid
    case ToSettled => t.settlementTime == s.settlementTime && t.expiryTime == s.expiryTime
    case ToExpired => s.expiryTime > 0 ==> t.expiryTime > 0
  }

  /** A call after that leaves them as they are. */
  lemma FieldsStay(s: State, e: Event, m: Milestone)
    requires Inv(s, e.now) && s.code.Rank() >= CodeOf(m).Rank()
    requires (m.ToCompleted? ==> s.complete.Some?) && (m.ToSettled? ==> s.code == Settled)
    ensures SameFields(s, Step(s, e), m)
  {
  }

  lemma {:induction false} NothingBeforeProposal(es: seq<Event>)
    requires ClockNeverGoesBack(es) && Run(es).code == Undefined
    ensures Run(es).terms.None? && Run(es).price.None? && Run(es).pset == ""
  {
    if es != [] {
      BeforeLast(es);
      StepProgress(Run(es[..|es| - 1]), es[|es| - 1]);
      NothingBeforeProposal(es[..|es| - 1]);
    }
  }

  lemma {:induction false} FieldsOfRun(es: seq<Event>, i: nat, m: Milestone, s: State)
    requires ClockNeverGoesBack(es) && i < |es| && ReachedAt(es, i, m)
    requires s == Run(es[..i + 1]) && (m.ToCompleted? ==> s.complete.Some?)
    ensures SameFields(s, Run(es), m)
    decreases |es|
  {
    var n := |es| - 1;
    if i == n {
      assert es[..i + 1] == es;
    } else {
      BeforeLast(es);
      ReachedAtPrefix(es, n, i, m);
      assert es[..n][..i + 1] == es[..i + 1];
      FieldsOfRun(es[..n], i, m, s);
      StaysReached(es[..n], i, m);
      FieldsStay(Run(es[..n]), es[n], m);
    }
  }

  lemma StoredAtOnce(es: seq<Event>, m: Milestone)
    requires ClockNeverGoesBack(es) && es != [] && ReachedAt(es, |es| - 1, m)
    ensures Keeps(Run(es), es[|es| - 1], m)
  {
    var n := |es| - 1;
    BeforeLast(es);
    if Run(es[..n]).code == Undefined { NothingBeforeProposal(es[..n]); }
    StepStores(Run(es[..n]), es[n], m);
  }

  /** Every run: what the call that reached a status stored is there at the end. */
  lemma StoredByCall(es: seq<Event>, i: nat, m: Milestone)
    requires ClockNeverGoesBack(es) && i < |es| && ReachedAt(es, i, m)
    ensures Keeps(Run(es), es[i], m)
  {
    var upTo := es[..i + 1];
    ReachedAtPrefix(es, i + 1, i, m);
    StoredAtOnce(upTo, m);
    FieldsOfRun(es, i, m, Run(upTo));
  }

  lemma AcceptedReached(es: seq<Event>)
    requires ClockNeverGoesBack(es)
    ensures Run(es).code == Accepted ==> Reached(es, ToAccepted)
  {
    StatusOfRun(es);
  }

  lemma StaysReached(es: seq<Event>, i: nat, m: Milestone)
    requires ClockNeverGoesBack(es) && i < |es| && ReachedAt(es, i, m)
    ensures Run(es).code.Rank() >= CodeOf(m).Rank() && (m.ToSettled? ==> Run(es).code == Settled)
  {
    StatusOfRun(es);
    assert Reached(es, m);
  }

  /** A milestone is reached by one call only. */
  lemma ReachedOnce(es: seq<Event>, i: nat, j: nat, m: Milestone)
    requires ClockNeverGoesBack(es) && i < j < |es| && ReachedAt(es, i, m)
    ensures !ReachedAt(es, j, m)
  {
    ReachedAtPrefix(es, j, i, m);
    StatusOfRun(es[..j]);
  }

  // ---- The transaction and the expiry, which later calls overwrite ----

  /** The transaction after a call. */
  function PsetAfter(s: State, e: Event): string {
    if Reaches(s, e, ToProposal) then e.op.swap.pset
    else if Reaches(s, e, ToAccepted) then e.op.pset
    else if Reaches(s, e, ToCompleted) && s.pset != "" then e.op.parsed.value.pset
    else s.pset
  }

  lemma StepPset(s: State, e: Event)
    requires Inv(s, e.now)
    ensures Step(s, e).pset == PsetAfter(s, e)
    ensures Step(s, e).expiryTime
         == if Reaches(s, e, ToAccepted) then e.op.expiryTime else if Reaches(s, e, ToSettled) then 0 else s.expiryTime
  {
  }

  lemma {:induction false} ProposedPset(es: seq<Event>, i: nat)
    requires ClockNeverGoesBack(es) && i < |es| && ReachedAt(es, i, ToProposal) && !Reached(es, ToAccepted)
    ensures Run(es).pset == es[i].op.swap.pset
    decreases |es|
  {
    var n := |es| - 1;
    BeforeLast(es);
    StepPset(Run(es[..n]), es[n]);
    if i < n {
      ReachedAtPrefix(es, n, i, ToProposal);
      ReachedStep(es, ToAccepted);
      ProposedPset(es[..n], i);
      StaysReached(es[..n], i, ToProposal);
      AcceptedReached(es[..n]);
    }
  }

  lemma {:induction false} AcceptedPset(es: seq<Event>, i: nat)
    requires ClockNeverGoesBack(es) && i < |es| && ReachedAt(es, i, ToAccepted) && !Reached(es, ToCompleted)
    ensures Run(es).pset == es[i].op.pset
    decreases |es|
  {
    var n := |es| - 1;
    BeforeLast(es);
    StepPset(Run(es[..n]), es[n]);
    if i < n {
      ReachedAtPrefix(es, n, i, ToAccepted);
      ReachedStep(es, ToCompleted);
      AcceptedPset(es[..n], i);
      StaysReached(es[..n], i, ToAccepted);
    }
  }

  lemma {:induction false} CompletedPset(es: seq<Event>, i: nat)
    requires ClockNeverGoesBack(es) && i < |es| && ReachedAt(es, i, ToCompleted)
    ensures Run(es).pset == if Run(es[..i]).pset == "" then "" else es[i].op.parsed.value.pset
    decreases |es|
  {
    var n := |es| - 1;
    BeforeLast(es);
    StepPset(Run(es[..n]), es[n]);
    if i < n {
      ReachedAtPrefix(es, n, i, ToCompleted);
      CompletedPset(es[..n], i);
      assert es[..n][..i] == es[..i];
      StaysReached(es[..n], i, ToCompleted);
    }
  }

  lemma {:induction false} ExpirySince(es: seq<Event>, i: nat)
    requires ClockNeverGoesBack(es) && i < |es| && ReachedAt(es, i, ToAccepted)
    ensures !Reached(es, ToSettled) ==> Run(es).expiryTime == es[i].op.expiryTime
    decreases |es|
  {
    var n := |es| - 1;
    BeforeLast(es);
    StepPset(Run(es[..n]), es[n]);
    if i < n {
      ReachedAtPrefix(es, n, i, ToAccepted);
      ExpirySince(es[..n], i);
      StaysReached(es[..n], i, ToAccepted);
      ReachedStep(es, ToSettled);
    }
  }

  /** Every run: the transaction is the proposed one, then the accepted one, then the completed one. */
  lemma PsetOfRun(es: seq<Event>, i: nat, m: Milestone)
    requires ClockNeverGoesBack(es) && i < |es| && ReachedAt(es, i, m)
    ensures m.ToProposal? && !Reached(es, ToAccepted) ==> Run(es).pset == es[i].op.swap.pset
    ensures m.ToAccepted? && !Reached(es, ToCompleted) ==> Run(es).pset == es[i].op.pset
    ensures m.ToCompleted? ==> Run(es).pset == if Run(es[..i]).pset == "" then "" else es[i].op.parsed.value.pset
    ensures m.ToAccepted? && !Reached(es, ToSettled) ==> Run(es).expiryTime == es[i].op.expiryTime
  {
    match m
    case ToProposal => if !Reached(es, ToAccepted) { ProposedPset(es, i); }
    case ToAccepted =>
      if !Reached(es, ToCompleted) { AcceptedPset(es, i); }
      ExpirySince(es, i);
    case ToCompleted => CompletedPset(es, i);
    case _ =>
  }

  // ---- Failures ----

  /** A call that fails the trade: an explicit failure, a message the parser rejects, or a completion past the expiry. */
  predicate FailsTrade(s: State, e: Event) {
    match e.op
    case Propose(terms, _, serialized) => s.code == Undefined && terms.tradeType in {0, 1} && serialized.Rejected?
    case Accept(_, expiryTime, acceptMsg) =>
      s.code == Proposal && s.request.Some? && s.request.value.timestamp < expiryTime && acceptMsg.Rejected?
    case Complete(parsed, completeMsg) =>
      s.code == Accepted && (e.now > s.expiryTime * SECOND || parsed.Rejected? || completeMsg.Rejected?)
    case Fail => true
    case _ => false
  }

  predicate Silent(s: State, e: Event) {
    e.op.Complete? && e.now > s.expiryTime * SECOND
  }

  lemma StepFails(s: State, e: Event)
    requires Inv(s, e.now)
    ensures Step(s, e).failed <==> s.failed || FailsTrade(s, e)
    ensures Step(s, e).fail
         == if !s.failed && FailsTrade(s, e) && !Silent(s, e) then Some(Swap(e.failMsg.id, e.failMsg.content, 0)) else s.fail
  {
  }

  ghost predicate FailsAt(es: seq<Event>, i: nat)
    requires i < |es|
  {
    FailsTrade(Run(es[..i]), es[i])
  }

  /** The first call that fails the trade, or the number of calls. */
  ghost function FirstFailure(es: seq<Event>): (k: nat)
    ensures k <= |es| && (k < |es| ==> FailsAt(es, k))
    ensures forall i: nat :: i < k ==> !FailsAt(es, i)
  {
    if es == [] then 0
    else
      var n := |es| - 1;
      var k := FirstFailure(es[..n]);
      assert forall i: nat :: i < n ==> es[..n][..i] == es[..i];
      assert forall i: nat :: i < n ==> (FailsAt(es[..n], i) <==> FailsAt(es, i));
      if k < n then k else if FailsAt(es, n) then n else |es|
  }

  /** Every run: the trade is failed if and only if some call fails it, and the message is the one of the first such call. */
  lemma {:induction false} FailureOfRun(es: seq<Event>)
    requires ClockNeverGoesBack(es)
    ensures Run(es).failed <==> FirstFailure(es) < |es|
    ensures var k := FirstFailure(es);
            Run(es).fail == if k < |es| && !Silent(Run(es[..k]), es[k]) then Some(Swap(es[k].failMsg.id, es[k].failMsg.content, 0)) else None
  {
    if es != [] {
      var n := |es| - 1;
      BeforeLast(es);
      FailureOfRun(es[..n]);
      StepFails(Run(es[..n]), es[n]);
      if FirstFailure(es[..n]) < n { assert es[..n][..FirstFailure(es[..n])] == es[..FirstFailure(es[..n])]; }
    }
  }

  // ---- What the calls answer ----

  /** The answer to a call; failing a trade answers nothing. */
  function Answer(s: State, e: Event): Option<Outcome> {
    match e.op
    case Propose(terms, swap, serialized) => Some(AfterPropose(s, terms, swap, serialized, e.now, e.failMsg).1)
    case Accept(pset, expiryTime, acceptMsg) => Some(AfterAccept(s, pset, expiryTime, acceptMsg, e.now, e.failMsg).1)
    case Complete(parsed, completeMsg) => Some(AfterComplete(s, parsed, completeMsg, e.now, e.failMsg).1)
    case Settle(settlementTime) => Some(AfterSettle(s, settlementTime).1)
    case Fail => None
    case Expire => Some(AfterExpire(s, e.now).1)
  }

  /** The status a call aims at. */
  function Aim(op: Op): Milestone
    requires !op.Fail?
  {
    match op
    case Propose(_, _, _) => ToProposal
    case Accept(_, _, _) => ToAccepted
    case Complete(_, _) => ToCompleted
    case Settle(_) => ToSettled
    case Expire => ToExpired
  }

  /** A call answers yes exactly if the trade is where it aims, and not by a proposal that cannot be stored. */
  lemma AnswersYes(s: State, e: Event)
    requires Inv(s, e.now) && !e.op.Fail?
    ensures Answer(s, e) == Some(Returns(true)) <==>
              || (Reaches(s, e, Aim(e.op)) && (e.op.Propose? ==> Priced(e)))
              || (if e.op.Settle? then s.code == Settled else s.code.Rank() >= CodeOf(Aim(e.op)).Rank())
    ensures Answer(s, e) == Some(Returns(false)) <==> FailsTrade(s, e) && !Silent(s, e)
  {
    if e.op.Propose? { PriceIsNearest(e.op.swap, e.op.terms.quote); }
  }
}
