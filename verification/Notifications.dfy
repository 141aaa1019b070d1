/** The listener that hands every wallet notification to the queued handlers while other routines register more. */
module Notifications {
  import opened Basics
  import Trade

  datatype Outpoint = Outpoint(txid: string, index: nat)

  datatype EventKind = Spent | Unlocked | OtherKind

  /** A notification: its kind and the coins concerned, the first of them with the time of the block spending it. */
  datatype Notification = Notification(kind: EventKind, utxos: seq<Outpoint>, blockTime: Option<int>)

  /** A registered handler, told apart by its registration, waiting for coins. */
  datatype Handler = Handler(id: nat, waitsFor: seq<Outpoint>)

  class HandlerQueue {
    var list: seq<Handler>

    constructor ()
      ensures list == []
    {
      list := [];
    }

    method PushBack(h: Handler)
      modifies this
      ensures list == old(list) + [h]
    {
      list := list + [h];
    }

    method Pop() returns (h: Option<Handler>)
      modifies this
      ensures old(list) == [] ==> h == None && list == []
      ensures old(list) != [] ==> h == Some(old(list)[0]) && list == old(list)[1..]
    {
      if |list| <= 0 { return None; }
      h := Some(list[0]);
      list := list[1..];
    }

    /** What other routines register before the listener's next access to the queue. */
    method Interleave(hs: seq<Handler>)
      modifies this
      ensures list == old(list) + hs
    {
      for i := 0 to |hs|
        invariant list == old(list) + hs[..i]
      {
        PushBack(hs[i]);
      }
    }
  }

  /** A handler is done once a notification holds one of the coins it waits for. */
  predicate Touches(h: Handler, n: Notification) {
    exists i :: 0 <= i < |h.waitsFor| && h.waitsFor[i] in n.utxos
  }

  /** Some coin is both waited for and in the notification. */
  ghost predicate SharesCoin(h: Handler, n: Notification) {
    exists o: Outpoint :: o in h.waitsFor && o in n.utxos
  }

  lemma TouchesExactly(h: Handler, n: Notification)
    ensures Touches(h, n) <==> SharesCoin(h, n)
  {
    if o: Outpoint :| o in h.waitsFor && o in n.utxos {
      var i :| 0 <= i < |h.waitsFor| && h.waitsFor[i] == o;
      assert h.waitsFor[i] in n.utxos;
    }
  }

  function Unfinished(hs: seq<Handler>, n: Notification): seq<Handler> {
    if hs == [] then []
    else
      var k := |hs| - 1;
      Unfinished(hs[..k], n) + (if Touches(hs[k], n) then [] else [hs[k]])
  }

  /** What is registered just before the listener's access number `k` to the queue. */
  function Batch(arrives: seq<seq<Handler>>, k: nat): seq<Handler> {
    if k < |arrives| then arrives[k] else []
  }

  /** What is registered before the accesses `from` up to `end`. */
  function Arrived(arrives: seq<seq<Handler>>, from: nat, end: nat): seq<Handler>
    requires from <= end
    decreases end
  {
    if from == end then [] else Arrived(arrives, from, end - 1) + Batch(arrives, end - 1)
  }

  /** How often a handler is in a list. */
  function Count(hs: seq<Handler>, h: Handler): nat {
    if hs == [] then 0
    else
      var k := |hs| - 1;
      Count(hs[..k], h) + (if hs[k] == h then 1 else 0)
  }

  lemma CountAppend(a: seq<Handler>, x: Handler, h: Handler)
    ensures Count(a + [x], h) == Count(a, h) + (if x == h then 1 else 0)
  {
    assert (a + [x])[..|a|] == a;
  }

  lemma {:induction false} CountConcat(a: seq<Handler>, b: seq<Handler>, h: Handler)
    ensures Count(a + b, h) == Count(a, h) + Count(b, h)
  {
    if b == [] {
      assert a + b == a;
    } else {
      CountConcat(a, b[..|b| - 1], h);
      assert (a + b)[..|a + b| - 1] == a + b[..|b| - 1];
    }
  }

  lemma {:induction false} CountAbsent(a: seq<Handler>, h: Handler)
    requires h !in a
    ensures Count(a, h) == 0
  {
    if a != [] { CountAbsent(a[..|a| - 1], h); }
  }

  /** Everything of `a` is in `b`, in the same order. */
  predicate Subsequence(a: seq<Handler>, b: seq<Handler>)
    decreases |b|
  {
    if a == [] then true
    else if b == [] then false
    else if a[|a| - 1] == b[|b| - 1] then Subsequence(a[..|a| - 1], b[..|b| - 1])
    else Subsequence(a, b[..|b| - 1])
  }

  /** That is, at increasing positions. */
  ghost predicate Embeds(a: seq<Handler>, b: seq<Handler>, ps: seq<nat>) {
    && |ps| == |a|
    && (forall k :: 0 <= k < |ps| ==> ps[k] < |b| && b[ps[k]] == a[k])
    && (forall j, k :: 0 <= j < k < |ps| ==> ps[j] < ps[k])
  }

  lemma {:induction false} SubsequenceEmbeds(a: seq<Handler>, b: seq<Handler>) returns (ps: seq<nat>)
    requires Subsequence(a, b)
    ensures Embeds(a, b, ps)
    decreases |b|
  {
    if a == [] {
      ps := [];
    } else if a[|a| - 1] == b[|b| - 1] {
      ps := SubsequenceEmbeds(a[..|a| - 1], b[..|b| - 1]);
      ps := ps + [|b| - 1];
    } else {
      ps := SubsequenceEmbeds(a, b[..|b| - 1]);
    }
  }

  lemma {:induction false} SubsequenceShorter(a: seq<Handler>, b: seq<Handler>)
    requires Subsequence(a, b) && a != []
    ensures Subsequence(a[..|a| - 1], b)
    decreases |b|
  {
    var m, n := |a| - 1, |b| - 1;
    if a[m] == b[n] {
      if m > 0 && a[m - 1] == b[n] { SubsequenceShorter(a[..m], b[..n]); }
    } else {
      SubsequenceShorter(a, b[..n]);
      if m > 0 && a[m - 1] == b[n] { SubsequenceShorter(a[..m], b[..n]); }
    }
  }

  lemma {:induction false} SubsequenceWider(a: seq<Handler>, b: seq<Handler>, c: seq<Handler>)
    requires Subsequence(a, b)
    ensures Subsequence(a, b + c)
    decreases |c|
  {
    if c == [] {
      assert b + c == b;
    } else if a != [] {
      var n := |c| - 1;
      assert (b + c)[..|b + c| - 1] == b + c[..n];
      SubsequenceWider(a, b, c[..n]);
      if a[|a| - 1] == c[n] { SubsequenceShorter(a, b + c[..n]); }
    }
  }

  lemma SubsequenceSnoc(a: seq<Handler>, b: seq<Handler>, c: seq<Handler>, h: Handler)
    requires Subsequence(a, b)
    ensures Subsequence(a + [h], b + c + [h])
  {
    SubsequenceWider(a, b, c);
    assert (a + [h])[..|a|] == a && (b + c + [h])[..|b + c|] == b + c;
  }

  /** `list` holds every handler as often as `a` and `b` together. */
  ghost predicate Merges(list: seq<Handler>, a: seq<Handler>, b: seq<Handler>) {
    forall h :: MergesAt(list, a, b, h)
  }

  ghost predicate MergesAt(list: seq<Handler>, a: seq<Handler>, b: seq<Handler>, h: Handler) {
    Count(list, h) == Count(a, h) + Count(b, h)
  }

  /** A queue after a notification: the unfinished handlers of its start, in their order, and all that arrived since. */
  ghost predicate IsRequeued(start: seq<Handler>, n: Notification, late: seq<Handler>, after: seq<Handler>) {
    Requeued(Unfinished(start, n), late, after)
  }

  ghost predicate Requeued(unfinished: seq<Handler>, late: seq<Handler>, after: seq<Handler>) {
    Merges(after, unfinished, late) && Subsequence(unfinished, after)
  }

  // ---- The handler of a trade ----

  function SettlementTime(n: Notification, now: nat): int {
    if n.blockTime.Some? && n.blockTime.value > 0 then n.blockTime.value else Trade.Unix(now)
  }

  /** The trade after its handler is called: as before unless one of its coins is in the notification; then a spent coin
      settles it, an unlocked one expires it. */
  function Acted(s: Trade.State, h: Handler, n: Notification, now: nat): Trade.State {
    if !Touches(h, n) then s
    else
      match n.kind
      case Spent => Trade.AfterSettle(s, SettlementTime(n, now)).0
      case Unlocked => Trade.AfterExpire(s, now).0
      case OtherKind => s
  }

  method SettleOrExpire(h: Handler, trade: Trade.TradeEntity, n: Notification, now: nat) returns (done: bool)
    modifies trade
    ensures done <==> Touches(h, n)
    ensures trade.Current() == Acted(old(trade.Current()), h, n, now)
  {
    done := CallHandler(h, n);
    if !done { return; }
    if n.kind == Spent {
      var settlement := Trade.Unix(now);
      if n.blockTime.Some? && n.blockTime.value > 0 { settlement := n.blockTime.value; }
      var _ := trade.DoSettle(settlement);
    } else if n.kind == Unlocked {
      var _ := trade.DoExpire(now);
    }
  }

  /** Calls a handler; `watched` is the one of the trade. */
  method Call(h: Handler, watched: Handler, trade: Trade.TradeEntity, n: Notification, now: nat) returns (done: bool)
    modifies trade
    ensures done <==> Touches(h, n)
    ensures trade.Current() == if h == watched then Acted(old(trade.Current()), h, n, now) else old(trade.Current())
  {
    if h == watched {
      done := SettleOrExpire(h, trade, n, now);
    } else {
      done := CallHandler(h, n);
    }
  }

  /** The trade after a list of handlers is called. */
  function ActedBy(s: Trade.State, called: seq<Handler>, h: Handler, n: Notification, now: nat): Trade.State {
    if called == [] then s
    else
      var k := |called| - 1;
      var before := ActedBy(s, called[..k], h, n, now);
      if called[k] == h then Acted(before, h, n, now) else before
  }

  lemma {:induction false} ActedOnce(s: Trade.State, called: seq<Handler>, h: Handler, n: Notification, now: nat)
    ensures Count(called, h) == 0 ==> ActedBy(s, called, h, n, now) == s
    ensures Count(called, h) == 1 ==> ActedBy(s, called, h, n, now) == Acted(s, h, n, now)
  {
    if called != [] { ActedOnce(s, called[..|called| - 1], h, n, now); }
  }

  // ---- One notification ----

  /** Pops and calls as many handlers as were queued, with registrations before each pop. */
  method CallAll(q: HandlerQueue, n: Notification, arrives: seq<seq<Handler>>, watched: Handler, trade: Trade.TradeEntity, now: nat)
    returns (called: seq<Handler>, calledNil: bool, toRepeat: seq<Handler>)
    modifies q, trade
    ensures !calledNil && called == old(q.list)
    ensures toRepeat == Unfinished(old(q.list), n)
    ensures q.list == Arrived(arrives, 1, |old(q.list)| + 1)
    ensures trade.Current() == ActedBy(old(trade.Current()), called, watched, n, now)
  {
    called, calledNil, toRepeat := [], false, [];
    ghost var start := q.list;
    var numHandlers := |q.list|;
    for i := 0 to numHandlers
      invariant called == start[..i] && !calledNil
      invariant q.list == start[i..] + Arrived(arrives, 1, i + 1)
      invariant toRepeat == Unfinished(called, n)
      invariant trade.Current() == ActedBy(old(trade.Current()), called, watched, n, now)
    {
      var handler := PopAfter(q, Batch(arrives, i + 1), start[i..], Arrived(arrives, 1, i + 1));
      if handler.None? {
        calledNil := true;
        return;
      }
      var done := Call(handler.value, watched, trade, n, now);
      called := called + [handler.value];
      assert called[..i] == start[..i];
      if !done {
        toRepeat := toRepeat + [handler.value];
      }
    }
    assert start[..numHandlers] == start;
  }

  /** Pops after a batch of registrations; what was queued comes before what arrived. */
  method PopAfter(q: HandlerQueue, batch: seq<Handler>, ghost queued: seq<Handler>, ghost arrived: seq<Handler>)
    returns (h: Option<Handler>)
    requires q.list == queued + arrived && queued != []
    modifies q
    ensures h == Some(queued[0]) && q.list == queued[1..] + (arrived + batch)
  {
    q.Interleave(batch);
    assert q.list[1..] == queued[1..] + (arrived + batch);
    h := q.Pop();
  }

  lemma RequeueOne(done: seq<Handler>, late: seq<Handler>, list: seq<Handler>, batch: seq<Handler>, h: Handler)
    requires Requeued(done, late, list)
    ensures Requeued(done + [h], late + batch, list + batch + [h])
  {
    SubsequenceSnoc(done, list, batch, h);
    forall x ensures MergesAt(list + batch + [h], done + [h], late + batch, x) {
      assert MergesAt(list, done, late, x);
      CountAppend(list + batch, h, x);
      CountConcat(list, batch, x);
      CountAppend(done, h, x);
      CountConcat(late, batch, x);
    }
  }

  lemma RequeueNext(done: seq<Handler>, late: seq<Handler>, list: seq<Handler>, batch: seq<Handler>, h: Handler,
                    done': seq<Handler>, late': seq<Handler>, list': seq<Handler>)
    requires Requeued(done, late, list)
    requires done' == done + [h] && late' == late + batch && list' == list + batch + [h]
    ensures Requeued(done', late', list')
  {
    RequeueOne(done, late, list, batch, h);
  }

  lemma RequeueNone(list: seq<Handler>)
    ensures Requeued([], list, list)
  {
    forall h ensures MergesAt(list, [], list, h) {}
  }

  /** A list after the handlers are pushed back one by one, with a batch of registrations before each. */
  function PushedBack(list: seq<Handler>, toRepeat: seq<Handler>, arrives: seq<seq<Handler>>, step: nat): seq<Handler> {
    if toRepeat == [] then list
    else
      var k := |toRepeat| - 1;
      PushedBack(list, toRepeat[..k], arrives, step) + Batch(arrives, step + k) + [toRepeat[k]]
  }

  lemma {:induction false} PushedBackIsRequeued(toRepeat: seq<Handler>, arrives: seq<seq<Handler>>, step: nat)
    requires step >= 1
    ensures Requeued(toRepeat, Arrived(arrives, 1, step + |toRepeat|), PushedBack(Arrived(arrives, 1, step), toRepeat, arrives, step))
  {
    if toRepeat == [] {
      RequeueNone(Arrived(arrives, 1, step));
    } else {
      var k := |toRepeat| - 1;
      PushedBackIsRequeued(toRepeat[..k], arrives, step);
      var start := Arrived(arrives, 1, step);
      assert Arrived(arrives, 1, step + |toRepeat|) == Arrived(arrives, 1, step + k) + Batch(arrives, step + k);
      assert toRepeat == toRepeat[..k] + [toRepeat[k]];
      RequeueNext(toRepeat[..k], Arrived(arrives, 1, step + k), PushedBack(start, toRepeat[..k], arrives, step),
                  Batch(arrives, step + k), toRepeat[k],
                  toRepeat, Arrived(arrives, 1, step + |toRepeat|), PushedBack(start, toRepeat, arrives, step));
    }
  }

  /** Pushes the unfinished handlers back, with registrations before each push. */
  method PushBackAll(q: HandlerQueue, toRepeat: seq<Handler>, arrives: seq<seq<Handler>>, step: nat)
    modifies q
    ensures q.list == PushedBack(old(q.list), toRepeat, arrives, step)
  {
    for j := 0 to |toRepeat|
      invariant q.list == PushedBack(old(q.list), toRepeat[..j], arrives, step)
    {
      assert toRepeat[..j + 1][..j] == toRepeat[..j];
      q.Interleave(Batch(arrives, step + j));
      q.PushBack(toRepeat[j]);
    }
    assert toRepeat[..|toRepeat|] == toRepeat;
  }

  /** A notification, when it comes, and what is registered at every access to the queue while it is handled. */
  datatype Delivery = Delivery(n: Notification, now: nat, arrives: seq<seq<Handler>>)

  /** The handlers queued when they are counted. */
  function Counted(queue: seq<Handler>, d: Delivery): seq<Handler> {
    queue + Batch(d.arrives, 0)
  }

  /** What arrives after that. */
  function Late(d: Delivery, called: seq<Handler>): seq<Handler> {
    Arrived(d.arrives, 1, |called| + 1 + |Unfinished(called, d.n)|)
  }

  function QueueAfter(d: Delivery, called: seq<Handler>): seq<Handler> {
    PushedBack(Arrived(d.arrives, 1, |called| + 1), Unfinished(called, d.n), d.arrives, |called| + 1)
  }

  lemma HandledIsRequeued(d: Delivery, called: seq<Handler>)
    ensures IsRequeued(called, d.n, Late(d, called), QueueAfter(d, called))
  {
    PushedBackIsRequeued(Unfinished(called, d.n), d.arrives, |called| + 1);
  }

  /** One notification, with registrations at every access to the queue: exactly the handlers queued at its start are
      called, once each and in order, and there always is one to call. */
  method HandleNotification(q: HandlerQueue, d: Delivery, watched: Handler, trade: Trade.TradeEntity)
    returns (called: seq<Handler>, calledNil: bool)
    modifies q, trade
    ensures !calledNil && called == Counted(old(q.list), d)
    ensures q.list == QueueAfter(d, called) && IsRequeued(called, d.n, Late(d, called), q.list)
    ensures trade.Current() == ActedBy(old(trade.Current()), called, watched, d.n, d.now)
  {
    q.Interleave(Batch(d.arrives, 0));
    var toRepeat;
    called, calledNil, toRepeat := CallAll(q, d.n, d.arrives, watched, trade, d.now);
    PushBackAll(q, toRepeat, d.arrives, |called| + 1);
    HandledIsRequeued(d, called);
  }

  /** The search of a handler for one of its coins in the notification. */
  method CallHandler(h: Handler, n: Notification) returns (done: bool)
    ensures done <==> Touches(h, n)
    ensures done <==> SharesCoin(h, n)
  {
    TouchesExactly(h, n);
    for i := 0 to |h.waitsFor|
      invariant forall k :: 0 <= k < i ==> h.waitsFor[k] !in n.utxos
    {
      for j := 0 to |n.utxos|
        invariant forall k :: 0 <= k < j ==> n.utxos[k] != h.waitsFor[i]
      {
        if n.utxos[j] == h.waitsFor[i] {
          return true;
        }
      }
    }
    done := false;
  }

  lemma {:induction false} UnfinishedCount(hs: seq<Handler>, n: Notification, h: Handler)
    ensures Count(Unfinished(hs, n), h) == if Touches(h, n) then 0 else Count(hs, h)
  {
    if hs != [] {
      var k := |hs| - 1;
      UnfinishedCount(hs[..k], n, h);
      if Touches(hs[k], n) {
        assert Unfinished(hs, n) == Unfinished(hs[..k], n);
      } else {
        CountAppend(Unfinished(hs[..k], n), hs[k], h);
      }
    }
  }

  // ---- A handler over a whole run ----

  /** One notification of a run: what was queued when it was counted, and what was registered while it was handled. */
  datatype Round = Round(n: Notification, now: nat, called: seq<Handler>, late: seq<Handler>)

  /** Between two notifications the queue only gains handlers, registered early enough for the second. */
  ghost predicate Follows(r: Round, early: seq<Handler>, next: Round) {
    exists after :: IsRequeued(r.called, r.n, r.late, after) && next.called == after + early
  }

  /** A run of the listener; `early[t]` is registered after round `t - 1` and before round `t` counts. */
  ghost predicate IsRun(rounds: seq<Round>, early: seq<seq<Handler>>) {
    |early| == |rounds| && forall t :: 0 < t < |rounds| ==> FollowsAt(rounds, early, t)
  }

  ghost predicate FollowsAt(rounds: seq<Round>, early: seq<seq<Handler>>, t: nat)
    requires 0 < t < |rounds| == |early|
  {
    Follows(rounds[t - 1], early[t], rounds[t])
  }

  /** `h` is queued once when round `t` counts and registered neither during it nor later. */
  ghost predicate RegisteredBy(rounds: seq<Round>, early: seq<seq<Handler>>, t: nat, h: Handler) {
    && t < |rounds| == |early| && Count(rounds[t].called, h) == 1
    && (forall u :: t <= u < |rounds| ==> h !in rounds[u].late)
    && (forall u :: t < u < |rounds| ==> h !in early[u])
  }

  ghost predicate TouchedBetween(rounds: seq<Round>, t: nat, u: nat, h: Handler)
    requires u <= |rounds|
  {
    exists v :: t <= v < u && Touches(h, rounds[v].n)
  }

  lemma StillQueued(r: Round, early: seq<Handler>, next: Round, h: Handler)
    requires Follows(r, early, next) && h !in r.late && h !in early
    ensures Count(next.called, h) == if Touches(h, r.n) then 0 else Count(r.called, h)
  {
    var after :| IsRequeued(r.called, r.n, r.late, after) && next.called == after + early;
    UnfinishedCount(r.called, r.n, h);
    CountConcat(after, early, h);
    CountAbsent(early, h);
    CountAbsent(r.late, h);
    assert MergesAt(after, Unfinished(r.called, r.n), r.late, h);
  }

  /** In every later round the handler is called, once, exactly if no notification touched it before: it acts on the
      first notification holding one of its coins and never again. */
  lemma {:induction false} ActsOnceOnFirst(rounds: seq<Round>, early: seq<seq<Handler>>, t: nat, u: nat, h: Handler)
    requires IsRun(rounds, early) && RegisteredBy(rounds, early, t, h) && t <= u < |rounds|
    ensures Count(rounds[u].called, h) == if TouchedBetween(rounds, t, u, h) then 0 else 1
    decreases u
  {
    if u > t {
      ActsOnceOnFirst(rounds, early, t, u - 1, h);
      assert FollowsAt(rounds, early, u);
      StillQueued(rounds[u - 1], early[u], rounds[u], h);
      TouchedStep(rounds, t, u, h);
    }
  }

  lemma TouchedStep(rounds: seq<Round>, t: nat, u: nat, h: Handler)
    requires t < u <= |rounds|
    ensures TouchedBetween(rounds, t, u, h) <==> TouchedBetween(rounds, t, u - 1, h) || Touches(h, rounds[u - 1].n)
  {
  }

  /** The trade after the rounds `t` up to `u`. */
  function TradeAfter(s: Trade.State, rounds: seq<Round>, h: Handler, t: nat, u: nat): Trade.State
    requires t <= u <= |rounds|
    decreases u
  {
    if t == u then s
    else ActedBy(TradeAfter(s, rounds, h, t, u - 1), rounds[u - 1].called, h, rounds[u - 1].n, rounds[u - 1].now)
  }

  ghost predicate FirstTouch(rounds: seq<Round>, t: nat, u: nat, h: Handler, v: nat)
    requires u <= |rounds|
  {
    t <= v < u && Touches(h, rounds[v].n) && !TouchedBetween(rounds, t, v, h)
  }

  /** Over any run, the first notification holding one of its coins decides the trade, and no other changes it. */
  lemma {:induction false} FirstDecides(s: Trade.State, rounds: seq<Round>, early: seq<seq<Handler>>, t: nat, u: nat, h: Handler)
    returns (v: nat)
    requires IsRun(rounds, early) && RegisteredBy(rounds, early, t, h) && t <= u <= |rounds|
    ensures !TouchedBetween(rounds, t, u, h) ==> TradeAfter(s, rounds, h, t, u) == s
    ensures TouchedBetween(rounds, t, u, h) ==>
              FirstTouch(rounds, t, u, h, v) && TradeAfter(s, rounds, h, t, u) == Acted(s, h, rounds[v].n, rounds[v].now)
    decreases u
  {
    v := t;
    if u > t {
      v := FirstDecides(s, rounds, early, t, u - 1, h);
      TouchedStep(rounds, t, u, h);
      ActsOnceOnFirst(rounds, early, t, u - 1, h);
      ActedOnce(TradeAfter(s, rounds, h, t, u - 1), rounds[u - 1].called, h, rounds[u - 1].n, rounds[u - 1].now);
      if !TouchedBetween(rounds, t, u - 1, h) { v := u - 1; }
    }
  }

  // ---- The listener ----

  function QueueAfterAll(queue: seq<Handler>, ds: seq<Delivery>): seq<Handler> {
    if ds == [] then queue
    else
      var k := |ds| - 1;
      QueueAfter(ds[k], Counted(QueueAfterAll(queue, ds[..k]), ds[k]))
  }

  function RoundOf(queue: seq<Handler>, d: Delivery): Round {
    var called := Counted(queue, d);
    Round(d.n, d.now, called, Late(d, called))
  }

  function RoundAt(queue: seq<Handler>, ds: seq<Delivery>, t: nat): Round
    requires t < |ds|
  {
    RoundOf(QueueAfterAll(queue, ds[..t]), ds[t])
  }

  /** The rounds of a listener that starts with a queue. */
  function RoundsOf(queue: seq<Handler>, ds: seq<Delivery>): (r: seq<Round>)
    ensures |r| == |ds| && forall t :: 0 <= t < |r| ==> r[t] == RoundAt(queue, ds, t)
  {
    seq(|ds|, t requires 0 <= t < |ds| => RoundAt(queue, ds, t))
  }

  function EarlyOf(ds: seq<Delivery>): (r: seq<seq<Handler>>)
    ensures |r| == |ds| && forall t :: 0 <= t < |r| ==> r[t] == Batch(ds[t].arrives, 0)
  {
    seq(|ds|, t requires 0 <= t < |ds| => Batch(ds[t].arrives, 0))
  }

  /** They are a run. */
  lemma RoundsAreRun(queue: seq<Handler>, ds: seq<Delivery>)
    ensures IsRun(RoundsOf(queue, ds), EarlyOf(ds))
  {
    forall t | 0 < t < |ds| ensures FollowsAt(RoundsOf(queue, ds), EarlyOf(ds), t) {
      RoundFollows(queue, ds, t);
    }
  }

  lemma RoundFollows(queue: seq<Handler>, ds: seq<Delivery>, t: nat)
    requires 0 < t < |ds|
    ensures FollowsAt(RoundsOf(queue, ds), EarlyOf(ds), t)
  {
    var before := QueueAfterAll(queue, ds[..t - 1]);
    assert ds[..t][..t - 1] == ds[..t - 1];
    DeliveryFollows(before, ds[t - 1], ds[t]);
  }

  lemma DeliveryFollows(queue: seq<Handler>, d: Delivery, next: Delivery)
    ensures Follows(RoundOf(queue, d), Batch(next.arrives, 0), RoundOf(QueueAfter(d, Counted(queue, d)), next))
  {
    HandledIsRequeued(d, Counted(queue, d));
  }

  lemma {:induction false} TradeAfterPrefix(s: Trade.State, rounds: seq<Round>, r: Round, h: Handler, u: nat)
    requires u <= |rounds|
    ensures TradeAfter(s, rounds + [r], h, 0, u) == TradeAfter(s, rounds, h, 0, u)
  {
    if u > 0 { TradeAfterPrefix(s, rounds, r, h, u - 1); }
  }

  /** The round number `i` of a listener that started with the queue `start`. */
  method HandleRound(q: HandlerQueue, ghost start: seq<Handler>, ds: seq<Delivery>, i: nat, watched: Handler, trade: Trade.TradeEntity)
    returns (r: Round)
    requires i < |ds| && q.list == QueueAfterAll(start, ds[..i])
    modifies q, trade
    ensures r == RoundAt(start, ds, i) && q.list == QueueAfterAll(start, ds[..i + 1])
    ensures trade.Current() == ActedBy(old(trade.Current()), r.called, watched, r.n, r.now)
  {
    assert ds[..i + 1][..i] == ds[..i];
    var called, _ := HandleNotification(q, ds[i], watched, trade);
    r := Round(ds[i].n, ds[i].now, called, Late(ds[i], called));
  }

  method ListenRounds(q: HandlerQueue, ds: seq<Delivery>, watched: Handler, trade: Trade.TradeEntity) returns (rounds: seq<Round>)
    modifies q, trade
    ensures |rounds| == |ds| && forall t :: 0 <= t < |ds| ==> rounds[t] == RoundAt(old(q.list), ds, t)
    ensures q.list == QueueAfterAll(old(q.list), ds)
    ensures trade.Current() == TradeAfter(old(trade.Current()), rounds, watched, 0, |rounds|)
  {
    rounds := [];
    for i := 0 to |ds|
      invariant |rounds| == i && forall t :: 0 <= t < i ==> rounds[t] == RoundAt(old(q.list), ds, t)
      invariant q.list == QueueAfterAll(old(q.list), ds[..i])
      invariant trade.Current() == TradeAfter(old(trade.Current()), rounds, watched, 0, i)
    {
      var r := HandleRound(q, old(q.list), ds, i, watched, trade);
      TradeAfterPrefix(old(trade.Current()), rounds, r, watched, i);
      rounds := rounds + [r];
    }
    assert ds[..|ds|] == ds;
  }

  /** The listener on a queue: it goes through the rounds, and the trade of `watched` changes as they say. */
  method Listen(q: HandlerQueue, ds: seq<Delivery>, watched: Handler, trade: Trade.TradeEntity) returns (rounds: seq<Round>)
    modifies q, trade
    ensures rounds == RoundsOf(old(q.list), ds) && IsRun(rounds, EarlyOf(ds))
    ensures q.list == QueueAfterAll(old(q.list), ds)
    ensures trade.Current() == TradeAfter(old(trade.Current()), rounds, watched, 0, |rounds|)
  {
    rounds := ListenRounds(q, ds, watched, trade);
    assert rounds == RoundsOf(old(q.list), ds);
    RoundsAreRun(old(q.list), ds);
  }

  lemma {:induction false} NotArrived(arrives: seq<seq<Handler>>, from: nat, end: nat, h: Handler)
    requires from <= end && NotIn(arrives, h)
    ensures h !in Arrived(arrives, from, end)
    decreases end
  {
    if from < end { NotArrived(arrives, from, end - 1, h); }
  }

  ghost predicate NeverRegistered(ds: seq<Delivery>, h: Handler) {
    forall t :: 0 <= t < |ds| ==> NotIn(ds[t].arrives, h)
  }

  ghost predicate NotIn(arrives: seq<seq<Handler>>, h: Handler) {
    forall k :: 0 <= k < |arrives| ==> h !in arrives[k]
  }

  lemma NotRegisteredBy(queue: seq<Handler>, d: Delivery, h: Handler)
    requires NotIn(d.arrives, h)
    ensures h !in RoundOf(queue, d).late && h !in Batch(d.arrives, 0)
  {
    var called := Counted(queue, d);
    NotArrived(d.arrives, 1, |called| + 1 + |Unfinished(called, d.n)|, h);
  }

  lemma CountedOnce(queue: seq<Handler>, d: Delivery, h: Handler)
    requires Count(queue, h) == 1 && NotIn(d.arrives, h)
    ensures Count(Counted(queue, d), h) == 1
  {
    CountConcat(queue, Batch(d.arrives, 0), h);
    CountAbsent(Batch(d.arrives, 0), h);
  }

  lemma RegisteredFromStart(queue: seq<Handler>, ds: seq<Delivery>, h: Handler)
    requires ds != [] && Count(queue, h) == 1 && NeverRegistered(ds, h)
    ensures RegisteredBy(RoundsOf(queue, ds), EarlyOf(ds), 0, h)
  {
    forall u | 0 <= u < |ds| ensures h !in RoundsOf(queue, ds)[u].late && h !in EarlyOf(ds)[u] {
      assert NotIn(ds[u].arrives, h);
      NotRegisteredBy(QueueAfterAll(queue, ds[..u]), ds[u], h);
    }
    assert ds[..0] == [] && NotIn(ds[0].arrives, h);
    CountedOnce(queue, ds[0], h);
  }

  /** The position of the first notification that holds one of the coins, or the number of notifications. */
  function FirstTouching(ds: seq<Delivery>, h: Handler): (v: nat)
    ensures v <= |ds| && (v < |ds| ==> Touches(h, ds[v].n)) && forall t :: 0 <= t < v ==> !Touches(h, ds[t].n)
  {
    if ds == [] then 0
    else
      var k := |ds| - 1;
      var v := FirstTouching(ds[..k], h);
      if v == k && !Touches(h, ds[k].n) then |ds| else v
  }

  /** What a notification holding one of its coins makes of a trade: a spent coin settles it, at the positive time of the block
      or else at the second of the clock, if it is accepted or completed and not failed; an unlocked coin expires it once
      its expiry has passed; nothing else changes. */
  ghost predicate DecidedBy(before: Trade.State, d: Delivery, after: Trade.State) {
    match d.n.kind
    case Spent =>
      if before.code in {Trade.Accepted, Trade.Completed} && !before.failed
      then
        after == before.(
          code := Trade.Settled, expiryTime := 0,
          settlementTime := match d.n.blockTime
                            case Some(t) => if t > 0 then t else d.now / 1_000_000_000
                            case None => d.now / 1_000_000_000)
      else after == before
    case Unlocked =>
      if before.expiryTime > 0 && d.now >= before.expiryTime * 1_000_000_000 then after == before.(code := Trade.Expired)
      else after == before
    case OtherKind => after == before
  }

  lemma ActedDecides(s: Trade.State, h: Handler, d: Delivery)
    requires Touches(h, d.n)
    ensures DecidedBy(s, d, Acted(s, h, d.n, d.now))
  {
  }

  /** A trade whose handler is queued once when the listener starts and is not registered again: the first notification that
      holds one of its coins decides it, and no other changes it. */
  method ListenForTrade(q: HandlerQueue, ds: seq<Delivery>, watched: Handler, trade: Trade.TradeEntity)
    requires Count(q.list, watched) == 1 && NeverRegistered(ds, watched)
    modifies q, trade
    ensures var v := FirstTouching(ds, watched);
            && (forall t :: 0 <= t < v ==> !SharesCoin(watched, ds[t].n)) && (v < |ds| ==> SharesCoin(watched, ds[v].n))
            && if v == |ds| then trade.Current() == old(trade.Current()) else DecidedBy(old(trade.Current()), ds[v], trade.Current())
  {
    forall t | 0 <= t < |ds| ensures Touches(watched, ds[t].n) <==> SharesCoin(watched, ds[t].n) { TouchesExactly(watched, ds[t].n); }
    var rounds := Listen(q, ds, watched, trade);
    FirstTouchingDecides(old(trade.Current()), old(q.list), ds, watched);
    ghost var v := FirstTouching(ds, watched);
    if v < |ds| { ActedDecides(old(trade.Current()), watched, ds[v]); }
  }

  lemma FirstTouchingDecides(s: Trade.State, queue: seq<Handler>, ds: seq<Delivery>, h: Handler)
    requires Count(queue, h) == 1 && NeverRegistered(ds, h)
    ensures var v := FirstTouching(ds, h);
            TradeAfter(s, RoundsOf(queue, ds), h, 0, |ds|) == if v == |ds| then s else Acted(s, h, ds[v].n, ds[v].now)
  {
    if ds != [] {
      var rounds, first := RoundsOf(queue, ds), FirstTouching(ds, h);
      RoundsAreRun(queue, ds);
      RegisteredFromStart(queue, ds, h);
      var v := FirstDecides(s, rounds, EarlyOf(ds), 0, |ds|, h);
      if first < |ds| {
        assert Touches(h, rounds[first].n);
        assert v == first;
      }
    }
  }
}
