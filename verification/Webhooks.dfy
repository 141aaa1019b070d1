/** Webhook subscriptions kept in two buckets: one by id, and one listing the serialized subscriptions of each event
    joined by a separator byte. */
module Webhooks {
  import opened Basics
  import opened Separated

  const SEPARATOR: byte := 255
  const AnyTopic := "*"
  const UnspecifiedTopic := ""

  datatype Subscription = Subscription(id: string, event: string, endpoint: string, secret: string)

  // ---- The codec ----

  datatype Codec = Codec(serialize: Subscription -> Bytes, parse: Bytes -> Option<Subscription>)

  /** JSON in UTF-8: parsing undoes serializing, nothing serializes to nothing, and byte 255 does not occur. */
  ghost predicate Sound(c: Codec) {
    forall s :: c.parse(c.serialize(s)) == Some(s) && c.serialize(s) != [] && SEPARATOR !in c.serialize(s)
  }

  function SerializeAll(c: Codec, subs: seq<Subscription>): (r: seq<Bytes>)
    ensures |r| == |subs| && forall k :: 0 <= k < |r| ==> r[k] == c.serialize(subs[k])
  {
    seq(|subs|, k requires 0 <= k < |subs| => c.serialize(subs[k]))
  }

  lemma SplitSerialized(c: Codec, subs: seq<Subscription>)
    requires Sound(c) && subs != []
    ensures Split(Join(SerializeAll(c, subs), SEPARATOR), SEPARATOR) == SerializeAll(c, subs)
    ensures Join(SerializeAll(c, subs), SEPARATOR) != []
  {
    var parts := SerializeAll(c, subs);
    forall k | 0 <= k < |parts| ensures SEPARATOR !in parts[k] {
      assert parts[k] == c.serialize(subs[k]);
    }
    SplitJoin(parts, SEPARATOR);
    assert parts[0] == c.serialize(subs[0]) && parts[0] != [];
    assert Split([], SEPARATOR) == [[]];
  }

  // ---- Live subscriptions ----

  /** The live subscriptions of an event. */
  ghost function LiveOf(live: map<string, Subscription>, event: string): set<Subscription> {
    set id | id in live && live[id].event == event :: live[id]
  }

  /** Who is called when a topic is published: its subscriptions and those to any topic; for no topic, everybody. */
  ghost function Recipients(live: map<string, Subscription>, topic: string): set<Subscription> {
    if topic == UnspecifiedTopic then set id | id in live :: live[id]
    else LiveOf(live, topic) + LiveOf(live, AnyTopic)
  }

  ghost predicate KeyedById(live: map<string, Subscription>) {
    forall id :: id in live ==> live[id].id == id && live[id].event != UnspecifiedTopic
  }

  lemma LiveAdd(live: map<string, Subscription>, sub: Subscription, e: string)
    requires KeyedById(live) && sub.id !in live
    ensures LiveOf(live[sub.id := sub], e) == LiveOf(live, e) + (if e == sub.event then {sub} else {})
    ensures sub !in LiveOf(live, e)
  {
    var live' := live[sub.id := sub];
    forall s | s in LiveOf(live, e) ensures s in LiveOf(live', e) {
      assert s.id in live' && live'[s.id] == s;
    }
    if e == sub.event { assert sub.id in live' && live'[sub.id] == sub; }
  }

  lemma LiveRemove(live: map<string, Subscription>, id: string, e: string)
    requires KeyedById(live) && id in live
    ensures LiveOf(live - {id}, e) == LiveOf(live, e) - {live[id]}
    ensures live[id] in LiveOf(live, e) <==> e == live[id].event
  {
    var live' := live - {id};
    forall s | s in LiveOf(live, e) - {live[id]} ensures s in LiveOf(live', e) {
      assert s.id in live' && live'[s.id] == s;
    }
  }

  // ---- The index ----

  /** Every live subscription is stored under its id. */
  ghost predicate Stores(codec: Codec, subs: map<string, Bytes>, live: map<string, Subscription>) {
    subs.Keys == live.Keys && forall id :: id in live ==> subs[id] == codec.serialize(live[id])
  }

  /** The stored list of every event is the joined serialization of its index entry. */
  ghost predicate Joined(codec: Codec, stored: map<string, Bytes>, index: map<string, seq<Subscription>>) {
    && stored.Keys == index.Keys
    && forall e :: e in index ==> index[e] != [] && stored[e] == Join(SerializeAll(codec, index[e]), SEPARATOR)
  }

  /** Every event lists exactly its live subscriptions, once each; an event without any has no entry. */
  ghost predicate Agrees(live: map<string, Subscription>, index: map<string, seq<Subscription>>) {
    && (forall e :: e in index ==> multiset(index[e]) == multiset(LiveOf(live, e)))
    && (forall id :: id in live ==> live[id].event in index)
  }

  ghost function Listed(index: map<string, seq<Subscription>>, e: string): seq<Subscription> {
    if e in index then index[e] else []
  }

  lemma ListedIsLive(live: map<string, Subscription>, index: map<string, seq<Subscription>>, e: string)
    requires Agrees(live, index)
    ensures multiset(Listed(index, e)) == multiset(LiveOf(live, e))
  {
    if e !in index { assert LiveOf(live, e) == {}; }
  }

  lemma AgreesAdd(live: map<string, Subscription>, index: map<string, seq<Subscription>>, sub: Subscription)
    requires KeyedById(live) && Agrees(live, index) && sub.id !in live
    ensures Agrees(live[sub.id := sub], index[sub.event := Listed(index, sub.event) + [sub]])
  {
    var live', index' := live[sub.id := sub], index[sub.event := Listed(index, sub.event) + [sub]];
    forall e | e in index' ensures multiset(index'[e]) == multiset(LiveOf(live', e)) {
      LiveAdd(live, sub, e);
      ListedIsLive(live, index, e);
    }
  }

  lemma LiveElsewhere(live: map<string, Subscription>, id: string, e: string)
    requires KeyedById(live) && id in live && e != live[id].event
    ensures LiveOf(live - {id}, e) == LiveOf(live, e)
  {
    LiveRemove(live, id, e);
  }

  lemma AgreesRemove(live: map<string, Subscription>, index: map<string, seq<Subscription>>, id: string, i: nat)
    requires KeyedById(live) && Agrees(live, index) && id in live
    requires i < |Listed(index, live[id].event)| && Listed(index, live[id].event)[i] == live[id]
    ensures var e := live[id].event;
            var rest := Listed(index, e)[..i] + Listed(index, e)[i + 1..];
            Agrees(live - {id}, if rest == [] then index - {e} else index[e := rest])
  {
    var e, live' := live[id].event, live - {id};
    var list := Listed(index, e);
    var rest := list[..i] + list[i + 1..];
    WithoutOne(list, i);
    LiveRemove(live, id, e);
    ListedIsLive(live, index, e);
    assert multiset(rest) == multiset(LiveOf(live', e));
    forall e' | e' in index && e' != e ensures multiset(index[e']) == multiset(LiveOf(live', e')) {
      LiveElsewhere(live, id, e');
    }
    forall id' | id' in live' ensures live'[id'].event in (if rest == [] then index - {e} else index[e := rest]) {
      if live'[id'].event == e { LiveIsListed(live', rest, id'); }
    }
  }

  lemma LiveIsListed(live: map<string, Subscription>, list: seq<Subscription>, id: string)
    requires id in live && multiset(list) == multiset(LiveOf(live, live[id].event))
    ensures list != []
  {
    assert live[id] in LiveOf(live, live[id].event);
    assert live[id] in multiset(list);
  }

  /** What adding a subscription makes of the live ones: nothing when an argument is bad or the id is taken. */
  function Added(live: map<string, Subscription>, sub: Subscription, argsOk: bool): map<string, Subscription> {
    if sub.event == UnspecifiedTopic || !argsOk || sub.id in live then live else live[sub.id := sub]
  }

  datatype Error = NotFound | AlreadyExists | BadArguments

  datatype Result = Ok | Err(error: Error)

  class WebhookStore {
    const codec: Codec
    var subs: map<string, Bytes>
    var subsByEvent: map<string, Bytes>
    ghost var live: map<string, Subscription>
    ghost var index: map<string, seq<Subscription>>

    /** The two buckets agree: every live subscription is stored under its id and listed once under its event. */
    ghost predicate Valid()
      reads this
    {
      && Sound(codec) && KeyedById(live)
      && Stores(codec, subs, live)
      && Joined(codec, subsByEvent, index)
      && Agrees(live, index)
    }

    constructor (c: Codec)
      requires Sound(c)
      ensures Valid() && live == map[] && codec == c
    {
      codec := c;
      subs, subsByEvent, live, index := map[], map[], map[], map[];
    }

    /** The serialized subscriptions listed under one event; none if there is no entry. */
    method GetSerialized(topic: string) returns (list: seq<Bytes>)
      requires Sound(codec) && Joined(codec, subsByEvent, index)
      ensures list == SerializeAll(codec, Listed(index, topic))
    {
      if topic in index { SplitSerialized(codec, index[topic]); }
      if topic !in subsByEvent || |subsByEvent[topic]| <= 0 {
        return [];
      }
      list := Split(subsByEvent[topic], SEPARATOR);
    }

    method AddForTopic(sub: Subscription)
      requires Sound(codec) && Joined(codec, subsByEvent, index)
      modifies this`subsByEvent, this`index
      ensures Joined(codec, subsByEvent, index)
      ensures index == old(index)[sub.event := Listed(old(index), sub.event) + [sub]]
    {
      var list := GetSerialized(sub.event);
      list := list + [codec.serialize(sub)];
      index := index[sub.event := Listed(index, sub.event) + [sub]];
      assert list == SerializeAll(codec, index[sub.event]);
      subsByEvent := subsByEvent[sub.event := Join(list, SEPARATOR)];
    }

    /** Adds the subscription unless its id is taken; `isNew` tells which. */
    method AddSubscription(sub: Subscription) returns (isNew: bool)
      requires Valid() && sub.event != UnspecifiedTopic
      modifies this
      ensures Valid() && isNew == (sub.id !in old(live))
      ensures live == Added(old(live), sub, true)
    {
      if sub.id in subs { return false; }
      subs := subs[sub.id := codec.serialize(sub)];
      AgreesAdd(live, index, sub);
      AddForTopic(sub);
      live := live[sub.id := sub];
      isNew := true;
    }

    method Subscribe(sub: Subscription, uriOk: bool) returns (r: Result)
      requires Valid()
      modifies this
      ensures Valid()
      ensures r == Ok <==> sub.event != UnspecifiedTopic && uriOk
      ensures live == Added(old(live), sub, uriOk)
    {
      if |sub.event| <= 0 || !uriOk { return Err(BadArguments); }
      var _ := AddSubscription(sub);
      r := Ok;
    }

    method SubscribeWithID(sub: Subscription, uriOk: bool) returns (r: Result)
      requires Valid()
      modifies this
      ensures Valid()
      ensures r == Err(BadArguments) <==> sub.event == UnspecifiedTopic || !uriOk || sub.id == ""
      ensures r == Err(AlreadyExists) <==> r != Err(BadArguments) && sub.id in old(live)
      ensures r != Err(NotFound)
      ensures live == Added(old(live), sub, uriOk && sub.id != "")
    {
      if |sub.event| <= 0 || !uriOk || |sub.id| <= 0 { return Err(BadArguments); }
      var isNew := AddSubscription(sub);
      r := if isNew then Ok else Err(AlreadyExists);
    }

    /** The position, in the list of its event, of the subscription with the id. */
    method FindInTopic(list: seq<Bytes>, id: string) returns (i: nat)
      requires Sound(codec) && KeyedById(live) && Agrees(live, index) && id in live
      requires list == SerializeAll(codec, Listed(index, live[id].event))
      ensures i < |list| && Listed(index, live[id].event)[i] == live[id]
    {
      ghost var listed := Listed(index, live[id].event);
      assert live[id] in multiset(listed) by {
        ListedIsLive(live, index, live[id].event);
        assert live[id] in LiveOf(live, live[id].event);
      }
      i := 0;
      while true
        invariant i < |list|
        invariant forall k :: 0 <= k < i ==> listed[k] != live[id]
        invariant exists k :: i <= k < |list| && listed[k] == live[id]
        decreases |list| - i
      {
        var s := codec.parse(list[i]);
        assert s == Some(listed[i]);
        if s.value.id == id {
          assert listed[i] in multiset(listed);
          ListedIsLive(live, index, live[id].event);
          return;
        }
        i := i + 1;
      }
    }

    /** Takes the entry at `i` off the list of an event, and the list itself when it becomes empty. */
    method RemoveAt(event: string, list: seq<Bytes>, i: nat)
      requires Sound(codec) && Joined(codec, subsByEvent, index)
      requires list == SerializeAll(codec, Listed(index, event)) && i < |list|
      modifies this`subsByEvent, this`index
      ensures Joined(codec, subsByEvent, index)
      ensures var rest := Listed(old(index), event)[..i] + Listed(old(index), event)[i + 1..];
              index == if rest == [] then old(index) - {event} else old(index)[event := rest]
    {
      ghost var rest := Listed(index, event)[..i] + Listed(index, event)[i + 1..];
      var kept := list[..i] + list[i + 1..];
      assert kept == SerializeAll(codec, rest);
      if |kept| <= 0 {
        subsByEvent, index := subsByEvent - {event}, index - {event};
      } else {
        subsByEvent, index := subsByEvent[event := Join(kept, SEPARATOR)], index[event := rest];
      }
    }

    method RemoveForTopic(sub: Subscription)
      requires Sound(codec) && KeyedById(live) && Joined(codec, subsByEvent, index) && Agrees(live, index)
      requires sub.id in live && live[sub.id] == sub
      modifies this`subsByEvent, this`index
      ensures Joined(codec, subsByEvent, index) && Agrees(live - {sub.id}, index)
    {
      var list := GetSerialized(sub.event);
      var i := FindInTopic(list, sub.id);
      AgreesRemove(live, index, sub.id, i);
      RemoveAt(sub.event, list, i);
    }

    method RemoveSubscription(id: string) returns (r: Result)
      requires Valid()
      modifies this
      ensures Valid()
      ensures r == if id in old(live) then Ok else Err(NotFound)
      ensures live == old(live) - {id}
    {
      if id !in subs {
        assert live - {id} == live;
        return Err(NotFound);
      }
      var sub := DropFromSubs(id);
      RemoveForTopic(sub);
      live := live - {id};
      r := Ok;
    }

    /** Takes the subscription off the bucket by id. */
    method DropFromSubs(id: string) returns (sub: Subscription)
      requires Sound(codec) && Stores(codec, subs, live) && id in subs
      modifies this`subs
      ensures sub == live[id] && Stores(codec, subs, live - {id})
    {
      sub := codec.parse(subs[id]).value;
      subs := subs - {id};
    }

    // ---- Who a publication reaches ----

    /** The subscriptions listed under one event, in no stated order. */
    method SubscriptionsOf(topic: string) returns (r: seq<Subscription>)
      requires Valid()
      ensures multiset(r) == multiset(LiveOf(live, topic))
    {
      var raw := GetSerialized(topic);
      r := ParseAll(raw, Listed(index, topic));
      ListedIsLive(live, index, topic);
    }

    method ParseAll(raw: seq<Bytes>, ghost listed: seq<Subscription>) returns (r: seq<Subscription>)
      requires Sound(codec) && raw == SerializeAll(codec, listed)
      ensures r == listed
    {
      r := [];
      for i := 0 to |raw|
        invariant r == listed[..i]
      {
        var s := codec.parse(raw[i]);
        assert raw[i] == codec.serialize(listed[i]);
        r := r + [s.value];
      }
    }

    /** Everybody: the lists of all events, visited in any order. */
    method AllSubscriptions() returns (r: seq<Subscription>)
      requires Valid()
      ensures multiset(r) == multiset(set id | id in live :: live[id])
    {
      r := [];
      var left := subsByEvent.Keys;
      while left != {}
        invariant left <= index.Keys
        invariant multiset(r) == multiset(Seen(live, index.Keys - left))
        decreases left
      {
        var e :| e in left;
        r := AppendEvent(r, e, index.Keys - left);
        assert index.Keys - left + {e} == index.Keys - (left - {e});
        left := left - {e};
      }
      SeenAll(live, index, index.Keys - left);
    }

    method AppendEvent(sofar: seq<Subscription>, e: string, ghost seen: set<string>) returns (r: seq<Subscription>)
      requires Valid() && e !in seen && multiset(sofar) == multiset(Seen(live, seen))
      ensures multiset(r) == multiset(Seen(live, seen + {e}))
    {
      var some := SubscriptionsOf(e);
      SeenOneMore(live, seen, e);
      r := sofar + some;
    }

    /** The recipients of a publication: for a concrete topic exactly its live subscriptions and those to any topic, each once. */
    method ListSubscriptions(topic: string) returns (r: seq<Subscription>)
      requires Valid()
      ensures multiset(r) == multiset(Recipients(live, topic))
    {
      if topic == UnspecifiedTopic {
        r := AllSubscriptions();
        return;
      }
      r := SubscriptionsOf(topic);
      if topic != AnyTopic {
        var any := SubscriptionsOf(AnyTopic);
        DisjointEvents(live, topic, AnyTopic);
        r := r + any;
      }
    }
  }

  ghost function Seen(live: map<string, Subscription>, events: set<string>): set<Subscription> {
    set id | id in live && live[id].event in events :: live[id]
  }

  lemma SeenAll(live: map<string, Subscription>, index: map<string, seq<Subscription>>, events: set<string>)
    requires Agrees(live, index) && events == index.Keys
    ensures Seen(live, events) == set id | id in live :: live[id]
  {
  }

  lemma SeenOneMore(live: map<string, Subscription>, events: set<string>, e: string)
    requires e !in events
    ensures Seen(live, events + {e}) == Seen(live, events) + LiveOf(live, e)
    ensures multiset(Seen(live, events + {e})) == multiset(Seen(live, events)) + multiset(LiveOf(live, e))
  {
    DisjointSets(Seen(live, events), LiveOf(live, e));
  }

  lemma DisjointSets(a: set<Subscription>, b: set<Subscription>)
    requires a !! b
    ensures multiset(a + b) == multiset(a) + multiset(b)
  {
  }

  lemma DisjointEvents(live: map<string, Subscription>, e: string, f: string)
    requires e != f
    ensures multiset(LiveOf(live, e) + LiveOf(live, f)) == multiset(LiveOf(live, e)) + multiset(LiveOf(live, f))
  {
    DisjointSets(LiveOf(live, e), LiveOf(live, f));
  }

  // ---- Whole runs ----

  datatype Command =
    | Add(sub: Subscription, uriOk: bool)
    | AddWithID(sub: Subscription, uriOk: bool)
    | Remove(id: string)

  /** The subscriptions alive after a run, whatever the buckets do. */
  function LiveAfter(cs: seq<Command>): map<string, Subscription> {
    if cs == [] then map[]
    else
      var live := LiveAfter(cs[..|cs| - 1]);
      match cs[|cs| - 1]
      case Add(sub, uriOk) => Added(live, sub, uriOk)
      case AddWithID(sub, uriOk) => Added(live, sub, uriOk && sub.id != "")
      case Remove(id) => live - {id}
  }

  /** The call asks for the subscription with good arguments: an event, a valid endpoint and, if it names the id, an id. */
  predicate AsksFor(c: Command, sub: Subscription) {
    match c
    case Add(s, uriOk) => s == sub && uriOk && sub.event != ""
    case AddWithID(s, uriOk) => s == sub && uriOk && sub.event != "" && sub.id != ""
    case Remove(_) => false
  }

  /** Asked for at `i`, when no subscription had its id, and not removed since. */
  ghost predicate LiveSince(cs: seq<Command>, i: nat, sub: Subscription) {
    && i < |cs| && AsksFor(cs[i], sub) && sub.id !in LiveAfter(cs[..i])
    && forall j :: i < j < |cs| ==> cs[j] != Remove(sub.id)
  }

  ghost predicate IsLive(cs: seq<Command>, sub: Subscription) {
    exists i: nat :: LiveSince(cs, i, sub)
  }

  lemma LiveSinceStep(cs: seq<Command>, i: nat, sub: Subscription)
    requires i + 1 < |cs|
    ensures LiveSince(cs, i, sub) <==> LiveSince(cs[..|cs| - 1], i, sub) && cs[|cs| - 1] != Remove(sub.id)
  {
    assert cs[..|cs| - 1][..i] == cs[..i];
  }

  /** Every run: a subscription is alive if and only if some call asked for it while its id was free and none removed it. */
  lemma {:induction false} LiveExactly(cs: seq<Command>, sub: Subscription)
    ensures sub.id in LiveAfter(cs) && LiveAfter(cs)[sub.id] == sub <==> IsLive(cs, sub)
  {
    if cs != [] {
      var n := |cs| - 1;
      LiveExactly(cs[..n], sub);
      forall i: nat | i < n ensures LiveSince(cs, i, sub) <==> LiveSince(cs[..n], i, sub) && cs[n] != Remove(sub.id) {
        LiveSinceStep(cs, i, sub);
      }
      assert LiveSince(cs, n, sub) <==> AsksFor(cs[n], sub) && sub.id !in LiveAfter(cs[..n]);
      assert IsLive(cs, sub) <==> (IsLive(cs[..n], sub) && cs[n] != Remove(sub.id)) || LiveSince(cs, n, sub);
    }
  }

  lemma {:induction false} LiveKeyed(cs: seq<Command>)
    ensures KeyedById(LiveAfter(cs))
  {
    if cs != [] { LiveKeyed(cs[..|cs| - 1]); }
  }

  /** The recipients of a topic are the live subscriptions to it or to any topic; of no topic, all of them. */
  lemma RecipientsExactly(cs: seq<Command>, topic: string, sub: Subscription)
    ensures sub in Recipients(LiveAfter(cs), topic) <==> IsLive(cs, sub) && (topic == "" || sub.event == topic || sub.event == "*")
  {
    LiveExactly(cs, sub);
    LiveKeyed(cs);
    var live := LiveAfter(cs);
    if sub.id in live && live[sub.id] == sub {
      assert sub.event == topic ==> sub in LiveOf(live, topic);
      assert sub.event == AnyTopic ==> sub in LiveOf(live, AnyTopic);
    }
  }

  /** After any run of calls, publishing reaches exactly the live subscriptions to the topic or to any topic. */
  method RunAndPublish(codec: Codec, cs: seq<Command>, topic: string) returns (reached: seq<Subscription>)
    requires Sound(codec)
    ensures multiset(reached) == multiset(Recipients(LiveAfter(cs), topic))
    ensures forall sub :: multiset(reached)[sub]
                       == if IsLive(cs, sub) && (topic == "" || sub.event == topic || sub.event == "*") then 1 else 0
  {
    var store := new WebhookStore(codec);
    for i := 0 to |cs|
      invariant store.Valid() && store.live == LiveAfter(cs[..i]) && fresh(store)
    {
      assert cs[..i + 1][..i] == cs[..i];
      match cs[i] {
        case Add(sub, uriOk) => var _ := store.Subscribe(sub, uriOk);
        case AddWithID(sub, uriOk) => var _ := store.SubscribeWithID(sub, uriOk);
        case Remove(id) => var _ := store.RemoveSubscription(id);
      }
    }
    assert cs[..|cs|] == cs;
    reached := store.ListSubscriptions(topic);
    forall sub ensures multiset(reached)[sub]
                    == if IsLive(cs, sub) && (topic == "" || sub.event == topic || sub.event == "*") then 1 else 0
    {
      RecipientsExactly(cs, topic, sub);
    }
  }
}
