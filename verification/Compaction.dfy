/** Copying a bucket tree into a new database by a pre-order walk, with commits in the middle of the walk. */
module Compaction {
  import opened Basics
  import opened UInt64

  datatype Tree = Value(bytes: Bytes) | Bucket(sequence: u64, entries: map<Bytes, Tree>)

  const MAX_KEY_SIZE := 32768
  const MAX_VALUE_SIZE := 0x7FFF_FFFE

  // ---- Paths of buckets ----

  predicate HasPath(root: map<Bytes, Tree>, path: seq<Bytes>)
    decreases |path|
  {
    path == [] || (path[0] in root && root[path[0]].Bucket? && HasPath(root[path[0]].entries, path[1..]))
  }

  function EntriesAt(root: map<Bytes, Tree>, path: seq<Bytes>): map<Bytes, Tree>
    requires HasPath(root, path)
    decreases |path|
  {
    if path == [] then root else EntriesAt(root[path[0]].entries, path[1..])
  }

  /** The tree with `t` stored under `k` in the bucket at `path`. */
  function PutAt(root: map<Bytes, Tree>, path: seq<Bytes>, k: Bytes, t: Tree): map<Bytes, Tree>
    requires HasPath(root, path)
    decreases |path|
  {
    if path == [] then root[k := t]
    else root[path[0] := Bucket(root[path[0]].sequence, PutAt(root[path[0]].entries, path[1..], k, t))]
  }

  /** A bucket just stored is reachable and holds its entries. */
  lemma {:induction false} PutThenEnter(root: map<Bytes, Tree>, path: seq<Bytes>, k: Bytes, s: u64, m: map<Bytes, Tree>)
    requires HasPath(root, path)
    ensures HasPath(PutAt(root, path, k, Bucket(s, m)), path + [k])
    ensures EntriesAt(PutAt(root, path, k, Bucket(s, m)), path + [k]) == m
    decreases |path|
  {
    if path == [] {
      assert [k][1..] == [];
    } else {
      PutThenEnter(root[path[0]].entries, path[1..], k, s, m);
      assert (path + [k])[1..] == path[1..] + [k];
    }
  }

  /** Storing a child in a bucket just stored is storing the bucket with the child. */
  lemma {:induction false} PutChild(root: map<Bytes, Tree>, path: seq<Bytes>, k: Bytes, s: u64, m: map<Bytes, Tree>, c: Bytes, t: Tree)
    requires HasPath(root, path)
    requires HasPath(PutAt(root, path, k, Bucket(s, m)), path + [k])
    ensures PutAt(PutAt(root, path, k, Bucket(s, m)), path + [k], c, t) == PutAt(root, path, k, Bucket(s, m[c := t]))
    decreases |path|
  {
    if path == [] {
      assert [k][1..] == [];
    } else {
      PutThenEnter(root[path[0]].entries, path[1..], k, s, m);
      PutChild(root[path[0]].entries, path[1..], k, s, m, c, t);
      assert (path + [k])[1..] == path[1..] + [k];
    }
  }

  // ---- What bolt accepts ----

  /** Keys and values bolt lets into a bucket; every stored tree consists of such entries. */
  ghost predicate Storable(k: Bytes, t: Tree)
    decreases t
  {
    && k != []
    && match t
       case Value(v) => |k| <= MAX_KEY_SIZE && |v| <= MAX_VALUE_SIZE
       case Bucket(_, m) => forall c :: c in m ==> Storable(c, m[c])
  }

  ghost predicate StorableRoot(root: map<Bytes, Tree>) {
    forall k :: k in root ==> root[k].Bucket? && Storable(k, root[k])
  }

  predicate Refused(entries: map<Bytes, Tree>, k: Bytes, t: Tree) {
    || k == []
    || match t
       case Value(v) => |k| > MAX_KEY_SIZE || |v| > MAX_VALUE_SIZE || (k in entries && entries[k].Bucket?)
       case Bucket(_, _) => k in entries
  }

  // ---- Transaction sizes ----

  ghost function Sum(sizes: seq<nat>): nat {
    if sizes == [] then 0 else Sum(sizes[..|sizes| - 1]) + sizes[|sizes| - 1]
  }

  /** A transaction within the limit, or holding a single entry; no limit when it is zero. */
  ghost predicate WithinLimit(sizes: seq<nat>, max: int) {
    max == 0 || Sum(sizes) <= max || |sizes| <= 1
  }

  ghost function SumAll(sizes: seq<seq<nat>>): nat {
    if sizes == [] then 0 else SumAll(sizes[..|sizes| - 1]) + Sum(sizes[|sizes| - 1])
  }

  lemma SumAppend(sizes: seq<nat>, sz: nat)
    ensures Sum(sizes + [sz]) == Sum(sizes) + sz
  {
    assert (sizes + [sz])[..|sizes|] == sizes;
  }

  lemma SumAllAppend(sizes: seq<seq<nat>>, last: seq<nat>)
    ensures SumAll(sizes + [last]) == SumAll(sizes) + Sum(last)
  {
    assert (sizes + [last])[..|sizes|] == sizes;
  }

  /** The bytes of everything below a bucket, or of a value. */
  ghost function Weight(t: Tree): nat
    decreases t, 1
  {
    match t
    case Value(v) => |v|
    case Bucket(_, m) => Weights(t, m.Keys)
  }

  ghost function Weights(t: Tree, keys: set<Bytes>): nat
    requires t.Bucket? && keys <= t.entries.Keys
    decreases t, 0, keys
  {
    if keys == {} then 0
    else
      var k :| k in keys;
      |k| + Weight(t.entries[k]) + Weights(t, keys - {k})
  }

  /** Whatever order the keys are visited in. */
  lemma {:induction false} WeightsRemove(t: Tree, keys: set<Bytes>, c: Bytes)
    requires t.Bucket? && keys <= t.entries.Keys && c in keys
    ensures Weights(t, keys) == |c| + Weight(t.entries[c]) + Weights(t, keys - {c})
    decreases keys
  {
    var k :| k in keys && Weights(t, keys) == |k| + Weight(t.entries[k]) + Weights(t, keys - {k});
    if k != c {
      WeightsRemove(t, keys - {k}, c);
      WeightsRemove(t, keys - {c}, k);
      assert keys - {k} - {c} == keys - {c} - {k};
    }
  }

  lemma WeighOneMore(t: Tree, left: set<Bytes>, c: Bytes)
    requires t.Bucket? && left <= t.entries.Keys && c in left
    ensures Weights(t, t.entries.Keys - (left - {c}))
         == |c| + Weight(t.entries[c]) + Weights(t, t.entries.Keys - left)
  {
    var keys := t.entries.Keys - (left - {c});
    WeightsRemove(t, keys, c);
    assert keys - {c} == t.entries.Keys - left;
  }

  lemma StoreOneMore(before: map<Bytes, Tree>, source: map<Bytes, Tree>, left: set<Bytes>, k: Bytes)
    requires k in left && left <= source.Keys
    ensures (before + (source - left))[k := source[k]] == before + (source - (left - {k}))
  {
  }

  datatype Status = Done | Failed | NilBucket

  class Compacter {
    const txMaxSize: int
    var committed: map<Bytes, Tree>  // the destination as of the last commit
    var pending: map<Bytes, Tree>    // the destination as the open transaction sees it
    var size: int
    ghost var open: seq<nat>         // sizes of the entries of the open transaction
    ghost var closed: seq<seq<nat>>  // the same for the committed ones

    ghost predicate Valid()
      reads this
    {
      && size == Sum(open)
      && WithinLimit(open, txMaxSize)
      && forall i :: 0 <= i < |closed| ==> WithinLimit(closed[i], txMaxSize)
    }

    /** The bytes written so far, over all transactions. */
    ghost function Written(): nat
      reads this
    {
      SumAll(closed) + Sum(open)
    }

    /** Begins the first transaction on the destination. */
    constructor (destination: map<Bytes, Tree>, limit: int)
      ensures Valid() && open == [] && committed == pending == destination && txMaxSize == limit && closed == []
    {
      committed, pending, txMaxSize := destination, destination, limit;
      size, open, closed := 0, [], [];
    }

    method Commit()
      modifies this
      ensures committed == pending == old(pending) && size == old(size)
      ensures open == [] && closed == old(closed) + [old(open)] && Written() == old(Written())
    {
      committed := pending;
      SumAllAppend(closed, open);
      closed, open := closed + [open], [];
    }

    method Begin()
      modifies this
      ensures pending == committed == old(committed) && size == 0
      ensures open == old(open) && closed == old(closed)
    {
      pending := committed;
      size := 0;
    }

    /** Ends the transaction if an entry would exceed the limit, and begins another. */
    method CloseFull(sz: nat)
      requires Valid()
      modifies this
      ensures Valid() && pending == old(pending) && Written() == old(Written())
      ensures txMaxSize == 0 || size + sz <= txMaxSize || open == []
    {
      if size + sz > txMaxSize && txMaxSize != 0 {
        Commit();
        Begin();
      }
    }

    /** Accounts for an entry, committing first when it would exceed the limit. */
    method MakeRoom(sz: nat)
      requires Valid()
      modifies this
      ensures Valid() && pending == old(pending) && Written() == old(Written()) + sz
    {
      CloseFull(sz);
      SumAppend(open, sz);
      size := size + sz;
      open := open + [sz];
    }

    /** The callback of the walk: stores one entry, a bucket without its content or a value. */
    method Copy(path: seq<Bytes>, k: Bytes, v: Option<Bytes>, sequence: u64) returns (s: Status)
      requires Valid()
      modifies this
      ensures Valid() && Written() == old(Written()) + |k| + (if v.Some? then |v.value| else 0)
      ensures var t := if path == [] || v.None? then Bucket(sequence, map[]) else Value(v.value);
              && (s == NilBucket <==> !HasPath(old(pending), path))
              && (s == Failed <==> HasPath(old(pending), path) && Refused(EntriesAt(old(pending), path), k, t))
              && (s == Done ==> pending == PutAt(old(pending), path, k, t))
    {
      var sz := |k| + (if v.Some? then |v.value| else 0);
      MakeRoom(sz);
      if |path| == 0 {
        if Refused(pending, k, Bucket(sequence, map[])) { return Failed; }
        pending := pending[k := Bucket(sequence, map[])];
        return Done;
      }
      var b, i := pending, 0;
      while i < |path|
        invariant i <= |path|
        invariant HasPath(pending, path) <==> HasPath(b, path[i..])
        invariant HasPath(pending, path) ==> EntriesAt(pending, path) == EntriesAt(b, path[i..])
        invariant Valid() && pending == old(pending) && Written() == old(Written()) + sz
      {
        if path[i] !in b || !b[path[i]].Bucket? { return NilBucket; }
        b, i := b[path[i]].entries, i + 1;
      }
      var t := if v.None? then Bucket(sequence, map[]) else Value(v.value);
      if Refused(b, k, t) { return Failed; }
      pending := PutAt(pending, path, k, t);
      s := Done;
    }

    /** Copies an entry and, if it is a bucket, everything below it. */
    method WalkBucket(path: seq<Bytes>, k: Bytes, node: Tree) returns (s: Status)
      requires Valid() && HasPath(pending, path)
      requires Storable(k, node) && (path == [] ==> node.Bucket?)
      modifies this
      ensures Valid()
      ensures s == Done || s == Failed
      ensures k !in EntriesAt(old(pending), path) ==> s == Done
      ensures node.Bucket? && k in EntriesAt(old(pending), path) ==> s == Failed
      ensures s == Done ==> pending == PutAt(old(pending), path, k, node) && Written() == old(Written()) + |k| + Weight(node)
      decreases node, 1
    {
      if node.Value? {
        s := Copy(path, k, Some(node.bytes), 0);
        return;
      }
      s := Copy(path, k, None, node.sequence);
      if s != Done { return; }
      s := WalkEntries(old(pending), path, k, node);
    }

    /** Copies everything below a bucket just created at `path + [k]`. */
    method WalkEntries(ghost before: map<Bytes, Tree>, path: seq<Bytes>, k: Bytes, node: Tree) returns (s: Status)
      requires Valid() && HasPath(before, path) && node.Bucket? && Storable(k, node)
      requires pending == PutAt(before, path, k, Bucket(node.sequence, map[]))
      modifies this
      ensures Valid() && s == Done
      ensures pending == PutAt(before, path, k, node) && Written() == old(Written()) + Weight(node)
      decreases node, 0
    {
      var left := node.entries.Keys;
      ghost var done: map<Bytes, Tree> := map[];
      while left != {}
        invariant left <= node.entries.Keys
        invariant done == map c | c in node.entries && c !in left :: node.entries[c]
        invariant Valid() && pending == PutAt(before, path, k, Bucket(node.sequence, done))
        invariant Written() == old(Written()) + Weights(node, node.entries.Keys - left)
        decreases left
      {
        var c :| c in left;
        PutThenEnter(before, path, k, node.sequence, done);
        s := WalkBucket(path + [k], c, node.entries[c]);
        PutChild(before, path, k, node.sequence, done, c, node.entries[c]);
        WeighOneMore(node, left, c);
        done, left := done[c := node.entries[c]], left - {c};
      }
      assert done == node.entries && node.entries.Keys - left == node.entries.Keys;
      s := Done;
    }

    /** Walks the source bucket by bucket, in any order; fails at the first that the destination has already. */
    method Walk(source: map<Bytes, Tree>) returns (s: Status)
      requires Valid() && StorableRoot(source)
      modifies this
      ensures Valid() && s != NilBucket
      ensures s == Done <==> source.Keys !! old(pending).Keys
      ensures s == Done ==> pending == old(pending) + source && Written() == old(Written()) + Weight(Bucket(0, source))
    {
      var left := source.Keys;
      ghost var before := pending;
      assert source - left == map[] && before + map[] == before;
      while left != {}
        invariant left <= source.Keys && source.Keys - left !! before.Keys
        invariant Valid() && pending == before + (source - left)
        invariant Written() == old(Written()) + Weights(Bucket(0, source), source.Keys - left)
        decreases left
      {
        var k :| k in left;
        s := WalkBucket([], k, source[k]);
        if s != Done { return; }
        StoreOneMore(before, source, left, k);
        WeighOneMore(Bucket(0, source), left, k);
        left := left - {k};
      }
      assert source - left == source && source.Keys - left == source.Keys;
      s := Done;
    }

    /** Compacts a source into the destination. */
    method Compact(source: map<Bytes, Tree>) returns (s: Status)
      requires Valid() && committed == pending
      requires StorableRoot(source)
      modifies this
      ensures s != NilBucket
      ensures forall i :: 0 <= i < |closed| ==> WithinLimit(closed[i], txMaxSize)
      ensures s == Done <==> source.Keys !! old(committed).Keys
      ensures s == Done ==> committed == old(committed) + source && open == []
      ensures s == Done ==> Written() == old(Written()) + Weight(Bucket(0, source))
    {
      s := Walk(source);
      if s == Done { Commit(); }
    }
  }

  /** A new destination: the copy equals the source, the transactions wrote every byte of it once, and none exceeds the
      limit unless it holds one entry. */
  method CompactIntoNew(source: map<Bytes, Tree>, limit: int) returns (s: Status, result: map<Bytes, Tree>, ghost sizes: seq<seq<nat>>)
    requires StorableRoot(source)
    ensures s == Done && result == source && SumAll(sizes) == Weight(Bucket(0, source))
    ensures forall i :: 0 <= i < |sizes| ==> limit == 0 || Sum(sizes[i]) <= limit || |sizes[i]| <= 1
  {
    var c := new Compacter(map[], limit);
    s := c.Compact(source);
    assert map[] + source == source;
    result, sizes := c.committed, c.closed;
    forall i | 0 <= i < |sizes| ensures limit == 0 || Sum(sizes[i]) <= limit || |sizes[i]| <= 1 {
      assert WithinLimit(sizes[i], limit);
    }
  }
}
