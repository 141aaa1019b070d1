/** The combination enumerator of the coin selection: `combination` is the package-level buffer
    that the recursive search extends on the way down and truncates on the way up. */
module Combinations {
  import opened UInt64

  predicate Within(c: seq<nat>, lo: nat, hi: nat) {
    forall k :: 0 <= k < |c| ==> lo <= c[k] < hi
  }

  predicate Ascending(c: seq<nat>) {
    forall j, k :: 0 <= j < k < |c| ==> c[j] < c[k]
  }

  /** The positions `c`, in order, are a strictly increasing choice of `size` positions of [offset, n). */
  predicate IsChoice(c: seq<nat>, n: nat, size: nat, offset: nat) {
    |c| == size && Within(c, offset, n) && Ascending(c)
  }

  lemma ChoiceCons(c: seq<nat>, n: nat, size: nat, offset: nat)
    requires |c| == size > 0
    ensures IsChoice(c, n, size, offset) <==> offset <= c[0] < n && IsChoice(c[1..], n, size - 1, c[0] + 1)
  {
    if offset <= c[0] < n && IsChoice(c[1..], n, size - 1, c[0] + 1) {
      forall k | 0 < k < |c| ensures c[0] < c[k] < n {
        assert c[k] == c[1..][k - 1];
      }
      forall j, k | 0 <= j < k < |c| ensures c[j] < c[k] {
        if j > 0 { assert c[1..][j - 1] < c[1..][k - 1]; }
      }
    }
  }

  /** `a` comes before `b` in lexicographic order of positions. */
  ghost predicate LexLess(a: seq<nat>, b: seq<nat>) {
    a != [] && b != [] && (a[0] < b[0] || (a[0] == b[0] && LexLess(a[1..], b[1..])))
  }

  function Prepend(i: nat, cs: seq<seq<nat>>): (r: seq<seq<nat>>)
    ensures |r| == |cs|
    ensures forall k :: 0 <= k < |r| ==> r[k] == [i] + cs[k]
  {
    seq(|cs|, k requires 0 <= k < |cs| => [i] + cs[k])
  }

  /** Every choice of `size` positions of [offset, n), in the order the recursion finds them. */
  function Choices(n: nat, size: nat, offset: nat): (r: seq<seq<nat>>)
    decreases size, if offset <= n then n - offset else 0
  {
    if size == 0 then [[]]
    else if offset + size > n then []
    else Prepend(offset, Choices(n, size - 1, offset + 1)) + Choices(n, size, offset + 1)
  }

  /** Everything enumerated is a choice. */
  lemma {:induction false} ChoicesSound(n: nat, size: nat, offset: nat, i: nat)
    requires i < |Choices(n, size, offset)|
    ensures IsChoice(Choices(n, size, offset)[i], n, size, offset)
    decreases size, if offset <= n then n - offset else 0
  {
    if size > 0 {
      var first := Choices(n, size - 1, offset + 1);
      if i < |first| {
        ChoicesSound(n, size - 1, offset + 1, i);
        assert ([offset] + first[i])[1..] == first[i];
        ChoiceCons([offset] + first[i], n, size, offset);
      } else {
        ChoicesSound(n, size, offset + 1, i - |first|);
      }
    }
  }

  /** The enumeration misses no choice. */
  lemma {:induction false} ChoicesComplete(c: seq<nat>, n: nat, size: nat, offset: nat)
    requires IsChoice(c, n, size, offset)
    ensures c in Choices(n, size, offset)
    decreases size, if offset <= n then n - offset else 0
  {
    if size == 0 {
      assert c == [];
    } else {
      ChoiceNeedsRoom(c, n, size, offset);
      if c[0] == offset {
        ChoiceCons(c, n, size, offset);
        ChoicesComplete(c[1..], n, size - 1, offset + 1);
        InPrepend(c, Choices(n, size - 1, offset + 1));
      } else {
        assert Within(c, offset + 1, n);
        ChoicesComplete(c, n, size, offset + 1);
      }
      InEither(c, Prepend(offset, Choices(n, size - 1, offset + 1)), Choices(n, size, offset + 1));
    }
  }

  lemma InEither(c: seq<nat>, a: seq<seq<nat>>, b: seq<seq<nat>>)
    ensures c in a || c in b ==> c in a + b
  {
  }

  lemma InPrepend(c: seq<nat>, cs: seq<seq<nat>>)
    requires c != [] && c[1..] in cs
    ensures c in Prepend(c[0], cs)
  {
    var k :| 0 <= k < |cs| && cs[k] == c[1..];
    assert Prepend(c[0], cs)[k] == c;
  }

  lemma {:induction false} ChoiceNeedsRoom(c: seq<nat>, n: nat, size: nat, offset: nat)
    requires IsChoice(c, n, size, offset)
    ensures size == 0 || offset + size <= n
    decreases size
  {
    if size > 0 {
      ChoiceCons(c, n, size, offset);
      ChoiceNeedsRoom(c[1..], n, size - 1, c[0] + 1);
    }
  }

  /** The enumeration is strictly increasing. */
  lemma {:induction false} ChoicesInOrder(n: nat, size: nat, offset: nat, i: nat, j: nat)
    requires i < j < |Choices(n, size, offset)|
    ensures LexLess(Choices(n, size, offset)[i], Choices(n, size, offset)[j])
    decreases size, if offset <= n then n - offset else 0
  {
    var first, rest := Choices(n, size - 1, offset + 1), Choices(n, size, offset + 1);
    if j < |first| {
      ChoicesInOrder(n, size - 1, offset + 1, i, j);
      assert ([offset] + first[i])[1..] == first[i] && ([offset] + first[j])[1..] == first[j];
    } else if i >= |first| {
      ChoicesInOrder(n, size, offset + 1, i - |first|, j - |first|);
    } else {
      ChoicesSound(n, size, offset + 1, j - |first|);
    }
  }

  lemma {:induction false} LexLessIrreflexive(a: seq<nat>)
    ensures !LexLess(a, a)
  {
    if a != [] { LexLessIrreflexive(a[1..]); }
  }

  /** So it repeats no choice. */
  lemma ChoicesDistinct(n: nat, size: nat, offset: nat, i: nat, j: nat)
    requires i < j < |Choices(n, size, offset)|
    ensures Choices(n, size, offset)[i] != Choices(n, size, offset)[j]
  {
    ChoicesInOrder(n, size, offset, i, j);
    LexLessIrreflexive(Choices(n, size, offset)[i]);
  }

  function Binomial(n: nat, k: nat): nat {
    if k == 0 then 1 else if n == 0 then 0 else Binomial(n - 1, k - 1) + Binomial(n - 1, k)
  }

  lemma {:induction false} NoRoom(n: nat, k: nat)
    requires n < k
    ensures Binomial(n, k) == 0
  {
    if n > 0 {
      NoRoom(n - 1, k - 1);
      NoRoom(n - 1, k);
    }
  }

  lemma {:induction false} ChoicesCount(n: nat, size: nat, offset: nat)
    requires offset <= n
    ensures |Choices(n, size, offset)| == Binomial(n - offset, size)
    decreases size, n - offset
  {
    if size > 0 {
      if offset + size > n {
        NoRoom(n - offset, size);
      } else {
        ChoicesCount(n, size - 1, offset + 1);
        ChoicesCount(n, size, offset + 1);
      }
    }
  }

  /** The elements of `src` at the positions `c`. */
  function Pick<T>(src: seq<T>, c: seq<nat>): (r: seq<T>)
    requires Within(c, 0, |src|)
    ensures |r| == |c|
    ensures forall k :: 0 <= k < |c| ==> r[k] == src[c[k]]
  {
    seq(|c|, k requires 0 <= k < |c| => src[c[k]])
  }

  predicate AllWithin(cs: seq<seq<nat>>, n: nat) {
    forall j :: 0 <= j < |cs| ==> Within(cs[j], 0, n)
  }

  lemma ChoicesWithin(n: nat, size: nat, offset: nat)
    ensures AllWithin(Choices(n, size, offset), n)
  {
    forall j | 0 <= j < |Choices(n, size, offset)| ensures Within(Choices(n, size, offset)[j], 0, n) {
      ChoicesSound(n, size, offset, j);
    }
  }

  /** The buffer followed by each choice, one result per choice. */
  function Extensions(buffer: seq<u64>, src: seq<u64>, cs: seq<seq<nat>>): (r: seq<seq<u64>>)
    requires AllWithin(cs, |src|)
    ensures |r| == |cs|
    ensures forall j :: 0 <= j < |cs| ==> r[j] == buffer + Pick(src, cs[j])
  {
    seq(|cs|, j requires 0 <= j < |cs| => buffer + Pick(src, cs[j]))
  }

  /** What the recursion returns for a buffer: the buffer extended by every choice. */
  function Enumerated(buffer: seq<u64>, src: seq<u64>, size: nat, offset: nat): seq<seq<u64>> {
    ChoicesWithin(|src|, size, offset);
    Extensions(buffer, src, Choices(|src|, size, offset))
  }

  lemma EnumeratedStep(buffer: seq<u64>, src: seq<u64>, size: nat, i: nat)
    requires size > 0 && i + size <= |src|
    ensures Enumerated(buffer, src, size, i)
         == Enumerated(buffer + [src[i]], src, size - 1, i + 1) + Enumerated(buffer, src, size, i + 1)
  {
    ChoicesWithin(|src|, size, i);
    ChoicesWithin(|src|, size - 1, i + 1);
    ChoicesWithin(|src|, size, i + 1);
    var deeper, l := Choices(|src|, size - 1, i + 1), Enumerated(buffer, src, size, i);
    forall j | 0 <= j < |deeper| ensures l[j] == buffer + [src[i]] + Pick(src, deeper[j]) {
      assert Choices(|src|, size, i)[j] == [i] + deeper[j];
      assert Pick(src, [i] + deeper[j]) == [src[i]] + Pick(src, deeper[j]);
    }
  }

  lemma EnumeratedNothing(buffer: seq<u64>, src: seq<u64>, offset: nat)
    ensures Enumerated(buffer, src, 0, offset) == [buffer]
  {
    ChoicesWithin(|src|, 0, offset);
    assert buffer + Pick(src, []) == buffer;
  }

  lemma EnumeratedPast(buffer: seq<u64>, src: seq<u64>, size: nat, i: nat)
    requires size > 0 && i + size > |src|
    ensures Enumerated(buffer, src, size, i) == []
  {
    ChoicesWithin(|src|, size, i);
  }

  lemma Regroup(a: seq<seq<u64>>, b: seq<seq<u64>>, c: seq<seq<u64>>)
    ensures a + (b + c) == (a + b) + c
  {
  }

  class Enumerator {
    var combination: seq<u64>

    constructor ()
      ensures combination == []
    {
      combination := [];
    }

    /** Every choice of `size` elements from `offset` on, each after what the buffer holds. */
    method GetCombination(src: seq<u64>, size: nat, offset: nat) returns (result: seq<seq<u64>>)
      modifies this
      ensures combination == old(combination)
      ensures result == Enumerated(combination, src, size, offset)
      decreases size, 1
    {
      result := [];
      if size == 0 {
        EnumeratedNothing(combination, src, offset);
        return [combination];
      }
      var i := offset;
      ghost var all := Enumerated(combination, src, size, offset);
      ghost var rest := all;
      while i + size <= |src|
        invariant i >= offset && combination == old(combination)
        invariant rest == Enumerated(combination, src, size, i) && all == result + rest
        decreases |src| - i
      {
        var temp := WithElement(src, size, i);
        EnumeratedStep(combination, src, size, i);
        ghost var next := Enumerated(combination, src, size, i + 1);
        Regroup(result, temp, next);
        result, rest := result + temp, next;
        i := i + 1;
      }
      EnumeratedPast(combination, src, size, i);
    }

    /** The choices that take the element at `i` next. */
    method WithElement(src: seq<u64>, size: nat, i: nat) returns (temp: seq<seq<u64>>)
      requires size > 0 && i < |src|
      modifies this
      ensures combination == old(combination)
      ensures temp == Enumerated(combination + [src[i]], src, size - 1, i + 1)
      decreases size, 0
    {
      combination := combination + [src[i]];
      temp := GetCombination(src, size - 1, i + 1);
      combination := combination[..|combination| - 1];
    }
  }
}

/** Fewest-coins selection within ten times the target, and the mapping back to utxos. */
module CoinSelection {
  import opened Basics
  import opened UInt64
  import opened Combinations

  datatype Utxo = Utxo(hash: string, index: nat, asset: Asset, value: u64, confidential: bool, revealed: bool) {
    predicate Hidden() {
      confidential && !revealed
    }
  }

  datatype Error = MustBeUnblinded | TargetNotCovered

  datatype Selection = Selected(coins: seq<Utxo>, change: u64) | Failed(error: Error)

  function Sum(items: seq<u64>): nat {
    if items == [] then 0 else Sum(items[..|items| - 1]) + items[|items| - 1]
  }

  function Values(utxos: seq<Utxo>): (r: seq<u64>)
    ensures |r| == |utxos|
    ensures forall k :: 0 <= k < |r| ==> r[k] == utxos[k].value
  {
    seq(|utxos|, k requires 0 <= k < |utxos| => utxos[k].value)
  }

  function Total(utxos: seq<Utxo>): nat {
    Sum(Values(utxos))
  }

  function OfAsset(utxos: seq<Utxo>, asset: Asset): seq<Utxo> {
    if utxos == [] then []
    else
      var n := |utxos| - 1;
      OfAsset(utxos[..n], asset) + (if utxos[n].asset == asset then [utxos[n]] else [])
  }

  /** The coins of the asset, each as often as it was given. */
  lemma {:induction false} OfAssetCount(utxos: seq<Utxo>, asset: Asset, u: Utxo)
    ensures multiset(OfAsset(utxos, asset))[u] == if u.asset == asset then multiset(utxos)[u] else 0
  {
    if utxos != [] {
      var n := |utxos| - 1;
      OfAssetCount(utxos[..n], asset, u);
      assert utxos == utxos[..n] + [utxos[n]];
      OneMore(utxos[..n], utxos[n], u);
      if utxos[n].asset == asset { OneMore(OfAsset(utxos[..n], asset), utxos[n], u); }
    }
  }

  lemma OneMore(utxos: seq<Utxo>, x: Utxo, u: Utxo)
    ensures multiset(utxos + [x])[u] == multiset(utxos)[u] + (if x == u then 1 else 0)
  {
  }

  /** A total the search accepts: the target exactly, or above it within the (wrapping) ten-fold bound. */
  predicate InWindow(total: u64, target: u64) {
    total == target || target < total <= U64(target * 10)
  }

  /** A non-empty subset of the coins, given by positions, whose total is in the window. */
  ghost predicate Candidate(items: seq<u64>, target: u64, c: seq<nat>) {
    |c| > 0 && IsChoice(c, |items|, |c|, 0) && InWindow(U64(Sum(Pick(items, c))), target)
  }

  ghost predicate MinimalCandidate(items: seq<u64>, target: u64, c: seq<nat>) {
    Candidate(items, target, c) && forall d :: Candidate(items, target, d) ==> |c| <= |d|
  }

  ghost predicate FirstAbove(items: seq<u64>, target: u64, k: nat) {
    k < |items| && items[k] > target && forall j :: 0 <= j < k ==> items[j] <= target
  }

  /** A smallest subset in the window; failing that the first coin above the target; failing that nothing. */
  ghost predicate IsBest(items: seq<u64>, target: u64, r: seq<u64>) {
    || (exists c :: MinimalCandidate(items, target, c) && r == Pick(items, c))
    || ((forall c :: !Candidate(items, target, c))
        && ((exists k: nat :: FirstAbove(items, target, k) && r == [items[k]])
            || ((forall j :: 0 <= j < |items| ==> items[j] <= target) && r == [])))
  }

  method SumItems(items: seq<u64>) returns (total: u64)
    ensures total == U64(Sum(items))
  {
    total := 0;
    for i := 0 to |items|
      invariant total == U64(Sum(items[..i]))
    {
      assert items[..i + 1][..i] == items[..i];
      WrapAdd(Sum(items[..i]), items[i]);
      total := U64(total + items[i]);
    }
    assert items[..|items|] == items;
  }

  lemma ChoiceIsEnumerated(items: seq<u64>, c: seq<nat>)
    requires IsChoice(c, |items|, |c|, 0)
    ensures Pick(items, c) in Enumerated([], items, |c|, 0)
  {
    ChoicesComplete(c, |items|, |c|, 0);
    ChoicesWithin(|items|, |c|, 0);
    var k :| 0 <= k < |Choices(|items|, |c|, 0)| && Choices(|items|, |c|, 0)[k] == c;
    assert Enumerated([], items, |c|, 0)[k] == [] + Pick(items, c) == Pick(items, c);
  }

  lemma EnumeratedIsChoice(items: seq<u64>, size: nat, k: nat)
    requires k < |Enumerated([], items, size, 0)|
    ensures exists c :: IsChoice(c, |items|, size, 0) && Enumerated([], items, size, 0)[k] == Pick(items, c)
  {
    ChoicesSound(|items|, size, 0, k);
    ChoicesWithin(|items|, size, 0);
    var c := Choices(|items|, size, 0)[k];
    assert [] + Pick(items, c) == Pick(items, c);
  }

  /** Every subset of fewer than `size` coins has been tried and is outside the window. */
  ghost predicate TriedBelow(items: seq<u64>, target: u64, size: nat) {
    forall c :: Candidate(items, target, c) ==> |c| >= size
  }

  lemma TriedOneMore(items: seq<u64>, target: u64, size: nat)
    requires TriedBelow(items, target, size)
    requires forall r :: r in Enumerated([], items, size, 0) ==> !InWindow(U64(Sum(r)), target)
    ensures TriedBelow(items, target, size + 1)
  {
    forall c | Candidate(items, target, c) ensures |c| >= size + 1 {
      if |c| == size {
        ChoiceIsEnumerated(items, c);
        assert false;
      }
    }
  }

  lemma FirstFoundIsBest(items: seq<u64>, target: u64, size: nat, more: seq<seq<u64>>, r: seq<u64>)
    requires size > 0 && more == Enumerated([], items, size, 0) && r in more
    requires TriedBelow(items, target, size) && InWindow(U64(Sum(r)), target)
    ensures IsBest(items, target, r)
  {
    var k :| 0 <= k < |more| && more[k] == r;
    EnumeratedIsChoice(items, size, k);
    var c :| IsChoice(c, |items|, size, 0) && r == Pick(items, c);
    assert Candidate(items, target, c);
    assert MinimalCandidate(items, target, c);
  }

  ghost predicate AllOutside(result: seq<seq<u64>>, target: u64) {
    forall k :: 0 <= k < |result| ==> !InWindow(U64(Sum(result[k])), target)
  }

  /** The position of the first accepted combination, or the length of the list. */
  method ScanCombinations(result: seq<seq<u64>>, target: u64) returns (j: nat)
    ensures j <= |result| && AllOutside(result[..j], target)
    ensures j < |result| ==> InWindow(U64(Sum(result[j])), target)
  {
    j := 0;
    while j < |result|
      invariant j <= |result| && AllOutside(result[..j], target)
    {
      var total := SumItems(result[j]);
      if !(total < target) {
        if total == target { return; }
        if total <= U64(target * 10) { return; }
      }
      assert !InWindow(U64(Sum(result[j])), target);
      assert result[..j + 1] == result[..j] + [result[j]];
      j := j + 1;
    }
  }

  lemma AllTried(before: seq<seq<u64>>, items: seq<u64>, target: u64, size: nat)
    requires TriedBelow(items, target, size)
    requires AllOutside(before + Enumerated([], items, size, 0), target)
    ensures TriedBelow(items, target, size + 1)
  {
    var more := Enumerated([], items, size, 0);
    forall r | r in more ensures !InWindow(U64(Sum(r)), target) {
      var k :| 0 <= k < |more| && more[k] == r;
      assert (before + more)[|before| + k] == r;
    }
    TriedOneMore(items, target, size);
  }

  method GetBestCombination(e: Enumerator, items: seq<u64>, target: u64) returns (r: seq<u64>)
    requires e.combination == []
    modifies e
    ensures e.combination == []
    ensures IsBest(items, target, r)
  {
    var result: seq<seq<u64>> := [];
    for i := 1 to |items| + 1
      invariant e.combination == []
      invariant AllOutside(result, target)
      invariant TriedBelow(items, target, i)
    {
      var more := e.GetCombination(items, i, 0);
      var j := TrySize(result, more, items, target, i);
      result := result + more;
      if j < |result| { return result[j]; }
    }
    NoCandidate(items, target);
    r := FirstGreater(items, target);
  }

  /** Tries everything found so far and the combinations of one more size. */
  method TrySize(before: seq<seq<u64>>, more: seq<seq<u64>>, ghost items: seq<u64>, target: u64, ghost size: nat) returns (j: nat)
    requires size > 0 && more == Enumerated([], items, size, 0)
    requires AllOutside(before, target) && TriedBelow(items, target, size)
    ensures j <= |before + more|
    ensures j < |before + more| ==> IsBest(items, target, (before + more)[j])
    ensures j == |before + more| ==> AllOutside(before + more, target) && TriedBelow(items, target, size + 1)
  {
    j := ScanCombinations(before + more, target);
    if j < |before + more| {
      FoundInMore(before, more, target, j);
      FirstFoundIsBest(items, target, size, more, (before + more)[j]);
    } else {
      assert (before + more)[..j] == before + more;
      AllTried(before, items, target, size);
    }
  }

  lemma FoundInMore(before: seq<seq<u64>>, more: seq<seq<u64>>, target: u64, j: nat)
    requires AllOutside(before, target) && j < |before + more| && InWindow(U64(Sum((before + more)[j])), target)
    ensures (before + more)[j] in more
  {
    if j >= |before| { assert more[j - |before|] == (before + more)[j]; }
  }

  /** No good combination: the first coin above the target, if any. */
  method FirstGreater(items: seq<u64>, target: u64) returns (r: seq<u64>)
    ensures r == [] ==> forall j :: 0 <= j < |items| ==> items[j] <= target
    ensures r != [] ==> exists k: nat :: FirstAbove(items, target, k) && r == [items[k]]
  {
    for k := 0 to |items|
      invariant forall j :: 0 <= j < k ==> items[j] <= target
    {
      if items[k] > target {
        assert FirstAbove(items, target, k);
        return [items[k]];
      }
    }
    r := [];
  }

  lemma NoCandidate(items: seq<u64>, target: u64)
    requires TriedBelow(items, target, |items| + 1)
    ensures forall c :: !Candidate(items, target, c)
  {
    forall c ensures !Candidate(items, target, c) {
      if Candidate(items, target, c) {
        ChoiceNeedsRoom(c, |items|, |c|, 0);
      }
    }
  }

  // ---- Mapping values back to positions ----

  predicate Distinct(ix: seq<nat>) {
    forall j, k :: 0 <= j < k < |ix| ==> ix[j] != ix[k]
  }

  ghost function PositionsOf<T>(s: seq<T>, v: T): set<nat> {
    set k: nat | k < |s| && s[k] == v
  }

  lemma {:induction false} PositionsCount<T>(s: seq<T>, v: T)
    ensures |PositionsOf(s, v)| == multiset(s)[v]
  {
    if s == [] {
      assert PositionsOf(s, v) == {};
    } else {
      var n := |s| - 1;
      PositionsCount(s[..n], v);
      assert s == s[..n] + [s[n]];
      assert PositionsOf(s, v) == PositionsOf(s[..n], v) + (if s[n] == v then {n} else {});
    }
  }

  lemma {:induction false} ImageSize(a: set<nat>, ix: seq<nat>, image: set<nat>)
    requires Distinct(ix) && forall k :: k in a ==> k < |ix|
    requires image == set k | k in a :: ix[k]
    ensures |image| == |a|
  {
    if a != {} {
      var x :| x in a;
      ImageSize(a - {x}, ix, image - {ix[x]});
    }
  }

  lemma SubsetSize(a: set<nat>, b: set<nat>)
    requires a <= b
    ensures |a| <= |b|
  {
    assert b == a + (b - a);
  }

  /** Distinct positions hold no more copies of a value than the list; if every copy is taken, just as many. */
  lemma TakenCount<T>(values: seq<T>, ix: seq<nat>, picked: seq<T>, v: T)
    requires Distinct(ix) && Within(ix, 0, |values|)
    requires |picked| == |ix| && forall k :: 0 <= k < |ix| ==> picked[k] == values[ix[k]]
    ensures multiset(picked)[v] <= multiset(values)[v]
    ensures (forall i: nat :: i < |values| && values[i] == v ==> i in ix) ==> multiset(picked)[v] == multiset(values)[v]
  {
    var taken := PositionsOf(picked, v);
    var image := set k | k in taken :: ix[k];
    PositionsCount(values, v);
    PositionsCount(picked, v);
    ImageSize(taken, ix, image);
    SubsetSize(image, PositionsOf(values, v));
    if forall i: nat :: i < |values| && values[i] == v ==> i in ix {
      forall p | p in PositionsOf(values, v) ensures p in image {
        assert p in ix;
        var k :| 0 <= k < |ix| && ix[k] == p;
        assert k in taken;
      }
      SubsetSize(PositionsOf(values, v), image);
    }
  }

  /** The chosen positions hold, copy for copy, the values of the list that occur in `values`. */
  ghost predicate Maps(list: seq<u64>, values: seq<u64>, ix: seq<nat>) {
    && Distinct(ix) && Within(ix, 0, |values|)
    && multiset(Pick(values, ix)) == multiset(list) * multiset(values)
  }

  lemma MapsOneMore(list: seq<u64>, values: seq<u64>, ix: seq<nat>, v: u64, i: nat)
    requires Maps(list, values, ix)
    requires i < |values| && values[i] == v && i !in ix
    ensures Maps(list + [v], values, ix + [i])
    ensures Pick(values, ix + [i]) == Pick(values, ix) + [v]
  {
    assert Pick(values, ix + [i]) == Pick(values, ix) + [v];
    forall w ensures multiset(Pick(values, ix + [i]))[w] == (multiset(list + [v]) * multiset(values))[w] {
      TakenCount(values, ix + [i], Pick(values, ix + [i]), w);
    }
  }

  lemma MapsNone(list: seq<u64>, values: seq<u64>, ix: seq<nat>, v: u64)
    requires Maps(list, values, ix)
    requires forall i: nat :: i < |values| && values[i] == v ==> i in ix
    ensures Maps(list + [v], values, ix)
  {
    TakenCount(values, ix, Pick(values, ix), v);
    forall w ensures multiset(Pick(values, ix))[w] == (multiset(list + [v]) * multiset(values))[w] {
      TakenCount(values, ix, Pick(values, ix), w);
    }
  }

  /** The first position holding `v` that is not occupied yet, or the length of the list. */
  method FirstFree(values: seq<u64>, v: u64, occupied: seq<nat>) returns (i: nat)
    ensures i <= |values|
    ensures i < |values| ==> values[i] == v && i !in occupied
    ensures forall k: nat :: k < i && values[k] == v ==> k in occupied
  {
    i := 0;
    while i < |values|
      invariant i <= |values|
      invariant forall k: nat :: k < i && values[k] == v ==> k in occupied
    {
      if v == values[i] && i !in occupied {
        return;
      }
      i := i + 1;
    }
  }

  method FindIndexes(list: seq<u64>, values: seq<u64>) returns (indexes: seq<nat>)
    ensures Maps(list, values, indexes)
    ensures multiset(list) <= multiset(values) ==> Pick(values, indexes) == list
  {
    indexes := [];
    for n := 0 to |list|
      invariant Maps(list[..n], values, indexes)
      invariant |indexes| <= n
      invariant |indexes| == n ==> Pick(values, indexes) == list[..n]
    {
      var i := FirstFree(values, list[n], indexes);
      assert list[..n + 1] == list[..n] + [list[n]];
      if i < |values| {
        MapsOneMore(list[..n], values, indexes, list[n], i);
        indexes := indexes + [i];
      } else {
        MapsNone(list[..n], values, indexes, list[n]);
      }
    }
    assert list[..|list|] == list;
    if multiset(list) <= multiset(values) {
      assert multiset(list) * multiset(values) == multiset(list);
      assert |Pick(values, indexes)| == |multiset(Pick(values, indexes))| == |list|;
    }
  }

  // ---- Totals do not depend on the order of the coins ----

  lemma TotalAppend(a: seq<Utxo>, u: Utxo)
    ensures Total(a + [u]) == Total(a) + u.value
  {
    assert Values(a + [u])[..|a|] == Values(a);
  }

  lemma {:induction false} TotalRemove(s: seq<Utxo>, k: nat)
    requires k < |s|
    ensures Total(s) == Total(s[..k] + s[k + 1..]) + s[k].value
  {
    var n := |s| - 1;
    assert s == s[..n] + [s[n]];
    TotalAppend(s[..n], s[n]);
    if k == n {
      assert s[..k] + s[k + 1..] == s[..n];
    } else {
      TotalRemove(s[..n], k);
      assert s[..k] + s[k + 1..] == s[..n][..k] + s[..n][k + 1..] + [s[n]];
      TotalAppend(s[..n][..k] + s[..n][k + 1..], s[n]);
    }
  }

  lemma {:induction false} SubTotal(a: seq<Utxo>, b: seq<Utxo>)
    requires multiset(a) <= multiset(b)
    ensures Total(a) <= Total(b)
    ensures multiset(a) == multiset(b) ==> Total(a) == Total(b)
    decreases |a|
  {
    if a == [] {
      assert multiset(b) == multiset(a) ==> b == [];
    } else {
      var n := |a| - 1;
      var x := a[n];
      assert a[..n] + a[n + 1..] == a[..n];
      WithoutOne(a, n);
      TotalRemove(a, n);
      assert x in multiset(b);
      var k :| 0 <= k < |b| && b[k] == x;
      WithoutOne(b, k);
      TotalRemove(b, k);
      SubTotal(a[..n], b[..k] + b[k + 1..]);
    }
  }

  lemma TakeLast(s: seq<Utxo>, d: seq<nat>, size: nat)
    requires s != [] && IsChoice(d, |s| - 1, size, 0)
    ensures IsChoice(d + [|s| - 1], |s|, size + 1, 0) && IsChoice(d, |s|, size, 0)
    ensures Pick(s, d + [|s| - 1]) == Pick(s[..|s| - 1], d) + [s[|s| - 1]]
    ensures Pick(s, d) == Pick(s[..|s| - 1], d)
  {
  }

  /** Any sub-collection of the coins sits at some increasing choice of positions. */
  lemma {:induction false} SubcollectionIsChoice(s: seq<Utxo>, sub: multiset<Utxo>) returns (c: seq<nat>)
    requires sub <= multiset(s)
    ensures IsChoice(c, |s|, |sub|, 0) && multiset(Pick(s, c)) == sub
    decreases |s|
  {
    if s == [] {
      c := [];
    } else {
      var n := |s| - 1;
      assert s == s[..n] + [s[n]];
      var rest := if sub <= multiset(s[..n]) then sub else sub - multiset{s[n]};
      var d := SubcollectionIsChoice(s[..n], rest);
      TakeLast(s, d, |rest|);
      c := if sub <= multiset(s[..n]) then d else d + [n];
    }
  }

  // ---- When the selection covers the target ----

  /** The search or the fallback finds coins for the target. */
  ghost predicate Coverable(items: seq<u64>, target: u64) {
    (exists c :: Candidate(items, target, c)) || (exists k :: 0 <= k < |items| && items[k] > target)
  }

  /** The ten-fold bound, after wrapping, still reaches every total two coins below the target can make; the largest
      target leaves no room above it. */
  predicate CoversGap(target: u64) {
    target <= 2 || 2 * target - 2 <= U64(target * 10) || target == TWO_64 - 1
  }

  lemma {:induction false} PrefixSum(items: seq<u64>, k: nat)
    requires k <= |items|
    ensures Sum(items[..k]) <= Sum(items)
  {
    if k == |items| {
      assert items[..k] == items;
    } else {
      PrefixSum(items[..|items| - 1], k);
      assert items[..|items| - 1][..k] == items[..k];
    }
  }

  /** The shortest prefix reaching the target. */
  lemma CrossingPrefix(items: seq<u64>, target: u64) returns (k: nat)
    requires 0 < target <= Sum(items)
    ensures 0 < k <= |items| && Sum(items[..k - 1]) < target <= Sum(items[..k])
    ensures Sum(items[..k]) == Sum(items[..k - 1]) + items[k - 1]
  {
    assert items[..|items|] == items;
    k := 0;
    while Sum(items[..k]) < target
      invariant k <= |items|
      invariant k > 0 ==> Sum(items[..k - 1]) < target && Sum(items[..k]) == Sum(items[..k - 1]) + items[k - 1]
      decreases |items| - k
    {
      assert items[..k + 1][..k] == items[..k];
      k := k + 1;
    }
  }

  lemma PrefixIsCandidate(items: seq<u64>, target: u64, k: nat)
    requires 0 < k <= |items| && InWindow(U64(Sum(items[..k])), target)
    ensures Coverable(items, target)
  {
    var c := seq(k, i requires 0 <= i < k => i as nat);
    assert Pick(items, c) == items[..k];
    assert Candidate(items, target, c);
  }

  lemma GapCovered(items: seq<u64>, target: u64)
    requires 0 < target <= Sum(items) < TWO_64
    requires CoversGap(target)
    ensures Coverable(items, target)
  {
    if k: nat :| k < |items| && items[k] >= target {
      assert Sum([items[k]]) == items[k];
      assert Pick(items, [k]) == [items[k]];
      assert items[k] == target ==> Candidate(items, target, [k]);
    } else {
      var k := CrossingPrefix(items, target);
      PrefixSum(items, k);
      PrefixIsCandidate(items, target, k);
    }
  }

  /** Two coins, enough together and neither enough alone. */
  function ShortPair(target: u64): (r: seq<u64>)
    requires target > 0
    ensures |r| == 2
  {
    if target <= TWO_63 then [target - 1, target - 1] else [TWO_63, TWO_63 - 1]
  }

  lemma PairSum(a: u64, b: u64)
    ensures Sum([a, b]) == a + b && Sum([a]) == a
  {
    var one: seq<u64>, two: seq<u64> := [a], [a, b];
    assert two[..1] == one && one[..0] == [];
    assert Sum(one) == a && Sum(two) == Sum(one) + b;
  }

  /** Ten times a number, wrapped, is even. */
  lemma {:induction false} WrappedEven(x: nat)
    ensures U64(2 * x) % 2 == 0
    decreases x
  {
    if 2 * x >= TWO_64 { WrappedEven(x - TWO_63); }
  }

  lemma PairOutside(target: u64)
    requires 0 < target && !CoversGap(target)
    ensures var p := ShortPair(target); target <= p[0] + p[1] < TWO_64
    ensures var p := ShortPair(target); !InWindow(p[0], target) && !InWindow(p[1], target) && !InWindow(p[0] + p[1], target)
  {
    WrappedEven(5 * target);
    assert 2 * (5 * target) == target * 10;
  }

  lemma TwoCoins(target: u64)
    requires 0 < target && !CoversGap(target)
    ensures !Coverable(ShortPair(target), target)
    ensures target <= Sum(ShortPair(target)) < TWO_64
  {
    var items := ShortPair(target);
    assert items == [items[0], items[1]];
    PairOutside(target);
    PairSum(items[0], items[1]);
    PairSum(items[1], items[0]);
    forall c: seq<nat> | c != [] && IsChoice(c, 2, |c|, 0) ensures !Candidate(items, target, c) {
      PairChoice(c);
      if |c| == 2 {
        assert Pick(items, c) == items;
      } else {
        assert Pick(items, c) == [items[c[0]]];
      }
    }
  }

  lemma PairChoice(c: seq<nat>)
    requires c != [] && IsChoice(c, 2, |c|, 0)
    ensures c in {[0], [1], [0, 1]}
  {
    ChoiceNeedsRoom(c, 2, |c|, 0);
    if |c| == 2 {
      assert c[0] < c[1];
      assert c == [0, 1];
    } else {
      assert c == [c[0]];
    }
  }

  /** Exactly for the targets with `CoversGap` does every sufficient set of coins get selected. */
  lemma GapExact(target: u64)
    requires 0 < target
    ensures CoversGap(target) <==> forall items: seq<u64> :: target <= Sum(items) < TWO_64 ==> Coverable(items, target)
  {
    if CoversGap(target) {
      forall items: seq<u64> | target <= Sum(items) < TWO_64 ensures Coverable(items, target) {
        GapCovered(items, target);
      }
    } else {
      TwoCoins(target);
    }
  }

  /** There are others: ten times 2^63 wraps to nothing. */
  lemma SomeTargetNotCovered()
    ensures !CoversGap(TWO_63)
  {
    Shift(0);
    Shift(TWO_64);
    Shift(2 * TWO_64);
    Shift(3 * TWO_64);
    Shift(4 * TWO_64);
  }

  /** Every target below a tenth of the uint64 range is among them. */
  lemma SmallTargetsCovered(target: u64)
    requires 10 * target < TWO_64
    ensures CoversGap(target)
  {
  }

  // ---- SelectUnspents ----

  ghost predicate Descending(utxos: seq<Utxo>) {
    forall i, j :: 0 <= i < j < |utxos| ==> utxos[i].value >= utxos[j].value
  }

  lemma InsertKeepsCoins(sorted: seq<Utxo>, k: nat, u: Utxo)
    requires k <= |sorted|
    ensures multiset(sorted[..k] + [u] + sorted[k..]) == multiset(sorted) + multiset{u}
  {
    assert sorted == sorted[..k] + sorted[k..];
  }

  lemma InsertKeepsOrder(sorted: seq<Utxo>, k: nat, u: Utxo)
    requires Descending(sorted) && k <= |sorted|
    requires k > 0 ==> sorted[k - 1].value >= u.value
    requires k < |sorted| ==> sorted[k].value < u.value
    ensures Descending(sorted[..k] + [u] + sorted[k..])
  {
    var r := sorted[..k] + [u] + sorted[k..];
    forall i, j | 0 <= i < j < |r| ensures r[i].value >= r[j].value {
      assert i < k ==> sorted[i].value >= u.value;
      assert j > k ==> sorted[j - 1].value < u.value;
    }
  }

  method InsertByValue(sorted: seq<Utxo>, u: Utxo) returns (r: seq<Utxo>)
    requires Descending(sorted)
    ensures multiset(r) == multiset(sorted) + multiset{u}
    ensures Descending(r)
  {
    var k := 0;
    while k < |sorted| && sorted[k].value >= u.value
      invariant k <= |sorted|
      invariant k > 0 ==> sorted[k - 1].value >= u.value
    {
      k := k + 1;
    }
    InsertKeepsCoins(sorted, k, u);
    InsertKeepsOrder(sorted, k, u);
    r := sorted[..k] + [u] + sorted[k..];
  }

  method SortByValue(utxos: seq<Utxo>) returns (sorted: seq<Utxo>)
    ensures multiset(sorted) == multiset(utxos)
    ensures Descending(sorted)
  {
    sorted := [];
    for n := 0 to |utxos|
      invariant multiset(sorted) == multiset(utxos[..n])
      invariant Descending(sorted)
    {
      assert utxos[..n + 1] == utxos[..n] + [utxos[n]];
      sorted := InsertByValue(sorted, utxos[n]);
    }
    assert utxos[..|utxos|] == utxos;
  }

  lemma BestIsAvailable(items: seq<u64>, target: u64, r: seq<u64>)
    requires IsBest(items, target, r)
    ensures multiset(r) <= multiset(items)
  {
    if c :| MinimalCandidate(items, target, c) && r == Pick(items, c) {
      forall v ensures multiset(r)[v] <= multiset(items)[v] {
        TakenCount(items, c, r, v);
      }
    } else if k: nat :| FirstAbove(items, target, k) && r == [items[k]] {
      assert items[k] in multiset(items);
    }
  }

  /** What the sorted order of the coins says about the coins themselves. */
  lemma PickValues(sorted: seq<Utxo>, c: seq<nat>)
    requires Within(c, 0, |sorted|)
    ensures Values(Pick(sorted, c)) == Pick(Values(sorted), c)
  {
  }

  lemma PickIsSubcollection(sorted: seq<Utxo>, ix: seq<nat>)
    requires Distinct(ix) && Within(ix, 0, |sorted|)
    ensures multiset(Pick(sorted, ix)) <= multiset(sorted)
  {
    forall u ensures multiset(Pick(sorted, ix))[u] <= multiset(sorted)[u] {
      TakenCount(sorted, ix, Pick(sorted, ix), u);
    }
  }

  /** A collection of available coins whose total the search accepts. */
  ghost predicate Acceptable(available: seq<Utxo>, target: u64, sub: seq<Utxo>) {
    sub != [] && multiset(sub) <= multiset(available) && InWindow(U64(Total(sub)), target)
  }

  lemma AcceptableIsCandidate(available: seq<Utxo>, sorted: seq<Utxo>, target: u64, sub: seq<Utxo>)
    requires multiset(sorted) == multiset(available)
    requires Acceptable(available, target, sub)
    ensures exists c :: Candidate(Values(sorted), target, c) && |c| == |sub|
  {
    var c := SubcollectionIsChoice(sorted, multiset(sub));
    PickValues(sorted, c);
    SubTotal(Pick(sorted, c), sub);
    assert Candidate(Values(sorted), target, c);
  }

  /** The coins returned: an acceptable collection with the fewest coins if there is one, else the largest coin, which is above the target. */
  ghost predicate IsSelection(available: seq<Utxo>, target: u64, coins: seq<Utxo>) {
    && coins != [] && multiset(coins) <= multiset(available)
    && (Acceptable(available, target, coins)
        || (|coins| == 1 && coins[0].value > target && forall u :: u in available ==> u.value <= coins[0].value))
    && (forall sub :: Acceptable(available, target, sub) ==> Acceptable(available, target, coins) && |coins| <= |sub|)
  }

  lemma MinimalIsSelection(available: seq<Utxo>, sorted: seq<Utxo>, target: u64, ix: seq<nat>, c: seq<nat>)
    requires multiset(sorted) == multiset(available)
    requires Distinct(ix) && Within(ix, 0, |sorted|)
    requires MinimalCandidate(Values(sorted), target, c) && Pick(Values(sorted), ix) == Pick(Values(sorted), c)
    ensures IsSelection(available, target, Pick(sorted, ix))
  {
    var coins := Pick(sorted, ix);
    PickValues(sorted, ix);
    PickIsSubcollection(sorted, ix);
    forall sub | Acceptable(available, target, sub) ensures |coins| <= |sub| {
      AcceptableIsCandidate(available, sorted, target, sub);
    }
  }

  lemma LargestIsSelection(available: seq<Utxo>, sorted: seq<Utxo>, target: u64, ix: seq<nat>, k: nat)
    requires multiset(sorted) == multiset(available) && Descending(sorted)
    requires Distinct(ix) && Within(ix, 0, |sorted|)
    requires forall c :: !Candidate(Values(sorted), target, c)
    requires FirstAbove(Values(sorted), target, k) && Pick(Values(sorted), ix) == [Values(sorted)[k]]
    ensures IsSelection(available, target, Pick(sorted, ix))
  {
    PickIsSubcollection(sorted, ix);
    assert sorted[0].value >= Values(sorted)[k] > target;
    assert k == 0;
    forall u | u in available ensures u.value <= sorted[0].value {
      assert u in multiset(sorted);
    }
    forall sub ensures !Acceptable(available, target, sub) {
      if Acceptable(available, target, sub) {
        AcceptableIsCandidate(available, sorted, target, sub);
        assert false;
      }
    }
  }

  /** What can be selected does not depend on the order of the coins. */
  lemma CoverableAnyOrder(a: seq<Utxo>, b: seq<Utxo>, target: u64)
    requires multiset(a) == multiset(b) && Coverable(Values(a), target)
    ensures Coverable(Values(b), target)
  {
    if c :| Candidate(Values(a), target, c) {
      PickValues(a, c);
      PickIsSubcollection(a, c);
      AcceptableIsCandidate(a, b, target, Pick(a, c));
    } else {
      var k :| 0 <= k < |a| && a[k].value > target;
      assert a[k] in multiset(b);
      var j :| 0 <= j < |b| && b[j] == a[k];
      assert Values(b)[j] > target;
    }
  }

  lemma SelectionIsCoverable(available: seq<Utxo>, target: u64, coins: seq<Utxo>)
    requires IsSelection(available, target, coins)
    ensures Coverable(Values(available), target)
  {
    if Acceptable(available, target, coins) {
      AcceptableIsCandidate(available, available, target, coins);
    } else {
      assert coins[0] in multiset(available);
      var j :| 0 <= j < |available| && available[j] == coins[0];
      assert Values(available)[j] > target;
    }
  }

  /** Without a selection nothing could be selected: the coins do not cover the target, except where the bound wraps. */
  lemma NothingSelected(available: seq<Utxo>, sorted: seq<Utxo>, target: u64)
    requires multiset(sorted) == multiset(available)
    requires IsBest(Values(sorted), target, [])
    ensures !Coverable(Values(available), target)
    ensures 0 < target && CoversGap(target) && Total(available) < TWO_64 ==> Total(available) < target
  {
    if Coverable(Values(available), target) { CoverableAnyOrder(available, sorted, target); }
    SubTotal(sorted, available);
    if 0 < target && CoversGap(target) && target <= Total(available) < TWO_64 {
      GapCovered(Values(sorted), target);
    }
  }

  method GetCoinsIndexes(e: Enumerator, target: u64, utxos: seq<Utxo>) returns (sorted: seq<Utxo>, indexes: seq<nat>)
    requires e.combination == []
    modifies e
    ensures e.combination == []
    ensures Within(indexes, 0, |sorted|)
    ensures indexes != [] ==> IsSelection(utxos, target, Pick(sorted, indexes))
    ensures indexes == [] ==> IsOutcome(utxos, target, Failed(TargetNotCovered))
    ensures indexes == [] ==> !Coverable(Values(utxos), target)
  {
    sorted := SortByValue(utxos);
    var values := Values(sorted);
    var list := GetBestCombination(e, values, target);
    BestIsAvailable(values, target, list);
    indexes := FindIndexes(list, values);
    if indexes == [] {
      assert list == [];
      NothingSelected(utxos, sorted, target);
    } else if c :| MinimalCandidate(values, target, c) && list == Pick(values, c) {
      MinimalIsSelection(utxos, sorted, target, indexes, c);
    } else {
      ghost var k: nat :| FirstAbove(values, target, k) && list == [values[k]];
      LargestIsSelection(utxos, sorted, target, indexes, k);
    }
  }

  lemma SelectionCovers(available: seq<Utxo>, target: u64, coins: seq<Utxo>)
    requires IsSelection(available, target, coins)
    requires Total(available) < TWO_64
    ensures target <= Total(coins) <= Total(available)
  {
    SubTotal(coins, available);
    if |coins| == 1 {
      assert coins == [] + [coins[0]];
      TotalAppend([], coins[0]);
    }
  }

  ghost predicate AllRevealed(utxos: seq<Utxo>) {
    forall i :: 0 <= i < |utxos| ==> !utxos[i].Hidden()
  }

  /** The coins of the asset, or `ok == false` when a confidential coin was not unblinded. */
  method RevealedCoins(utxos: seq<Utxo>, asset: Asset) returns (ok: bool, unblinded: seq<Utxo>)
    ensures ok <==> AllRevealed(utxos)
    ensures ok ==> unblinded == OfAsset(utxos, asset)
  {
    unblinded := [];
    for i := 0 to |utxos|
      invariant AllRevealed(utxos[..i])
      invariant unblinded == OfAsset(utxos[..i], asset)
    {
      var utxo := utxos[i];
      if utxo.Hidden() {
        return false, unblinded;
      }
      assert utxos[..i + 1][..i] == utxos[..i] && utxos[..i + 1][i] == utxo;
      if utxo.asset == asset {
        unblinded := unblinded + [utxo];
      }
    }
    assert utxos[..|utxos|] == utxos;
    ok := true;
  }

  method CollectCoins(sorted: seq<Utxo>, indexes: seq<nat>) returns (selected: seq<Utxo>, total: u64)
    requires Within(indexes, 0, |sorted|)
    ensures selected == Pick(sorted, indexes)
    ensures total == U64(Total(selected))
  {
    selected, total := [], 0;
    for i := 0 to |indexes|
      invariant selected == Pick(sorted, indexes)[..i]
      invariant total == U64(Total(selected))
    {
      WrapAdd(Total(selected), sorted[indexes[i]].value);
      TotalAppend(selected, sorted[indexes[i]]);
      total := U64(total + sorted[indexes[i]].value);
      selected := selected + [sorted[indexes[i]]];
    }
  }

  /** What a result of `SelectUnspents` says about the coins it was given. */
  ghost predicate IsOutcome(available: seq<Utxo>, target: u64, r: Selection) {
    match r
    case Selected(coins, change) =>
      && IsSelection(available, target, coins)
      && change == U64(Total(coins) - target)
      && (Total(available) < TWO_64 ==> Total(coins) == target + change && target <= Total(available))
    case Failed(_) =>
      0 < target && CoversGap(target) && Total(available) < TWO_64 ==> Total(available) < target
  }

  lemma SelectedOutcome(available: seq<Utxo>, target: u64, coins: seq<Utxo>)
    requires IsSelection(available, target, coins)
    ensures IsOutcome(available, target, Selected(coins, U64(U64(Total(coins)) - target)))
  {
    var total := Total(coins);
    WrapAdd(total, 0 - target);
    if Total(available) < TWO_64 {
      SelectionCovers(available, target, coins);
    }
  }

  method Conclude(ghost available: seq<Utxo>, sorted: seq<Utxo>, indexes: seq<nat>, target: u64)
    returns (r: Selection)
    requires Within(indexes, 0, |sorted|)
    requires IsSelection(available, target, Pick(sorted, indexes))
    ensures r.Selected? && IsOutcome(available, target, r) && Coverable(Values(available), target)
  {
    SelectionIsCoverable(available, target, Pick(sorted, indexes));
    var selected, total := CollectCoins(sorted, indexes);
    SelectedOutcome(available, target, selected);
    r := Selected(selected, U64(total - target));
  }

  method SelectUnspents(e: Enumerator, utxos: seq<Utxo>, target: u64, asset: Asset) returns (r: Selection)
    requires e.combination == []
    modifies e
    ensures e.combination == []
    ensures r == Failed(MustBeUnblinded) <==> exists i :: 0 <= i < |utxos| && utxos[i].confidential && !utxos[i].revealed
    ensures r == Failed(MustBeUnblinded) <==> !AllRevealed(utxos)
    ensures r != Failed(MustBeUnblinded) ==> IsOutcome(OfAsset(utxos, asset), target, r)
    ensures AllRevealed(utxos) ==> (r.Selected? <==> Coverable(Values(OfAsset(utxos, asset)), target))
  {
    var ok, unblinded := RevealedCoins(utxos, asset);
    if !ok {
      return Failed(MustBeUnblinded);
    }
    var sorted, indexes := GetCoinsIndexes(e, target, unblinded);
    if |indexes| <= 0 {
      return Failed(TargetNotCovered);
    }
    r := Conclude(unblinded, sorted, indexes, target);
  }

  // ---- Sufficient coins that are refused ----

  function RevealedCoin(index: nat, asset: Asset, value: u64): Utxo {
    Utxo("", index, asset, value, false, true)
  }

  /** For every target without `CoversGap`, two coins worth it together for which the selection fails. */
  method RefuseSufficient(e: Enumerator, target: u64, asset: Asset) returns (utxos: seq<Utxo>, r: Selection)
    requires e.combination == [] && 0 < target && !CoversGap(target)
    modifies e
    ensures AllRevealed(utxos) && target <= Total(OfAsset(utxos, asset)) < TWO_64
    ensures r == Failed(TargetNotCovered)
  {
    var p := ShortPair(target);
    var first, second := RevealedCoin(0, asset, p[0]), RevealedCoin(1, asset, p[1]);
    utxos := [first, second];
    TwoCoins(target);
    PairOfAsset(first, second);
    PairOutside(target);
    assert AllRevealed(utxos);
    assert Values(OfAsset(utxos, asset)) == p;
    r := SelectUnspents(e, utxos, target, asset);
    assert r == Failed(r.error) && r.error != MustBeUnblinded;
  }

  lemma PairOfAsset(a: Utxo, b: Utxo)
    requires a.asset == b.asset
    ensures OfAsset([a, b], a.asset) == [a, b] && Total([a, b]) == a.value + b.value
  {
    var one, two := [a], [a, b];
    assert two[..1] == one && one[..0] == [];
    assert OfAsset(one, a.asset) == one;
    PairSum(a.value, b.value);
    assert Values(two) == [a.value, b.value];
  }
}
