/** Joining parts with a separator and splitting at it. */
module Separated {

  function Join<T>(parts: seq<seq<T>>, sep: T): seq<T> {
    if parts == [] then []
    else if |parts| == 1 then parts[0]
    else Join(parts[..|parts| - 1], sep) + [sep] + parts[|parts| - 1]
  }

  function Split<T(==)>(s: seq<T>, sep: T): (r: seq<seq<T>>)
    ensures r != []
  {
    if s == [] then [[]]
    else
      var n := |s| - 1;
      var r := Split(s[..n], sep);
      if s[n] == sep then r + [[]] else r[..|r| - 1] + [r[|r| - 1] + [s[n]]]
  }

  lemma SplitStep<T>(s: seq<T>, x: T, sep: T)
    ensures Split(s + [x], sep)
         == if x == sep then Split(s, sep) + [[]]
            else Split(s, sep)[..|Split(s, sep)| - 1] + [Split(s, sep)[|Split(s, sep)| - 1] + [x]]
  {
    assert (s + [x])[..|s|] == s;
  }

  lemma {:induction false} SplitPlain<T>(s: seq<T>, sep: T)
    requires sep !in s
    ensures Split(s, sep) == [s]
  {
    if s != [] {
      var n := |s| - 1;
      SplitPlain(s[..n], sep);
      SplitStep(s[..n], s[n], sep);
      assert s[..n] + [s[n]] == s;
    }
  }

  lemma SplitGrows<T>(s: seq<T>, x: T, sep: T, parts: seq<seq<T>>, last: seq<T>)
    requires x != sep && Split(s, sep) == parts + [last]
    ensures Split(s + [x], sep) == parts + [last + [x]]
  {
    SplitStep(s, x, sep);
    assert (parts + [last])[..|parts|] == parts;
  }

  lemma {:induction false} SplitLast<T>(a: seq<T>, b: seq<T>, sep: T)
    requires sep !in b
    ensures Split(a + [sep] + b, sep) == Split(a, sep) + [b]
  {
    if b == [] {
      SplitStep(a, sep, sep);
      assert a + [sep] + b == a + [sep];
    } else {
      var n := |b| - 1;
      SplitLast(a, b[..n], sep);
      SplitGrows(a + [sep] + b[..n], b[n], sep, Split(a, sep), b[..n]);
      assert b[..n] + [b[n]] == b;
      assert a + [sep] + b == a + [sep] + b[..n] + [b[n]];
    }
  }

  /** A separator that occurs in no part makes splitting undo joining. */
  lemma {:induction false} SplitJoin<T>(parts: seq<seq<T>>, sep: T)
    requires parts != [] && forall k :: 0 <= k < |parts| ==> sep !in parts[k]
    ensures Split(Join(parts, sep), sep) == parts
  {
    var n := |parts| - 1;
    if n == 0 {
      SplitPlain(parts[0], sep);
    } else {
      SplitJoin(parts[..n], sep);
      assert parts[..n] + [parts[n]] == parts;
      JoinSnoc(parts[..n], parts[n], sep);
      SplitLast(Join(parts[..n], sep), parts[n], sep);
    }
  }

  lemma JoinSnoc<T>(parts: seq<seq<T>>, last: seq<T>, sep: T)
    requires parts != []
    ensures Join(parts + [last], sep) == Join(parts, sep) + [sep] + last
  {
    assert (parts + [last])[..|parts|] == parts;
  }

  lemma JoinGrows<T>(parts: seq<seq<T>>, last: seq<T>, x: T, sep: T)
    ensures Join(parts + [last + [x]], sep) == Join(parts + [last], sep) + [x]
  {
    if parts != [] {
      JoinSnoc(parts, last + [x], sep);
      JoinSnoc(parts, last, sep);
    }
  }

  /** Joining undoes splitting, whatever the separator. */
  lemma {:induction false} JoinSplit<T>(s: seq<T>, sep: T)
    ensures Join(Split(s, sep), sep) == s
  {
    if s != [] {
      var n := |s| - 1;
      var r := Split(s[..n], sep);
      var m := |r| - 1;
      JoinSplit(s[..n], sep);
      assert s[..n] + [s[n]] == s;
      if s[n] == sep {
        JoinSnoc(r, [], sep);
      } else {
        JoinGrows(r[..m], r[m], s[n], sep);
        assert r[..m] + [r[m]] == r;
      }
    }
  }

  lemma {:induction false} JoinStarts<T>(parts: seq<seq<T>>, sep: T)
    requires |parts| >= 2
    ensures parts[0] + [sep] <= Join(parts, sep)
  {
    var n := |parts| - 1;
    if n > 1 {
      JoinStarts(parts[..n], sep);
    } else {
      assert Join(parts[..n], sep) == parts[0];
    }
  }
}
