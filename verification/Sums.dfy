/** Sums of a quantity over the rows of a table. */
module Sums {

  /** Sum of `f` over the rows, taken from the last row so that an appended row
      unfolds in one step. */
  function Total<T>(s: seq<T>, f: T -> int): int {
    if |s| == 0 then 0 else Total(s[..|s| - 1], f) + f(s[|s| - 1])
  }

  lemma {:induction false} TotalAppend<T>(s: seq<T>, x: T, f: T -> int)
    ensures Total(s + [x], f) == Total(s, f) + f(x)
  {
    assert (s + [x])[..|s|] == s;
  }

  lemma {:induction false} TotalConcat<T>(s: seq<T>, t: seq<T>, f: T -> int)
    ensures Total(s + t, f) == Total(s, f) + Total(t, f)
  {
    if |t| == 0 {
      assert s + t == s;
    } else {
      var n := |t| - 1;
      assert s + t == (s + t[..n]) + [t[n]];
      TotalAppend(s + t[..n], t[n], f);
      TotalConcat(s, t[..n], f);
    }
  }

  lemma {:induction false} TotalOfThree<T>(s: seq<T>, f: T -> int)
    requires |s| == 3
    ensures Total(s, f) == f(s[0]) + f(s[1]) + f(s[2])
  {
    assert s == [] + [s[0]] + [s[1]] + [s[2]];
    TotalAppend([] + [s[0]] + [s[1]], s[2], f);
    TotalAppend([] + [s[0]], s[1], f);
    TotalAppend([], s[0], f);
  }

  lemma {:induction false} TotalUpdate<T>(s: seq<T>, i: nat, x: T, f: T -> int)
    requires i < |s|
    ensures Total(s[i := x], f) == Total(s, f) - f(s[i]) + f(x)
  {
    var n := |s| - 1;
    if i == n {
      assert s[i := x][..n] == s[..n];
    } else {
      assert s[i := x][..n] == s[..n][i := x];
      TotalUpdate(s[..n], i, x, f);
    }
  }

  lemma {:induction false} TotalPointwise<T>(s: seq<T>, f: T -> int, g: T -> int)
    requires forall i :: 0 <= i < |s| ==> f(s[i]) == g(s[i])
    ensures Total(s, f) == Total(s, g)
  {
    if |s| > 0 {
      TotalPointwise(s[..|s| - 1], f, g);
    }
  }

  lemma {:induction false} TotalSplit<T>(s: seq<T>, h: T -> int, f: T -> int, g: T -> int)
    requires forall i :: 0 <= i < |s| ==> h(s[i]) == f(s[i]) + g(s[i])
    ensures Total(s, h) == Total(s, f) + Total(s, g)
  {
    if |s| > 0 {
      TotalSplit(s[..|s| - 1], h, f, g);
    }
  }

  lemma {:induction false} TotalMonotone<T>(s: seq<T>, f: T -> int, g: T -> int)
    requires forall i :: 0 <= i < |s| ==> f(s[i]) <= g(s[i])
    ensures Total(s, f) <= Total(s, g)
  {
    if |s| > 0 {
      TotalMonotone(s[..|s| - 1], f, g);
    }
  }

  /** A sum of non-negative terms is non-negative and bounds each term. */
  lemma {:induction false} TotalNonNegative<T>(s: seq<T>, f: T -> int)
    requires forall i :: 0 <= i < |s| ==> f(s[i]) >= 0
    ensures Total(s, f) >= 0
    ensures forall i :: 0 <= i < |s| ==> f(s[i]) <= Total(s, f)
  {
    if |s| > 0 {
      TotalNonNegative(s[..|s| - 1], f);
    }
  }

  /** Taking one row out takes its term out. */
  lemma {:induction false} TotalRemove<T>(s: seq<T>, i: nat, f: T -> int)
    requires i < |s|
    ensures Total(s, f) == Total(s[..i] + s[i + 1..], f) + f(s[i])
  {
    assert s == s[..i] + [s[i]] + s[i + 1..];
    TotalConcat(s[..i] + [s[i]], s[i + 1..], f);
    TotalAppend(s[..i], s[i], f);
    TotalConcat(s[..i], s[i + 1..], f);
  }

  /** Removing one occurrence removes it from the multiset. */
  lemma RemoveAt<T>(s: seq<T>, i: nat)
    requires i < |s|
    ensures multiset(s[..i] + s[i + 1..]) == multiset(s) - multiset{s[i]}
  {
    assert s == s[..i] + [s[i]] + s[i + 1..];
  }

  /** Reordered rows have any given row somewhere. */
  lemma IndexIn<T>(s: seq<T>, t: seq<T>, k: nat) returns (i: nat)
    requires multiset(s) == multiset(t) && k < |s|
    ensures i < |t| && t[i] == s[k]
  {
    assert s[k] in multiset(s);
    assert s[k] in t;
    i :| 0 <= i < |t| && t[i] == s[k];
  }

  lemma BothEmpty<T>(t: seq<T>)
    requires multiset([]) == multiset(t)
    ensures t == []
  {
    assert |multiset(t)| == 0;
  }

  /** A sum does not depend on the order in which rows are returned. */
  lemma {:induction false} TotalOrderFree<T>(s: seq<T>, t: seq<T>, f: T -> int)
    requires multiset(s) == multiset(t)
    ensures Total(s, f) == Total(t, f)
    decreases |s|
  {
    hide Total;
    if |s| == 0 {
      assert s == [];
      BothEmpty(t);
    } else {
      var i := IndexIn(s, t, 0);
      var restS, restT := s[..0] + s[1..], t[..i] + t[i + 1..];
      assert multiset(restS) == multiset(restT) by {
        RemoveAt(s, 0);
        RemoveAt(t, i);
      }
      TotalOrderFree(restS, restT, f);
      TotalRemove(s, 0, f);
      TotalRemove(t, i, f);
    }
  }

  function Map<T, U>(s: seq<T>, f: T -> U): (r: seq<U>)
    ensures |r| == |s|
    ensures forall i :: 0 <= i < |s| ==> r[i] == f(s[i])
  {
    seq(|s|, i requires 0 <= i < |s| => f(s[i]))
  }

  lemma MapConcat<T, U>(s: seq<T>, t: seq<T>, f: T -> U)
    ensures Map(s + t, f) == Map(s, f) + Map(t, f)
  {
  }

  lemma MapOne<T, U>(x: T, f: T -> U)
    ensures Map([x], f) == [f(x)]
  {
  }

  lemma MapAt<T, U>(s: seq<T>, i: nat, f: T -> U)
    requires i < |s|
    ensures Map(s, f)[i] == f(s[i])
  {
  }

  lemma MapRemove<T, U>(s: seq<T>, i: nat, f: T -> U)
    requires i < |s|
    ensures multiset(Map(s, f)) == multiset(Map(s[..i] + s[i + 1..], f)) + multiset{f(s[i])}
  {
    MapOne(s[i], f);
    hide Map;
    assert s == s[..i] + ([s[i]] + s[i + 1..]);
    MapConcat(s[..i], [s[i]] + s[i + 1..], f);
    MapConcat([s[i]], s[i + 1..], f);
    MapConcat(s[..i], s[i + 1..], f);
  }

  /** Nor does what is computed from each row. */
  lemma {:induction false} MapOrderFree<T, U>(s: seq<T>, t: seq<T>, f: T -> U)
    requires multiset(s) == multiset(t)
    ensures multiset(Map(s, f)) == multiset(Map(t, f))
    decreases |s|
  {
    hide Map;
    if |s| == 0 {
      assert s == [];
      BothEmpty(t);
    } else {
      var i := IndexIn(s, t, 0);
      var restS, restT := s[..0] + s[1..], t[..i] + t[i + 1..];
      assert multiset(restS) == multiset(restT) by {
        RemoveAt(s, 0);
        RemoveAt(t, i);
      }
      MapOrderFree(restS, restT, f);
      assert multiset(Map(s, f)) == multiset(Map(restS, f)) + multiset{f(s[0])} by { MapRemove(s, 0, f); }
      assert multiset(Map(t, f)) == multiset(Map(restT, f)) + multiset{f(t[i])} by { MapRemove(t, i, f); }
    }
  }

  /** Taking a result out of the reordered results takes its row out. */
  lemma RestOfMap<T, U>(s: seq<T>, t: seq<U>, f: T -> U, i: nat)
    requires i < |s| && |t| > 0 && t[0] == f(s[i]) && multiset(t) == multiset(Map(s, f))
    ensures multiset(t[1..]) == multiset(Map(s[..i] + s[i + 1..], f))
  {
    hide Map;
    MapRemove(s, i, f);
    var rest := multiset(Map(s[..i] + s[i + 1..], f));
    assert t == [t[0]] + t[1..];
    assert multiset(t) == multiset(t[1..]) + multiset{t[0]};
    assert multiset(t[1..]) == multiset(t) - multiset{t[0]};
    assert rest == (rest + multiset{t[0]}) - multiset{t[0]};
  }

  lemma PutBack<T, U>(s: seq<T>, t: seq<U>, f: T -> U, i: nat, restRows: seq<T>)
    requires i < |s| && |t| > 0 && t[0] == f(s[i])
    requires multiset(restRows) == multiset(s[..i] + s[i + 1..]) && Map(restRows, f) == t[1..]
    ensures multiset([s[i]] + restRows) == multiset(s) && Map([s[i]] + restRows, f) == t
  {
    hide Map;
    assert multiset([s[i]] + restRows) == multiset(s) by {
      assert s == s[..i] + [s[i]] + s[i + 1..];
    }
    MapConcat([s[i]], restRows, f);
    MapOne(s[i], f);
  }

  /** Whatever order the results are put in, some order of the rows gives it. */
  lemma {:induction false} MapReorder<T, U>(s: seq<T>, t: seq<U>, f: T -> U) returns (rows: seq<T>)
    requires multiset(t) == multiset(Map(s, f))
    ensures multiset(rows) == multiset(s) && Map(rows, f) == t
    decreases |t|
  {
    hide Map;
    if |t| == 0 {
      assert t == [];
      BothEmpty(Map(s, f));
      rows := [];
      assert s == [];
    } else {
      var i := IndexIn(t, Map(s, f), 0);
      MapAt(s, i, f);
      RestOfMap(s, t, f, i);
      var restRows := MapReorder(s[..i] + s[i + 1..], t[1..], f);
      PutBack(s, t, f, i, restRows);
      rows := [s[i]] + restRows;
    }
  }

  /** The rows that satisfy `p`, in their order. */
  function Keep<T>(s: seq<T>, p: T -> bool): seq<T> {
    if |s| == 0 then []
    else Keep(s[..|s| - 1], p) + (if p(s[|s| - 1]) then [s[|s| - 1]] else [])
  }

  lemma {:induction false} KeptSatisfy<T>(s: seq<T>, p: T -> bool)
    ensures forall x :: x in Keep(s, p) ==> p(x)
  {
    if |s| > 0 {
      KeptSatisfy(s[..|s| - 1], p);
    }
  }

  /** The rows that do and those that do not make up all rows. */
  lemma {:induction false} KeepSplits<T>(s: seq<T>, p: T -> bool, q: T -> bool)
    requires forall x :: p(x) <==> !q(x)
    ensures multiset(Keep(s, p) + Keep(s, q)) == multiset(s)
  {
    if |s| > 0 {
      var n := |s| - 1;
      KeepSplits(s[..n], p, q);
      assert s == s[..n] + [s[n]];
    }
  }

  /** A sum over the kept rows is the sum of what they contribute. */
  lemma {:induction false} KeepTotal<T>(s: seq<T>, p: T -> bool, f: T -> int, g: T -> int)
    requires forall i :: 0 <= i < |s| ==> g(s[i]) == if p(s[i]) then f(s[i]) else 0
    ensures Total(Keep(s, p), f) == Total(s, g)
  {
    if |s| > 0 {
      var n := |s| - 1;
      KeepTotal(s[..n], p, f, g);
      assert Keep(s[..n], p) + [] == Keep(s[..n], p);
      TotalAppend(Keep(s[..n], p), s[n], f);
    }
  }
}
