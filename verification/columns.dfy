/**
 * Column operations the table builders rely on: dropping missing entries,
 * boolean-mask selection, the sorted category set of a column, and counting.
 */
module Columns {
  import opened Cells

  /**
   * The non-missing entries of a column, in order: what pandas' count(),
   * mean(), std(), median() and quantile() look at.
   */
  function NonMissing(col: seq<Cell>): (r: seq<Cell>)
    ensures Missing !in r
    ensures |r| == |col| - multiset(col)[Missing]
    ensures forall c :: c != Missing ==> multiset(r)[c] == multiset(col)[c]
  {
    if |col| == 0 then []
    else
      assert col == [col[0]] + col[1..];
      (if col[0] == Missing then [] else [col[0]]) + NonMissing(col[1..])
  }

  /** A column with nothing missing is its own non-missing part. */
  lemma {:induction false} NonMissingOfComplete(col: seq<Cell>)
    requires Missing !in col
    ensures NonMissing(col) == col
  {
    if |col| > 0 {
      assert col[0] != Missing && Missing !in col[1..];
      NonMissingOfComplete(col[1..]);
      NonMissingCons(col);
      assert col == [col[0]] + col[1..];
    }
  }

  lemma NonMissingCons(col: seq<Cell>)
    requires |col| > 0
    ensures NonMissing(col) == (if col[0] == Missing then [] else [col[0]]) + NonMissing(col[1..])
  {
  }

  /** Dropping missing entries twice drops nothing more. */
  lemma NonMissingIdempotent(col: seq<Cell>)
    ensures NonMissing(NonMissing(col)) == NonMissing(col)
  {
    NonMissingOfComplete(NonMissing(col));
  }

  /** The entries whose mask bit is set, in order: pandas' `column[mask]`. */
  function Select<T>(xs: seq<T>, mask: seq<bool>): (r: seq<T>)
    requires |mask| == |xs|
    ensures |r| == multiset(mask)[true]
  {
    if |xs| == 0 then []
    else
      assert xs == [xs[0]] + xs[1..];
      assert mask == [mask[0]] + mask[1..];
      (if mask[0] then [xs[0]] else []) + Select(xs[1..], mask[1..])
  }

  lemma SelectCons<T>(xs: seq<T>, mask: seq<bool>)
    requires |mask| == |xs| > 0
    ensures Select(xs, mask) == (if mask[0] then [xs[0]] else []) + Select(xs[1..], mask[1..])
  {
  }

  /** An entry is selected exactly when some position holding it has its mask bit set. */
  lemma {:induction false} SelectMembers<T>(xs: seq<T>, mask: seq<bool>, x: T)
    requires |mask| == |xs|
    ensures x in Select(xs, mask) <==> exists i :: 0 <= i < |xs| && mask[i] && xs[i] == x
  {
    if |xs| > 0 {
      var rest := Select(xs[1..], mask[1..]);
      SelectCons(xs, mask);
      if mask[0] && xs[0] == x {
        assert Select(xs, mask)[0] == x;
      } else {
        assert x in Select(xs, mask) <==> x in rest;
        SelectMembers(xs[1..], mask[1..], x);
        if x in rest {
          var i :| 0 <= i < |xs| - 1 && mask[1..][i] && xs[1..][i] == x;
          assert mask[i + 1] && xs[i + 1] == x;
        }
        if exists i :: 0 <= i < |xs| && mask[i] && xs[i] == x {
          var i :| 0 <= i < |xs| && mask[i] && xs[i] == x;
          assert mask[1..][i - 1] && xs[1..][i - 1] == x;
        }
      }
    }
  }

  /**
   * Selection keeps the original order: selecting from two pieces one after
   * the other is selecting from their concatenation. Since a single entry is
   * kept exactly when its bit is set, this pins down `x[mask]` completely.
   */
  lemma {:induction false} SelectAppend<T>(a: seq<T>, ma: seq<bool>, b: seq<T>, mb: seq<bool>)
    requires |ma| == |a| && |mb| == |b|
    ensures Select(a + b, ma + mb) == Select(a, ma) + Select(b, mb)
  {
    if |a| > 0 {
      assert (a + b)[1..] == a[1..] + b;
      assert (ma + mb)[1..] == ma[1..] + mb;
      SelectAppend(a[1..], ma[1..], b, mb);
    } else {
      assert a + b == b && ma + mb == mb;
    }
  }

  /** The all-true mask of main.py's `all` stratum. */
  function AllTrue(n: nat): (mask: seq<bool>)
    ensures |mask| == n
    ensures forall i :: 0 <= i < n ==> mask[i]
  {
    seq(n, i => true)
  }

  /** The element-wise negation `~mask`. */
  function Negate(mask: seq<bool>): (r: seq<bool>)
    ensures |r| == |mask|
    ensures forall i :: 0 <= i < |mask| ==> r[i] != mask[i]
  {
    seq(|mask|, i requires 0 <= i < |mask| => !mask[i])
  }

  /** Selecting with the all-true mask keeps the whole column. */
  lemma {:induction false} SelectAll<T>(xs: seq<T>)
    ensures Select(xs, AllTrue(|xs|)) == xs
  {
    if |xs| > 0 {
      assert AllTrue(|xs|)[1..] == AllTrue(|xs| - 1);
      SelectAll(xs[1..]);
      SelectCons(xs, AllTrue(|xs|));
      assert xs == [xs[0]] + xs[1..];
    }
  }

  lemma MultisetCons<T>(xs: seq<T>)
    requires |xs| > 0
    ensures multiset(xs) == multiset{xs[0]} + multiset(xs[1..])
  {
    assert xs == [xs[0]] + xs[1..];
  }

  lemma SelectUnfold<T>(xs: seq<T>, mask: seq<bool>)
    requires |mask| == |xs| > 0
    ensures multiset(Select(xs, mask))
         == (if mask[0] then multiset{xs[0]} else multiset{}) + multiset(Select(xs[1..], mask[1..]))
  {
  }

  lemma {:induction false} SelectComplementary<T>(xs: seq<T>, m1: seq<bool>, m2: seq<bool>)
    requires |m1| == |xs| && |m2| == |xs|
    requires forall i :: 0 <= i < |xs| ==> m1[i] != m2[i]
    ensures multiset(Select(xs, m1)) + multiset(Select(xs, m2)) == multiset(xs)
  {
    if |xs| > 0 {
      SelectComplementary(xs[1..], m1[1..], m2[1..]);
      SelectUnfold(xs, m1);
      SelectUnfold(xs, m2);
      MultisetCons(xs);
    }
  }

  /** A mask and its negation split the rows between them, every row to exactly one side. */
  lemma SelectPartition<T>(xs: seq<T>, mask: seq<bool>)
    requires |mask| == |xs|
    ensures multiset(Select(xs, mask)) + multiset(Select(xs, Negate(mask))) == multiset(xs)
    ensures |Select(xs, mask)| + |Select(xs, Negate(mask))| == |xs|
  {
    var a, b := Select(xs, mask), Select(xs, Negate(mask));
    SelectComplementary(xs, mask, Negate(mask));
    assert |multiset(a) + multiset(b)| == |multiset(xs)|;
  }

  lemma ConsAscending(k: Cell, r: seq<Cell>)
    requires Ascending(r)
    requires forall c :: c in r ==> Less(k, c)
    ensures Ascending([k] + r)
  {
    var s := [k] + r;
    forall i, j | 0 <= i < j < |s|
      ensures Less(s[i], s[j])
    {
      assert s[j] == r[j - 1];
      if i > 0 {
        assert s[i] == r[i - 1];
      }
    }
  }

  lemma HeadBelowRest(keys: seq<Cell>)
    requires Ascending(keys) && |keys| > 0
    ensures forall c :: c in keys[1..] ==> Less(keys[0], c)
  {
    forall c | c in keys[1..]
      ensures Less(keys[0], c)
    {
      var j :| 0 <= j < |keys[1..]| && keys[1..][j] == c;
      assert keys[j + 1] == c;
    }
  }

  /** Adds one value to an ascending key list unless it is already there. */
  function Insert(keys: seq<Cell>, x: Cell): (r: seq<Cell>)
    requires Ascending(keys) && Missing !in keys && x != Missing
    ensures Ascending(r)
    ensures forall c :: c in r <==> c in keys || c == x
  {
    if |keys| == 0 then [x]
    else if x == keys[0] then keys
    else if Less(x, keys[0]) then
      HeadBelowRest(keys);
      assert forall c :: c in keys ==> c == keys[0] || c in keys[1..];
      BelowAscending(x, keys);
      ConsAscending(x, keys);
      [x] + keys
    else
      var rest := Insert(keys[1..], x);
      LessTotal(x, keys[0]);
      HeadBelowRest(keys);
      ConsAscending(keys[0], rest);
      assert keys == [keys[0]] + keys[1..];
      [keys[0]] + rest
  }

  lemma BelowAscending(x: Cell, keys: seq<Cell>)
    requires Ascending(keys) && |keys| > 0 && Less(x, keys[0])
    ensures forall c :: c in keys ==> Less(x, c)
  {
    forall c | c in keys
      ensures Less(x, c)
    {
      if c != keys[0] {
        var j :| 0 <= j < |keys| && keys[j] == c;
        LessTransitive(x, keys[0], c);
      }
    }
  }

  /**
   * The distinct non-missing values of a column in ascending order: the
   * index of pandas' default `value_counts()` (which drops NaN), sorted.
   */
  function Categories(col: seq<Cell>): (cats: seq<Cell>)
    ensures Ascending(cats)
    ensures forall c :: c in cats <==> c in col && c != Missing
  {
    if |col| == 0 then []
    else
      var rest := Categories(col[1..]);
      assert col == [col[0]] + col[1..];
      if col[0] == Missing then rest else Insert(rest, col[0])
  }

  /** An ascending list holds each value at most once. */
  lemma {:induction false} AscendingDistinct(s: seq<Cell>, x: Cell)
    requires Ascending(s)
    ensures multiset(s)[x] <= 1
  {
    if |s| > 0 {
      AscendingDistinct(s[1..], x);
      assert s == [s[0]] + s[1..];
      if x == s[0] && x in s[1..] {
        HeadBelowRest(s);
        LessIrreflexive(x);
      }
    }
  }

  /** How many entries of `m` carry one of `keys`. */
  function SumCounts(keys: seq<Cell>, m: multiset<Cell>): nat {
    if |keys| == 0 then 0 else m[keys[0]] + SumCounts(keys[1..], m)
  }

  lemma {:induction false} SumCountsAdd(keys: seq<Cell>, a: multiset<Cell>, b: multiset<Cell>)
    ensures SumCounts(keys, a + b) == SumCounts(keys, a) + SumCounts(keys, b)
  {
    if |keys| > 0 {
      SumCountsAdd(keys[1..], a, b);
    }
  }

  lemma {:induction false} SumCountsEmpty(keys: seq<Cell>)
    ensures SumCounts(keys, multiset{}) == 0
  {
    if |keys| > 0 {
      SumCountsEmpty(keys[1..]);
    }
  }

  lemma {:induction false} SumCountsSingle(keys: seq<Cell>, x: Cell)
    ensures SumCounts(keys, multiset{x}) == multiset(keys)[x]
  {
    if |keys| > 0 {
      SumCountsSingle(keys[1..], x);
      assert keys == [keys[0]] + keys[1..];
    }
  }

  /**
   * Counting a column over an ascending key list that covers its
   * non-missing values finds every entry except the missing ones.
   */
  lemma {:induction false} CountsAddUp(keys: seq<Cell>, xs: seq<Cell>)
    requires Ascending(keys) && Missing !in keys
    requires forall c :: c in xs && c != Missing ==> c in keys
    ensures SumCounts(keys, multiset(xs)) == |xs| - multiset(xs)[Missing]
  {
    if |xs| == 0 {
      SumCountsEmpty(keys);
    } else {
      var x := xs[0];
      assert xs == [x] + xs[1..];
      assert multiset(xs) == multiset{x} + multiset(xs[1..]);
      CountsAddUp(keys, xs[1..]);
      SumCountsAdd(keys, multiset{x}, multiset(xs[1..]));
      SumCountsSingle(keys, x);
      AscendingDistinct(keys, x);
      if x == Missing {
        assert multiset(keys)[x] == 0;
      } else {
        assert x in keys;
        assert multiset(keys)[x] == 1;
      }
    }
  }
}
