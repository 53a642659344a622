/**
  Generic sequence operations that stand for the JavaScript array methods the
  application uses: `find`, `some`, `filter`, `reduce` with `+`, `slice(-n)`
  and `reverse`. Each is characterised by its contract, so that the views built
  on top of them can be reasoned about without unfolding them.
*/
module Seqs {

  /** An optional value; stands for `T | undefined` / `T | null`. */
  datatype Option<T> = None | Some(value: T)

  /** Index of the first element satisfying `p` (`Array.prototype.findIndex`). */
  function FindIndex<T>(xs: seq<T>, p: T -> bool): (r: Option<nat>)
    ensures r.Some? ==> r.value < |xs| && p(xs[r.value])
    ensures r.Some? ==> forall j :: 0 <= j < r.value ==> !p(xs[j])
    ensures r.None? ==> forall j :: 0 <= j < |xs| ==> !p(xs[j])
  {
    if |xs| == 0 then None
    else if p(xs[0]) then Some(0)
    else match FindIndex(xs[1..], p)
      case None => None
      case Some(i) => Some(i + 1)
  }

  /** `Array.prototype.some`. */
  predicate Any<T>(xs: seq<T>, p: T -> bool)
  {
    exists i :: 0 <= i < |xs| && p(xs[i])
  }

  /** The first element satisfying `p` (`Array.prototype.find`). */
  function Find<T>(xs: seq<T>, p: T -> bool): (r: Option<T>)
    ensures r.Some? <==> Any(xs, p)
    ensures r.Some? ==> p(r.value) && r.value in xs
    ensures r.Some? ==> exists i :: 0 <= i < |xs| && xs[i] == r.value && forall j :: 0 <= j < i ==> !p(xs[j])
    ensures forall i :: 0 <= i < |xs| && p(xs[i]) && (forall j :: 0 <= j < i ==> !p(xs[j])) ==> r == Some(xs[i])
  {
    match FindIndex(xs, p)
    case None => None
    case Some(i) => Some(xs[i])
  }

  /** Appending an element does not move an earlier first match; without one, the new element is tried. */
  lemma {:induction false} FindIndexAppend<T>(xs: seq<T>, x: T, p: T -> bool)
    ensures FindIndex(xs + [x], p)
            == if FindIndex(xs, p).Some? then FindIndex(xs, p) else if p(x) then Some(|xs|) else None
  {
    if |xs| > 0 {
      assert (xs + [x])[1..] == xs[1..] + [x];
      FindIndexAppend(xs[1..], x, p);
    }
  }

  /** `find` on an extended array: the old first match if there was one, else the new element if it matches. */
  lemma FindAppend<T>(xs: seq<T>, x: T, p: T -> bool)
    ensures Find(xs + [x], p) == if Any(xs, p) then Find(xs, p) else if p(x) then Some(x) else None
  {
    FindIndexAppend(xs, x, p);
    if FindIndex(xs, p).Some? {
      assert (xs + [x])[FindIndex(xs, p).value] == xs[FindIndex(xs, p).value];
    }
  }

  /** `Array.prototype.filter`: the elements satisfying `p`, in their original order. */
  function Filter<T>(xs: seq<T>, p: T -> bool): (r: seq<T>)
    ensures |r| <= |xs|
    ensures forall i :: 0 <= i < |r| ==> r[i] in xs && p(r[i])
    ensures forall i :: 0 <= i < |xs| && p(xs[i]) ==> xs[i] in r
  {
    if |xs| == 0 then []
    else (if p(xs[0]) then [xs[0]] else []) + Filter(xs[1..], p)
  }

  /** `xs.reduce((sum, x) => sum + f(x), 0)`. */
  function Sum<T>(xs: seq<T>, f: T -> int): int
  {
    if |xs| == 0 then 0 else f(xs[0]) + Sum(xs[1..], f)
  }

  /** How many elements satisfy `p`, counted one by one. */
  function Count<T>(xs: seq<T>, p: T -> bool): nat
  {
    if |xs| == 0 then 0 else (if p(xs[0]) then 1 else 0) + Count(xs[1..], p)
  }

  /** The total of `f` over the elements satisfying `p`, the others counting zero. */
  function SumWhere<T>(xs: seq<T>, p: T -> bool, f: T -> int): int
  {
    if |xs| == 0 then 0 else (if p(xs[0]) then f(xs[0]) else 0) + SumWhere(xs[1..], p, f)
  }

  /** `xs.slice(-n)` for a positive `n`: the last `n` elements, or all of them. */
  function TakeLast<T>(xs: seq<T>, n: nat): (r: seq<T>)
    requires n > 0
    ensures |r| == if |xs| < n then |xs| else n
    ensures forall i :: 0 <= i < |r| ==> r[i] == xs[|xs| - |r| + i]
  {
    if |xs| <= n then xs else xs[|xs| - n..]
  }

  /** `Array.prototype.reverse`, as a value. */
  function Reverse<T>(xs: seq<T>): (r: seq<T>)
    ensures |r| == |xs|
    ensures forall i :: 0 <= i < |xs| ==> r[i] == xs[|xs| - 1 - i]
  {
    if |xs| == 0 then [] else Reverse(xs[1..]) + [xs[0]]
  }

  // ---------------------------------------------------------------------------
  // Laws of Filter and Sum
  // ---------------------------------------------------------------------------

  /** Filtering distributes over concatenation, so it keeps the original order. */
  lemma {:induction false} FilterConcat<T>(xs: seq<T>, ys: seq<T>, p: T -> bool)
    ensures Filter(xs + ys, p) == Filter(xs, p) + Filter(ys, p)
  {
    if |xs| == 0 {
      assert xs + ys == ys;
    } else {
      assert (xs + ys)[1..] == xs[1..] + ys;
      FilterConcat(xs[1..], ys, p);
    }
  }

  /** Appending one element extends the filtered sequence by that element exactly when it passes. */
  lemma FilterAppend<T>(xs: seq<T>, x: T, p: T -> bool)
    ensures Filter(xs + [x], p) == Filter(xs, p) + (if p(x) then [x] else [])
  {
    FilterConcat(xs, [x], p);
    assert [x][1..] == [];
  }

  /** A predicate that no element satisfies selects nothing. */
  lemma {:induction false} FilterRejectsAll<T>(xs: seq<T>, p: T -> bool)
    requires forall i :: 0 <= i < |xs| ==> !p(xs[i])
    ensures Filter(xs, p) == []
  {
    if |xs| > 0 {
      FilterRejectsAll(xs[1..], p);
    }
  }

  /** A predicate every element satisfies keeps the whole sequence. */
  lemma {:induction false} FilterKeepsAll<T>(xs: seq<T>, p: T -> bool)
    requires forall i :: 0 <= i < |xs| ==> p(xs[i])
    ensures Filter(xs, p) == xs
  {
    if |xs| > 0 {
      FilterKeepsAll(xs[1..], p);
    }
  }

  /** A filter keeps every element exactly when it keeps as many elements as there are. */
  lemma {:induction false} FilterKeepsAllIff<T>(xs: seq<T>, p: T -> bool)
    ensures |Filter(xs, p)| == |xs| <==> forall i :: 0 <= i < |xs| ==> p(xs[i])
  {
    if |xs| > 0 {
      FilterKeepsAllIff(xs[1..], p);
      assert |Filter(xs[1..], p)| <= |xs[1..]|;
      if forall i :: 0 <= i < |xs| ==> p(xs[i]) {
        assert forall i :: 0 <= i < |xs[1..]| ==> p(xs[1..][i]) by {
          forall i | 0 <= i < |xs[1..]| ensures p(xs[1..][i]) {
            assert xs[1..][i] == xs[i + 1];
          }
        }
      }
      if |Filter(xs, p)| == |xs| {
        assert p(xs[0]);
        forall i | 0 <= i < |xs| ensures p(xs[i]) {
          if i > 0 {
            assert xs[i] == xs[1..][i - 1];
          }
        }
      }
    }
  }

  /**
    Two filters applied one after the other, to two sequences of equal length
    that agree on the first filter: when every element of `ys` that passes both
    has its counterpart in `xs` pass the second, `ys` keeps no more than `xs`,
    and strictly fewer when some counterpart passes in `xs` but not in `ys`.
  */
  lemma {:induction false} FilterFilterMonotone<T>(xs: seq<T>, ys: seq<T>, p: T -> bool, q: T -> bool)
    requires |xs| == |ys|
    requires forall i :: 0 <= i < |xs| ==> p(xs[i]) == p(ys[i])
    requires forall i :: 0 <= i < |ys| && p(ys[i]) && q(ys[i]) ==> q(xs[i])
    ensures |Filter(Filter(ys, p), q)| <= |Filter(Filter(xs, p), q)|
    ensures (exists k :: 0 <= k < |xs| && p(xs[k]) && q(xs[k]) && !q(ys[k]))
            ==> |Filter(Filter(ys, p), q)| < |Filter(Filter(xs, p), q)|
  {
    if |xs| > 0 {
      FilterFilterMonotone(xs[1..], ys[1..], p, q);
      var hx := if p(xs[0]) then [xs[0]] else [];
      var hy := if p(ys[0]) then [ys[0]] else [];
      FilterConcat(hx, Filter(xs[1..], p), q);
      FilterConcat(hy, Filter(ys[1..], p), q);
      assert [xs[0]][1..] == [] && [ys[0]][1..] == [];
      if exists k :: 0 <= k < |xs| && p(xs[k]) && q(xs[k]) && !q(ys[k]) {
        var k :| 0 <= k < |xs| && p(xs[k]) && q(xs[k]) && !q(ys[k]);
        if k > 0 {
          assert xs[1..][k - 1] == xs[k] && ys[1..][k - 1] == ys[k];
        }
      }
    }
  }

  /** A sum of non-negative terms is non-negative. */
  lemma {:induction false} SumNonNegative<T>(xs: seq<T>, f: T -> int)
    requires forall i :: 0 <= i < |xs| ==> f(xs[i]) >= 0
    ensures Sum(xs, f) >= 0
  {
    if |xs| > 0 {
      SumNonNegative(xs[1..], f);
    }
  }

  /** Two predicates that agree on every element select the same subsequence. */
  lemma {:induction false} FilterCongruent<T>(xs: seq<T>, p: T -> bool, q: T -> bool)
    requires forall i :: 0 <= i < |xs| ==> p(xs[i]) == q(xs[i])
    ensures Filter(xs, p) == Filter(xs, q)
  {
    if |xs| > 0 {
      FilterCongruent(xs[1..], p, q);
    }
  }

  /** A predicate and its complement split a sequence: their counts add up to its length. */
  lemma {:induction false} FilterPartition<T>(xs: seq<T>, p: T -> bool, q: T -> bool)
    requires forall i :: 0 <= i < |xs| ==> (p(xs[i]) <==> !q(xs[i]))
    ensures |Filter(xs, p)| + |Filter(xs, q)| == |xs|
  {
    if |xs| > 0 {
      FilterPartition(xs[1..], p, q);
    }
  }

  /** Exactly one of three conditions holds. */
  predicate ExactlyOne(a: bool, b: bool, c: bool)
  {
    (a || b || c) && !(a && b) && !(a && c) && !(b && c)
  }

  /** Three pairwise exclusive predicates covering every element split a sequence three ways. */
  lemma {:induction false} FilterPartition3<T>(xs: seq<T>, p: T -> bool, q: T -> bool, r: T -> bool)
    requires forall i :: 0 <= i < |xs| ==> ExactlyOne(p(xs[i]), q(xs[i]), r(xs[i]))
    ensures |Filter(xs, p)| + |Filter(xs, q)| + |Filter(xs, r)| == |xs|
  {
    if |xs| > 0 {
      FilterPartition3(xs[1..], p, q, r);
    }
  }

  /** Summing a non-negative measure over a filtered subsequence never exceeds the full sum. */
  lemma {:induction false} SumFilterBounded<T>(xs: seq<T>, p: T -> bool, f: T -> int)
    requires forall i :: 0 <= i < |xs| ==> f(xs[i]) >= 0
    ensures Sum(Filter(xs, p), f) <= Sum(xs, f)
  {
    if |xs| > 0 {
      SumFilterBounded(xs[1..], p, f);
      assert Filter(xs, p) == (if p(xs[0]) then [xs[0]] else []) + Filter(xs[1..], p);
      SumConcat(if p(xs[0]) then [xs[0]] else [], Filter(xs[1..], p), f);
    }
  }

  /** The sum over a concatenation is the sum of the sums. */
  lemma {:induction false} SumConcat<T>(xs: seq<T>, ys: seq<T>, f: T -> int)
    ensures Sum(xs + ys, f) == Sum(xs, f) + Sum(ys, f)
  {
    if |xs| == 0 {
      assert xs + ys == ys;
    } else {
      assert (xs + ys)[1..] == xs[1..] + ys;
      SumConcat(xs[1..], ys, f);
    }
  }

  /** Filtering and counting agree: the filtered length is the count, and the filtered sum is the sum where `p` holds. */
  lemma {:induction false} FilterCounts<T>(xs: seq<T>, p: T -> bool, f: T -> int)
    ensures |Filter(xs, p)| == Count(xs, p)
    ensures Sum(Filter(xs, p), f) == SumWhere(xs, p, f)
  {
    if |xs| > 0 {
      FilterCounts(xs[1..], p, f);
      SumConcat(if p(xs[0]) then [xs[0]] else [], Filter(xs[1..], p), f);
    }
  }

  /** The conjunction of two tests. */
  function Both<T>(p: T -> bool, q: T -> bool): T -> bool
  {
    (x: T) => p(x) && q(x)
  }

  /** Filtering twice keeps as many elements as there are satisfying both tests. */
  lemma {:induction false} FilterFilterCounts<T>(xs: seq<T>, p: T -> bool, q: T -> bool)
    ensures |Filter(Filter(xs, p), q)| == Count(xs, Both(p, q))
  {
    if |xs| > 0 {
      FilterFilterCounts(xs[1..], p, q);
      FilterConcat(if p(xs[0]) then [xs[0]] else [], Filter(xs[1..], p), q);
    }
  }

  /** Every element is counted exactly when the count is the length; then the sum where `p` holds is the whole sum. */
  lemma {:induction false} CountAll<T>(xs: seq<T>, p: T -> bool, f: T -> int)
    ensures Count(xs, p) == |xs| <==> forall i :: 0 <= i < |xs| ==> p(xs[i])
    ensures (forall i :: 0 <= i < |xs| ==> p(xs[i])) ==> SumWhere(xs, p, f) == Sum(xs, f)
  {
    FilterCounts(xs, p, f);
    FilterKeepsAllIff(xs, p);
    if forall i :: 0 <= i < |xs| ==> p(xs[i]) {
      FilterKeepsAll(xs, p);
    }
  }

  /**
    Three exclusive, covering predicates split a sequence three ways by
    count; the sum where the first holds lies between zero and the whole sum
    when no term is negative, and is zero when nothing is counted.
  */
  lemma Tally<T>(xs: seq<T>, p: T -> bool, q: T -> bool, r: T -> bool, f: T -> int)
    requires forall i :: 0 <= i < |xs| ==> ExactlyOne(p(xs[i]), q(xs[i]), r(xs[i]))
    ensures Count(xs, p) + Count(xs, q) + Count(xs, r) == |xs|
    ensures (forall i :: 0 <= i < |xs| ==> f(xs[i]) >= 0) ==> 0 <= SumWhere(xs, p, f) <= Sum(xs, f)
    ensures Count(xs, p) == 0 ==> SumWhere(xs, p, f) == 0
  {
    FilterCounts(xs, p, f);
    FilterCounts(xs, q, f);
    FilterCounts(xs, r, f);
    FilterPartition3(xs, p, q, r);
    if forall i :: 0 <= i < |xs| ==> f(xs[i]) >= 0 {
      SumFilterBounded(xs, p, f);
      SumNonNegative(Filter(xs, p), f);
    }
  }

  /** No two of three conditions hold together. */
  predicate AtMostOne(a: bool, b: bool, c: bool)
  {
    !(a && b) && !(a && c) && !(b && c)
  }

  /** Three predicates that never hold together count at most the whole sequence between them. */
  lemma {:induction false} CountAtMostOne<T>(xs: seq<T>, p: T -> bool, q: T -> bool, r: T -> bool)
    requires forall i :: 0 <= i < |xs| ==> AtMostOne(p(xs[i]), q(xs[i]), r(xs[i]))
    ensures Count(xs, p) + Count(xs, q) + Count(xs, r) <= |xs|
  {
    if |xs| > 0 {
      CountAtMostOne(xs[1..], p, q, r);
    }
  }

  /** Predicates that agree on every element count and sum alike. */
  lemma {:induction false} CountCongruent<T>(xs: seq<T>, p: T -> bool, q: T -> bool, f: T -> int)
    requires forall i :: 0 <= i < |xs| ==> p(xs[i]) == q(xs[i])
    ensures Count(xs, p) == Count(xs, q) && SumWhere(xs, p, f) == SumWhere(xs, q, f)
  {
    if |xs| > 0 {
      CountCongruent(xs[1..], p, q, f);
    }
  }

  /**
    A partial sum of non-negative values lies between zero and the whole
    sum; nothing counted means nothing summed, and a predicate that holds
    nowhere counts nothing.
  */
  lemma {:induction false} SumWhereBounded<T>(xs: seq<T>, p: T -> bool, f: T -> int)
    ensures (forall i :: 0 <= i < |xs| ==> f(xs[i]) >= 0) ==> 0 <= SumWhere(xs, p, f) <= Sum(xs, f)
    ensures Count(xs, p) == 0 ==> SumWhere(xs, p, f) == 0
    ensures (forall i :: 0 <= i < |xs| ==> !p(xs[i])) ==> Count(xs, p) == 0
  {
    if |xs| > 0 {
      SumWhereBounded(xs[1..], p, f);
    }
  }
}
