/** The order in which update() visits pairs of bodies: the outer loop runs i
    over 0..n-1 and, for each i, the inner loop runs j over i+1..n-1. */
module Pairs {

  type Pair = (nat, nat)

  /** The pairs (i, lo), (i, lo + 1), ..., (i, hi - 1): the first hi - lo
      passes of an inner loop that starts at j = lo. */
  function Row(i: nat, lo: nat, hi: nat): seq<Pair>
    decreases hi
  {
    if hi <= lo then [] else Row(i, lo, hi - 1) + [(i, hi - 1)]
  }

  /** The pairs visited by the first i passes of the outer loop over n bodies. */
  function Prefix(i: nat, n: nat): seq<Pair>
  {
    if i == 0 then [] else Prefix(i - 1, n) + Row(i - 1, i, n)
  }

  /** Every pair update() visits for n bodies, in visiting order. */
  function AllPairs(n: nat): seq<Pair>
  {
    Prefix(n, n)
  }

  /** Every entry is a pair of distinct indices below n, the smaller first. */
  ghost predicate Proper(ps: seq<Pair>, n: nat)
  {
    forall k :: 0 <= k < |ps| ==> ps[k].0 < ps[k].1 < n
  }

  /** Lexicographic order on pairs. */
  predicate Before(p: Pair, q: Pair)
  {
    p.0 < q.0 || (p.0 == q.0 && p.1 < q.1)
  }

  /** Strictly increasing in lexicographic order, hence free of repetitions. */
  ghost predicate Increasing(ps: seq<Pair>)
  {
    forall a, b :: 0 <= a < b < |ps| ==> Before(ps[a], ps[b])
  }

  /** A row holds exactly the pairs (i, j) with lo <= j < hi, in increasing order. */
  lemma {:induction false} RowShape(i: nat, lo: nat, hi: nat)
    ensures |Row(i, lo, hi)| == if lo <= hi then hi - lo else 0
    ensures forall k :: 0 <= k < |Row(i, lo, hi)| ==> Row(i, lo, hi)[k] == (i, lo + k)
    decreases hi
  {
    if lo < hi {
      RowShape(i, lo, hi - 1);
    }
  }

  /** After i outer passes, the visited pairs are proper and all have first
      index below i. */
  lemma {:induction false} PrefixProper(i: nat, n: nat)
    requires i <= n
    ensures Proper(Prefix(i, n), n)
    ensures forall k :: 0 <= k < |Prefix(i, n)| ==> Prefix(i, n)[k].0 < i
  {
    if i > 0 {
      PrefixProper(i - 1, n);
      RowShape(i - 1, i, n);
      var p: seq<Pair>, r: seq<Pair> := Prefix(i - 1, n), Row(i - 1, i, n);
      assert Prefix(i, n) == p + r;
      forall k | 0 <= k < |p + r|
        ensures (p + r)[k].0 < (p + r)[k].1 < n && (p + r)[k].0 < i
      {
        if k >= |p| {
          assert (p + r)[k] == r[k - |p|];
        }
      }
    }
  }

  /** A row is in increasing order. */
  lemma RowIncreasing(i: nat, lo: nat, hi: nat)
    ensures Increasing(Row(i, lo, hi))
  {
    RowShape(i, lo, hi);
    var r := Row(i, lo, hi);
    forall x, y | 0 <= x < y < |r|
      ensures Before(r[x], r[y])
    {
      assert r[x] == (i, lo + x) && r[y] == (i, lo + y);
    }
  }

  /** Two increasing runs, every entry of the first before every entry of the
      second, join into an increasing run. */
  lemma AppendIncreasing(p: seq<Pair>, r: seq<Pair>)
    requires Increasing(p) && Increasing(r)
    requires forall x, y :: 0 <= x < |p| && 0 <= y < |r| ==> Before(p[x], r[y])
    ensures Increasing(p + r)
  {
    forall a, b | 0 <= a < b < |p + r|
      ensures Before((p + r)[a], (p + r)[b])
    {
      if b < |p| {
        assert (p + r)[a] == p[a] && (p + r)[b] == p[b];
      } else if a >= |p| {
        assert (p + r)[a] == r[a - |p|] && (p + r)[b] == r[b - |p|];
      } else {
        assert (p + r)[a] == p[a] && (p + r)[b] == r[b - |p|];
      }
    }
  }

  /** After i outer passes the visited pairs are in increasing order. */
  lemma {:induction false} PrefixIncreasing(i: nat, n: nat)
    requires i <= n
    ensures Increasing(Prefix(i, n))
  {
    if i > 0 {
      var p, r := Prefix(i - 1, n), Row(i - 1, i, n);
      PrefixIncreasing(i - 1, n);
      PrefixProper(i - 1, n);
      RowShape(i - 1, i, n);
      RowIncreasing(i - 1, i, n);
      AppendIncreasing(p, r);
      assert Prefix(i, n) == p + r;
    }
  }

  /** (i - 1) (2n - i) + 2 (n - i) == i (2n - i - 1) */
  lemma CountStep(i: int, n: int)
    ensures (i - 1) * (2 * n - i) + 2 * (n - i) == i * (2 * n - i - 1)
  {
  }

  /** After i outer passes, (n - 1) + (n - 2) + ... + (n - i) pairs have been
      visited, which is i (2n - i - 1) / 2. */
  lemma {:induction false} PrefixCount(i: nat, n: nat)
    requires i <= n
    ensures 2 * |Prefix(i, n)| == i * (2 * n - i - 1)
  {
    if i > 0 {
      PrefixCount(i - 1, n);
      RowShape(i - 1, i, n);
      assert |Prefix(i, n)| == |Prefix(i - 1, n)| + (n - i);
      CountStep(i, n);
    }
  }

  /** Where update() visits the pair (a, b), a < b: after the rows before
      row a, at offset b - a - 1 in row a. */
  function Position(a: nat, b: nat, n: nat): nat
    requires a < b
  {
    |Prefix(a, n)| + (b - a - 1)
  }

  /** Once row a has been passed, the pair (a, b) sits at Position(a, b, n). */
  lemma {:induction false} PrefixAt(i: nat, n: nat, a: nat, b: nat)
    requires a < i <= n && a < b < n
    ensures Position(a, b, n) < |Prefix(i, n)| && Prefix(i, n)[Position(a, b, n)] == (a, b)
  {
    var p, r := Prefix(i - 1, n), Row(i - 1, i, n);
    assert Prefix(i, n) == p + r;
    RowShape(i - 1, i, n);
    if a < i - 1 {
      PrefixAt(i - 1, n, a, b);
      assert (p + r)[Position(a, b, n)] == p[Position(a, b, n)];
    } else {
      assert Position(a, b, n) == |p| + (b - i);
      assert (p + r)[|p| + (b - i)] == r[b - i];
    }
  }

  /** A pair is visited in the first i passes exactly when it consists of
      distinct indices below n, the smaller first and below i. */
  lemma PrefixMembers(i: nat, n: nat, a: nat, b: nat)
    requires i <= n
    ensures (a, b) in Prefix(i, n) <==> a < i && a < b < n
  {
    PrefixProper(i, n);
    if a < i && a < b < n {
      PrefixAt(i, n, a, b);
    }
  }

  /** update() visits every unordered pair of distinct bodies exactly once, never
      a body with itself, n (n - 1) / 2 pairs in all, in increasing order. */
  lemma AllPairsExactlyOnce(n: nat)
    ensures forall a: nat, b: nat :: (a, b) in AllPairs(n) <==> a < b < n
    ensures forall k :: 0 <= k < |AllPairs(n)| ==> AllPairs(n)[k].0 != AllPairs(n)[k].1
    ensures forall x, y :: 0 <= x < y < |AllPairs(n)| ==> AllPairs(n)[x] != AllPairs(n)[y]
    ensures 2 * |AllPairs(n)| == n * (n - 1)
  {
    PrefixProper(n, n);
    PrefixIncreasing(n, n);
    PrefixCount(n, n);
    forall a: nat, b: nat
      ensures (a, b) in AllPairs(n) <==> a < b < n
    {
      PrefixMembers(n, n, a, b);
    }
    forall x, y | 0 <= x < y < |AllPairs(n)|
      ensures AllPairs(n)[x] != AllPairs(n)[y]
    {
      assert Before(AllPairs(n)[x], AllPairs(n)[y]);
    }
  }

  /** Applying f to a, pair by pair, in the order of ps. */
  function Fold<T>(f: (T, Pair) -> T, a: T, ps: seq<Pair>): T
  {
    if ps == [] then a else f(Fold(f, a, ps[..|ps| - 1]), ps[|ps| - 1])
  }

  /** One more pair is one more application of f. */
  lemma FoldSnoc<T>(f: (T, Pair) -> T, a: T, done: seq<Pair>, p: Pair)
    ensures Fold(f, a, done + [p]) == f(Fold(f, a, done), p)
  {
    assert (done + [p])[..|done|] == done;
  }

  /** The inner loop of update() for row i, started on a, after it has
      handled j = i + 1, ..., hi - 1. */
  function RowLoop<T>(f: (T, Pair) -> T, a: T, i: nat, hi: nat): T
    decreases hi
  {
    if hi <= i + 1 then a else f(RowLoop(f, a, i, hi - 1), (i, hi - 1))
  }

  /** The first i passes of the outer loop of update() over n bodies. */
  function Loops<T>(f: (T, Pair) -> T, a: T, i: nat, n: nat): T
  {
    if i == 0 then a else RowLoop(f, Loops(f, a, i - 1, n), i - 1, n)
  }

  /** The inner loop applies exactly the pairs of Row(i, lo, hi), in order,
      where lo = i + 1 is where it starts. */
  lemma {:induction false} RowLoopFolds<T>(f: (T, Pair) -> T, a: T, done: seq<Pair>, i: nat, lo: nat, hi: nat)
    requires lo == i + 1
    ensures Fold(f, a, done + Row(i, lo, hi)) == RowLoop(f, Fold(f, a, done), i, hi)
    decreases hi
  {
    if hi <= lo {
      assert done + Row(i, lo, hi) == done;
    } else {
      var d, p := done + Row(i, lo, hi - 1), (i, hi - 1);
      calc {
        Fold(f, a, done + Row(i, lo, hi));
        { assert done + Row(i, lo, hi) == d + [p]; }
        Fold(f, a, d + [p]);
        { FoldSnoc(f, a, d, p); }
        f(Fold(f, a, d), p);
        { RowLoopFolds(f, a, done, i, lo, hi - 1); }
        f(RowLoop(f, Fold(f, a, done), i, hi - 1), p);
      }
    }
  }

  /** The first i outer passes apply exactly the pairs of Prefix(i, n), in order. */
  lemma {:induction false} LoopsFold<T>(f: (T, Pair) -> T, a: T, i: nat, n: nat)
    ensures Fold(f, a, Prefix(i, n)) == Loops(f, a, i, n)
  {
    if i > 0 {
      var d := Prefix(i - 1, n);
      calc {
        Fold(f, a, Prefix(i, n));
        { assert Prefix(i, n) == d + Row(i - 1, i, n); }
        Fold(f, a, d + Row(i - 1, i, n));
        { RowLoopFolds(f, a, d, i - 1, i, n); }
        RowLoop(f, Fold(f, a, d), i - 1, n);
        { LoopsFold(f, a, i - 1, n); }
        RowLoop(f, Loops(f, a, i - 1, n), i - 1, n);
      }
    }
  }

  /** The two loops of update() apply f once for every pair of AllPairs(n), in
      that order, whatever f is. */
  lemma LoopsFoldAllPairs<T>(f: (T, Pair) -> T, a: T, n: nat)
    ensures Loops(f, a, n, n) == Fold(f, a, AllPairs(n))
  {
    LoopsFold(f, a, n, n);
  }

  /** A property kept by every application of f is kept by an inner loop. */
  lemma {:induction false} RowLoopKeeps<T>(f: (T, Pair) -> T, a: T, i: nat, hi: nat, inv: T -> bool)
    requires inv(a) && forall x: T, p: Pair :: inv(x) ==> inv(f(x, p))
    ensures inv(RowLoop(f, a, i, hi))
    decreases hi
  {
    if hi > i + 1 {
      RowLoopKeeps(f, a, i, hi - 1, inv);
    }
  }

  /** A property kept by every application of f is kept by the outer loop. */
  lemma {:induction false} LoopsKeep<T>(f: (T, Pair) -> T, a: T, i: nat, n: nat, inv: T -> bool)
    requires inv(a) && forall x: T, p: Pair :: inv(x) ==> inv(f(x, p))
    ensures inv(Loops(f, a, i, n))
  {
    if i > 0 {
      LoopsKeep(f, a, i - 1, n, inv);
      RowLoopKeeps(f, Loops(f, a, i - 1, n), i - 1, n, inv);
    }
  }
}
