/** The streaming reduction of a 2-D array (api/reduce_main.cpp:44-188,
    api/reduce.h:54-92): source rows come one at a time, and are reduced in both
    dimensions as they come. */
module Reduce {
  const MAX_DATA: nat := 65536
  const MAX_DIMX: nat := 1024

  /** What `rdata_min` starts from. */
  const FIRST_MIN: real := 100000000000000000000.0

  datatype Method = Avg | Sum | Max | Min

  // ---- the batch definition ---------------------------------------------

  /** Which of `r` blocks position `y` of `s` falls into. */
  function Block(y: nat, r: nat, s: nat): nat
    requires s > 0
  {
    y * r / s
  }

  lemma Times(a: int, b: int, s: int)
    requires a <= b && s >= 0
    ensures a * s <= b * s
  {
    assert b * s - a * s == (b - a) * s;
    NotNegative(b - a, s);
  }

  lemma NotNegative(d: int, s: int)
    requires d >= 0 && s >= 0
    ensures d * s >= 0
  {
  }

  lemma DivIs(a: int, s: int, q: int)
    requires s > 0 && q * s <= a < (q + 1) * s
    ensures a / s == q
  {
    var p := a / s;
    assert p * s <= a < p * s + s;
    if p < q {
      Times(p + 1, q, s);
      assert false;
    } else if q < p {
      Times(q + 1, p, s);
      assert false;
    }
  }

  lemma DivBounds(a: int, s: int)
    requires s > 0
    ensures (a / s) * s <= a < (a / s) * s + s
  {
  }

  /** Blocks come in order, none is left out, and the last position falls into
      the last block. */
  lemma BlockSteps(y: nat, r: nat, s: nat)
    requires 0 < r < s && y < s
    ensures Block(0, r, s) == 0 && Block(s - 1, r, s) == r - 1
    ensures Block(y, r, s) <= Block(y + 1, r, s) <= Block(y, r, s) + 1
    ensures Block(y, r, s) < r && Block(y, r, s) * s <= y * r < (Block(y, r, s) + 1) * s
  {
    DivBounds(y * r, s);
    LastBlock(r, s);
    NextBlock(y, r, s);
    BlockBelow(y, r, s);
  }

  lemma LastBlock(r: nat, s: nat)
    requires 0 < r < s
    ensures Block(0, r, s) == 0 && Block(s - 1, r, s) == r - 1
  {
    DivIs(0, s, 0);
    assert (s - 1) * r == s * r - r && (r - 1) * s == s * r - s && (r - 1 + 1) * s == s * r;
    DivIs((s - 1) * r, s, r - 1);
  }

  lemma NextBlock(y: nat, r: nat, s: nat)
    requires 0 < r < s
    ensures Block(y, r, s) <= Block(y + 1, r, s) <= Block(y, r, s) + 1
  {
    var q := y * r / s;
    DivBounds(y * r, s);
    assert (y + 1) * r == y * r + r && (q + 1) * s == q * s + s && (q + 1 + 1) * s == q * s + s + s;
    if (y + 1) * r < (q + 1) * s {
      DivIs((y + 1) * r, s, q);
    } else {
      DivIs((y + 1) * r, s, q + 1);
    }
  }

  lemma BlockBelow(y: nat, r: nat, s: nat)
    requires 0 < r < s && y < s
    ensures Block(y, r, s) < r
  {
    var q := y * r / s;
    DivBounds(y * r, s);
    Times(y, s - 1, r);
    assert (s - 1) * r == r * s - r;
    if q >= r {
      Times(r, q, s);
      assert false;
    }
  }

  lemma {:induction false} BlocksOrdered(y: nat, z: nat, r: nat, s: nat)
    requires 0 < r < s && y <= z < s
    ensures Block(y, r, s) <= Block(z, r, s)
  {
    if y < z {
      BlocksOrdered(y, z - 1, r, s);
      BlockSteps(z - 1, r, s);
    }
  }

  /** Sum and number of the elements of `x` up to `n` in block `b` of `r`. */
  function BlockSum(x: seq<real>, r: nat, b: nat, n: nat): real
    requires n <= |x|
  {
    if n == 0 then 0.0 else BlockSum(x, r, b, n - 1) + if Block(n - 1, r, |x|) == b then x[n - 1] else 0.0
  }

  function BlockCount(s: nat, r: nat, b: nat, n: nat): nat
    requires n <= s
  {
    if n == 0 then 0 else BlockCount(s, r, b, n - 1) + if Block(n - 1, r, s) == b then 1 else 0
  }

  /** What the code folds for the other methods: it starts from 0. */
  function BlockMin(x: seq<real>, r: nat, b: nat, n: nat): real
    requires n <= |x|
  {
    if n == 0 then 0.0
    else
      var m := BlockMin(x, r, b, n - 1);
      if Block(n - 1, r, |x|) == b && x[n - 1] < m then x[n - 1] else m
  }

  function BlockMax(x: seq<real>, r: nat, b: nat, n: nat): real
    requires n <= |x|
  {
    if n == 0 then 0.0
    else
      var m := BlockMax(x, r, b, n - 1);
      if Block(n - 1, r, |x|) == b && m < x[n - 1] then x[n - 1] else m
  }

  lemma {:induction false} BlockCountLasts(s: nat, r: nat, b: nat, n: nat)
    requires 0 < r < s && n <= s && n > 0 && b < Block(n - 1, r, s)
    ensures BlockCount(s, r, b, n) == BlockCount(s, r, b, s)
    decreases s - n
  {
    if n < s {
      BlocksOrdered(n - 1, n, r, s);
      BlockCountLasts(s, r, b, n + 1);
    }
  }

  /** A column of one source row, reduced. */
  function Cell(how: Method, x: seq<real>, r: nat, b: nat): real
    requires b < r <= |x|
  {
    if r == |x| then x[b]
    else match how
      case Avg =>
        var n := BlockCount(|x|, r, b, |x|);
        if n > 1 then BlockSum(x, r, b, |x|) / n as real else BlockSum(x, r, b, |x|)
      case Sum => BlockSum(x, r, b, |x|)
      case Min => BlockMin(x, r, b, |x|)
      case Max => BlockMax(x, r, b, |x|)
  }

  /** Sum of a reduced column over the source rows up to `n` in block `b`. */
  function RowsSum(how: Method, src: seq<seq<real>>, rx: nat, ry: nat, sy: nat, b: nat, i: nat, n: nat): real
    requires n <= |src| <= sy && i < rx && forall y :: 0 <= y < |src| ==> rx <= |src[y]|
  {
    if n == 0 then 0.0
    else
      RowsSum(how, src, rx, ry, sy, b, i, n - 1)
        + if Block(n - 1, ry, sy) == b then Cell(how, src[n - 1], rx, i) else 0.0
  }

  /** The batch definition: the mean, over a block of source rows, of the reduced
      columns. */
  function Batch(how: Method, src: seq<seq<real>>, rx: nat, ry: nat, sy: nat, b: nat, i: nat): real
    requires |src| <= sy && i < rx && forall y :: 0 <= y < |src| ==> rx <= |src[y]|
  {
    var n := BlockCount(sy, ry, b, |src|);
    if n > 1 then RowsSum(how, src, rx, ry, sy, b, i, |src|) / n as real else RowsSum(how, src, rx, ry, sy, b, i, |src|)
  }

  /** No block is empty. */
  lemma {:induction false} BlockIsHit(s: nat, r: nat, b: nat, n: nat)
    requires 0 < r < s && 0 < n <= s && b <= Block(n - 1, r, s)
    ensures BlockCount(s, r, b, n) >= 1
  {
    if Block(n - 1, r, s) != b {
      if n == 1 {
        BlockSteps(0, r, s);
        assert false;
      } else {
        NextBlock(n - 2, r, s);
        BlockIsHit(s, r, b, n - 1);
      }
    }
  }

  lemma SameSize(y: nat, s: nat)
    requires y < s
    ensures Block(y, s, s) == y
  {
    assert (y + 1) * s == y * s + s;
    DivIs(y * s, s, y);
  }

  lemma {:induction false} OneByOne(x: seq<real>, b: nat, n: nat)
    requires b < |x| && n <= |x|
    ensures BlockSum(x, |x|, b, n) == if b < n then x[b] else 0.0
    ensures BlockCount(|x|, |x|, b, n) == if b < n then 1 else 0
  {
    if n > 0 {
      OneByOne(x, b, n - 1);
      SameSize(n - 1, |x|);
    }
  }

  // ---- blocks are slices ------------------------------------------------

  /** The first position of block `b`: `b * s / r` rounded up. */
  function From(b: nat, r: nat, s: nat): nat
    requires r > 0
  {
    (b * s + r - 1) / r
  }

  lemma RoundedUp(t: nat, r: nat, y: nat)
    requires r > 0
    ensures (t + r - 1) / r <= y <==> t <= y * r
  {
    var q := (t + r - 1) / r;
    DivBounds(t + r - 1, r);
    if q <= y {
      Times(q, y, r);
    } else {
      Times(y + 1, q, r);
      assert (y + 1) * r == y * r + r;
    }
  }

  lemma InBlockIff(y: nat, r: nat, s: nat, b: nat)
    requires 0 < r <= s
    ensures Block(y, r, s) == b <==> From(b, r, s) <= y < From(b + 1, r, s)
  {
    RoundedUp(b * s, r, y);
    RoundedUp((b + 1) * s, r, y);
    assert (b + 1) * s == b * s + s;
    DivBounds(y * r, s);
    if b * s <= y * r < (b + 1) * s {
      DivIs(y * r, s, b);
    }
  }

  lemma SliceBounds(b: nat, r: nat, s: nat)
    requires b < r <= s
    ensures From(b, r, s) < From(b + 1, r, s) <= s
  {
    assert (b + 1) * s == b * s + s;
    RoundedUp(b * s, r, From(b, r, s));
    RoundedUp((b + 1) * s, r, From(b, r, s));
    DivBounds(b * s + r - 1, r);
    Times(b + 1, r, s);
    RoundedUp((b + 1) * s, r, s);
  }

  function Total(x: seq<real>): real {
    if x == [] then 0.0 else Total(x[..|x| - 1]) + x[|x| - 1]
  }

  /** `n`, but not before `lo` nor after `hi`. */
  function Within(n: nat, lo: nat, hi: nat): (m: nat)
    requires lo <= hi
    ensures lo <= m <= hi
  {
    if n < lo then lo else if n > hi then hi else n
  }

  lemma {:induction false} BlockIsSlice(x: seq<real>, r: nat, b: nat, n: nat)
    requires b < r <= |x| && n <= |x|
    ensures From(b, r, |x|) < From(b + 1, r, |x|) <= |x|
    ensures BlockSum(x, r, b, n) ==
            Total(x[From(b, r, |x|)..Within(n, From(b, r, |x|), From(b + 1, r, |x|))])
    ensures BlockCount(|x|, r, b, n) == Within(n, From(b, r, |x|), From(b + 1, r, |x|)) - From(b, r, |x|)
  {
    SliceBounds(b, r, |x|);
    if n > 0 {
      BlockIsSlice(x, r, b, n - 1);
      InBlockIff(n - 1, r, |x|, b);
      var lo := From(b, r, |x|);
      if lo <= n - 1 < From(b + 1, r, |x|) {
        assert x[lo..n][..n - 1 - lo] == x[lo..n - 1];
      }
    }
  }

  /** `v` is the mean over block `b` of `r` of `x`. */
  ghost predicate IsMeanOf(v: real, x: seq<real>, b: nat, r: nat)
    requires r > 0
  {
    var from, to := From(b, r, |x|), From(b + 1, r, |x|);
    from < to <= |x| && v == Total(x[from..to]) / (to - from) as real
  }

  /** Column `i` of the source rows once each is reduced. */
  function Column(how: Method, src: seq<seq<real>>, rx: nat, i: nat): seq<real>
    requires i < rx && forall y :: 0 <= y < |src| ==> rx <= |src[y]|
  {
    seq(|src|, y requires 0 <= y < |src| => Cell(how, src[y], rx, i))
  }

  lemma {:induction false} RowsSumIsOfColumn(how: Method, src: seq<seq<real>>, rx: nat, ry: nat, b: nat, i: nat, n: nat)
    requires n <= |src| && i < rx && forall y :: 0 <= y < |src| ==> rx <= |src[y]|
    ensures RowsSum(how, src, rx, ry, |src|, b, i, n) == BlockSum(Column(how, src, rx, i), ry, b, n)
  {
    if n > 0 {
      RowsSumIsOfColumn(how, src, rx, ry, b, i, n - 1);
    }
  }

  /** For averages, a reduced column is the mean over its block of columns; for
      sums, the sum over it; whether or not there is anything to reduce. The block is
      the slice from `b * |x| / r`, rounded up, to where the next one begins. */
  lemma CellIsMeanOrSum(x: seq<real>, r: nat, b: nat)
    requires b < r <= |x|
    ensures BlockCount(|x|, r, b, |x|) >= 1
    ensures Cell(Avg, x, r, b) == BlockSum(x, r, b, |x|) / BlockCount(|x|, r, b, |x|) as real
    ensures Cell(Sum, x, r, b) == BlockSum(x, r, b, |x|)
    ensures IsMeanOf(Cell(Avg, x, r, b), x, b, r)
    ensures Cell(Sum, x, r, b) == Total(x[From(b, r, |x|)..From(b + 1, r, |x|)])
  {
    BlockIsSlice(x, r, b, |x|);
    if r == |x| {
      OneByOne(x, b, |x|);
    } else {
      LastBlock(r, |x|);
      BlockIsHit(|x|, r, b, |x|);
    }
  }

  lemma {:induction false} MinFacts(x: seq<real>, r: nat, b: nat, n: nat)
    requires n <= |x|
    ensures BlockMin(x, r, b, n) <= 0.0
    ensures forall y :: 0 <= y < n && Block(y, r, |x|) == b ==> BlockMin(x, r, b, n) <= x[y]
    ensures BlockMin(x, r, b, n) == 0.0
            || exists y :: 0 <= y < n && Block(y, r, |x|) == b && x[y] == BlockMin(x, r, b, n)
  {
    if n > 0 { MinFacts(x, r, b, n - 1); }
  }

  lemma {:induction false} MaxFacts(x: seq<real>, r: nat, b: nat, n: nat)
    requires n <= |x|
    ensures BlockMax(x, r, b, n) >= 0.0
    ensures forall y :: 0 <= y < n && Block(y, r, |x|) == b ==> BlockMax(x, r, b, n) >= x[y]
    ensures BlockMax(x, r, b, n) == 0.0
            || exists y :: 0 <= y < n && Block(y, r, |x|) == b && x[y] == BlockMax(x, r, b, n)
  {
    if n > 0 { MaxFacts(x, r, b, n - 1); }
  }

  ghost predicate IsLeast(m: real, x: seq<real>, r: nat, b: nat) {
    && (forall y :: 0 <= y < |x| && Block(y, r, |x|) == b ==> m <= x[y])
    && exists y :: 0 <= y < |x| && Block(y, r, |x|) == b && x[y] == m
  }

  ghost predicate IsGreatest(m: real, x: seq<real>, r: nat, b: nat) {
    && (forall y :: 0 <= y < |x| && Block(y, r, |x|) == b ==> m >= x[y])
    && exists y :: 0 <= y < |x| && Block(y, r, |x|) == b && x[y] == m
  }

  /** The other two methods start from 0: they give the least or greatest element
      of a block exactly when it has one on the right side of 0. */
  lemma MinIsRightIff(x: seq<real>, r: nat, b: nat)
    requires b < r < |x|
    ensures IsLeast(Cell(Min, x, r, b), x, r, b) <==> exists y :: 0 <= y < |x| && Block(y, r, |x|) == b && x[y] <= 0.0
  {
    MinFacts(x, r, b, |x|);
  }

  lemma MaxIsRightIff(x: seq<real>, r: nat, b: nat)
    requires b < r < |x|
    ensures IsGreatest(Cell(Max, x, r, b), x, r, b) <==>
              exists y :: 0 <= y < |x| && Block(y, r, |x|) == b && x[y] >= 0.0
  {
    MaxFacts(x, r, b, |x|);
  }

  /** A block of ones has 0 for its least element. */
  lemma MinOfOnes()
    ensures Cell(Min, [1.0, 1.0], 1, 0) == 0.0 && !IsLeast(0.0, [1.0, 1.0], 1, 0)
  {
    var x := [1.0, 1.0];
    assert BlockMin(x, 1, 0, 0) == 0.0 && BlockMin(x, 1, 0, 1) == 0.0 && BlockMin(x, 1, 0, 2) == 0.0;
  }

  /** Once all rows are in, a reduced cell is the mean over its block of rows. */
  lemma BatchIsMean(how: Method, src: seq<seq<real>>, rx: nat, ry: nat, b: nat, i: nat)
    requires b < ry <= |src| && i < rx && forall y :: 0 <= y < |src| ==> rx <= |src[y]|
    ensures BlockCount(|src|, ry, b, |src|) >= 1
    ensures Batch(how, src, rx, ry, |src|, b, i) ==
            RowsSum(how, src, rx, ry, |src|, b, i, |src|) / BlockCount(|src|, ry, b, |src|) as real
    ensures IsMeanOf(Batch(how, src, rx, ry, |src|, b, i), Column(how, src, rx, i), b, ry)
  {
    RowsSumIsOfColumn(how, src, rx, ry, b, i, |src|);
    BlockIsSlice(Column(how, src, rx, i), ry, b, |src|);
    if ry == |src| {
      CountOneByOne(ry, b, ry);
    } else {
      LastBlock(ry, |src|);
      BlockIsHit(|src|, ry, b, |src|);
    }
  }

  lemma {:induction false} CountOneByOne(s: nat, b: nat, n: nat)
    requires b < s && n <= s
    ensures BlockCount(s, s, b, n) == if b < n then 1 else 0
  {
    if n > 0 {
      CountOneByOne(s, b, n - 1);
      SameSize(n - 1, s);
    }
  }

  /** A sum over the rows of block `b` does not change once a later block has begun. */
  lemma {:induction false} RowsSumLasts(how: Method, src: seq<seq<real>>, x: seq<real>, rx: nat, ry: nat, sy: nat,
                                        b: nat, i: nat, n: nat)
    requires n <= |src| < sy && i < rx && forall y :: 0 <= y < |src| + 1 ==> rx <= |(src + [x])[y]|
    ensures forall y :: 0 <= y < |src| ==> rx <= |src[y]|
    ensures RowsSum(how, src + [x], rx, ry, sy, b, i, n) == RowsSum(how, src, rx, ry, sy, b, i, n)
  {
    assert forall y :: 0 <= y < |src| ==> src[y] == (src + [x])[y];
    if n > 0 {
      RowsSumLasts(how, src, x, rx, ry, sy, b, i, n - 1);
      assert (src + [x])[n - 1] == src[n - 1];
    }
  }

  /** `row` holds the sums over block `b` of the rows so far. */
  ghost predicate IsSum(row: seq<real>, how: Method, src: seq<seq<real>>, rx: nat, ry: nat, sy: nat, b: nat)
    requires |src| <= sy && forall y :: 0 <= y < |src| ==> rx <= |src[y]|
  {
    |row| == rx && forall i :: 0 <= i < rx ==> row[i] == RowsSum(how, src, rx, ry, sy, b, i, |src|)
  }

  /** `row` holds what the batch definition says of block `b`. */
  ghost predicate IsBatch(row: seq<real>, how: Method, src: seq<seq<real>>, rx: nat, ry: nat, sy: nat, b: nat)
    requires |src| <= sy && forall y :: 0 <= y < |src| ==> rx <= |src[y]|
  {
    |row| == rx && forall i :: 0 <= i < rx ==> row[i] == Batch(how, src, rx, ry, sy, b, i)
  }

  /** Where row `b` of `rx` columns begins. */
  function RowStart(b: nat, rx: nat): nat {
    if b == 0 then 0 else RowStart(b - 1, rx) + rx
  }

  lemma {:induction false} RowStartIs(b: nat, rx: nat)
    ensures RowStart(b, rx) == b * rx
  {
    if b > 0 {
      RowStartIs(b - 1, rx);
      assert b * rx == (b - 1) * rx + rx;
    }
  }

  function RowOf(d: seq<real>, rx: nat, b: nat): seq<real> {
    if RowStart(b, rx) + rx <= |d| then d[RowStart(b, rx)..RowStart(b, rx) + rx] else []
  }

  /** The first `n` rows are what the batch definition says. */
  ghost predicate AreBatch(d: seq<real>, how: Method, src: seq<seq<real>>, rx: nat, ry: nat, sy: nat, n: nat)
    requires |src| <= sy && forall y :: 0 <= y < |src| ==> rx <= |src[y]|
  {
    forall b: nat :: b < n ==> IsBatch(RowOf(d, rx, b), how, src, rx, ry, sy, b)
  }

  /** `row` holds one reduced source row. */
  ghost predicate IsReduced(row: seq<real>, how: Method, x: seq<real>, rx: nat)
    requires rx <= |x|
  {
    |row| == rx && forall i :: 0 <= i < rx ==> row[i] == Cell(how, x, rx, i)
  }

  /** A new source row in a later block leaves a finished row what it should be. */
  lemma FinishedLasts(row: seq<real>, how: Method, src: seq<seq<real>>, x: seq<real>, rx: nat, ry: nat, sy: nat, b: nat)
    requires |src| < sy && b != Block(|src|, ry, sy) && forall y :: 0 <= y < |src| + 1 ==> rx <= |(src + [x])[y]|
    requires forall y :: 0 <= y < |src| ==> rx <= |src[y]|
    requires IsBatch(row, how, src, rx, ry, sy, b)
    ensures IsBatch(row, how, src + [x], rx, ry, sy, b)
  {
    forall i: nat | i < rx
      ensures row[i] == Batch(how, src + [x], rx, ry, sy, b, i)
    {
      RowsSumLasts(how, src, x, rx, ry, sy, b, i, |src|);
    }
  }

  /** Adding a reduced source row to the sums of its block. */
  lemma SumGrows(row: seq<real>, next: seq<real>, cells: seq<real>, how: Method, src: seq<seq<real>>, x: seq<real>,
                 rx: nat, ry: nat, sy: nat, b: nat)
    requires |src| < sy && b == Block(|src|, ry, sy) && forall y :: 0 <= y < |src| + 1 ==> rx <= |(src + [x])[y]|
    requires forall y :: 0 <= y < |src| ==> rx <= |src[y]|
    requires rx <= |x| && IsReduced(cells, how, x, rx) && IsSum(row, how, src, rx, ry, sy, b)
    requires |next| == rx && forall i :: 0 <= i < rx ==> next[i] == row[i] + cells[i]
    ensures IsSum(next, how, src + [x], rx, ry, sy, b)
  {
    forall i: nat | i < rx
      ensures next[i] == RowsSum(how, src + [x], rx, ry, sy, b, i, |src| + 1)
    {
      RowsSumLasts(how, src, x, rx, ry, sy, b, i, |src|);
      assert (src + [x])[|src|] == x;
    }
  }

  /** The first source row of a block. */
  lemma {:induction false} NothingYet(how: Method, src: seq<seq<real>>, rx: nat, ry: nat, sy: nat, b: nat, i: nat,
                                      n: nat)
    requires 0 < ry < sy && n <= |src| <= sy && i < rx && forall y :: 0 <= y < |src| ==> rx <= |src[y]|
    requires n > 0 ==> Block(n - 1, ry, sy) < b
    ensures RowsSum(how, src, rx, ry, sy, b, i, n) == 0.0 && BlockCount(sy, ry, b, n) == 0
  {
    if n > 0 {
      if n > 1 { NextBlock(n - 2, ry, sy); }
      NothingYet(how, src, rx, ry, sy, b, i, n - 1);
    }
  }

  lemma {:induction false} NoneYet(s: nat, r: nat, b: nat, n: nat)
    requires 0 < r < s && n <= s
    requires n > 0 ==> Block(n - 1, r, s) < b
    ensures BlockCount(s, r, b, n) == 0
  {
    if n > 0 {
      if n > 1 { NextBlock(n - 2, r, s); }
      NoneYet(s, r, b, n - 1);
    }
  }

  lemma ZeroRow(row: seq<real>, how: Method, src: seq<seq<real>>, rx: nat, ry: nat, sy: nat, b: nat)
    requires 0 < ry < sy && |src| <= sy && forall y :: 0 <= y < |src| ==> rx <= |src[y]|
    requires |src| > 0 ==> Block(|src| - 1, ry, sy) < b
    requires |row| == rx && forall i :: 0 <= i < rx ==> row[i] == 0.0
    ensures IsSum(row, how, src, rx, ry, sy, b)
  {
    forall i: nat | i < rx
      ensures row[i] == RowsSum(how, src, rx, ry, sy, b, i, |src|)
    {
      NothingYet(how, src, rx, ry, sy, b, i, |src|);
    }
  }

  /** Dividing the sums by the number of source rows finishes a row. */
  lemma SumFinishes(row: seq<real>, next: seq<real>, how: Method, src: seq<seq<real>>, rx: nat, ry: nat, sy: nat,
                    b: nat)
    requires |src| <= sy && forall y :: 0 <= y < |src| ==> rx <= |src[y]|
    requires IsSum(row, how, src, rx, ry, sy, b)
    requires var n := BlockCount(sy, ry, b, |src|);
             |next| == rx && forall i :: 0 <= i < rx ==> next[i] == if n > 1 then row[i] / n as real else row[i]
    ensures IsBatch(next, how, src, rx, ry, sy, b)
  {
  }

  /** With nothing to reduce in y, a source row is a finished row. */
  lemma RowAsItIs(row: seq<real>, how: Method, src: seq<seq<real>>, x: seq<real>, rx: nat, sy: nat)
    requires |src| < sy && forall y :: 0 <= y < |src| + 1 ==> rx <= |(src + [x])[y]|
    requires rx <= |x| && IsReduced(row, how, x, rx)
    ensures IsBatch(row, how, src + [x], rx, sy, sy, |src|)
  {
    SameSize(|src|, sy);
    assert (src + [x])[|src|] == x;
    forall i: nat | i < rx
      ensures row[i] == Batch(how, src + [x], rx, sy, sy, |src|, i)
    {
      NoRowsBefore(how, src + [x], rx, sy, |src|, i, |src|);
    }
  }

  lemma {:induction false} NoRowsBefore(how: Method, src: seq<seq<real>>, rx: nat, sy: nat, b: nat, i: nat, n: nat)
    requires n <= |src| <= sy && n <= b < sy && i < rx && forall y :: 0 <= y < |src| ==> rx <= |src[y]|
    ensures RowsSum(how, src, rx, sy, sy, b, i, n) == 0.0 && BlockCount(sy, sy, b, n) == 0
  {
    if n > 0 {
      NoRowsBefore(how, src, rx, sy, b, i, n - 1);
      SameSize(n - 1, sy);
    }
  }

  /** Rows do not overlap, and lie within `rows` rows. */
  lemma {:induction false} RowsApart(b: nat, c: nat, rows: nat, width: nat)
    requires b < c <= rows
    ensures RowStart(b, width) + width <= RowStart(c, width) <= RowStart(rows, width)
    decreases rows
  {
    if c < rows {
      RowsApart(b, c, rows - 1, width);
    } else if b + 1 < c {
      RowsApart(b, c - 1, c - 1, width);
    }
  }

  /** Writing to row `c` leaves the rows before it. */
  lemma EarlierRowsKept(d: seq<real>, e: seq<real>, rx: nat, c: nat, b: nat)
    requires b < c && |d| == |e| && forall k :: 0 <= k < |d| && k < RowStart(c, rx) ==> d[k] == e[k]
    ensures RowOf(d, rx, b) == RowOf(e, rx, b)
  {
    RowsApart(b, c, c, rx);
  }

  lemma BatchKept(d: seq<real>, e: seq<real>, how: Method, src: seq<seq<real>>, rx: nat, ry: nat, sy: nat, n: nat)
    requires |src| <= sy && forall y :: 0 <= y < |src| ==> rx <= |src[y]|
    requires |d| == |e| && forall k :: 0 <= k < |d| && k < RowStart(n, rx) ==> d[k] == e[k]
    requires AreBatch(d, how, src, rx, ry, sy, n)
    ensures AreBatch(e, how, src, rx, ry, sy, n)
  {
    forall b: nat | b < n
      ensures IsBatch(RowOf(e, rx, b), how, src, rx, ry, sy, b)
    {
      EarlierRowsKept(d, e, rx, n, b);
    }
  }

  /** A new source row in a later block leaves the finished rows what they should be. */
  lemma BatchLasts(d: seq<real>, how: Method, src: seq<seq<real>>, x: seq<real>, rx: nat, ry: nat, sy: nat, n: nat)
    requires |src| < sy && n <= Block(|src|, ry, sy) && forall y :: 0 <= y < |src| + 1 ==> rx <= |(src + [x])[y]|
    requires forall y :: 0 <= y < |src| ==> rx <= |src[y]|
    requires AreBatch(d, how, src, rx, ry, sy, n)
    ensures AreBatch(d, how, src + [x], rx, ry, sy, n)
  {
    forall b: nat | b < n
      ensures IsBatch(RowOf(d, rx, b), how, src + [x], rx, ry, sy, b)
    {
      FinishedLasts(RowOf(d, rx, b), how, src, x, rx, ry, sy, b);
    }
  }

  /** `lo` and `hi` bound the cells of `d`, and are among them or what they started from. */
  ghost predicate AreExtremes(d: seq<real>, lo: real, hi: real) {
    && (forall k :: 0 <= k < |d| ==> lo <= d[k] <= hi) && 0.0 <= hi && lo <= FIRST_MIN
    && (hi == 0.0 || hi in d) && (lo == FIRST_MIN || lo in d)
  }

  lemma NextExtreme(d: seq<real>, lo: real, hi: real, x: real)
    requires AreExtremes(d, lo, hi)
    ensures AreExtremes(d + [x], if x < lo then x else lo, if x > hi then x else hi)
  {
    assert (d + [x])[|d|] == x;
    assert forall y :: y in d ==> y in d + [x];
  }

  // ---- the reduced array ------------------------------------------------

  class ReducedArray {
    const rdata: array<real>
    const ftemp: array<real>
    const itemp: array<int>
    const reduceMethod: Method
    var sdimx: nat
    var sdimy: nat
    var rdimx: nat
    var rdimy: nat
    var scury: nat
    var lastRy: nat
    var lastRyCount: nat
    var nvalidRows: nat
    var rdataMax: real
    var rdataMin: real
    /** The source rows that have come in. */
    ghost var src: seq<seq<real>>

    constructor (how: Method)
      ensures reduceMethod == how && fresh(rdata) && fresh(ftemp) && fresh(itemp) && Buffers()
    {
      reduceMethod := how;
      rdata, ftemp, itemp := new real[MAX_DATA], new real[MAX_DIMX], new int[MAX_DIMX];
    }

    ghost predicate Buffers() {
      rdata.Length == MAX_DATA && ftemp.Length == itemp.Length == MAX_DIMX && rdata != ftemp
    }

    /** Dimensions as `init_data` leaves them. */
    ghost predicate Dims()
      reads this
    {
      && Buffers() && rdimx <= 256 && rdimy <= 128 && rdimx <= sdimx && rdimy <= sdimy
      && (rdimx == 0 ==> sdimx == 0) && (rdimy == 0 ==> sdimy == 0)
    }

    /** Every row of the reduced array lies within its buffer. */
    lemma RowFits(b: nat)
      requires Dims() && b < rdimy
      ensures RowStart(b, rdimx) + rdimx <= RowStart(rdimy, rdimx) <= rdata.Length
    {
      RowsApart(b, b + 1, rdimy, rdimx);
      RowStartIs(rdimy, rdimx);
      Times(rdimy, 128, rdimx);
    }

    ghost function Row(b: nat): seq<real>
      reads this`rdimx, rdata
    {
      RowOf(rdata[..], rdimx, b)
    }

    method Rrow(j: nat) returns (p: nat)
      ensures p == RowStart(j, rdimx)
    {
      RowStartIs(j, rdimx);
      p := j * rdimx;
    }

    ghost predicate RowsOk(rows: seq<seq<real>>)
      reads this`sdimx, this`sdimy
    {
      |rows| <= sdimy && forall y :: 0 <= y < |rows| ==> |rows[y]| == sdimx
    }

    /** The row counters say how many source rows fell into the row under way. */
    ghost predicate Counters()
      reads this
    {
      && scury <= sdimy
      && if rdimy == sdimy then
           lastRy == lastRyCount == 0 && nvalidRows == scury
         else if scury == 0 then
           lastRy == lastRyCount == nvalidRows == 0
         else
           && lastRy == Block(scury - 1, rdimy, sdimy)
           && lastRyCount == BlockCount(sdimy, rdimy, lastRy, scury)
           && nvalidRows == if scury == sdimy then rdimy else lastRy
    }

    /** The first `n` rows are finished, and the extremes are theirs. */
    ghost predicate Done(rows: seq<seq<real>>, n: nat)
      reads this`sdimx, this`sdimy, this`rdimx, this`rdimy, this`rdataMax, this`rdataMin, rdata
    {
      && RowsOk(rows) && rdimx <= sdimx && RowStart(n, rdimx) <= rdata.Length
      && AreBatch(rdata[..], reduceMethod, rows, rdimx, rdimy, sdimy, n)
      && AreExtremes(rdata[..RowStart(n, rdimx)], rdataMin, rdataMax)
    }

    /** Row `b` holds sums over the rows so far. */
    ghost predicate Summed(rows: seq<seq<real>>, b: nat)
      reads this`sdimx, this`sdimy, this`rdimx, this`rdimy, rdata
    {
      RowsOk(rows) && rdimx <= sdimx && IsSum(Row(b), reduceMethod, rows, rdimx, rdimy, sdimy, b)
    }

    ghost predicate Valid()
      reads this, rdata
    {
      && Dims() && |src| == scury && Counters() && nvalidRows <= rdimy && Done(src, nvalidRows)
      && (0 < scury < sdimy && rdimy < sdimy ==> lastRy < rdimy && Summed(src, lastRy))
    }

    /** The array is full exactly when all source rows are in. */
    lemma FullWhenAllIn()
      requires Valid()
      ensures Full() <==> scury == sdimy
    {
      if rdimy < sdimy && 0 < scury < sdimy {
        BlockBelow(scury - 1, rdimy, sdimy);
      }
    }

    /** Each cell of row `b` is the mean, over a block of rows, of a reduced column. */
    ghost predicate IsMeans(rows: seq<seq<real>>, b: nat)
      requires b < rdimy && forall y :: 0 <= y < |rows| ==> rdimx <= |rows[y]|
      reads this, rdata
    {
      |Row(b)| == rdimx &&
      forall i: nat :: i < rdimx ==> IsMeanOf(Row(b)[i], Column(reduceMethod, rows, rdimx, i), b, rdimy)
    }

    lemma Sizes()
      requires Valid()
      ensures Dims()
    {
    }

    lemma AllIn()
      requires Valid() && scury == sdimy
      ensures Full()
      ensures forall b: nat :: b < rdimy ==> IsBatch(Row(b), reduceMethod, src, rdimx, rdimy, sdimy, b)
    {
      FullWhenAllIn();
    }

    predicate Full()
      reads this
    {
      nvalidRows == rdimy
    }

    /** Both dimensions are halved until the array fits, however big it is. */
    method HalveDims()
      modifies this`rdimx, this`rdimy
      ensures rdimx * rdimy <= MAX_DATA && rdimx <= old(rdimx) && rdimy <= old(rdimy)
      ensures old(rdimx * rdimy) <= MAX_DATA ==> rdimx == old(rdimx) && rdimy == old(rdimy)
      ensures old(rdimx) > 0 ==> rdimx > 0
      ensures old(rdimy) > 0 ==> rdimy > 0
    {
      while rdimx * rdimy > MAX_DATA
        invariant rdimx <= old(rdimx) && rdimy <= old(rdimy)
        invariant old(rdimx * rdimy) <= MAX_DATA ==> rdimx == old(rdimx) && rdimy == old(rdimy)
        invariant (old(rdimx) > 0 ==> rdimx > 0) && (old(rdimy) > 0 ==> rdimy > 0)
        decreases rdimx + rdimy
      {
        if rdimx > 1 { rdimx := rdimx / 2; }
        if rdimy > 1 { rdimy := rdimy / 2; }
      }
    }

    /** The halving never happens: the first two limits already keep the reduced
        array within its buffer. */
    method InitData(sx: nat, sy: nat)
      requires Buffers()
      modifies this
      ensures Valid() && src == [] && sdimx == sx && sdimy == sy && scury == 0
      ensures rdimx == (if sx > 256 then 256 else sx) && rdimy == (if sy > 128 then 128 else sy)
    {
      sdimx, sdimy, rdimx, rdimy := sx, sy, sx, sy;
      if rdimx > 256 { rdimx := 256; }
      if rdimy > 128 { rdimy := 128; }
      assert rdimx * rdimy <= MAX_DATA by { Times(rdimx, 256, rdimy); }
      HalveDims();
      nvalidRows, scury, lastRy, lastRyCount := 0, 0, 0, 0;
      rdataMax, rdataMin := 0.0, FIRST_MIN;
      src := [];
      NothingFinished();
    }

    lemma NothingFinished()
      requires Dims() && src == [] && Counters() && nvalidRows == scury == 0
      requires rdataMax == 0.0 && rdataMin == FIRST_MIN
      ensures Valid()
    {
    }

    // ---- one row --------------------------------------------------------

    /** Nothing but the `rdimx` cells from `base` on is touched. */
    ghost predicate SameOutside(a: array<real>, was: seq<real>, base: nat)
      reads this`rdimx, a
    {
      |was| == a.Length && forall k :: 0 <= k < a.Length && (k < base || base + rdimx <= k) ==> a[k] == was[k]
    }

    method ClearRow(a: array<real>, base: nat)
      requires base + rdimx <= a.Length
      modifies a
      ensures forall k :: base <= k < base + rdimx ==> a[k] == 0.0
      ensures SameOutside(a, old(a[..]), base)
    {
      ghost var was := a[..];
      for i := 0 to rdimx
        invariant forall k :: base <= k < base + i ==> a[k] == 0.0
        invariant SameOutside(a, was, base)
      {
        a[base + i] := 0.0;
      }
    }

    /** What the first `n` elements of a source row add up to in column `b`. */
    function Folded(x: seq<real>, b: nat, n: nat): real
      requires n <= |x|
      reads this
    {
      match reduceMethod
      case Avg => BlockSum(x, rdimx, b, n)
      case Sum => BlockSum(x, rdimx, b, n)
      case Min => BlockMin(x, rdimx, b, n)
      case Max => BlockMax(x, rdimx, b, n)
    }

    ghost predicate Folding(x: seq<real>, out: array<real>, base: nat, n: nat)
      requires n <= |x| && Buffers() && rdimx <= MAX_DIMX && base + rdimx <= out.Length
      reads this, out, itemp
    {
      && (forall k :: base <= k < base + rdimx ==> out[k] == Folded(x, k - base, n))
      && (reduceMethod.Avg? ==> forall b :: 0 <= b < rdimx ==> itemp[b] == BlockCount(|x|, rdimx, b, n))
    }

    method FoldColumn(x: seq<real>, out: array<real>, base: nat, i: nat)
      requires Dims() && 0 < rdimx < sdimx == |x| && i < sdimx && base + rdimx <= out.Length
      requires Folding(x, out, base, i)
      modifies out, itemp
      ensures Folding(x, out, base, i + 1) && SameOutside(out, old(out[..]), base)
    {
      BlockBelow(i, rdimx, sdimx);
      var ri := Block(i, rdimx, sdimx);
      match reduceMethod {
        case Avg =>
          out[base + ri] := out[base + ri] + x[i];
          itemp[ri] := itemp[ri] + 1;
        case Sum => out[base + ri] := out[base + ri] + x[i];
        case Min => if x[i] < out[base + ri] { out[base + ri] := x[i]; }
        case Max => if out[base + ri] < x[i] { out[base + ri] := x[i]; }
      }
    }

    method ClearCounts()
      requires Dims()
      modifies itemp
      ensures forall b :: 0 <= b < rdimx ==> itemp[b] == 0
    {
      for i := 0 to rdimx
        invariant forall b :: 0 <= b < i ==> itemp[b] == 0
      {
        itemp[i] := 0;
      }
    }

    method DivideByCounts(x: seq<real>, out: array<real>, base: nat)
      requires Dims() && 0 < rdimx < sdimx == |x| && base + rdimx <= out.Length
      requires reduceMethod.Avg? && Folding(x, out, base, sdimx)
      modifies out
      ensures forall k :: base <= k < base + rdimx ==> out[k] == Cell(reduceMethod, x, rdimx, k - base)
      ensures SameOutside(out, old(out[..]), base)
    {
      ghost var was := out[..];
      for i := 0 to rdimx
        invariant forall k :: base <= k < base + i ==> out[k] == Cell(reduceMethod, x, rdimx, k - base)
        invariant forall k :: base + i <= k < base + rdimx ==> out[k] == BlockSum(x, rdimx, k - base, sdimx)
        invariant SameOutside(out, was, base)
      {
        if itemp[i] > 1 {
          out[base + i] := out[base + i] / itemp[i] as real;
        }
      }
    }

    method ReduceSourceRow(x: seq<real>, out: array<real>, base: nat)
      requires Dims() && 0 < rdimx < sdimx == |x| && base + rdimx <= out.Length
      modifies out, itemp
      ensures IsReduced(out[base..base + rdimx], reduceMethod, x, rdimx)
      ensures SameOutside(out, old(out[..]), base)
    {
      ghost var was := out[..];
      ClearRow(out, base);
      ClearCounts();
      for i := 0 to sdimx
        invariant Folding(x, out, base, i) && SameOutside(out, was, base)
      {
        FoldColumn(x, out, base, i);
      }
      if reduceMethod == Avg {
        DivideByCounts(x, out, base);
      }
      assert forall k :: base <= k < base + rdimx ==> out[k] == Cell(reduceMethod, x, rdimx, k - base);
    }

    /** The extremes take in one more row. */
    method UpdateMax(row: nat)
      requires Dims() && row < rdimy && RowStart(row, rdimx) + rdimx <= rdata.Length
      requires AreExtremes(rdata[..RowStart(row, rdimx)], rdataMin, rdataMax)
      modifies this`rdataMax, this`rdataMin
      ensures AreExtremes(rdata[..RowStart(row, rdimx) + rdimx], rdataMin, rdataMax)
    {
      var p := Rrow(row);
      for i := 0 to rdimx
        invariant AreExtremes(rdata[..p + i], rdataMin, rdataMax)
      {
        NextExtreme(rdata[..p + i], rdataMin, rdataMax, rdata[p + i]);
        assert rdata[..p + i + 1] == rdata[..p + i] + [rdata[p + i]];
        if rdata[p + i] > rdataMax { rdataMax := rdata[p + i]; }
        if rdata[p + i] < rdataMin { rdataMin := rdata[p + i]; }
      }
    }

    method CopyRow(base: nat, x: seq<real>)
      requires Dims() && rdimx == |x| && base + rdimx <= rdata.Length
      modifies rdata
      ensures rdata[base..base + rdimx] == x && SameOutside(rdata, old(rdata[..]), base)
    {
      ghost var was := rdata[..];
      for i := 0 to rdimx
        invariant forall k :: base <= k < base + i ==> rdata[k] == x[k - base]
        invariant SameOutside(rdata, was, base)
      {
        rdata[base + i] := x[i];
      }
    }

    method DivideRow(base: nat, n: nat)
      requires base + rdimx <= rdata.Length
      modifies rdata
      ensures forall k ::
                base <= k < base + rdimx ==> rdata[k] == if n > 1 then old(rdata[k]) / n as real else old(rdata[k])
      ensures SameOutside(rdata, old(rdata[..]), base)
    {
      ghost var was := rdata[..];
      if n > 1 {
        for i := 0 to rdimx
          invariant forall k :: base <= k < base + i ==> rdata[k] == was[k] / n as real
          invariant forall k :: base + i <= k < base + rdimx ==> rdata[k] == was[k]
          invariant SameOutside(rdata, was, base)
        {
          rdata[base + i] := rdata[base + i] / n as real;
        }
      }
    }

    method AddRow(base: nat, cells: seq<real>)
      requires base + rdimx <= rdata.Length && |cells| == rdimx
      modifies rdata
      ensures forall k :: base <= k < base + rdimx ==> rdata[k] == old(rdata[k]) + cells[k - base]
      ensures SameOutside(rdata, old(rdata[..]), base)
    {
      ghost var was := rdata[..];
      for i := 0 to rdimx
        invariant forall k :: base <= k < base + i ==> rdata[k] == was[k] + cells[k - base]
        invariant forall k :: base + i <= k < base + rdimx ==> rdata[k] == was[k]
        invariant SameOutside(rdata, was, base)
      {
        rdata[base + i] := rdata[base + i] + cells[i];
      }
    }

    /** After a write to row `n`, the first `n` rows are still finished. */
    lemma StillDone(was: seq<real>, rows: seq<seq<real>>, n: nat)
      requires RowsOk(rows) && rdimx <= sdimx && |was| == rdata.Length && RowStart(n, rdimx) <= |was|
      requires AreBatch(was, reduceMethod, rows, rdimx, rdimy, sdimy, n)
               && AreExtremes(was[..RowStart(n, rdimx)], rdataMin, rdataMax)
      requires SameOutside(rdata, was, RowStart(n, rdimx))
      ensures Done(rows, n)
    {
      BatchKept(was, rdata[..], reduceMethod, rows, rdimx, rdimy, sdimy, n);
      assert rdata[..RowStart(n, rdimx)] == was[..RowStart(n, rdimx)];
    }

    lemma DoneParts(rows: seq<seq<real>>, n: nat)
      requires Done(rows, n)
      ensures RowsOk(rows) && rdimx <= sdimx && RowStart(n, rdimx) <= rdata.Length
      ensures AreBatch(rdata[..], reduceMethod, rows, rdimx, rdimy, sdimy, n)
      ensures AreExtremes(rdata[..RowStart(n, rdimx)], rdataMin, rdataMax)
    {
    }

    lemma OneMoreDone(rows: seq<seq<real>>, n: nat)
      requires RowsOk(rows) && rdimx <= sdimx && RowStart(n, rdimx) + rdimx <= rdata.Length
      requires AreBatch(rdata[..], reduceMethod, rows, rdimx, rdimy, sdimy, n)
      requires IsBatch(Row(n), reduceMethod, rows, rdimx, rdimy, sdimy, n)
      requires AreExtremes(rdata[..RowStart(n, rdimx) + rdimx], rdataMin, rdataMax)
      ensures Done(rows, n + 1)
    {
    }

    /** Turns the sums of the row under way into means. */
    method DivideLastRow(ghost rows: seq<seq<real>>)
      requires Dims() && lastRy < rdimy && Done(rows, lastRy) && Summed(rows, lastRy)
      requires lastRyCount == BlockCount(sdimy, rdimy, lastRy, |rows|)
      modifies rdata
      ensures Done(rows, lastRy) && IsBatch(Row(lastRy), reduceMethod, rows, rdimx, rdimy, sdimy, lastRy)
    {
      RowFits(lastRy);
      var p := Rrow(lastRy);
      ghost var was, sums := rdata[..], Row(lastRy);
      DivideRow(p, lastRyCount);
      StillDone(was, rows, lastRy);
      SumFinishes(sums, Row(lastRy), reduceMethod, rows, rdimx, rdimy, sdimy, lastRy);
    }

    /** Finishes the row under way. */
    method FinishRow(ghost rows: seq<seq<real>>)
      requires Dims() && nvalidRows == lastRy < rdimy && Done(rows, lastRy) && Summed(rows, lastRy)
      requires lastRyCount == BlockCount(sdimy, rdimy, lastRy, |rows|)
      modifies this`nvalidRows, this`rdataMax, this`rdataMin, rdata
      ensures nvalidRows == lastRy + 1 && Done(rows, nvalidRows)
    {
      hide *;
      RowFits(lastRy);
      DivideLastRow(rows);
      DoneParts(rows, lastRy);
      UpdateMax(lastRy);
      OneMoreDone(rows, lastRy);
      nvalidRows := nvalidRows + 1;
    }

    /** Before the source row goes in: the row it falls into is under way. */
    ghost predicate Begun(ry: nat)
      reads this, rdata
    {
      && Dims() && rdimy < sdimy && |src| == scury < sdimy && ry == Block(scury, rdimy, sdimy) < rdimy
      && nvalidRows == lastRy == ry && lastRyCount == BlockCount(sdimy, rdimy, ry, scury)
      && Done(src, ry) && Summed(src, ry)
    }

    /** The first source row of a block finds zeroes. */
    method StartRow(ry: nat)
      requires Dims() && rdimy < sdimy && |src| == scury < sdimy && ry == Block(scury, rdimy, sdimy) < rdimy
      requires scury > 0 ==> Block(scury - 1, rdimy, sdimy) < ry
      requires Done(src, ry)
      modifies rdata
      ensures Done(src, ry) && Summed(src, ry) && BlockCount(sdimy, rdimy, ry, scury) == 0
    {
      RowFits(ry);
      ghost var was := rdata[..];
      var p := Rrow(ry);
      ClearRow(rdata, p);
      StillDone(was, src, ry);
      ZeroRow(Row(ry), reduceMethod, src, rdimx, rdimy, sdimy, ry);
      NoneYet(sdimy, rdimy, ry, scury);
    }

    /** Moves on to row `ry`, finishing the one before it. */
    method MoveTo(ry: nat)
      requires Valid() && rdimy < sdimy && scury < sdimy && ry == Block(scury, rdimy, sdimy)
      modifies this`nvalidRows, this`rdataMax, this`rdataMin, this`lastRy, this`lastRyCount, rdata
      ensures Begun(ry)
    {
      hide RowOf, RowStart, AreExtremes;
      BlockBelow(scury, rdimy, sdimy);
      LastBlock(rdimy, sdimy);
      if scury == 0 {
        StartRow(0);
      } else {
        NextBlock(scury - 1, rdimy, sdimy);
      }
      if ry > lastRy {
        FinishRow(src);
        StartRow(ry);
        lastRy := ry;
        lastRyCount := 0;
      }
    }

    /** Adds the source row, reduced in x, to the cells from `base` on. */
    method AddReduced(x: seq<real>, base: nat) returns (ghost cells: seq<real>)
      requires Dims() && |x| == sdimx && base + rdimx <= rdata.Length
      modifies rdata, ftemp, itemp
      ensures IsReduced(cells, reduceMethod, x, rdimx)
      ensures forall k :: base <= k < base + rdimx ==> rdata[k] == old(rdata[k]) + cells[k - base]
      ensures SameOutside(rdata, old(rdata[..]), base)
    {
      if rdimx == sdimx {
        cells := x;
        AddRow(base, x);
      } else {
        ReduceSourceRow(x, ftemp, 0);
        cells := ftemp[0..0 + rdimx];
        AddRow(base, ftemp[0..0 + rdimx]);
      }
    }

    /** Adds the source row to the row it falls into. */
    method TakeRow(x: seq<real>, ry: nat)
      requires Begun(ry) && |x| == sdimx
      modifies this`lastRyCount, rdata, ftemp, itemp
      ensures lastRyCount == BlockCount(sdimy, rdimy, ry, scury + 1)
      ensures Done(src + [x], ry) && Summed(src + [x], ry)
    {
      RowFits(ry);
      lastRyCount := lastRyCount + 1;
      var p := Rrow(ry);
      ghost var was, sums := rdata[..], Row(ry);
      ghost var cells := AddReduced(x, p);
      StillDone(was, src, ry);
      BatchLasts(rdata[..], reduceMethod, src, x, rdimx, rdimy, sdimy, ry);
      SumGrows(sums, Row(ry), cells, reduceMethod, src, x, rdimx, rdimy, sdimy, ry);
    }

    /** Writes a source row, reduced in x only, as a row of its own. */
    method WriteRow(x: seq<real>)
      requires Valid() && scury < rdimy && nvalidRows == scury && |x| == sdimx
      modifies rdata, itemp
      ensures Done(src, scury) && IsReduced(Row(scury), reduceMethod, x, rdimx)
    {
      RowFits(scury);
      var p := Rrow(scury);
      ghost var was := rdata[..];
      if rdimx == sdimx {
        CopyRow(p, x);
      } else {
        ReduceSourceRow(x, rdata, p);
      }
      StillDone(was, src, scury);
    }

    lemma AsItIs(x: seq<real>)
      requires rdimy == sdimy && |src| == scury < sdimy && rdimx <= sdimx == |x|
      requires Done(src, scury) && IsReduced(Row(scury), reduceMethod, x, rdimx)
      ensures RowsOk(src + [x]) && AreBatch(rdata[..], reduceMethod, src + [x], rdimx, rdimy, sdimy, scury)
      ensures IsBatch(Row(scury), reduceMethod, src + [x], rdimx, rdimy, sdimy, scury)
    {
      SameSize(scury, sdimy);
      BatchLasts(rdata[..], reduceMethod, src, x, rdimx, rdimy, sdimy, scury);
      RowAsItIs(Row(scury), reduceMethod, src, x, rdimx, sdimy);
    }

    /** With as many rows as the source, each is finished at once. */
    method PutRow(x: seq<real>)
      requires Valid() && rdimy == sdimy && scury < sdimy && |x| == sdimx
      modifies this`nvalidRows, this`rdataMax, this`rdataMin, rdata, itemp
      ensures nvalidRows == scury + 1 && Done(src + [x], nvalidRows)
    {
      hide RowStart, RowOf, Done, AreBatch, IsBatch, AreExtremes, IsReduced;
      RowFits(scury);
      WriteRow(x);
      DoneParts(src, scury);
      AsItIs(x);
      UpdateMax(scury);
      OneMoreDone(src + [x], scury);
      nvalidRows := nvalidRows + 1;
    }

    /** Adds the source row to its row, and finishes that with the last one. */
    method SumRow(x: seq<real>)
      requires Valid() && rdimy < sdimy && scury < sdimy && |x| == sdimx
      modifies this`nvalidRows, this`rdataMax, this`rdataMin, this`lastRy, this`lastRyCount, rdata, ftemp, itemp
      ensures lastRy == Block(scury, rdimy, sdimy) < rdimy
      ensures lastRyCount == BlockCount(sdimy, rdimy, lastRy, scury + 1)
      ensures nvalidRows == (if scury == sdimy - 1 then rdimy else lastRy) && Done(src + [x], nvalidRows)
      ensures scury < sdimy - 1 ==> Summed(src + [x], lastRy)
    {
      hide Batch, RowsSum, RowOf, RowStart, Buffers;
      var ry := Block(scury, rdimy, sdimy);
      MoveTo(ry);
      TakeRow(x, ry);
      if scury == sdimy - 1 {
        LastBlock(rdimy, sdimy);
        FinishRow(src + [x]);
      }
    }

    /** One more source row. A call too many changes nothing. */
    method AddSourceRow(x: seq<real>)
      requires Valid() && |x| == sdimx
      modifies this`scury, this`src, this`nvalidRows, this`rdataMax, this`rdataMin, this`lastRy, this`lastRyCount,
               rdata, ftemp, itemp
      ensures Valid()
      ensures old(scury) < sdimy ==> src == old(src) + [x] && scury == old(scury) + 1
      ensures old(scury) >= sdimy ==>
                && src == old(src) && scury == old(scury) && nvalidRows == old(nvalidRows)
                && rdata[..] == old(rdata[..]) && rdataMax == old(rdataMax) && rdataMin == old(rdataMin)
    {
      hide RowsSum, RowOf, IsBatch, Buffers, RowsOk, RowStart;
      if scury >= sdimy {
        return;
      }
      if rdimy == sdimy {
        PutRow(x);
      } else {
        SumRow(x);
      }
      src := src + [x];
      scury := scury + 1;
    }
  }

  /** The cells of a row of the batch definition are the means over the blocks. */
  lemma CellsAreMeans(a: ReducedArray, rows: seq<seq<real>>, sx: nat, b: nat)
    requires a.Dims() && b < a.rdimy <= |rows| && a.rdimx <= sx && forall y :: 0 <= y < |rows| ==> |rows[y]| == sx
    requires IsBatch(a.Row(b), a.reduceMethod, rows, a.rdimx, a.rdimy, |rows|, b)
    ensures a.IsMeans(rows, b)
  {
    forall i: nat | i < a.rdimx
      ensures IsMeanOf(a.Row(b)[i], Column(a.reduceMethod, rows, a.rdimx, i), b, a.rdimy)
    {
      BatchIsMean(a.reduceMethod, rows, a.rdimx, a.rdimy, b, i);
    }
  }

  /** Streaming gives what the batch definition says, and the array is full when
      the last row is in: for averages and sums, each cell is the mean over its
      block of rows of the mean or sum over its block of columns. */
  method ReduceAll(a: ReducedArray, sx: nat, rows: seq<seq<real>>)
    requires a.Buffers() && forall y :: 0 <= y < |rows| ==> |rows[y]| == sx
    modifies a, a.rdata, a.ftemp, a.itemp
    ensures a.Valid() && a.Full() && a.src == rows
    ensures a.rdimx == (if sx > 256 then 256 else sx) && a.rdimy == (if |rows| > 128 then 128 else |rows|)
    ensures forall b: nat :: b < a.rdimy ==> IsBatch(a.Row(b), a.reduceMethod, rows, a.rdimx, a.rdimy, |rows|, b)
    ensures forall b: nat :: b < a.rdimy ==> a.IsMeans(rows, b)
  {
    hide *;
    a.InitData(sx, |rows|);
    for i := 0 to |rows|
      invariant a.Valid() && a.scury == i && a.src == rows[..i]
      invariant a.sdimx == sx && a.sdimy == |rows|
      invariant a.rdimx == (if sx > 256 then 256 else sx) && a.rdimy == (if |rows| > 128 then 128 else |rows|)
    {
      a.AddSourceRow(rows[i]);
      assert rows[..i + 1] == rows[..i] + [rows[i]];
    }
    assert rows[..|rows|] == rows;
    a.AllIn();
    a.Sizes();
    forall b: nat | b < a.rdimy
      ensures a.IsMeans(rows, b)
    {
      CellsAreMeans(a, rows, sx, b);
    }
  }
}
