/**
  Histogram binning of the time-energy simulation in
  src/generate_sinogram_timeenergy.py: the clamped bin index of a value
  (e2ind, phi2ind), the sparse (row, column, value) listing of a histogram
  (coordout), and the single-cell deposits of photoelectron pulses into the
  time-energy histograms.
 */
module Binning {
  import opened Wrappers

  /** Python's int() on a float: truncation toward zero. */
  function Trunc(x: real): (v: int)
    ensures x >= 0.0 ==> v as real <= x < v as real + 1.0
    ensures x < 0.0 ==> v as real - 1.0 < x <= v as real
  {
    if x >= 0.0 then x.Floor else -((-x).Floor)
  }

  /** A value range [lo, hi] cut into bins; lo == hi is allowed (Python then divides by zero). */
  datatype Range = Range(lo: real, hi: real)

  /** Where e falls on the bin scale of r with n bins: (e - lo) * n / (hi - lo). */
  function Scaled(e: real, r: Range, n: int): real
    requires r.hi != r.lo
  {
    (e - r.lo) * (n as real) / (r.hi - r.lo)
  }

  /**
    e2ind (and phi2ind, whose body is the same): the truncated bin position,
    clamped to 0 below 1 and to n - 1 above n - 1. None stands for the
    ZeroDivisionError raised when hi == lo.
   */
  function Bin(e: real, r: Range, n: int): (b: Option<int>)
    ensures b.None? <==> r.hi == r.lo
    ensures b.Some? && n >= 1 ==> 0 <= b.value < n
  {
    if r.hi == r.lo then None
    else
      var v := Trunc(Scaled(e, r, n));
      if v < 1 then Some(0)
      else if v > n - 1 then Some(n - 1)
      else Some(v)
  }

  /** k clamped into the bin indices 0 .. n-1. */
  function Clamp(k: int, n: int): int
  {
    if k < 0 then 0 else if k > n - 1 then n - 1 else k
  }

  /**
    Truncation and floor give the same bin: below 1 they both land in bin 0,
    so Bin is the floor of the scaled value clamped to 0 .. n-1.
   */
  lemma BinIsClampedFloor(e: real, r: Range, n: int)
    requires r.hi != r.lo && n >= 1
    ensures Bin(e, r, n) == Some(Clamp(Scaled(e, r, n).Floor, n))
  {
    var x := Scaled(e, r, n);
    var v := Trunc(x);
    if x >= 0.0 {
      assert v == x.Floor;
    } else {
      assert v <= 0 && x.Floor < 0;
    }
  }

  lemma FloorMonotone(x: real, y: real)
    requires x <= y
    ensures x.Floor <= y.Floor
  {
  }

  lemma ScaledMonotone(e1: real, e2: real, r: Range, n: int)
    requires r.lo < r.hi && n >= 1 && e1 <= e2
    ensures Scaled(e1, r, n) <= Scaled(e2, r, n)
  {
    var w := r.hi - r.lo;
    assert (e1 - r.lo) * (n as real) <= (e2 - r.lo) * (n as real);
    assert (e1 - r.lo) * (n as real) / w <= (e2 - r.lo) * (n as real) / w;
  }

  /** On an increasing range a larger value never gets a smaller bin. */
  lemma {:induction false} BinMonotone(e1: real, e2: real, r: Range, n: int)
    requires r.lo < r.hi && n >= 1 && e1 <= e2
    ensures Bin(e1, r, n).value <= Bin(e2, r, n).value
  {
    BinIsClampedFloor(e1, r, n);
    BinIsClampedFloor(e2, r, n);
    ScaledMonotone(e1, e2, r, n);
    FloorMonotone(Scaled(e1, r, n), Scaled(e2, r, n));
  }

  /**
    Every value inside the k-th of n equal slices of [lo, hi) lands in bin k:
    the binning inverts the bin edges lo + k * (hi - lo) / n.
   */
  lemma BinOfSlice(e: real, r: Range, n: int, k: int)
    requires r.lo < r.hi && 0 <= k < n
    requires r.lo + (k as real) * (r.hi - r.lo) / (n as real) <= e
    requires e < r.lo + (k as real + 1.0) * (r.hi - r.lo) / (n as real)
    ensures Bin(e, r, n) == Some(k)
  {
    ScaledInSlice(e, r, n, k);
    FloorOf(Scaled(e, r, n), k);
    BinIsClampedFloor(e, r, n);
  }

  lemma ScaledInSlice(e: real, r: Range, n: int, k: int)
    requires r.lo < r.hi && 0 <= k < n
    requires r.lo + (k as real) * (r.hi - r.lo) / (n as real) <= e
    requires e < r.lo + (k as real + 1.0) * (r.hi - r.lo) / (n as real)
    ensures k as real <= Scaled(e, r, n) < k as real + 1.0
  {
    var d, w, nr, kr := e - r.lo, r.hi - r.lo, n as real, k as real;
    SliceScale(d, w, nr, kr);
    assert kr <= d * nr / w < kr + 1.0;
    assert Scaled(e, r, n) == d * nr / w;
  }

  /** d in [k * w / n, (k + 1) * w / n) puts d * n / w in [k, k + 1). */
  lemma SliceScale(d: real, w: real, nr: real, k: real)
    requires w > 0.0 && nr > 0.0
    requires k * w / nr <= d < (k + 1.0) * w / nr
    ensures k <= d * nr / w < k + 1.0
  {
    var k1 := k + 1.0;
    MulLess(k * w / nr, d, nr);
    MulLess(d, k1 * w / nr, nr);
    DivMulCancel(k * w, nr);
    DivMulCancel(k1 * w, nr);
    DivLess(k * w, d * nr, w);
    DivLess(d * nr, k1 * w, w);
    MulDivCancel(k, w);
    MulDivCancel(k1, w);
  }

  lemma DivMulCancel(a: real, c: real)
    requires c != 0.0
    ensures a / c * c == a
  {
  }

  lemma MulDivCancel(a: real, c: real)
    requires c != 0.0
    ensures a * c / c == a
  {
  }

  lemma MulLess(a: real, b: real, c: real)
    requires c > 0.0
    ensures a <= b ==> a * c <= b * c
    ensures a < b ==> a * c < b * c
  {
  }

  lemma DivLess(a: real, b: real, c: real)
    requires c > 0.0
    ensures a <= b ==> a / c <= b / c
    ensures a < b ==> a / c < b / c
  {
  }

  lemma FloorOf(x: real, k: int)
    requires k as real <= x < k as real + 1.0
    ensures x.Floor == k
  {
  }

  /** One (row, column, value) line of coordout. */
  datatype Triple = Triple(row: nat, col: nat, value: int)

  /** a comes strictly before b in row-major order. */
  predicate Before(a: Triple, b: Triple)
  {
    a.row < b.row || (a.row == b.row && a.col < b.col)
  }

  /** The nonzero cells of row i from column j on, left to right. */
  function RowCoords(m: array2<int>, i: nat, j: nat): (r: seq<Triple>)
    requires i < m.Length0 && j <= m.Length1
    reads m
    ensures forall k :: 0 <= k < |r| ==>
      r[k].row == i && j <= r[k].col < m.Length1 && r[k].value == m[i, r[k].col] != 0
    ensures forall c :: j <= c < m.Length1 && m[i, c] != 0 ==> Triple(i, c, m[i, c]) in r
    ensures forall k, l :: 0 <= k < l < |r| ==> r[k].col < r[l].col
    decreases m.Length1 - j
  {
    if j == m.Length1 then []
    else (if m[i, j] != 0 then [Triple(i, j, m[i, j])] else []) + RowCoords(m, i, j + 1)
  }

  /** The nonzero cells of rows i and below, in row-major order. */
  function CoordsFrom(m: array2<int>, i: nat): (r: seq<Triple>)
    requires i <= m.Length0
    reads m
    ensures forall k :: 0 <= k < |r| ==>
      i <= r[k].row < m.Length0 && r[k].col < m.Length1 && r[k].value == m[r[k].row, r[k].col] != 0
    ensures forall a, c :: i <= a < m.Length0 && 0 <= c < m.Length1 && m[a, c] != 0 ==>
      Triple(a, c, m[a, c]) in r
    ensures forall k, l :: 0 <= k < l < |r| ==> Before(r[k], r[l])
    decreases m.Length0 - i
  {
    if i == m.Length0 then []
    else
      var head, rest := RowCoords(m, i, 0), CoordsFrom(m, i + 1);
      SortedConcat(head, rest, i);
      head + rest
  }

  /** A row's triples, then the triples of later rows, are still in row-major order. */
  lemma SortedConcat(head: seq<Triple>, rest: seq<Triple>, i: nat)
    requires forall k :: 0 <= k < |head| ==> head[k].row == i
    requires forall k, l :: 0 <= k < l < |head| ==> head[k].col < head[l].col
    requires forall k :: 0 <= k < |rest| ==> i < rest[k].row
    requires forall k, l :: 0 <= k < l < |rest| ==> Before(rest[k], rest[l])
    ensures forall k, l :: 0 <= k < l < |head + rest| ==> Before((head + rest)[k], (head + rest)[l])
  {
    var s := head + rest;
    forall k, l | 0 <= k < l < |s| ensures Before(s[k], s[l]) {
      if l < |head| {
        assert s[k] == head[k] && s[l] == head[l];
      } else if k < |head| {
        assert s[k] == head[k] && s[l] == rest[l - |head|];
      } else {
        assert s[k] == rest[k - |head|] && s[l] == rest[l - |head|];
      }
    }
  }

  /**
    coordout: one triple per nonzero cell of the histogram, holding that cell's
    value, each cell once, in numpy's row-major order.
   */
  function Coords(m: array2<int>): (r: seq<Triple>)
    reads m
    ensures forall k :: 0 <= k < |r| ==>
      r[k].row < m.Length0 && r[k].col < m.Length1 && r[k].value == m[r[k].row, r[k].col] != 0
    ensures forall a, c :: 0 <= a < m.Length0 && 0 <= c < m.Length1 && m[a, c] != 0 ==>
      Triple(a, c, m[a, c]) in r
    ensures forall k, l :: 0 <= k < l < |r| ==> Before(r[k], r[l])
  {
    CoordsFrom(m, 0)
  }

  /**
    The cell [e2ind(c, ...), phi2ind(p, ...)] of a histogram with ne energy rows
    and np phase columns. None where Python raises: a zero-width range, or an
    empty axis that no index fits.
   */
  function Cell(ne: int, np: int, er: Range, pr: Range, c: real, p: real): (r: Option<(int, int)>)
    ensures r.Some? <==> er.hi != er.lo && pr.hi != pr.lo && ne >= 1 && np >= 1
    ensures r.Some? ==> 0 <= r.value.0 < ne && 0 <= r.value.1 < np
  {
    match (Bin(c, er, ne), Bin(p, pr, np))
    case (Some(i), Some(j)) => if ne >= 1 && np >= 1 then Some((i, j)) else None
    case _ => None
  }

  /** timeenergy[cell] += amount; false, with nothing changed, where Python raises. */
  method Deposit(hist: array2<int>, er: Range, pr: Range, c: real, p: real, amount: int) returns (ok: bool)
    modifies hist
    ensures ok <==> Cell(hist.Length0, hist.Length1, er, pr, c, p).Some?
    ensures ok ==> forall i, j :: 0 <= i < hist.Length0 && 0 <= j < hist.Length1 ==>
      hist[i, j] == old(hist[i, j]) + (if Cell(hist.Length0, hist.Length1, er, pr, c, p) == Some((i, j)) then amount else 0)
    ensures !ok ==> unchanged(hist)
  {
    var cell := Cell(hist.Length0, hist.Length1, er, pr, c, p);
    if cell.None? {
      return false;
    }
    var (i, j) := cell.value;
    hist[i, j] := hist[i, j] + amount;
    return true;
  }

  /** A photoelectron pulse as its (center, width, delay) triple reads it: energy and phase. */
  datatype Hit = Hit(energy: real, phase: real)

  /**
    What the first k pulses deposit into cell (i, j): the sum of the scales of
    those pulses whose cell it is. With no negative scale, a cell holds at
    most the sum of all k scales.
   */
  function Landed(ne: int, np: int, er: Range, pr: Range, hits: seq<Hit>, scale: seq<int>, k: nat, i: int, j: int): (r: int)
    requires k <= |hits| == |scale|
    ensures (forall m :: 0 <= m < k ==> scale[m] >= 0) ==> 0 <= r <= Total(scale[..k])
  {
    if k == 0 then 0
    else
      assert scale[..k] == scale[..k - 1] + [scale[k - 1]];
      TotalSnoc(scale[..k - 1], scale[k - 1]);
      Landed(ne, np, er, pr, hits, scale, k - 1, i, j)
      + (if Cell(ne, np, er, pr, hits[k - 1].energy, hits[k - 1].phase) == Some((i, j)) then scale[k - 1] else 0)
  }

  /** A cell no pulse maps to receives nothing. */
  lemma {:induction false} LandedElsewhere(ne: int, np: int, er: Range, pr: Range, hits: seq<Hit>, scale: seq<int>, k: nat, i: int, j: int)
    requires k <= |hits| == |scale|
    requires forall m :: 0 <= m < k ==> Cell(ne, np, er, pr, hits[m].energy, hits[m].phase) != Some((i, j))
    ensures Landed(ne, np, er, pr, hits, scale, k, i, j) == 0
  {
    if k > 0 {
      LandedElsewhere(ne, np, er, pr, hits, scale, k - 1, i, j);
    }
  }

  /** When all pulses share one cell, that cell receives the sum of all scales. */
  lemma {:induction false} LandedTogether(ne: int, np: int, er: Range, pr: Range, hits: seq<Hit>, scale: seq<int>, k: nat, i: int, j: int)
    requires k <= |hits| == |scale|
    requires forall m :: 0 <= m < k ==> Cell(ne, np, er, pr, hits[m].energy, hits[m].phase) == Some((i, j))
    ensures Landed(ne, np, er, pr, hits, scale, k, i, j) == Total(scale[..k])
  {
    if k > 0 {
      LandedTogether(ne, np, er, pr, hits, scale, k - 1, i, j);
      assert scale[..k] == scale[..k - 1] + [scale[k - 1]];
      TotalSnoc(scale[..k - 1], scale[k - 1]);
    }
  }

  function Total(s: seq<int>): int
  {
    if s == [] then 0 else s[0] + Total(s[1..])
  }

  lemma {:induction false} TotalSnoc(s: seq<int>, x: int)
    ensures Total(s + [x]) == Total(s) + x
  {
    if s != [] {
      assert (s + [x])[1..] == s[1..] + [x];
      TotalSnoc(s[1..], x);
    }
  }

  /**
    The pulse loop of one image: pulse i deposits scale[i] into the nitrogen
    histogram at its nitrogen photoelectron's cell and into the carbon one at
    its carbon photoelectron's cell. false, with both histograms untouched,
    where Python raises (that happens at the first pulse or not at all).
   */
  method DepositPulses(nno: array2<int>, oco: array2<int>, er: Range, pr: Range,
                       nitrogen: seq<Hit>, carbon: seq<Hit>, scale: seq<int>) returns (ok: bool)
    requires nno != oco
    requires nno.Length0 == oco.Length0 && nno.Length1 == oco.Length1
    requires |nitrogen| == |carbon| == |scale|
    modifies nno, oco
    ensures ok <==> scale == [] || (er.hi != er.lo && pr.hi != pr.lo && nno.Length0 >= 1 && nno.Length1 >= 1)
    ensures ok ==> forall i, j :: 0 <= i < nno.Length0 && 0 <= j < nno.Length1 ==>
      nno[i, j] == old(nno[i, j]) + Landed(nno.Length0, nno.Length1, er, pr, nitrogen, scale, |scale|, i, j)
      && oco[i, j] == old(oco[i, j]) + Landed(oco.Length0, oco.Length1, er, pr, carbon, scale, |scale|, i, j)
    ensures !ok ==> forall i, j :: 0 <= i < nno.Length0 && 0 <= j < nno.Length1 ==>
      nno[i, j] == old(nno[i, j]) && oco[i, j] == old(oco[i, j])
  {
    var ne, np := nno.Length0, nno.Length1;
    var k := 0;
    while k < |scale|
      invariant 0 <= k <= |scale|
      invariant k > 0 ==> er.hi != er.lo && pr.hi != pr.lo && ne >= 1 && np >= 1
      invariant forall i, j :: 0 <= i < ne && 0 <= j < np ==>
        nno[i, j] == old(nno[i, j]) + Landed(ne, np, er, pr, nitrogen, scale, k, i, j)
      invariant forall i, j :: 0 <= i < ne && 0 <= j < np ==>
        oco[i, j] == old(oco[i, j]) + Landed(ne, np, er, pr, carbon, scale, k, i, j)
    {
      var n := nitrogen[k];
      var c := carbon[k];
      ok := Deposit(nno, er, pr, n.energy, n.phase, scale[k]);
      if !ok {
        return false;
      }
      ok := Deposit(oco, er, pr, c.energy, c.phase, scale[k]);
      k := k + 1;
    }
    return true;
  }
}
