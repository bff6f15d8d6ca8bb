/**
  Dataset assembly of the time-of-flight regression in src/load_ave.py: the
  four-way split of a shuffled row order into train, test, validate and
  out-of-bag sets, and the flattening, masking and stacking that loaddata
  does for every voltage setting of every data file. The shuffle, the HDF5
  reads and the natural logarithm enter as inputs.
 */
module Dataset {
  import opened Wrappers
  import opened Arith

  /** A numpy matrix as its list of rows. */
  type Rows = seq<seq<real>>

  // ---------------------------------------------------------------------------
  // katiesplit
  // ---------------------------------------------------------------------------

  /**
    The shuffled np.arange(sz): every row index below sz exactly once.
   */
  predicate IsShuffle(inds: seq<nat>, sz: nat)
  {
    && |inds| == sz
    && (forall i :: 0 <= i < sz ==> inds[i] < sz)
    && (forall i, j :: 0 <= i < j < sz ==> inds[i] != inds[j])
    && (forall v :: 0 <= v < sz ==> v in inds)
  }

  /** The index groups of katiesplit. */
  datatype Quarters = Quarters(train: seq<nat>, test: seq<nat>, validate: seq<nat>, oob: seq<nat>)

  /**
    inds cut at sz//4, 2*sz//4 and 3*sz//4. Python reads 2*sz//4 as
    (2*sz)//4, so the cuts are (k*sz)//4 and not k*(sz//4).
   */
  function Quarter(inds: seq<nat>): (q: Quarters)
    ensures q.train + q.test + q.validate + q.oob == inds
  {
    var sz := |inds|;
    var q := Quarters(inds[..sz / 4], inds[sz / 4..2 * sz / 4], inds[2 * sz / 4..3 * sz / 4], inds[3 * sz / 4..]);
    assert inds == inds[..sz / 4] + inds[sz / 4..2 * sz / 4] + inds[2 * sz / 4..3 * sz / 4] + inds[3 * sz / 4..];
    q
  }

  /**
    The cuts fall at sz//4, (2*sz)//4 and (3*sz)//4, so train has exactly
    sz//4 indices and every group sz//4 or sz//4 + 1; all have sz//4 when sz
    is a multiple of 4, and otherwise the remainder rows go to test, validate
    and oob.
   */
  lemma QuarterSizes(inds: seq<nat>)
    ensures var sz, q := |inds|, Quarter(inds);
      && |q.train| == sz / 4
      && |q.train| + |q.test| == 2 * sz / 4
      && |q.train| + |q.test| + |q.validate| == 3 * sz / 4
      && sz / 4 <= |q.train| <= sz / 4 + 1
      && sz / 4 <= |q.test| <= sz / 4 + 1
      && sz / 4 <= |q.validate| <= sz / 4 + 1
      && sz / 4 <= |q.oob| <= sz / 4 + 1
      && (sz % 4 == 0 ==> |q.train| == |q.test| == |q.validate| == |q.oob| == sz / 4)
  {
    var sz := |inds|;
    var b, r := sz / 4, sz % 4;
    DivModUnique(2 * sz, 4, 2 * b + r / 2, 2 * r - 4 * (r / 2));
    DivModUnique(3 * sz, 4, 3 * b + 3 * r / 4, 3 * r - 4 * (3 * r / 4));
  }

  /** No index appears twice in xs. */
  predicate NoRepeats(xs: seq<nat>)
  {
    forall i, j :: 0 <= i < j < |xs| ==> xs[i] != xs[j]
  }

  /** A stretch of a sequence without repeats has none either. */
  lemma SliceNoRepeats(s: seq<nat>, a: nat, b: nat)
    requires a <= b <= |s| && NoRepeats(s)
    ensures NoRepeats(s[a..b])
  {
    forall i, j | 0 <= i < j < b - a ensures s[a..b][i] != s[a..b][j] {
      assert s[a..b][i] == s[a + i] && s[a..b][j] == s[a + j];
    }
  }

  /** No index appears in two places of xs ++ ys. */
  predicate Disjoint(xs: seq<nat>, ys: seq<nat>)
  {
    forall i, j :: 0 <= i < |xs| && 0 <= j < |ys| ==> xs[i] != ys[j]
  }

  /** Two non-overlapping stretches of a sequence without repeats share no value. */
  lemma SlicesDisjoint(s: seq<nat>, a: nat, b: nat, c: nat, d: nat)
    requires a <= b <= c <= d <= |s|
    requires forall i, j :: 0 <= i < j < |s| ==> s[i] != s[j]
    ensures Disjoint(s[a..b], s[c..d])
  {
    forall i, j | 0 <= i < b - a && 0 <= j < d - c
      ensures s[a..b][i] != s[c..d][j]
    {
      assert s[a..b][i] == s[a + i] && s[c..d][j] == s[c + j];
    }
  }

  /**
    For a shuffle of 0..sz-1 the four groups partition the rows: they are
    pairwise disjoint, none repeats an index, and every row is in one of them.
   */
  lemma QuarterPartition(inds: seq<nat>, sz: nat)
    requires IsShuffle(inds, sz)
    ensures var q := Quarter(inds);
      && Disjoint(q.train, q.test) && Disjoint(q.train, q.validate) && Disjoint(q.train, q.oob)
      && Disjoint(q.test, q.validate) && Disjoint(q.test, q.oob) && Disjoint(q.validate, q.oob)
      && (forall v :: 0 <= v < sz ==> v in q.train || v in q.test || v in q.validate || v in q.oob)
      && NoRepeats(q.train) && NoRepeats(q.test) && NoRepeats(q.validate) && NoRepeats(q.oob)
  {
    var q := Quarter(inds);
    var b1, b2, b3 := sz / 4, 2 * sz / 4, 3 * sz / 4;
    assert q.train == inds[0..b1] && q.oob == inds[b3..sz];
    SlicesDisjoint(inds, 0, b1, b1, b2);
    SlicesDisjoint(inds, 0, b1, b2, b3);
    SlicesDisjoint(inds, 0, b1, b3, sz);
    SlicesDisjoint(inds, b1, b2, b2, b3);
    SlicesDisjoint(inds, b1, b2, b3, sz);
    SlicesDisjoint(inds, b2, b3, b3, sz);
    SliceNoRepeats(inds, 0, b1);
    SliceNoRepeats(inds, b1, b2);
    SliceNoRepeats(inds, b2, b3);
    SliceNoRepeats(inds, b3, sz);
    forall v | 0 <= v < sz
      ensures v in q.train || v in q.test || v in q.validate || v in q.oob
    {
      assert v in q.train + q.test + q.validate + q.oob;
    }
  }

  /** Every entry of idx is a row index of a matrix with n rows. */
  predicate Bounded(idx: seq<nat>, n: nat)
  {
    forall k :: 0 <= k < |idx| ==> idx[k] < n
  }

  /** part is m[idx, :]: row k of part is row idx[k] of m. */
  predicate Picked(part: Rows, m: Rows, idx: seq<nat>)
  {
    |part| == |idx| && forall k :: 0 <= k < |idx| ==> idx[k] < |m| && part[k] == m[idx[k]]
  }

  /** numpy's m[idx, :]: the rows of m at the given indices, in that order. */
  function Take(m: Rows, idx: seq<nat>): (r: Rows)
    requires Bounded(idx, |m|)
    ensures Picked(r, m, idx)
  {
    seq(|idx|, k requires 0 <= k < |idx| => m[idx[k]])
  }

  /** The eight matrices katiesplit returns. */
  datatype Split = Split(
    xTrain: Rows, xTest: Rows, xValidate: Rows, xOob: Rows,
    yTrain: Rows, yTest: Rows, yValidate: Rows, yOob: Rows)

  /** A stretch of a shuffle holds row indices only. */
  lemma SliceBounded(inds: seq<nat>, sz: nat, a: nat, b: nat)
    requires IsShuffle(inds, sz) && a <= b <= sz
    ensures Bounded(inds[a..b], sz)
  {
    forall k | 0 <= k < b - a ensures inds[a..b][k] < sz {
      assert inds[a..b][k] == inds[a + k];
    }
  }

  /** Every entry of a group of a shuffle is a row index. */
  lemma QuarterBounded(inds: seq<nat>, sz: nat)
    requires IsShuffle(inds, sz)
    ensures var q := Quarter(inds);
      Bounded(q.train, sz) && Bounded(q.test, sz) && Bounded(q.validate, sz) && Bounded(q.oob, sz)
  {
    var b1, b2, b3 := sz / 4, 2 * sz / 4, 3 * sz / 4;
    assert inds[..b1] == inds[0..b1] && inds[b3..] == inds[b3..sz];
    SliceBounded(inds, sz, 0, b1);
    SliceBounded(inds, sz, b1, b2);
    SliceBounded(inds, sz, b2, b3);
    SliceBounded(inds, sz, b3, sz);
  }

  /**
    katiesplit with the shuffle given as inds. x and y are cut with the same
    index groups, so row k of each x part and row k of the matching y part come
    from the same original row. None is numpy's IndexError when y has fewer
    rows than x.
   */
  function KatieSplit(x: Rows, y: Rows, inds: seq<nat>): (r: Option<Split>)
    requires IsShuffle(inds, |x|)
    ensures r.None? <==> |y| < |x|
    ensures r.Some? ==> var q, s := Quarter(inds), r.value;
      && Picked(s.xTrain, x, q.train) && Picked(s.yTrain, y, q.train)
      && Picked(s.xTest, x, q.test) && Picked(s.yTest, y, q.test)
      && Picked(s.xValidate, x, q.validate) && Picked(s.yValidate, y, q.validate)
      && Picked(s.xOob, x, q.oob) && Picked(s.yOob, y, q.oob)
  {
    if |y| < |x| then None
    else
      var q := Quarter(inds);
      QuarterBounded(inds, |x|);
      BoundedWider(q.train, |x|, |y|);
      BoundedWider(q.test, |x|, |y|);
      BoundedWider(q.validate, |x|, |y|);
      BoundedWider(q.oob, |x|, |y|);
      Some(Split(
        Take(x, q.train), Take(x, q.test), Take(x, q.validate), Take(x, q.oob),
        Take(y, q.train), Take(y, q.test), Take(y, q.validate), Take(y, q.oob)))
  }

  lemma BoundedWider(idx: seq<nat>, n: nat, m: nat)
    requires Bounded(idx, n) && n <= m
    ensures Bounded(idx, m)
  {
  }

  // ---------------------------------------------------------------------------
  // loaddata: grid flattening
  // ---------------------------------------------------------------------------

  /** np.tile(alist, (ne, 1)).flatten(): the angle list once per energy. */
  function AngleGrid(alist: seq<real>, ne: nat): (r: seq<real>)
    ensures |r| == ne * |alist|
  {
    if ne == 0 then [] else AngleGrid(alist, ne - 1) + alist
  }

  /** np.tile(elist, (na, 1)).T.flatten(): each energy na times, in order. */
  function EnergyGrid(elist: seq<real>, na: nat): (r: seq<real>)
    ensures |r| == |elist| * na
  {
    if elist == [] then []
    else EnergyGrid(elist[..|elist| - 1], na) + seq(na, _ => elist[|elist| - 1])
  }

  /** Flat position i * na + j holds energy i and angle j: energy-major order. */
  lemma {:induction false} GridCell(elist: seq<real>, alist: seq<real>, i: nat, j: nat)
    requires i < |elist| && j < |alist|
    ensures i * |alist| + j < |elist| * |alist|
    ensures AngleGrid(alist, |elist|)[i * |alist| + j] == alist[j]
    ensures EnergyGrid(elist, |alist|)[i * |alist| + j] == elist[i]
  {
    var ne, na := |elist|, |alist|;
    var init := elist[..ne - 1];
    assert ne * na == (ne - 1) * na + na;
    if i < ne - 1 {
      assert i * na + j < (ne - 1) * na by {
        MulAwayFromZero(ne - 1 - i, na);
        assert (ne - 1) * na - i * na == (ne - 1 - i) * na;
      }
      GridCell(init, alist, i, j);
      assert init[i] == elist[i];
    } else {
      assert i * na == (ne - 1) * na;
    }
  }

  /** Flat position k holds angle k % na and energy k / na. */
  lemma GridIndex(elist: seq<real>, alist: seq<real>, k: nat)
    requires k < |elist| * |alist|
    ensures 0 < |alist| && k / |alist| < |elist|
    ensures AngleGrid(alist, |elist|)[k] == alist[k % |alist|]
    ensures EnergyGrid(elist, |alist|)[k] == elist[k / |alist|]
  {
    var na := |alist|;
    DivBelow(k, na, |elist|);
    GridCell(elist, alist, k / na, k % na);
  }

  // ---------------------------------------------------------------------------
  // loaddata: the validity mask
  // ---------------------------------------------------------------------------

  function Abs(x: real): real
  {
    if x < 0.0 then -x else x
  }

  /**
    The row-validity test: splat within 2 of x = 185, positive energy, |y|
    below 0.050; that is, the splat strictly inside (183, 187) and y strictly
    inside (-0.050, 0.050).
   */
  predicate Keep(xsplat: seq<real>, emat: seq<real>, ydata: seq<real>, k: nat): (b: bool)
    requires k < |xsplat| == |emat| == |ydata|
    ensures b <==> 183.0 < xsplat[k] < 187.0 && emat[k] > 0.0 && -0.050 < ydata[k] < 0.050
  {
    Abs(xsplat[k] - 185.0) < 2.0 && emat[k] > 0.0 && Abs(ydata[k]) < 0.050
  }

  /** The kept indices from k on, ascending. */
  function KeptFrom(xsplat: seq<real>, emat: seq<real>, ydata: seq<real>, k: nat): (r: seq<nat>)
    requires |xsplat| == |emat| == |ydata| && k <= |xsplat|
    ensures forall i :: 0 <= i < |r| ==> k <= r[i] < |xsplat| && Keep(xsplat, emat, ydata, r[i])
    ensures forall m :: k <= m < |xsplat| && Keep(xsplat, emat, ydata, m) ==> m in r
    ensures forall i, j :: 0 <= i < j < |r| ==> r[i] < r[j]
    decreases |xsplat| - k
  {
    if k == |xsplat| then []
    else (if Keep(xsplat, emat, ydata, k) then [k] else []) + KeptFrom(xsplat, emat, ydata, k + 1)
  }

  /**
    np.where of the mask: exactly the indices that pass the test, ascending.
    None is numpy's broadcast error when the three arrays differ in length.
   */
  function ValidIndices(xsplat: seq<real>, emat: seq<real>, ydata: seq<real>): (r: Option<seq<nat>>)
    ensures r.None? <==> !(|xsplat| == |emat| == |ydata|)
    ensures r.Some? ==> forall i :: 0 <= i < |r.value| ==> r.value[i] < |xsplat|
    ensures r.Some? ==> forall m :: 0 <= m < |xsplat| ==> (m in r.value <==> Keep(xsplat, emat, ydata, m))
    ensures r.Some? ==> forall i, j :: 0 <= i < j < |r.value| ==> r.value[i] < r.value[j]
  {
    if |xsplat| == |emat| == |ydata| then Some(KeptFrom(xsplat, emat, ydata, 0)) else None
  }

  // ---------------------------------------------------------------------------
  // loaddata: one voltage setting
  // ---------------------------------------------------------------------------

  /** The arrays loaddata reads for one voltage setting (x_detector is read but never used). */
  datatype Setting = Setting(
    energy: seq<real>, angle: seq<real>, tOffset: seq<real>,
    yDetector: seq<real>, splatX: seq<real>, vset: real)

  /** Feature rows (3 columns) and truth rows (2 columns). */
  datatype Block = Block(features: Rows, truths: Rows)

  function Mask(s: Setting): Option<seq<nat>>
  {
    ValidIndices(s.splatX, EnergyGrid(s.energy, |s.angle|), s.yDetector)
  }

  /** How many rows a setting contributes. */
  function KeptCount(s: Setting): nat
  {
    match Mask(s)
    case Some(v) => |v|
    case None => 0
  }

  /**
    featuresvec and truthsvec of one setting: per kept index k, the features
    ln(-vset), ln(energy) and angle, the truths ln(t_offset) and y in mm.
    ln is np.log. None where numpy raises: mismatched lengths or a kept index
    past the end of t_offset.
   */
  function SettingRows(s: Setting, ln: real -> real): (r: Option<Block>)
    ensures r.Some? <==> Mask(s).Some? && forall i :: 0 <= i < |Mask(s).value| ==> Mask(s).value[i] < |s.tOffset|
    ensures r.Some? ==> |r.value.features| == |r.value.truths| == KeptCount(s)
    ensures r.Some? ==> forall i :: 0 <= i < |r.value.features| ==> |r.value.features[i]| == 3 && |r.value.truths[i]| == 2
  {
    var emat, amat := EnergyGrid(s.energy, |s.angle|), AngleGrid(s.angle, |s.energy|);
    match Mask(s)
    case None => None
    case Some(v) =>
      if forall i :: 0 <= i < |v| ==> v[i] < |s.tOffset| then
        Some(Block(
          seq(|v|, i requires 0 <= i < |v| => [ln(-1.0 * s.vset), ln(emat[v[i]]), amat[v[i]]]),
          seq(|v|, i requires 0 <= i < |v| => [ln(s.tOffset[v[i]]), s.yDetector[v[i]] * 1000.0])))
      else None
  }

  /**
    The feature and truth rows of grid position k of a setting: k passes the
    validity test, and with na angles the row holds ln(-vset),
    ln(energy[k / na]) and angle[k % na] unchanged, the truth ln(t_offset[k])
    and y_detector[k] in mm.
   */
  predicate RowOf(s: Setting, ln: real -> real, feature: seq<real>, truth: seq<real>, k: nat)
  {
    var na := |s.angle|;
    && k < |s.splatX| == |s.energy| * na == |s.yDetector|
    && k < |s.tOffset| && 0 < na && k / na < |s.energy|
    && Keep(s.splatX, EnergyGrid(s.energy, na), s.yDetector, k)
    && feature == [ln(-1.0 * s.vset), ln(s.energy[k / na]), s.angle[k % na]]
    && truth == [ln(s.tOffset[k]), s.yDetector[k] * 1000.0]
  }

  /** Row i of a setting's block is the row of its i-th kept grid position. */
  lemma SettingRowsGrid(s: Setting, ln: real -> real, i: nat)
    requires SettingRows(s, ln).Some? && i < KeptCount(s)
    ensures RowOf(s, ln, SettingRows(s, ln).value.features[i], SettingRows(s, ln).value.truths[i], Mask(s).value[i])
  {
    var k := Mask(s).value[i];
    GridIndex(s.energy, s.angle, k);
  }

  // ---------------------------------------------------------------------------
  // loaddata: stacking over files and settings
  // ---------------------------------------------------------------------------

  /** The settings of all files, file after file, each file's settings in key order. */
  function Flatten(files: seq<seq<Setting>>): seq<Setting>
  {
    if files == [] then [] else Flatten(files[..|files| - 1]) + files[|files| - 1]
  }

  /** np.row_stack of two stacks of rows; None (an exception) wins. */
  function Join(a: Option<Block>, b: Option<Block>): (r: Option<Block>)
    ensures r.Some? <==> a.Some? && b.Some?
    ensures r.Some? ==> |r.value.features| == |a.value.features| + |b.value.features|
    ensures r.Some? ==> |r.value.truths| == |a.value.truths| + |b.value.truths|
    ensures r.Some? ==> r.value.features[..|a.value.features|] == a.value.features
    ensures r.Some? ==> r.value.features[|a.value.features|..] == b.value.features
    ensures r.Some? ==> r.value.truths[..|a.value.truths|] == a.value.truths
    ensures r.Some? ==> r.value.truths[|a.value.truths|..] == b.value.truths
  {
    if a.Some? && b.Some? then Some(Block(a.value.features + b.value.features, a.value.truths + b.value.truths))
    else None
  }

  function Empty(): Option<Block>
  {
    Some(Block([], []))
  }

  /** Features and truths have the same number of rows. */
  predicate Aligned(b: Option<Block>)
  {
    b.Some? ==> |b.value.features| == |b.value.truths|
  }

  /** The rows loaddata builds for each setting, as a function value. */
  function RowsOf(ln: real -> real): Setting -> Option<Block>
  {
    s => SettingRows(s, ln)
  }

  lemma RowsOfAligned(ln: real -> real)
    ensures forall s :: Aligned(RowsOf(ln)(s))
  {
  }

  function TotalKept(ss: seq<Setting>): nat
  {
    if ss == [] then 0 else TotalKept(ss[..|ss| - 1]) + KeptCount(ss[|ss| - 1])
  }

  /**
    The rows of all settings stacked in visiting order; None if any setting
    raises.
   */
  function Gather(ss: seq<Setting>, rows: Setting -> Option<Block>): (r: Option<Block>)
    ensures r.Some? <==> forall i :: 0 <= i < |ss| ==> rows(ss[i]).Some?
  {
    if ss == [] then Empty()
    else Join(Gather(ss[..|ss| - 1], rows), rows(ss[|ss| - 1]))
  }

  /**
    The stack of loaddata's rows keeps features and truths row-aligned, with one
    row per kept grid position of every setting.
   */
  lemma {:induction false} GatherCount(ss: seq<Setting>, ln: real -> real)
    ensures var g := Gather(ss, RowsOf(ln));
      g.Some? ==> |g.value.features| == |g.value.truths| == TotalKept(ss)
  {
    if ss != [] {
      GatherCount(ss[..|ss| - 1], ln);
    }
  }

  lemma GatherSnoc(ss: seq<Setting>, s: Setting, rows: Setting -> Option<Block>)
    ensures Gather(ss + [s], rows) == Join(Gather(ss, rows), rows(s))
  {
    assert (ss + [s])[..|ss|] == ss;
  }

  lemma JoinAssoc(a: Option<Block>, b: Option<Block>, c: Option<Block>)
    ensures Join(Join(a, b), c) == Join(a, Join(b, c))
  {
    if a.Some? && b.Some? && c.Some? {
      assert a.value.features + b.value.features + c.value.features
          == a.value.features + (b.value.features + c.value.features);
      assert a.value.truths + b.value.truths + c.value.truths
          == a.value.truths + (b.value.truths + c.value.truths);
    }
  }

  lemma JoinEmpty(a: Option<Block>)
    ensures Join(a, Empty()) == a
  {
    if a.Some? {
      assert a.value.features + [] == a.value.features;
      assert a.value.truths + [] == a.value.truths;
    }
  }

  /**
    Stacking is compositional: the stack of ss + ts is the stack of ss with the
    stack of ts below it, and it raises exactly when one of them does.
   */
  lemma {:induction false} GatherAppend(ss: seq<Setting>, ts: seq<Setting>, rows: Setting -> Option<Block>)
    ensures Gather(ss + ts, rows) == Join(Gather(ss, rows), Gather(ts, rows))
  {
    if ts == [] {
      assert ss + ts == ss;
      JoinEmpty(Gather(ss, rows));
    } else {
      var init, last := ts[..|ts| - 1], ts[|ts| - 1];
      assert ss + ts == (ss + init) + [last];
      assert ts == init + [last];
      GatherSnoc(ss + init, last, rows);
      GatherAppend(ss, init, rows);
      GatherSnoc(init, last, rows);
      JoinAssoc(Gather(ss, rows), Gather(init, rows), rows(last));
    }
  }

  /** Once a setting raises, nothing stacked after it can undo that. */
  lemma GatherStaysNone(ss: seq<Setting>, ts: seq<Setting>, rows: Setting -> Option<Block>)
    requires Gather(ss, rows).None?
    ensures Gather(ss + ts, rows).None?
  {
    GatherAppend(ss, ts, rows);
  }

  lemma {:induction false} FlattenAppend(fs: seq<seq<Setting>>, gs: seq<seq<Setting>>)
    ensures Flatten(fs + gs) == Flatten(fs) + Flatten(gs)
  {
    if gs == [] {
      assert fs + gs == fs;
    } else {
      var n := |gs|;
      assert (fs + gs)[..|fs + gs| - 1] == fs + gs[..n - 1];
      FlattenAppend(fs, gs[..n - 1]);
    }
  }

  lemma FlattenSnoc(files: seq<seq<Setting>>, f: nat)
    requires f < |files|
    ensures Flatten(files[..f + 1]) == Flatten(files[..f]) + files[f]
  {
    assert files[..f + 1][..f] == files[..f];
  }

  /**
    loaddata: visit every file and every setting in it, and stack the kept
    rows onto x_all and y_all. With no file it returns two empty lists.
   */
  method LoadData(files: seq<seq<Setting>>, ln: real -> real) returns (r: Option<Block>)
    ensures r == Gather(Flatten(files), RowsOf(ln))
    ensures files == [] ==> r == Some(Block([], []))
  {
    var rows := RowsOf(ln);
    RowsOfAligned(ln);
    var xAll: Rows := [];
    var yAll: Rows := [];
    if |files| < 1 {
      return Some(Block(xAll, yAll));
    }
    var f := 0;
    while f < |files|
      invariant 0 <= f <= |files|
      invariant Gather(Flatten(files[..f]), rows) == Some(Block(xAll, yAll))
      invariant |xAll| == |yAll|
    {
      FlattenSnoc(files, f);
      var stacked := StackFile(Flatten(files[..f]), files[f], rows, xAll, yAll);
      if stacked.None? {
        LoadStops(files, f, rows);
        return None;
      }
      xAll, yAll := stacked.value.features, stacked.value.truths;
      f := f + 1;
    }
    assert files[..f] == files;
    return Some(Block(xAll, yAll));
  }

  /** A file whose settings raise makes the whole load raise. */
  lemma LoadStops(files: seq<seq<Setting>>, f: nat, rows: Setting -> Option<Block>)
    requires f < |files| && Gather(Flatten(files[..f + 1]), rows).None?
    ensures Gather(Flatten(files), rows).None?
  {
    assert files == files[..f + 1] + files[f + 1..];
    FlattenAppend(files[..f + 1], files[f + 1..]);
    GatherStaysNone(Flatten(files[..f + 1]), Flatten(files[f + 1..]), rows);
  }

  /**
    The inner loop of loaddata over the settings of one file, starting from the
    stack built so far (the rows of the settings already visited, done).
   */
  method StackFile(
    ghost done: seq<Setting>, settings: seq<Setting>, rows: Setting -> Option<Block>,
    xAll0: Rows, yAll0: Rows)
    returns (r: Option<Block>)
    requires forall s :: Aligned(rows(s))
    requires Gather(done, rows) == Some(Block(xAll0, yAll0)) && |xAll0| == |yAll0|
    ensures r == Gather(done + settings, rows) && Aligned(r)
  {
    var xAll, yAll := xAll0, yAll0;
    var v := 0;
    assert done + settings[..0] == done;
    while v < |settings|
      invariant 0 <= v <= |settings|
      invariant Gather(done + settings[..v], rows) == Some(Block(xAll, yAll))
      invariant |xAll| == |yAll|
    {
      var block := rows(settings[v]);
      GatherSnoc(done + settings[..v], settings[v], rows);
      SliceSnoc(done, settings, v);
      if block.None? {
        SliceSplit(done, settings, v + 1);
        GatherStaysNone(done + settings[..v + 1], settings[v + 1..], rows);
        return None;
      }
      JoinFirst(Block(xAll, yAll), block.value);
      if |xAll| < 1 {
        xAll := block.value.features;
        yAll := block.value.truths;
      } else {
        xAll := xAll + block.value.features;
        yAll := yAll + block.value.truths;
      }
      v := v + 1;
    }
    assert settings[..v] == settings;
    return Some(Block(xAll, yAll));
  }

  /** Copying the first block is the same as joining it onto an empty stack. */
  lemma JoinFirst(acc: Block, b: Block)
    requires |acc.features| == |acc.truths|
    ensures Join(Some(acc), Some(b)) ==
      if |acc.features| < 1 then Some(Block(b.features, b.truths))
      else Some(Block(acc.features + b.features, acc.truths + b.truths))
  {
    if |acc.features| < 1 {
      assert acc.features + b.features == b.features;
      assert acc.truths + b.truths == b.truths;
    }
  }

  lemma SliceSnoc<T>(a: seq<T>, s: seq<T>, v: nat)
    requires v < |s|
    ensures a + s[..v + 1] == (a + s[..v]) + [s[v]]
  {
    assert s[..v + 1] == s[..v] + [s[v]];
  }

  lemma SliceSplit<T>(a: seq<T>, s: seq<T>, v: nat)
    requires v <= |s|
    ensures a + s == (a + s[..v]) + s[v..]
  {
    assert s == s[..v] + s[v..];
  }
}
