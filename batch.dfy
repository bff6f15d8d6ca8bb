/**
  The array handling of the batch driver in src/analyticwaveform.py: padding the
  averaged impulse response to the waveform length, and filling the output
  matrices row by row. The per-row transforms (alternate convolution and the
  analytic homomorphic deconvolution) are FFT numerics and enter as parameters.
 */
module Batch {
  import opened Wrappers

  /**
    The zero-padded impulse response of length n. None stands for numpy's
    broadcast error when the response is longer than the target.
   */
  function Padded(dfilt: seq<real>, n: nat): (r: Option<seq<real>>)
    ensures r.Some? <==> |dfilt| <= n
    ensures r.Some? ==> |r.value| == n
    ensures r.Some? ==> r.value[..|dfilt|] == dfilt
    ensures r.Some? ==> forall k :: |dfilt| <= k < n ==> r.value[k] == 0.0
  {
    if |dfilt| <= n then Some(dfilt + seq(n - |dfilt|, _ => 0.0)) else None
  }

  /** Allocate a zero array of length n and copy the response into its head. */
  method ZeroPad(dfilt: seq<real>, n: nat) returns (full: Option<array<real>>)
    ensures full.None? <==> |dfilt| > n
    ensures full.Some? ==> fresh(full.value) && Padded(dfilt, n) == Some(full.value[..])
  {
    if |dfilt| > n {
      return None;
    }
    var a := new real[n](_ => 0.0);
    forall k | 0 <= k < |dfilt| {
      a[k] := dfilt[k];
    }
    assert a[..] == dfilt + seq(n - |dfilt|, _ => 0.0);
    return Some(a);
  }

  /** Row c of a matrix, as numpy's m[c, :]. */
  function Row(m: array2<real>, c: nat): (r: seq<real>)
    requires c < m.Length0
    reads m
    ensures |r| == m.Length1
    ensures forall j :: 0 <= j < m.Length1 ==> r[j] == m[c, j]
  {
    seq(m.Length1, j requires 0 <= j < m.Length1 reads m => m[c, j])
  }

  /**
    m[c, :] = r, as numpy's row assignment; every other row is left alone.
    false, with m unchanged, where numpy raises: a row index past the end
    (IndexError) or a row of another length (ValueError).
   */
  method SetRow(m: array2<real>, c: nat, r: seq<real>) returns (ok: bool)
    modifies m
    ensures ok <==> c < m.Length0 && |r| == m.Length1
    ensures ok ==> forall i, j :: 0 <= i < m.Length0 && 0 <= j < m.Length1 ==>
      m[i, j] == if i == c then r[j] else old(m[i, j])
    ensures !ok ==> unchanged(m)
  {
    if c >= m.Length0 || |r| != m.Length1 {
      return false;
    }
    forall j | 0 <= j < m.Length1 {
      m[c, j] := r[j];
    }
    return true;
  }

  /** The transforms of row r have the row's length, so they fit a row of the outputs. */
  predicate RowFits(r: seq<real>, deconv: seq<real> -> seq<real>, homo: seq<real> -> (seq<real>, seq<real>))
  {
    |deconv(r)| == |r| && |homo(r).0| == |r| && |homo(r).1| == |r|
  }

  /**
    The loop over channels: each output matrix has the input's shape and its
    row c holds the transform of input row c alone. false where numpy raises:
    some transform returns a row of another length.
   */
  method DeconvolveRows(
    waveforms: array2<real>,
    deconv: seq<real> -> seq<real>,
    homo: seq<real> -> (seq<real>, seq<real>))
    returns (ok: bool, dec: array2<real>, homoReal: array2<real>, homoImag: array2<real>)
    ensures ok <==> forall c :: 0 <= c < waveforms.Length0 ==> RowFits(Row(waveforms, c), deconv, homo)
    ensures fresh(dec) && fresh(homoReal) && fresh(homoImag)
    ensures dec.Length0 == homoReal.Length0 == homoImag.Length0 == waveforms.Length0
    ensures dec.Length1 == homoReal.Length1 == homoImag.Length1 == waveforms.Length1
    ensures ok ==> forall c, j :: 0 <= c < waveforms.Length0 && 0 <= j < waveforms.Length1 ==>
      dec[c, j] == deconv(Row(waveforms, c))[j]
    ensures ok ==> forall c, j :: 0 <= c < waveforms.Length0 && 0 <= j < waveforms.Length1 ==>
      homoReal[c, j] == homo(Row(waveforms, c)).0[j] && homoImag[c, j] == homo(Row(waveforms, c)).1[j]
  {
    var rows, cols := waveforms.Length0, waveforms.Length1;
    dec := new real[rows, cols]((i, j) => 0.0);
    homoReal := new real[rows, cols]((i, j) => 0.0);
    homoImag := new real[rows, cols]((i, j) => 0.0);
    var c := 0;
    while c < rows
      invariant 0 <= c <= rows
      invariant forall i :: 0 <= i < c ==> RowFits(Row(waveforms, i), deconv, homo)
      invariant forall i, j :: 0 <= i < c && 0 <= j < cols ==>
        dec[i, j] == deconv(Row(waveforms, i))[j]
      invariant forall i, j :: 0 <= i < c && 0 <= j < cols ==>
        homoReal[i, j] == homo(Row(waveforms, i)).0[j] && homoImag[i, j] == homo(Row(waveforms, i)).1[j]
    {
      var row := Row(waveforms, c);
      if !RowFits(row, deconv, homo) {
        return false, dec, homoReal, homoImag;
      }
      var h := homo(row);
      ok := SetRow(dec, c, deconv(row));
      ok := SetRow(homoReal, c, h.0);
      ok := SetRow(homoImag, c, h.1);
      c := c + 1;
    }
    ok := true;
  }
}
