/**
  Impulse-response alignment in src/analyticwaveform.py: althomomorphic,
  homomorphic, altconv and derivconv all roll the response left so that its
  first minimum comes first. Samples are exact reals; the FFT work done on the
  aligned response is not part of this model.
 */
module Alignment {
  import opened Wrappers
  import opened Arith

  /** Index of the FIRST smallest sample, as numpy's argmin returns it. */
  function ArgMin(s: seq<real>): (i: nat)
    requires |s| > 0
    ensures i < |s|
    ensures forall k :: 0 <= k < |s| ==> s[i] <= s[k]
    ensures forall k :: 0 <= k < i ==> s[i] < s[k]
  {
    if |s| == 1 then 0
    else
      var j := ArgMin(s[1..]) + 1;
      if s[0] <= s[j] then 0 else j
  }

  /**
    numpy's roll: element k of the result is s[(k - shift) mod |s|] (RollAt).
    It moves samples around without losing or duplicating any (RollPermutes).
   */
  function Roll(s: seq<real>, shift: int): (r: seq<real>)
    ensures |r| == |s|
  {
    if |s| == 0 then s
    else
      var d := (-shift) % |s|;
      s[d..] + s[..d]
  }

  lemma RollPermutes(s: seq<real>, shift: int)
    ensures multiset(Roll(s, shift)) == multiset(s)
  {
    if |s| > 0 {
      var d := (-shift) % |s|;
      assert s == s[..d] + s[d..];
    }
  }

  lemma RollAt(s: seq<real>, shift: int, k: int)
    requires 0 <= k < |s|
    ensures |Roll(s, shift)| == |s|
    ensures Roll(s, shift)[k] == s[(k - shift) % |s|]
  {
    var n := |s|;
    var d := (-shift) % n;
    var q := (-shift) / n;
    assert -shift == q * n + d;
    if k < n - d {
      DivModUnique(k - shift, n, q, k + d);
    } else {
      DivModUnique(k - shift, n, q + 1, k + d - n);
    }
  }

  /** Rolling back by the same shift restores the array. */
  lemma RollInverse(s: seq<real>, shift: int)
    ensures Roll(Roll(s, shift), -shift) == s
  {
    var r := Roll(s, shift);
    var n := |s|;
    if n > 0 {
      forall k | 0 <= k < n ensures Roll(r, -shift)[k] == s[k] {
        RollAt(r, -shift, k);
        var m := (k + shift) % n;
        RollAt(s, shift, m);
        DivModUnique(k + shift, n, (k + shift) / n, m);
        DivModUnique(m - shift, n, -((k + shift) / n), k);
      }
    }
  }

  /**
    The aligned copy of an impulse response: rolled left by the index of its
    first minimum. None stands for numpy's error on an empty array.
   */
  function Align(ir: seq<real>): (r: Option<seq<real>>)
    ensures r.None? <==> ir == []
    ensures r.Some? ==> |r.value| == |ir|
  {
    if ir == [] then None else Some(Roll(ir, -(ArgMin(ir) as int)))
  }

  /** The aligned response is the raw one rotated left by its argmin: ir[i..] then ir[..i]. */
  lemma AlignRotation(ir: seq<real>)
    requires ir != []
    ensures Align(ir).value == ir[ArgMin(ir)..] + ir[..ArgMin(ir)]
  {
    var i := ArgMin(ir);
    DivModUnique(i, |ir|, 0, i);
  }

  lemma AlignRotates(ir: seq<real>, k: int)
    requires 0 <= k < |ir|
    ensures Align(ir).Some?
    ensures |Align(ir).value| == |ir|
    ensures Align(ir).value[k] == ir[(k + ArgMin(ir)) % |ir|]
  {
    var i := ArgMin(ir);
    DivModUnique(i, |ir|, 0, i);
    RotateLeftAt(ir, i, k);
  }

  /** Element k of s rotated left by i is s[(k + i) mod |s|]. */
  lemma RotateLeftAt(s: seq<real>, i: nat, k: int)
    requires i < |s| && 0 <= k < |s|
    ensures (s[i..] + s[..i])[k] == s[(k + i) % |s|]
  {
    var n := |s|;
    if k < n - i {
      assert (s[i..] + s[..i])[k] == s[k + i];
      DivModUnique(k + i, n, 0, k + i);
    } else {
      assert (s[i..] + s[..i])[k] == s[k + i - n];
      DivModUnique(k + i, n, 1, k + i - n);
    }
  }

  lemma AlignMinFirst(ir: seq<real>)
    requires ir != []
    ensures forall k :: 0 <= k < |ir| ==> Align(ir).value[0] <= Align(ir).value[k]
  {
    var i, a := ArgMin(ir), Align(ir).value;
    AlignRotates(ir, 0);
    DivModUnique(i, |ir|, 0, i);
    assert a[0] == ir[i];
    forall k | 0 <= k < |ir| ensures a[0] <= a[k] {
      AlignRotates(ir, k);
      var m := (k + i) % |ir|;
      assert a[k] == ir[m];
    }
  }

  lemma AlignPermutes(ir: seq<real>)
    requires ir != []
    ensures multiset(Align(ir).value) == multiset(ir)
  {
    RollPermutes(ir, -(ArgMin(ir) as int));
  }

  lemma AlignIdempotent(ir: seq<real>)
    requires ir != []
    ensures Align(Align(ir).value) == Align(ir)
  {
    var a := Align(ir).value;
    AlignMinFirst(ir);
    assert ArgMin(a) == 0;
    assert Roll(a, 0) == a;
  }

  lemma AlignUndone(ir: seq<real>)
    requires ir != []
    ensures Roll(Align(ir).value, ArgMin(ir)) == ir
  {
    RollInverse(ir, -(ArgMin(ir) as int));
  }
}
