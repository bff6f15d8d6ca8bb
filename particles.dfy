/**
  The particle records of the time-energy simulation in
  src/generate_sinogram_timeenergy.py. An electron feature has a name, an
  energy center, a width and a delay (its phase); each setter updates fields in
  place and returns the object itself, so calls can be chained. A Photo
  electron also carries a binding energy, and setting its center stores the
  kinetic energy center - binding. An Auger electron behaves as a plain one.
 */
module Particles {
  import opened Wrappers

  /** Which of the three Python classes an object was made from. */
  datatype Kind = Plain | Photo | Auger

  class Electron {
    const kind: Kind
    var name: string
    var center: real
    var width: real
    var delay: real
    /** Set by SetBinding on a Photo; None while Python has no such attribute. */
    var binding: Option<real>

    /** A fresh electron with the defaults of electron.__init__. */
    constructor (kind: Kind)
      ensures this.kind == kind && name == "unnamed"
      ensures center == 512.0 && width == 1.25 && delay == 0.25
      ensures binding == None
    {
      this.kind := kind;
      name := "unnamed";
      center := 512.0;
      width := 1.25;
      delay := 0.25;
      binding := None;
    }

    /** __call__: the (center, width, delay) triple the simulation reads. */
    function Call(): (real, real, real)
      reads this
    {
      (center, width, delay)
    }

    method SetName(x: string) returns (r: Electron)
      modifies this
      ensures r == this && name == x
      ensures Call() == old(Call()) && binding == old(binding)
    {
      name := x;
      return this;
    }

    method SetCenter(x: real) returns (r: Electron)
      modifies this
      ensures r == this && Call() == (x, old(width), old(delay))
      ensures name == old(name) && binding == old(binding)
    {
      center := x;
      return this;
    }

    method SetWidth(x: real) returns (r: Electron)
      modifies this
      ensures r == this && Call() == (old(center), x, old(delay))
      ensures name == old(name) && binding == old(binding)
    {
      width := x;
      return this;
    }

    method SetDelay(x: real) returns (r: Electron)
      modifies this
      ensures r == this && Call() == (old(center), old(width), x)
      ensures name == old(name) && binding == old(binding)
    {
      delay := x;
      return this;
    }

    /**
      Only Photo has setbinding; it records the binding energy and nothing
      else. On a plain or Auger electron Python raises AttributeError: None,
      with nothing changed.
     */
    method SetBinding(x: real) returns (r: Option<Electron>)
      modifies this
      ensures r.Some? <==> kind == Photo
      ensures r.Some? ==> r.value == this && binding == Some(x)
      ensures r.None? ==> binding == old(binding)
      ensures Call() == old(Call()) && name == old(name)
    {
      if kind != Photo {
        return None;
      }
      binding := Some(x);
      return Some(this);
    }

    /**
      setcenterwidthdelay. A plain or Auger electron stores the three values; a
      Photo stores x - binding as its center. A Photo without a binding fails
      (Python's AttributeError) before any field changes: None.
     */
    method SetCenterWidthDelay(x: real, y: real, z: real) returns (r: Option<Electron>)
      modifies this
      ensures kind != Photo ==> r == Some(this) && Call() == (x, y, z)
      ensures kind == Photo && old(binding).Some? ==> r == Some(this) && Call() == (x - old(binding).value, y, z)
      ensures kind == Photo && old(binding).None? ==> r == None && Call() == old(Call())
      ensures name == old(name) && binding == old(binding)
    {
      if kind == Photo {
        if binding.None? {
          return None;
        }
        center := x - binding.value;
      } else {
        center := x;
      }
      width := y;
      delay := z;
      return Some(this);
    }
  }

  /**
    Photo().setbinding(b).setcenterwidthdelay(c, w, d), the way the simulation
    builds each photoelectron: reading it back gives c - b, w and d.
   */
  method NewPhoto(b: real, c: real, w: real, d: real) returns (p: Electron)
    ensures fresh(p) && p.kind == Photo && p.name == "unnamed" && p.binding == Some(b)
    ensures p.Call() == (c - b, w, d)
  {
    p := new Electron(Photo);
    var q := p.SetBinding(b);
    var r := q.value.SetCenterWidthDelay(c, w, d);
  }

  /** An Auger electron with the fixed line (c, w, d) of the simulation's Auger tables. */
  method NewAuger(c: real, w: real, d: real) returns (a: Electron)
    ensures fresh(a) && a.kind == Auger && a.name == "unnamed" && a.binding == None
    ensures a.Call() == (c, w, d)
  {
    a := new Electron(Auger);
    var r := a.SetCenterWidthDelay(c, w, d);
  }
}
