/**
 * The equation-of-state objects of pytheos/scales/objs.py: the Mie-Grueneisen EOS
 * (MGEOS), which adds optional thermal, electronic and anharmonic pressures to a
 * static one chosen by name, and Jamieson's Hugoniot EOS (JHEOS), whose static
 * pressure is the Hugoniot pressure minus the thermal pressure along the Hugoniot.
 *
 * Volumes and temperatures handed to the pressure functions are plain floats, one
 * point at a time; the parameter lists are OrderedDicts whose values are plain floats
 * or uncertainties.UFloat numbers, modelled by their nominal value and kind.
 */
module Objs {
  import opened Wrappers
  import opened Numerics
  import Etc
  import Conversion
  import EqnBm3
  import EqnVinet
  import EqnKunc
  import EqnTherm
  import EqnThermTange
  import EqnThermSpeziale
  import EqnThermDorogokupets2007
  import EqnThermDorogokupets2015
  import EqnAnharmonic
  import EqnElectronic
  import EqnHugoniot
  import EqnJamieson

  /** A parameter value: its nominal value, and whether it is a UFloat or a plain float. */
  datatype Value = Value(nominal: real, uncertain: bool)

  /** An OrderedDict of parameters: (name, value) pairs in insertion order. */
  type Params = seq<(string, Value)>

  /** The values of an OrderedDict, in insertion order. */
  function Values(p: Params): (r: seq<Value>)
    ensures |r| == |p| && forall i :: 0 <= i < |p| ==> r[i] == p[i].1
  {
    seq(|p|, i requires 0 <= i < |p| => p[i].1)
  }

  /** The nominal parts of a list of values. */
  function Nominals(vs: seq<Value>): (r: seq<real>)
    ensures |r| == |vs| && forall i :: 0 <= i < |vs| ==> r[i] == vs[i].nominal
  {
    seq(|vs|, i requires 0 <= i < |vs| => vs[i].nominal)
  }

  /** The kinds (uncertain or plain) of a list of values. */
  function Kinds(vs: seq<Value>): (r: seq<bool>)
    ensures |r| == |vs| && forall i :: 0 <= i < |vs| ==> r[i] == vs[i].uncertain
  {
    seq(|vs|, i requires 0 <= i < |vs| => vs[i].uncertain)
  }

  /**
   * The backend flag a formula computes with isuncertainties over its arguments; the
   * volume and the temperature are plain floats here, so the parameters decide.
   */
  predicate Flag(vs: seq<Value>) {
    Etc.IsUncertainties(Etc.ScalarArgs(Kinds(vs))) == Ok(true)
  }

  /** The flag is raised exactly when some parameter is a UFloat. */
  lemma FlagIffSomeUncertain(vs: seq<Value>)
    ensures Flag(vs) <==> exists i :: 0 <= i < |vs| && vs[i].uncertain
  {
    Etc.ScalarRule(Kinds(vs));
    if true in Kinds(vs) {
      var i :| 0 <= i < |Kinds(vs)| && Kinds(vs)[i];
      assert vs[i].uncertain;
    }
  }

  /**
   * _set_params: the parameter values in insertion order; with force_norm set, their
   * nominal parts (`value.n`), which a plain float does not have. `None.items()`
   * fails the same way.
   */
  function SetParams(forceNorm: bool, p: Option<Params>): (r: Result<seq<Value>>)
    ensures r.Ok? <==> p.Some? && (forceNorm ==> forall i :: 0 <= i < |p.value| ==> p.value[i].1.uncertain)
    ensures r.Err? ==> r.error == AttributeError
    ensures r.Ok? ==> (|r.value| == |p.value| &&
              forall i :: 0 <= i < |p.value| ==>
                r.value[i].nominal == p.value[i].1.nominal &&
                r.value[i].uncertain == (!forceNorm && p.value[i].1.uncertain))
  {
    if p.None? then Err(AttributeError)
    else if !forceNorm then Ok(Values(p.value))
    else if exists i :: 0 <= i < |p.value| && !p.value[i].1.uncertain then Err(AttributeError)
    else Ok(seq(|p.value|, i requires 0 <= i < |p.value| => Value(p.value[i].1.nominal, false)))
  }

  /**
   * Forcing the nominal values changes no number, only the kinds: the forced list has
   * the same nominal values as the unforced one and selects the plain backends.
   */
  lemma SetParamsForcedIsNominal(p: Option<Params>)
    requires SetParams(true, p).Ok?
    ensures SetParams(false, p).Ok?
    ensures Nominals(SetParams(true, p).value) == Nominals(SetParams(false, p).value)
    ensures !Flag(SetParams(true, p).value)
  {
    var forced := SetParams(true, p).value;
    FlagIffSomeUncertain(forced);
  }

  // The dispatch tables func_st, func_th, func_el and func_anh.

  const STATIC_TAGS: set<string> := {"bm3", "vinet", "kunc"}
  const THERMAL_TAGS: set<string> := {"constq", "tange", "speziale", "dorogokupets2007", "dorogokupets2015", "alphakt"}
  const ELECTRONIC_TAGS: set<string> := {"zharkov", "tsuchiya"}
  const ANHARMONIC_TAGS: set<string> := {"zharkov"}

  /**
   * func_st[tag](v, *params): bm3_p and kunc_p take three parameters and an optional
   * fourth (p_ref, order), vinet_p exactly three; a missing tag is a KeyError.
   */
  function StaticPressure(m: Ops, tag: Option<string>, vs: seq<Value>, v: real): (r: Result<real>)
    ensures (tag.None? || tag.value !in STATIC_TAGS) ==> r == Err(KeyError)
    ensures tag == Some("vinet") && |vs| != 3 ==> r == Err(ArityError)
    ensures (tag == Some("bm3") || tag == Some("kunc")) && !(3 <= |vs| <= 4) ==> r == Err(ArityError)
    ensures r.Ok? ==> tag.Some? && tag.value in STATIC_TAGS && 3 <= |vs| <= 4
  {
    if tag.None? || tag.value !in STATIC_TAGS then Err(KeyError)
    else
      var ps := Nominals(vs);
      if tag.value == "bm3" then
        if !(3 <= |ps| <= 4) then Err(ArityError)
        else if ps[0] == 0.0 || ps[1] == 0.0 then Err(OutsideModel)
        else Ok(EqnBm3.Bm3P(m, v, ps[0], ps[1], ps[2], if |ps| == 4 then ps[3] else 0.0))
      else if tag.value == "vinet" then
        if |ps| != 3 then Err(ArityError)
        else if !EqnVinet.VinetDomain(m, v, ps[0]) then Err(OutsideModel)
        else Ok(EqnVinet.VinetP(m, v, ps[0], ps[1], ps[2], [false] + Kinds(vs)))
      else
        if !(3 <= |ps| <= 4) then Err(ArityError)
        else
          var order := if |ps| == 4 then ps[3] else EqnKunc.DEFAULT_ORDER;
          if !EqnKunc.KuncDomain(m, v, ps[0], order) then Err(OutsideModel)
          else Ok(EqnKunc.KuncP(m, v, ps[0], ps[1], ps[2], order, [false] + Kinds(vs)[..3]))
  }

  /**
   * At the reference volume v0 (the first parameter) every static pressure is 0, or
   * p_ref for bm3 with four parameters, whatever the parameter kinds.
   */
  lemma StaticPressureAtV0(m: Ops, tag: Option<string>, vs: seq<Value>)
    requires ElementaryLaws(m) && |vs| > 0 && vs[0].nominal != 0.0
    ensures var r := StaticPressure(m, tag, vs, vs[0].nominal);
            r.Ok? ==> r.value == (if tag == Some("bm3") && |vs| == 4 then vs[3].nominal else 0.0)
  {
    var v0 := vs[0].nominal;
    var ps := Nominals(vs);
    if tag == Some("bm3") && 3 <= |vs| <= 4 && ps[1] != 0.0 {
      EqnBm3.Bm3PAtV0(m, v0, ps[1], ps[2], if |ps| == 4 then ps[3] else 0.0);
    } else if tag == Some("vinet") && |vs| == 3 {
      EqnVinet.CalPVinetAtV0(m, v0, ps[1], ps[2], false);
      EqnVinet.VinetPSelectsBackend(m, v0, v0, ps[1], ps[2], [false] + Kinds(vs));
    } else if tag == Some("kunc") && 3 <= |vs| <= 4 {
      var order := if |ps| == 4 then ps[3] else EqnKunc.DEFAULT_ORDER;
      EqnKunc.CalPKuncAtV0(m, v0, ps[1], ps[2], order, false);
      EqnKunc.KuncPSelectsBackend(m, v0, v0, ps[1], ps[2], order, [false] + Kinds(vs)[..3]);
    }
  }

  /** The number of parameters between temp and n in each thermal signature. */
  function ThermalArity(tag: string): nat {
    if tag == "dorogokupets2015" then 8 else if tag == "alphakt" then 3 else 5
  }

  /**
   * func_th[tag](v, temp, *params, n, z, t_ref=, three_r=): n and z follow the
   * parameters positionally, so every signature but constq_pth's (not part of this
   * model) takes exactly its own number of parameters.
   */
  function ThermalPressure(m: Ops, tag: string, vs: seq<Value>, v: real, temp: real, n: real, z: real,
                           tRef: real, threeR: real): (r: Result<real>)
    ensures tag !in THERMAL_TAGS ==> r == Err(KeyError)
    ensures tag in THERMAL_TAGS && tag != "constq" && |vs| != ThermalArity(tag) ==> r == Err(ArityError)
    ensures tag == "constq" ==> r == m.constqPth(v, temp, Nominals(vs), n, z, tRef, threeR)
  {
    if tag !in THERMAL_TAGS then Err(KeyError)
    else
      var ps := Nominals(vs);
      var u := Flag(vs);
      if tag == "constq" then m.constqPth(v, temp, ps, n, z, tRef, threeR)
      else if |ps| != ThermalArity(tag) then Err(ArityError)
      else if tag == "tange" then
        EqnThermTange.TangePth(m, v, temp, ps[0], ps[1], ps[2], ps[3], ps[4], n, z, tRef, threeR, u)
      else if tag == "speziale" then
        EqnThermSpeziale.SpezialePth(m, v, temp, ps[0], ps[1], ps[2], ps[3], ps[4], n, z, tRef, threeR, u)
      else if tag == "dorogokupets2007" then
        EqnThermDorogokupets2007.Dorogokupets2007Pth(m, v, temp, ps[0], ps[1], ps[2], ps[3], ps[4], n, z,
                                                     threeR, tRef, u)
      else if tag == "dorogokupets2015" then
        EqnThermDorogokupets2015.Dorogokupets2015Pth(m, v, temp, ps[0], ps[1], ps[2], ps[3], ps[4], ps[5], ps[6],
                                                     ps[7], n, z, tRef, threeR, u)
      else Ok(EqnTherm.AlphaKtPth(v, temp, ps[0], ps[1], ps[2], n, z, tRef, threeR))
  }

  /** Every thermal family but constq is f(temp) - f(t_ref): 0 at the reference temperature. */
  lemma ThermalPressureAtReference(m: Ops, tag: string, vs: seq<Value>, v: real, t: real, n: real, z: real,
                                   threeR: real)
    requires tag != "constq"
    ensures var r := ThermalPressure(m, tag, vs, v, t, n, z, t, threeR);
            r.Ok? ==> r.value == 0.0
  {
    var ps := Nominals(vs);
    var u := Flag(vs);
    if tag in THERMAL_TAGS && |ps| == ThermalArity(tag) {
      if tag == "tange" {
        EqnThermTange.TangePthAtReference(m, v, t, ps[0], ps[1], ps[2], ps[3], ps[4], n, z, threeR, u);
      } else if tag == "speziale" {
        EqnThermSpeziale.SpezialePthAtReference(m, v, t, ps[0], ps[1], ps[2], ps[3], ps[4], n, z, threeR, u);
      } else if tag == "dorogokupets2007" {
        EqnThermDorogokupets2007.Dorogokupets2007PthAtReference(m, v, t, ps[0], ps[1], ps[2], ps[3], ps[4], n, z,
                                                                threeR, u);
      } else if tag == "dorogokupets2015" {
        EqnThermDorogokupets2015.Dorogokupets2015PthAtReference(m, v, t, ps[0], ps[1], ps[2], ps[3], ps[4], ps[5],
                                                                ps[6], ps[7], n, z, threeR, u);
      } else {
        EqnTherm.AlphaKtPthAtReference(v, t, ps[0], ps[1], ps[2], n, z, threeR);
      }
    }
  }

  /** func_el[tag](v, temp, *params, n, z, t_ref=, three_r=): zharkov_pel takes 3 parameters, tsuchiya_pel 5. */
  function ElectronicPressure(m: Ops, tag: string, vs: seq<Value>, v: real, temp: real, n: real, z: real,
                              tRef: real, threeR: real): (r: Result<real>)
    ensures tag !in ELECTRONIC_TAGS ==> r == Err(KeyError)
    ensures tag in ELECTRONIC_TAGS && |vs| != (if tag == "zharkov" then 3 else 5) ==> r == Err(ArityError)
  {
    if tag !in ELECTRONIC_TAGS then Err(KeyError)
    else
      var ps := Nominals(vs);
      if tag == "zharkov" then
        if |ps| != 3 then Err(ArityError)
        else EqnElectronic.ZharkovPel(m, v, temp, ps[0], ps[1], ps[2], n, z, tRef, threeR)
      else
        if |ps| != 5 then Err(ArityError)
        else Ok(EqnElectronic.TsuchiyaPel(m, v, temp, ps[0], ps[1], ps[2], ps[3], ps[4], n, z, threeR, tRef))
  }

  /** Both electronic corrections vanish at the reference temperature. */
  lemma ElectronicPressureAtReference(m: Ops, tag: string, vs: seq<Value>, v: real, t: real, n: real, z: real,
                                      threeR: real)
    ensures var r := ElectronicPressure(m, tag, vs, v, t, n, z, t, threeR);
            r.Ok? ==> r.value == 0.0
  {
    var ps := Nominals(vs);
    if tag == "zharkov" && |ps| == 3 {
      EqnElectronic.ZharkovPelAtReference(m, v, t, ps[0], ps[1], ps[2], n, z, threeR);
    } else if tag == "tsuchiya" && |ps| == 5 {
      EqnElectronic.TsuchiyaPelAtReference(m, v, t, ps[0], ps[1], ps[2], ps[3], ps[4], n, z, threeR);
    }
  }

  /** func_anh[tag](v, temp, *params, n, z, t_ref=, three_r=): zharkov_panh takes 3 parameters. */
  function AnharmonicPressure(m: Ops, tag: string, vs: seq<Value>, v: real, temp: real, n: real, z: real,
                              tRef: real, threeR: real): (r: Result<real>)
    ensures tag !in ANHARMONIC_TAGS ==> r == Err(KeyError)
    ensures tag in ANHARMONIC_TAGS && |vs| != 3 ==> r == Err(ArityError)
  {
    if tag !in ANHARMONIC_TAGS then Err(KeyError)
    else if |vs| != 3 then Err(ArityError)
    else
      var ps := Nominals(vs);
      EqnAnharmonic.ZharkovPanh(m, v, temp, ps[0], ps[1], ps[2], n, z, tRef, threeR)
  }

  /** The anharmonic correction vanishes at the reference temperature. */
  lemma AnharmonicPressureAtReference(m: Ops, tag: string, vs: seq<Value>, v: real, t: real, n: real, z: real,
                                      threeR: real)
    ensures var r := AnharmonicPressure(m, tag, vs, v, t, n, z, t, threeR);
            r.Ok? ==> r.value == 0.0
  {
    if tag in ANHARMONIC_TAGS && |vs| == 3 {
      var ps := Nominals(vs);
      EqnAnharmonic.ZharkovPanhAtReference(m, v, t, ps[0], ps[1], ps[2], n, z, threeR);
    }
  }

  // The volume search shared by MGEOS.cal_v and JHEOS.cal_v.

  /** `p[key]` on an OrderedDict: the value stored under the key, if any. */
  function Lookup(p: Params, key: string): (r: Option<Value>)
    ensures r.None? <==> forall i :: 0 <= i < |p| ==> p[i].0 != key
    ensures r.Some? ==> exists i :: 0 <= i < |p| && p[i] == (key, r.value)
  {
    if |p| == 0 then None
    else if p[0].0 == key then Some(p[0].1)
    else Lookup(p[1..], key)
  }

  /**
   * `params['v0'].nominal_value`: None is not subscriptable, a missing key is a
   * KeyError, and a plain float has no nominal_value.
   */
  function NominalV0(p: Option<Params>): (r: Result<real>)
    ensures p.None? ==> r == Err(NotSubscriptable)
    ensures p.Some? && Lookup(p.value, "v0").None? ==> r == Err(KeyError)
    ensures r.Ok? <==> p.Some? && Lookup(p.value, "v0").Some? && Lookup(p.value, "v0").value.uncertain
    ensures r.Ok? ==> r.value == Lookup(p.value, "v0").value.nominal
  {
    if p.None? then Err(NotSubscriptable)
    else match Lookup(p.value, "v0")
      case None => Err(KeyError)
      case Some(x) => if x.uncertain then Ok(x.nominal) else Err(AttributeError)
  }

  /**
   * numpy broadcasting of the pressure and temperature arrays as np.vectorize does it:
   * equal lengths pair up, a length-1 array is repeated (also against an empty one),
   * and other shapes do not broadcast.
   */
  function Broadcast(ps: seq<real>, ts: seq<real>): (r: Result<seq<(real, real)>>)
    ensures r.Ok? <==> |ps| == |ts| || |ps| == 1 || |ts| == 1
    ensures r.Err? ==> r.error == ShapeMismatch
    ensures r.Ok? ==> (|r.value| == (if |ps| == 1 then |ts| else |ps|) &&
              forall i :: 0 <= i < |r.value| ==>
                r.value[i] == (ps[if |ps| == 1 then 0 else i], ts[if |ts| == 1 then 0 else i]))
  {
    if !(|ps| == |ts| || |ps| == 1 || |ts| == 1) then Err(ShapeMismatch)
    else
      var k := if |ps| == 1 then |ts| else |ps|;
      Ok(seq(k, i requires 0 <= i < k => (ps[if |ps| == 1 then 0 else i], ts[if |ts| == 1 then 0 else i])))
  }

  /** The objective f_diff(v) = cal_p(v, temp) - p of a volume search, for a pressure function. */
  function Objective(pressure: real -> Result<real>, p: real): real -> Result<real> {
    v => (var q :- pressure(v); Ok(q - p))
  }

  /** A root of the objective has the target pressure. */
  lemma ObjectiveRoot(pressure: real -> Result<real>, p: real, v: real)
    ensures Objective(pressure, p)(v) == Ok(0.0) ==> pressure(v) == Ok(p)
  {
    if Objective(pressure, p)(v) == Ok(0.0) {
      assert pressure(v).Ok? && pressure(v).value - p == 0.0;
    }
  }

  /**
   * _cal_v_single: v0 when p <= 1e-5 and temp is the literal 300 (not t_ref);
   * otherwise brenth over [v0 max_strain, v0 min_strain] on f_diff.
   */
  function VolumeSingle(m: Ops, pressure: real -> Result<real>, v0: real, p: real, temp: real,
                        minStrain: real, maxStrain: real): (r: Result<real>)
    ensures p <= 1.0e-5 && temp == 300.0 ==> r == Ok(v0)
    ensures !(p <= 1.0e-5 && temp == 300.0) && BrenthLaw(m) && r.Ok? ==>
              Between(r.value, v0 * maxStrain, v0 * minStrain) && pressure(r.value) == Ok(p)
    ensures !(p <= 1.0e-5 && temp == 300.0) && BrenthLaw(m) && pressure(v0 * maxStrain).Err? ==>
              r == Err(pressure(v0 * maxStrain).error)
  {
    if p <= 1.0e-5 && temp == 300.0 then Ok(v0)
    else
      var f := Objective(pressure, p);
      var r := m.brenth(f, v0 * maxStrain, v0 * minStrain);
      assert BrenthLaw(m) ==> BrenthOutcome(f, v0 * maxStrain, v0 * minStrain, r);
      if r.Ok? then ObjectiveRoot(pressure, p, r.value); r
      else r
  }

  /**
   * f_vu(pp, ttemp) = np.vectorize(_cal_v_single): the broadcast pairs searched one by
   * one at the temperature of their pair; the first failure propagates.
   */
  function Volumes(m: Ops, pressure: real -> real -> Result<real>, v0: real, ps: seq<real>, ts: seq<real>,
                   minStrain: real, maxStrain: real): (r: Result<seq<real>>)
    ensures Broadcast(ps, ts).Err? ==> r == Err(ShapeMismatch)
    ensures Broadcast(ps, ts) == Ok([]) ==> r == Err(EmptyVectorize)
    ensures r.Ok? ==> (Broadcast(ps, ts).Ok? && |r.value| == |Broadcast(ps, ts).value| &&
              forall i :: 0 <= i < |r.value| ==>
                var (p, t) := Broadcast(ps, ts).value[i];
                VolumeSingle(m, pressure(t), v0, p, t, minStrain, maxStrain) == Ok(r.value[i]))
  {
    var pairs :- Broadcast(ps, ts);
    Vectorize((pt: (real, real)) => VolumeSingle(m, pressure(pt.1), v0, pt.0, pt.1, minStrain, maxStrain), pairs)
  }

  /**
   * Each volume of a successful search is v0 for a near-zero pressure at the literal
   * 300 K, and otherwise a bracketed volume at which the pressure curve of its
   * temperature takes the target pressure.
   */
  lemma VolumesSolve(m: Ops, pressure: real -> real -> Result<real>, v0: real, ps: seq<real>, ts: seq<real>,
                     minStrain: real, maxStrain: real, i: int)
    requires BrenthLaw(m)
    requires Volumes(m, pressure, v0, ps, ts, minStrain, maxStrain).Ok?
    requires 0 <= i < |Broadcast(ps, ts).value|
    ensures var vs := Volumes(m, pressure, v0, ps, ts, minStrain, maxStrain).value;
            var (p, t) := Broadcast(ps, ts).value[i];
            i < |vs| &&
            (p <= 1.0e-5 && t == 300.0 ==> vs[i] == v0) &&
            (!(p <= 1.0e-5 && t == 300.0) ==>
               Between(vs[i], v0 * maxStrain, v0 * minStrain) && pressure(t)(vs[i]) == Ok(p))
  {
    var vs := Volumes(m, pressure, v0, ps, ts, minStrain, maxStrain).value;
    var (p, t) := Broadcast(ps, ts).value[i];
    assert VolumeSingle(m, pressure(t), v0, p, t, minStrain, maxStrain) == Ok(vs[i]);
  }

  /**
   * An MGEOS: the configuration the constructor stores, which no method of the class
   * changes, and the force_norm flag, which cal_v raises during its search.
   */
  class MGEOS {
    const n: real
    const z: real
    const paramsSt: Option<Params>
    const paramsTh: Option<Params>
    const paramsAnh: Option<Params>
    const paramsEl: Option<Params>
    const eqnSt: Option<string>
    const eqnTh: Option<string>
    const eqnAnh: Option<string>
    const eqnEl: Option<string>
    const tRef: real
    const threeR: real
    var forceNorm: bool

    /** __init__ keeps whatever tags it is given; a bad tag only fails when it is looked up. */
    constructor(n: real, z: real, paramsSt: Option<Params> := None, paramsTh: Option<Params> := None,
                paramsAnh: Option<Params> := None, paramsEl: Option<Params> := None,
                eqnSt: Option<string> := Some("bm3"), eqnTh: Option<string> := None,
                eqnAnh: Option<string> := None, eqnEl: Option<string> := None,
                tRef: real := 300.0, threeR: real := Conversion.THREE_R)
      ensures this.n == n && this.z == z && this.tRef == tRef && this.threeR == threeR
      ensures this.paramsSt == paramsSt && this.paramsTh == paramsTh
      ensures this.paramsAnh == paramsAnh && this.paramsEl == paramsEl
      ensures this.eqnSt == eqnSt && this.eqnTh == eqnTh && this.eqnAnh == eqnAnh && this.eqnEl == eqnEl
      ensures !forceNorm
    {
      this.n := n;
      this.z := z;
      this.paramsSt := paramsSt;
      this.paramsTh := paramsTh;
      this.paramsAnh := paramsAnh;
      this.paramsEl := paramsEl;
      this.eqnSt := eqnSt;
      this.eqnTh := eqnTh;
      this.eqnAnh := eqnAnh;
      this.eqnEl := eqnEl;
      this.tRef := tRef;
      this.threeR := threeR;
      forceNorm := false;
    }

    // The pressure functions take the value of force_norm at the call as `norm`.

    /** cal_pst: the static pressure of the named equation. */
    function CalPst(norm: bool, m: Ops, v: real): (r: Result<real>)
      ensures SetParams(norm, paramsSt).Err? ==> r == Err(AttributeError)
    {
      var vs :- SetParams(norm, paramsSt);
      StaticPressure(m, eqnSt, vs, v)
    }

    /** cal_pth: 0 when the thermal equation or its parameters are None. */
    function CalPth(norm: bool, m: Ops, v: real, temp: real): (r: Result<real>)
      ensures eqnTh.None? || paramsTh.None? ==> r == Ok(0.0)
      ensures eqnTh.Some? && SetParams(norm, paramsTh).Err? && paramsTh.Some? ==> r == Err(AttributeError)
    {
      if eqnTh.None? || paramsTh.None? then Ok(0.0)
      else
        var vs :- SetParams(norm, paramsTh);
        ThermalPressure(m, eqnTh.value, vs, v, temp, n, z, tRef, threeR)
    }

    /** cal_pel: 0 when the electronic equation or its parameters are None. */
    function CalPel(norm: bool, m: Ops, v: real, temp: real): (r: Result<real>)
      ensures eqnEl.None? || paramsEl.None? ==> r == Ok(0.0)
      ensures eqnEl.Some? && SetParams(norm, paramsEl).Err? && paramsEl.Some? ==> r == Err(AttributeError)
    {
      if eqnEl.None? || paramsEl.None? then Ok(0.0)
      else
        var vs :- SetParams(norm, paramsEl);
        ElectronicPressure(m, eqnEl.value, vs, v, temp, n, z, tRef, threeR)
    }

    /** cal_panh: 0 when the anharmonic equation or its parameters are None. */
    function CalPanh(norm: bool, m: Ops, v: real, temp: real): (r: Result<real>)
      ensures eqnAnh.None? || paramsAnh.None? ==> r == Ok(0.0)
      ensures eqnAnh.Some? && SetParams(norm, paramsAnh).Err? && paramsAnh.Some? ==> r == Err(AttributeError)
    {
      if eqnAnh.None? || paramsAnh.None? then Ok(0.0)
      else
        var vs :- SetParams(norm, paramsAnh);
        AnharmonicPressure(m, eqnAnh.value, vs, v, temp, n, z, tRef, threeR)
    }

    /** cal_p: the four contributions added left to right; the first failure propagates. */
    function CalP(norm: bool, m: Ops, v: real, temp: real): (r: Result<real>)
      ensures CalPst(norm, m, v).Err? ==> r == CalPst(norm, m, v)
      ensures CalPst(norm, m, v).Ok? && CalPth(norm, m, v, temp).Err? ==> r == CalPth(norm, m, v, temp)
    {
      var pst :- CalPst(norm, m, v);
      var pth :- CalPth(norm, m, v, temp);
      var pel :- CalPel(norm, m, v, temp);
      var panh :- CalPanh(norm, m, v, temp);
      Ok(pst + pth + pel + panh)
    }

    /** The total pressure is defined exactly when each term is, and is their sum. */
    lemma CalPIsSum(norm: bool, m: Ops, v: real, temp: real)
      ensures CalP(norm, m, v, temp).Ok? <==>
                CalPst(norm, m, v).Ok? && CalPth(norm, m, v, temp).Ok? &&
                CalPel(norm, m, v, temp).Ok? && CalPanh(norm, m, v, temp).Ok?
      ensures CalP(norm, m, v, temp).Ok? ==>
                CalP(norm, m, v, temp).value
                == CalPst(norm, m, v).value + CalPth(norm, m, v, temp).value
                   + CalPel(norm, m, v, temp).value + CalPanh(norm, m, v, temp).value
    {
    }

    /** With only a static equation configured, the total pressure is the static one at every temperature. */
    lemma StaticOnly(norm: bool, m: Ops, v: real, temp: real)
      requires eqnTh.None? || paramsTh.None?
      requires eqnEl.None? || paramsEl.None?
      requires eqnAnh.None? || paramsAnh.None?
      ensures CalP(norm, m, v, temp) == CalPst(norm, m, v)
    {
      if CalPst(norm, m, v).Ok? {
        assert CalPst(norm, m, v).value + 0.0 + 0.0 + 0.0 == CalPst(norm, m, v).value;
      }
    }

    /**
     * Unless constq (not part of this model) is the thermal equation, every secondary
     * term vanishes at t_ref, so the total pressure there is the static pressure.
     */
    lemma AtReferenceTemperature(norm: bool, m: Ops, v: real)
      requires eqnTh != Some("constq")
      ensures CalP(norm, m, v, tRef).Ok? ==> CalP(norm, m, v, tRef).value == CalPst(norm, m, v).value
    {
      if CalP(norm, m, v, tRef).Ok? {
        if eqnTh.Some? && paramsTh.Some? {
          ThermalPressureAtReference(m, eqnTh.value, SetParams(norm, paramsTh).value, v, tRef, n, z, threeR);
        }
        if eqnEl.Some? && paramsEl.Some? {
          ElectronicPressureAtReference(m, eqnEl.value, SetParams(norm, paramsEl).value, v, tRef, n, z, threeR);
        }
        if eqnAnh.Some? && paramsAnh.Some? {
          AnharmonicPressureAtReference(m, eqnAnh.value, SetParams(norm, paramsAnh).value, v, tRef, n, z, threeR);
        }
        CalPIsSum(norm, m, v, tRef);
      }
    }

    /**
     * A static tag missing from func_st is accepted by the constructor and fails with
     * a KeyError when the static pressure is evaluated; likewise a configured thermal tag.
     */
    lemma UnknownTagFailsOnEvaluation(norm: bool, m: Ops, v: real, temp: real)
      ensures eqnSt.Some? && eqnSt.value !in STATIC_TAGS && SetParams(norm, paramsSt).Ok? ==>
                CalPst(norm, m, v) == Err(KeyError) && CalP(norm, m, v, temp) == Err(KeyError)
      ensures eqnTh.Some? && eqnTh.value !in THERMAL_TAGS && SetParams(norm, paramsTh).Ok? ==>
                CalPth(norm, m, v, temp) == Err(KeyError)
    {
    }

    /** The pressure curve searched by cal_v: cal_p at a fixed temperature with force_norm set. */
    function SearchPressure(m: Ops): real -> real -> Result<real> {
      t => v => CalP(true, m, v, t)
    }

    /**
     * cal_v: v0 is read first; then force_norm is raised for the whole search and
     * lowered again only when the search returns normally.
     */
    method CalV(m: Ops, ps: seq<real>, temps: seq<real>, minStrain: real := 0.2, maxStrain: real := 1.0)
      returns (r: Result<seq<real>>)
      modifies this
      ensures NominalV0(paramsSt).Err? ==> r == Err(NominalV0(paramsSt).error) && forceNorm == old(forceNorm)
      ensures NominalV0(paramsSt).Ok? ==>
                r == Volumes(m, SearchPressure(m), NominalV0(paramsSt).value, ps, temps, minStrain, maxStrain) &&
                forceNorm == r.Err?
    {
      var v0 := NominalV0(paramsSt);
      if v0.Err? {
        return Err(v0.error);
      }
      forceNorm := true;
      r := Volumes(m, SearchPressure(m), v0.value, ps, temps, minStrain, maxStrain);
      if r.Ok? {
        forceNorm := false;
      }
    }

    /**
     * Each volume cal_v returns is v0 for a near-zero pressure at the literal 300 K,
     * and otherwise lies in [v0 max_strain, v0 min_strain] with cal_p equal to the target.
     */
    lemma CalVSolves(m: Ops, v0: real, ps: seq<real>, temps: seq<real>, minStrain: real, maxStrain: real, i: int)
      requires BrenthLaw(m) && NominalV0(paramsSt) == Ok(v0)
      requires Volumes(m, SearchPressure(m), v0, ps, temps, minStrain, maxStrain).Ok?
      requires 0 <= i < |Broadcast(ps, temps).value|
      ensures var vs := Volumes(m, SearchPressure(m), v0, ps, temps, minStrain, maxStrain).value;
              var p := Broadcast(ps, temps).value[i].0;
              var t := Broadcast(ps, temps).value[i].1;
              i < |vs| &&
              (p <= 1.0e-5 && t == 300.0 ==> vs[i] == v0) &&
              (!(p <= 1.0e-5 && t == 300.0) ==>
                 Between(vs[i], v0 * maxStrain, v0 * minStrain) && CalP(true, m, vs[i], t) == Ok(p))
    {
      var vs := Volumes(m, SearchPressure(m), v0, ps, temps, minStrain, maxStrain).value;
      VolumesSolve(m, SearchPressure(m), v0, ps, temps, minStrain, maxStrain, i);
      SearchPressureAt(m, Broadcast(ps, temps).value[i].1, vs[i]);
    }

    lemma SearchPressureAt(m: Ops, t: real, v: real)
      ensures SearchPressure(m)(t)(v) == CalP(true, m, v, t)
    {
    }
  }

  /**
   * A JHEOS: the Hugoniot parameters [rho0, c0, s] (linear) or [rho0, a, b, c]
   * (nonlinear), the constant-q parameters [v0, gamma0, q, theta0], and force_norm.
   */
  class JHEOS {
    const n: real
    const z: real
    const mass: real
    const paramsHugoniot: Option<Params>
    const paramsTherm: Option<Params>
    const threeR: real
    const cV: real
    const nonlinear: bool
    const tRef: real
    var forceNorm: bool

    constructor(n: real, z: real, mass: real, paramsHugoniot: Option<Params>, paramsTherm: Option<Params>,
                threeR: real := Conversion.THREE_R, cV: real := 0.0, nonlinear: bool := false, tRef: real := 300.0)
      ensures this.n == n && this.z == z && this.mass == mass
      ensures this.paramsHugoniot == paramsHugoniot && this.paramsTherm == paramsTherm
      ensures this.threeR == threeR && this.cV == cV && this.nonlinear == nonlinear && this.tRef == tRef
      ensures !forceNorm
    {
      this.n := n;
      this.z := z;
      this.mass := mass;
      this.paramsHugoniot := paramsHugoniot;
      this.paramsTherm := paramsTherm;
      this.threeR := threeR;
      this.cV := cV;
      this.nonlinear := nonlinear;
      this.tRef := tRef;
      forceNorm := false;
    }

    /** _get_rho: mass / vol_uc2mol(v, z) * 1e-6, the density in g/cm^3, as jamieson_pst computes it. */
    function GetRho(v: real): (r: Result<real>)
      ensures r.Ok? <==> z != 0.0 && v != 0.0
      ensures r.Ok? ==> r.value == EqnJamieson.Density(mass, v, z)
    {
      if z == 0.0 || Conversion.VolUc2Mol(v, z) == 0.0 then Err(OutsideModel)
      else Ok(mass / Conversion.VolUc2Mol(v, z) * 1.0e-6)
    }

    /** _get_v: vol_mol2uc(mass / rho * 1e-6, z), the unit-cell volume of a density. */
    function GetV(rho: real): (r: Result<real>)
      ensures r.Ok? <==> rho != 0.0
    {
      if rho == 0.0 then Err(OutsideModel)
      else Ok(Conversion.VolMol2Uc(mass / rho * 1.0e-6, z))
    }

    /** _get_v undoes _get_rho. */
    lemma GetVOfGetRho(v: real)
      requires z != 0.0 && v != 0.0 && mass != 0.0
      ensures GetRho(v).Ok? && GetV(GetRho(v).value) == Ok(v)
    {
      var vMol := Conversion.VolUc2Mol(v, z);
      assert vMol != 0.0;
      MassOverDensity(mass, vMol);
      Conversion.UcMolUcRoundTrip(v, z);
    }

    /** _get_rho undoes _get_v. */
    lemma GetRhoOfGetV(rho: real)
      requires z != 0.0 && rho != 0.0 && mass != 0.0
      ensures GetV(rho).Ok? && GetRho(GetV(rho).value) == Ok(rho)
    {
      var vMol := mass / rho * 1.0e-6;
      MassOverDensity(mass, rho);
      Conversion.MolUcMolRoundTrip(vMol, z);
    }

    /**
     * _hugoniot_p: hugoniot_p(rho, rho0, c0, s), or hugoniot_p_nlin(rho, rho0, a, b, c)
     * (with the compression mask as evidently intended) in the nonlinear case.
     */
    function HugoniotPressure(norm: bool, m: Ops, v: real): (r: Result<real>)
      ensures r.Ok? ==> z != 0.0 && v != 0.0 && paramsHugoniot.Some? &&
                        |paramsHugoniot.value| == (if nonlinear then 4 else 3)
      ensures (z != 0.0 && v != 0.0 && SetParams(norm, paramsHugoniot).Ok? &&
               |paramsHugoniot.value| != (if nonlinear then 4 else 3)) ==> r == Err(ArityError)
    {
      var rho :- GetRho(v);
      var vs :- SetParams(norm, paramsHugoniot);
      var ps := Nominals(vs);
      if nonlinear then
        if |ps| != 4 then Err(ArityError)
        else EqnJamieson.HugoniotPNlinAt(m, rho, ps[0], ps[1], ps[2], ps[3], Flag(vs))
      else
        if |ps| != 3 then Err(ArityError)
        else if !EqnHugoniot.HugoniotDomain(m, rho, ps[0], ps[2]) then Err(OutsideModel)
        else Ok(EqnHugoniot.HugoniotP(m, rho, ps[0], ps[1], ps[2]))
    }

    /**
     * The positional arguments hugoniot_t receives after rho: the Hugoniot parameters
     * (without the last one in the nonlinear case) followed by the thermal ones after v0.
     */
    function TemperatureArgs(hs: seq<real>, ts: seq<real>): seq<real> {
      var h := if nonlinear && |hs| > 0 then hs[..|hs| - 1] else if nonlinear then [] else hs;
      var t := if |ts| > 0 then ts[1..] else [];
      h + t
    }

    /**
     * _hugoniot_t: hugoniot_t(rho, *args, n, mass, three_r=, c_v=) with t_ref left at its
     * default 300; the six arguments must fill rho0, c0, s, gamma0, q and theta0.
     */
    function HugoniotTemperature(norm: bool, m: Ops, v: real): (r: Result<real>)
      ensures r.Ok? ==> z != 0.0 && v != 0.0 && paramsHugoniot.Some? && paramsTherm.Some?
    {
      var rho :- GetRho(v);
      var hs :- SetParams(norm, paramsHugoniot);
      var ts :- SetParams(norm, paramsTherm);
      var args := TemperatureArgs(Nominals(hs), Nominals(ts));
      if |args| != 6 then Err(ArityError)
      else EqnHugoniot.HugoniotTSingle(m, rho, args[0], args[1], args[2], args[3], args[4], args[5],
                                       n, mass, threeR, 300.0, cV)
    }

    /**
     * In the nonlinear case the temperature uses rho0, a and b as the linear rho0, c0 and
     * s, and never sees c; the thermal v0 is dropped in both cases.
     */
    lemma NonlinearTemperatureUsesLinearFit(norm: bool, m: Ops, v: real)
      requires nonlinear && GetRho(v).Ok?
      requires SetParams(norm, paramsHugoniot).Ok? && |paramsHugoniot.value| == 4
      requires SetParams(norm, paramsTherm).Ok? && |paramsTherm.value| == 4
      ensures var h := Nominals(SetParams(norm, paramsHugoniot).value);
              var t := Nominals(SetParams(norm, paramsTherm).value);
              HugoniotTemperature(norm, m, v)
              == EqnHugoniot.HugoniotTSingle(m, GetRho(v).value, h[0], h[1], h[2], t[1], t[2], t[3],
                                             n, mass, threeR, 300.0, cV)
    {
      var h := Nominals(SetParams(norm, paramsHugoniot).value);
      var t := Nominals(SetParams(norm, paramsTherm).value);
      var args := TemperatureArgs(h, t);
      assert args == h[..3] + t[1..];
    }

    /** At the starting density of the Hugoniot the temperature is the literal 300 K, whatever t_ref. */
    lemma HugoniotTemperatureAtRho0(norm: bool, m: Ops, v: real)
      requires GetRho(v).Ok? && GetRho(v).value != 0.0
      requires SetParams(norm, paramsHugoniot).Ok? && SetParams(norm, paramsTherm).Ok?
      requires |TemperatureArgs(Nominals(SetParams(norm, paramsHugoniot).value),
                                Nominals(SetParams(norm, paramsTherm).value))| == 6
      requires TemperatureArgs(Nominals(SetParams(norm, paramsHugoniot).value),
                               Nominals(SetParams(norm, paramsTherm).value))[0] == GetRho(v).value
      ensures HugoniotTemperature(norm, m, v) == Ok(300.0)
    {
      var args := TemperatureArgs(Nominals(SetParams(norm, paramsHugoniot).value),
                                  Nominals(SetParams(norm, paramsTherm).value));
      EqnHugoniot.HugoniotTSingleAtRho0(m, GetRho(v).value, args[1], args[2], args[3], args[4], args[5],
                                        n, mass, threeR, 300.0, 300.0, cV);
    }

    /** cal_pth: constq_pth(v, temp, *params_therm, n, z, t_ref=, three_r=). */
    function CalPth(norm: bool, m: Ops, v: real, temp: real): (r: Result<real>)
      ensures paramsTherm.None? ==> r == Err(AttributeError)
    {
      var ts :- SetParams(norm, paramsTherm);
      m.constqPth(v, temp, Nominals(ts), n, z, tRef, threeR)
    }

    /** _hugoniot_pth: the thermal pressure at the Hugoniot temperature of v. */
    function HugoniotPth(norm: bool, m: Ops, v: real): Result<real> {
      var temp :- HugoniotTemperature(norm, m, v);
      CalPth(norm, m, v, temp)
    }

    /** cal_pst: the Hugoniot pressure minus the thermal pressure along the Hugoniot. */
    function CalPst(norm: bool, m: Ops, v: real): (r: Result<real>)
      ensures HugoniotPressure(norm, m, v).Err? ==> r == HugoniotPressure(norm, m, v)
    {
      var pH :- HugoniotPressure(norm, m, v);
      var pThH :- HugoniotPth(norm, m, v);
      Ok(pH - pThH)
    }

    /** cal_p: the static pressure plus the thermal pressure at temp. */
    function CalP(norm: bool, m: Ops, v: real, temp: real): (r: Result<real>)
      ensures CalPst(norm, m, v).Err? ==> r == CalPst(norm, m, v)
      ensures CalPst(norm, m, v).Ok? && CalPth(norm, m, v, temp).Err? ==> r == CalPth(norm, m, v, temp)
    {
      var pst :- CalPst(norm, m, v);
      var pth :- CalPth(norm, m, v, temp);
      Ok(pst + pth)
    }

    /**
     * The total pressure is the Hugoniot pressure minus the thermal pressure at the
     * Hugoniot temperature plus the thermal pressure at temp; at the Hugoniot
     * temperature itself it is the Hugoniot pressure.
     */
    lemma CalPDecomposition(norm: bool, m: Ops, v: real, temp: real)
      ensures CalP(norm, m, v, temp).Ok? <==>
                HugoniotPressure(norm, m, v).Ok? && HugoniotPth(norm, m, v).Ok? && CalPth(norm, m, v, temp).Ok?
      ensures CalP(norm, m, v, temp).Ok? ==>
                CalP(norm, m, v, temp).value
                == HugoniotPressure(norm, m, v).value - HugoniotPth(norm, m, v).value + CalPth(norm, m, v, temp).value
      ensures CalP(norm, m, v, temp).Ok? && HugoniotTemperature(norm, m, v) == Ok(temp) ==>
                CalP(norm, m, v, temp).value == HugoniotPressure(norm, m, v).value
    {
    }

    /**
     * In the linear case, with rho0 the density of the thermal v0 and t_ref = 300,
     * cal_pst is jamieson_pst of eqn_jamieson.
     */
    lemma LinearAgreesWithJamiesonPst(norm: bool, m: Ops, v: real)
      requires !nonlinear && tRef == 300.0
      requires SetParams(norm, paramsHugoniot).Ok? && |paramsHugoniot.value| == 3
      requires SetParams(norm, paramsTherm).Ok? && |paramsTherm.value| == 4
      requires EqnJamieson.DensityDomain(v, paramsTherm.value[0].1.nominal, z)
      requires paramsHugoniot.value[0].1.nominal == EqnJamieson.Density(mass, paramsTherm.value[0].1.nominal, z)
      ensures var h := Nominals(SetParams(norm, paramsHugoniot).value);
              var t := Nominals(SetParams(norm, paramsTherm).value);
              CalPst(norm, m, v)
              == EqnJamieson.JamiesonPst(m, v, t[0], h[1], h[2], t[1], t[2], t[3], n, z, mass, cV, threeR, tRef)
    {
      var h := Nominals(SetParams(norm, paramsHugoniot).value);
      var t := Nominals(SetParams(norm, paramsTherm).value);
      var v0 := t[0];
      assert GetRho(v) == Ok(EqnJamieson.Density(mass, v, z));
      var rho := EqnJamieson.Density(mass, v, z);
      var rho0 := EqnJamieson.Density(mass, v0, z);
      assert h[0] == rho0;
      if EqnHugoniot.HugoniotDomain(m, rho, rho0, h[2]) {
        assert HugoniotPressure(norm, m, v) == Ok(EqnHugoniot.HugoniotP(m, rho, rho0, h[1], h[2]));
        var args := TemperatureArgs(h, t);
        assert args == h + t[1..];
        assert args[0] == rho0 && args[1] == h[1] && args[2] == h[2];
        assert args[3] == t[1] && args[4] == t[2] && args[5] == t[3];
        assert t == [v0, t[1], t[2], t[3]];
        assert HugoniotPth(norm, m, v)
               == EqnJamieson.JamiesonPth(m, v, v0, h[1], h[2], t[1], t[2], t[3], n, z, mass, cV, threeR, tRef);
      } else {
        assert HugoniotPressure(norm, m, v) == Err(OutsideModel);
      }
    }

    /** The pressure curve searched by cal_v: cal_p at a fixed temperature with force_norm set. */
    function SearchPressure(m: Ops): real -> real -> Result<real> {
      t => v => CalP(true, m, v, t)
    }

    /**
     * cal_v: v0 comes from the thermal parameters; force_norm is raised for the
     * search and lowered only when the search returns normally.
     */
    method CalV(m: Ops, ps: seq<real>, temps: seq<real>, minStrain: real := 0.3, maxStrain: real := 1.0)
      returns (r: Result<seq<real>>)
      modifies this
      ensures NominalV0(paramsTherm).Err? ==> r == Err(NominalV0(paramsTherm).error) && forceNorm == old(forceNorm)
      ensures NominalV0(paramsTherm).Ok? ==>
                r == Volumes(m, SearchPressure(m), NominalV0(paramsTherm).value, ps, temps, minStrain, maxStrain) &&
                forceNorm == r.Err?
    {
      var v0 := NominalV0(paramsTherm);
      if v0.Err? {
        return Err(v0.error);
      }
      forceNorm := true;
      r := Volumes(m, SearchPressure(m), v0.value, ps, temps, minStrain, maxStrain);
      if r.Ok? {
        forceNorm := false;
      }
    }

    /**
     * Each volume cal_v returns is v0 for a near-zero pressure at the literal 300 K,
     * and otherwise lies in [v0 max_strain, v0 min_strain] with cal_p equal to the target.
     */
    lemma CalVSolves(m: Ops, v0: real, ps: seq<real>, temps: seq<real>, minStrain: real, maxStrain: real, i: int)
      requires BrenthLaw(m) && NominalV0(paramsTherm) == Ok(v0)
      requires Volumes(m, SearchPressure(m), v0, ps, temps, minStrain, maxStrain).Ok?
      requires 0 <= i < |Broadcast(ps, temps).value|
      ensures var vs := Volumes(m, SearchPressure(m), v0, ps, temps, minStrain, maxStrain).value;
              var p := Broadcast(ps, temps).value[i].0;
              var t := Broadcast(ps, temps).value[i].1;
              i < |vs| &&
              (p <= 1.0e-5 && t == 300.0 ==> vs[i] == v0) &&
              (!(p <= 1.0e-5 && t == 300.0) ==>
                 Between(vs[i], v0 * maxStrain, v0 * minStrain) && CalP(true, m, vs[i], t) == Ok(p))
    {
      var vs := Volumes(m, SearchPressure(m), v0, ps, temps, minStrain, maxStrain).value;
      VolumesSolve(m, SearchPressure(m), v0, ps, temps, minStrain, maxStrain, i);
      SearchPressureAt(m, Broadcast(ps, temps).value[i].1, vs[i]);
    }

    lemma SearchPressureAt(m: Ops, t: real, v: real)
      ensures SearchPressure(m)(t)(v) == CalP(true, m, v, t)
    {
    }
  }

  // Density algebra behind the JHEOS round trips.

  /** mass / x * 1e-6 is its own inverse on non-zero values: molar volume to density and back. */
  lemma MassOverDensity(mass: real, vMol: real)
    requires mass != 0.0 && vMol != 0.0
    ensures mass / vMol * 1.0e-6 != 0.0
    ensures mass / (mass / vMol * 1.0e-6) * 1.0e-6 == vMol
  {
    var rho := mass / vMol * 1.0e-6;
    assert rho * vMol == mass * 1.0e-6;
    assert rho != 0.0;
    assert mass / rho * rho == mass;
  }
}
