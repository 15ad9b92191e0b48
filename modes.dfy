/** The design/offdesign flag switches of Network.init_design and
    Network.init_offdesign (src/tespy/networks/network.py), one connection
    or one component at a time. Reading design values from files is not
    part of this model: the design values are fields of the records. */
module Modes {
  import opened Wrappers
  import opened Units
  import opened Connections

  // ---------------------------------------------------------------------
  // Connections

  /** Only the fixed and referenced flags and the SI value of a property may
      differ between `a` and `b`. */
  predicate FlagsOnly(a: Quantity, b: Quantity)
  {
    a == b.(valSet := a.valSet, refSet := a.refSet, valSI := a.valSI)
  }

  /** Only the fixed flag of a property may differ between `a` and `b`. */
  predicate OnlyFixedFlag(a: Quantity, b: Quantity)
  {
    a == b.(valSet := a.valSet)
  }

  /** `a` and `b` agree on everything but the nine properties and the
      new-design flag. */
  predicate SameConnFrame(a: Conn, b: Conn)
  {
    && a.fluid == b.fluid && a.design == b.design && a.offdesign == b.offdesign
    && a.localDesign == b.localDesign && a.localOffdesign == b.localOffdesign
    && a.hasDesignPath == b.hasDesignPath && a.goodStartingValues == b.goodStartingValues
  }

  /** A quantity no longer fixed; with `alsoRefs` not referenced either. */
  function Unfixed(q: Quantity, alsoRefs: bool): Quantity
  {
    q.(valSet := false, refSet := !alsoRefs && q.refSet)
  }

  /** A fixed quantity; with `fromDesign` its SI value is the design value. */
  function Fixed(q: Quantity, fromDesign: bool): Quantity
  {
    q.(valSet := true, valSI := if fromDesign then q.design else q.valSI)
  }

  /** Every property of `r` is that of `c`, passed through `f` when it is
      listed in `props`. */
  predicate MappedProps(c: Conn, r: Conn, props: seq<Prop>, f: Quantity -> Quantity)
  {
    forall p :: Get(r, p) == if p in props then f(Get(c, p)) else Get(c, p)
  }

  /** Passing one more listed property through an idempotent `f` extends
      MappedProps by that property. */
  lemma MappedPropsStep(c: Conn, r: Conn, props: seq<Prop>, i: nat, f: Quantity -> Quantity)
    requires i < |props| && MappedProps(c, r, props[..i], f)
    requires forall q :: f(f(q)) == f(q)
    ensures MappedProps(c, With(r, props[i], f(Get(r, props[i]))), props[..i + 1], f)
  {
    assert props[..i + 1] == props[..i] + [props[i]];
  }

  /** Unfix the listed properties; with `alsoRefs` their references too. */
  method UnsetConnProps(c: Conn, props: seq<Prop>, alsoRefs: bool) returns (r: Conn)
    ensures forall p :: p in props ==> !Get(r, p).valSet
    ensures forall p :: p in props ==> Get(r, p).refSet == (!alsoRefs && Get(c, p).refSet)
    ensures forall p :: p in props ==> Get(r, p).valSI == Get(c, p).valSI
    ensures forall p :: p !in props ==> Get(r, p) == Get(c, p)
    ensures forall p :: FlagsOnly(Get(r, p), Get(c, p))
    ensures SameConnFrame(r, c) && r.newDesign == c.newDesign
  {
    ghost var f := q => Unfixed(q, alsoRefs);
    r := c;
    var i := 0;
    while i < |props|
      invariant 0 <= i <= |props|
      invariant MappedProps(c, r, props[..i], f)
      invariant SameConnFrame(r, c) && r.newDesign == c.newDesign
    {
      var p := props[i];
      var q := Get(r, p).(valSet := false);
      if alsoRefs {
        q := q.(refSet := false);
      }
      MappedPropsStep(c, r, props, i, f);
      r := With(r, p, q);
      i := i + 1;
    }
    assert props[..|props|] == props;
  }

  /** Fix the listed properties; with `fromDesign` their SI value becomes
      the design value. */
  method SetConnProps(c: Conn, props: seq<Prop>, fromDesign: bool) returns (r: Conn)
    ensures forall p :: p in props ==> Get(r, p).valSet
    ensures forall p :: p in props ==> Get(r, p).valSI == (if fromDesign then Get(c, p).design else Get(c, p).valSI)
    ensures forall p :: p in props ==> Get(r, p).refSet == Get(c, p).refSet
    ensures forall p :: p !in props ==> Get(r, p) == Get(c, p)
    ensures forall p :: FlagsOnly(Get(r, p), Get(c, p))
    ensures SameConnFrame(r, c) && r.newDesign == c.newDesign
  {
    ghost var f := q => Fixed(q, fromDesign);
    r := c;
    var i := 0;
    while i < |props|
      invariant 0 <= i <= |props|
      invariant MappedProps(c, r, props[..i], f)
      invariant SameConnFrame(r, c) && r.newDesign == c.newDesign
    {
      var p := props[i];
      var q := Get(r, p).(valSet := true);
      if fromDesign {
        q := q.(valSI := q.design);
      }
      MappedPropsStep(c, r, props, i, f);
      r := With(r, p, q);
      i := i + 1;
    }
    assert props[..|props|] == props;
  }

  /** init_offdesign for a connection not marked local_design: the design
      properties lose their fixed values and references, then the
      offdesign properties are fixed at their design values. A property in
      both lists ends fixed. */
  predicate ConnOffdesignSwitched(c: Conn, r: Conn)
  {
    (forall p :: PropOffdesignSwitched(c, r, p)) && SameConnFrame(r, c) && !r.newDesign
  }

  /** The offdesign switch of one property of a connection. */
  predicate PropOffdesignSwitched(c: Conn, r: Conn, p: Prop)
  {
    && (p in c.offdesign ==> Get(r, p).valSet && Get(r, p).valSI == Get(c, p).design)
    && (p in c.design && p !in c.offdesign ==> !Get(r, p).valSet)
    && (p in c.design ==> !Get(r, p).refSet)
    && (p !in c.design ==> Get(r, p).refSet == Get(c, p).refSet)
    && (p !in c.offdesign ==> Get(r, p).valSI == Get(c, p).valSI)
    && (p !in c.design && p !in c.offdesign ==> Get(r, p) == Get(c, p))
    && FlagsOnly(Get(r, p), Get(c, p))
  }

  method ConnToOffdesign(c: Conn) returns (r: Conn)
    ensures ConnOffdesignSwitched(c, r)
  {
    var unset := UnsetConnProps(c, c.design, true);
    var fixed := SetConnProps(unset, c.offdesign, true);
    r := fixed.(newDesign := false);
    forall p ensures PropOffdesignSwitched(c, r, p) {
      assert Get(r, p) == Get(fixed, p);
      assert FlagsOnly(Get(unset, p), Get(c, p));
    }
  }

  /** The connection with the design values of mass flow, pressure,
      enthalpy and fluid cleared, as init_design does with NaN. */
  function ClearDesign(c: Conn): (r: Conn)
    ensures !r.m.hasDesign && !r.p.hasDesign && !r.h.hasDesign && r.fluid.design == map[]
    ensures r.m == c.m.(hasDesign := false) && r.p == c.p.(hasDesign := false) && r.h == c.h.(hasDesign := false)
    ensures forall p :: p !in {M, P, H} ==> Get(r, p) == Get(c, p)
    ensures r.fluid == c.fluid.(design := map[])
    ensures forall p :: Get(r, p).valSet == Get(c, p).valSet && Get(r, p).valSI == Get(c, p).valSI && Get(r, p).refSet == Get(c, p).refSet
    ensures r.design == c.design && r.offdesign == c.offdesign && r.newDesign == c.newDesign
    ensures r.localDesign == c.localDesign && r.localOffdesign == c.localOffdesign
    ensures r.hasDesignPath == c.hasDesignPath && r.goodStartingValues == c.goodStartingValues
  {
    c.(m := c.m.(hasDesign := false), p := c.p.(hasDesign := false), h := c.h.(hasDesign := false),
       fluid := c.fluid.(design := map[]))
  }

  /** The redesign switch of a connection: fix the design properties,
      then free the offdesign ones; values and references are kept. */
  method Redesign(c: Conn) returns (r: Conn)
    ensures forall p :: p in c.offdesign ==> !Get(r, p).valSet
    ensures forall p :: p in c.design && p !in c.offdesign ==> Get(r, p).valSet
    ensures forall p :: p !in c.design && p !in c.offdesign ==> Get(r, p) == Get(c, p)
    ensures forall p :: OnlyFixedFlag(Get(r, p), Get(c, p))
    ensures SameConnFrame(r, c) && r.newDesign == c.newDesign
  {
    var fixed := SetConnProps(c, c.design, false);
    r := UnsetConnProps(fixed, c.offdesign, false);
  }

  /** init_design for a connection without local_offdesign: clear the
      design values, mark it new, and on redesign fix the design
      properties and then free the offdesign ones. A property in both lists
      ends free. */
  predicate ConnDesignSwitched(c: Conn, r: Conn, redesign: bool)
  {
    && (forall p :: OnlyFixedFlag(Get(r, p), Get(ClearDesign(c), p)))
    && (redesign ==> forall p :: p in c.offdesign ==> !Get(r, p).valSet)
    && (redesign ==> forall p :: p in c.design && p !in c.offdesign ==> Get(r, p).valSet)
    && (forall p :: !redesign || (p !in c.design && p !in c.offdesign) ==> Get(r, p).valSet == Get(c, p).valSet)
    && SameConnFrame(r, ClearDesign(c)) && r.newDesign
  }

  method ConnToDesign(c: Conn, redesign: bool) returns (r: Conn)
    ensures ConnDesignSwitched(c, r, redesign)
  {
    var cleared := ClearDesign(c);
    var marked := cleared.(newDesign := true);
    assert forall p :: Get(marked, p) == Get(cleared, p);
    assert marked.design == c.design && marked.offdesign == c.offdesign;
    if redesign {
      r := Redesign(marked);
    } else {
      r := marked;
    }
  }

  /** The error init_design raises for a connection with local_offdesign
      and no design path. */
  datatype ModeError = MissingDesignPath

  /** init_design for a connection with local_offdesign: it needs its own
      design path; its design properties are freed and its offdesign
      properties fixed. The values read from the path are not part of this
      model. */
  predicate ConnLocalOffdesignSwitched(c: Conn, r: Conn)
  {
    && (forall p :: p in c.offdesign ==> Get(r, p).valSet)
    && (forall p :: p in c.design && p !in c.offdesign ==> !Get(r, p).valSet)
    && (forall p :: p !in c.design && p !in c.offdesign ==> Get(r, p) == Get(c, p))
    && (forall p :: FlagsOnly(Get(r, p), Get(c, p)))
    && (forall p :: Get(r, p).refSet == Get(c, p).refSet && Get(r, p).valSI == Get(c, p).valSI)
    && SameConnFrame(r, c) && r.newDesign == c.newDesign
  }

  method ConnLocalOffdesign(c: Conn) returns (r: Result<Conn, ModeError>)
    ensures r.Err? <==> !c.hasDesignPath
    ensures r.Ok? ==> ConnLocalOffdesignSwitched(c, r.value)
  {
    if !c.hasDesignPath {
      return Err(MissingDesignPath);
    }
    var unset := UnsetConnProps(c, c.design, false);
    var fixed := SetConnProps(unset, c.offdesign, false);
    r := Ok(fixed);
  }

  // ---------------------------------------------------------------------
  // Components

  /** A component parameter: fixed flag, value, design value, and whether
      it is a component property (dc_cp), which takes its design value. */
  datatype CompParam = CompParam(isSet: bool, val: real, design: real, isProperty: bool)

  /** What the network sees of a component: its parameters, its design and
      offdesign lists, its mode flags and, after comp_init, its counts. */
  datatype NetComp = NetComp(
    params: map<string, CompParam>, design: seq<string>, offdesign: seq<string>,
    localDesign: bool, localOffdesign: bool, hasDesignPath: bool, newDesign: bool,
    numEq: nat, numVars: nat)

  /** The design and offdesign lists name parameters of the component. */
  predicate ListsKnown(cp: NetComp)
  {
    (forall i :: 0 <= i < |cp.design| ==> cp.design[i] in cp.params)
    && (forall i :: 0 <= i < |cp.offdesign| ==> cp.offdesign[i] in cp.params)
  }

  /** Set the fixed flag of the listed parameters to `flag`; with
      `fromDesign` a component property also takes its design value. */
  method SetCompFlags(params: map<string, CompParam>, names: seq<string>, flag: bool, fromDesign: bool)
    returns (r: map<string, CompParam>)
    requires forall i :: 0 <= i < |names| ==> names[i] in params
    ensures r.Keys == params.Keys
    ensures forall n :: n in names ==> r[n].isSet == flag && r[n].design == params[n].design
    ensures forall n :: n in names ==> r[n].val == (if fromDesign && params[n].isProperty then params[n].design else params[n].val)
    ensures forall n :: n in names ==> r[n].isProperty == params[n].isProperty
    ensures forall n :: n in params && n !in names ==> r[n] == params[n]
  {
    r := params;
    var i := 0;
    while i < |names|
      invariant 0 <= i <= |names|
      invariant r.Keys == params.Keys
      invariant forall n :: n in names[..i] ==>
        r[n] == params[n].(isSet := flag, val := if fromDesign && params[n].isProperty then params[n].design else params[n].val)
      invariant forall n :: n in params && n !in names[..i] ==> r[n] == params[n]
    {
      var n := names[i];
      var e := r[n].(isSet := flag);
      if fromDesign && e.isProperty {
        e := e.(val := e.design);
      }
      r := r[n := e];
      assert names[..i + 1] == names[..i] + [n];
      i := i + 1;
    }
    assert names[..|names|] == names;
  }

  /** The offdesign switch of a component: the design parameters are
      freed, then the offdesign parameters fixed, component properties at
      their design values. A parameter in both lists ends fixed. */
  predicate CompOffdesignSwitched(cp: NetComp, r: NetComp)
    requires ListsKnown(cp)
  {
    && r.params.Keys == cp.params.Keys
    && (forall n :: n in cp.offdesign ==> r.params[n].isSet)
    && (forall n :: n in cp.offdesign && cp.params[n].isProperty ==> r.params[n].val == cp.params[n].design)
    && (forall n :: n in cp.design && n !in cp.offdesign ==> !r.params[n].isSet && r.params[n].val == cp.params[n].val)
    && (forall n :: n in cp.params && n !in cp.design && n !in cp.offdesign ==> r.params[n] == cp.params[n])
    && r == cp.(params := r.params)
  }

  method CompToOffdesign(cp: NetComp) returns (r: NetComp)
    requires ListsKnown(cp)
    ensures CompOffdesignSwitched(cp, r)
  {
    var unset := SetCompFlags(cp.params, cp.design, false, false);
    var fixed := SetCompFlags(unset, cp.offdesign, true, true);
    r := cp.(params := fixed);
  }

  /** The redesign switch of a component: the design parameters are fixed,
      then the offdesign parameters freed. A parameter in both lists ends
      free; no value changes. */
  predicate CompDesignSwitched(cp: NetComp, r: NetComp)
    requires ListsKnown(cp)
  {
    && r.params.Keys == cp.params.Keys
    && (forall n :: n in cp.offdesign ==> !r.params[n].isSet)
    && (forall n :: n in cp.design && n !in cp.offdesign ==> r.params[n].isSet)
    && (forall n :: n in cp.params ==> r.params[n].val == cp.params[n].val && r.params[n].design == cp.params[n].design)
    && (forall n :: n in cp.params && n !in cp.design && n !in cp.offdesign ==> r.params[n] == cp.params[n])
    && r == cp.(params := r.params)
  }

  method CompToDesign(cp: NetComp) returns (r: NetComp)
    requires ListsKnown(cp)
    ensures CompDesignSwitched(cp, r)
  {
    var fixed := SetCompFlags(cp.params, cp.design, true, false);
    var unset := SetCompFlags(fixed, cp.offdesign, false, false);
    r := cp.(params := unset);
  }
}
