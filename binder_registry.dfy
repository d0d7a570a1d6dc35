/**
 * The binder registry: ordered binders, dialect-specific ones before global
 * ones, and the first binder that accepts a value applies it to the native
 * target (a statement parameter or a document field).
 */
module BinderRegistry {
  import opened Wrappers
  import opened Values
  import UserTypeRegistry

  /** What a bind is for. */
  datatype BindOpKind = FILTER | INSERT | UPDATE_SET | UPSERT_FILTER | UPSERT_SET

  /** The bind context: the operation (possibly null) and the column or document path. */
  datatype BindContext = BindContext(opKind: Option<BindOpKind>, path: string)

  /** A binder, known by its target and value classes and its name. */
  datatype Binder = Binder(targetType: string, valueType: string, name: string)

  /**
   * The parts of the binders the registry only calls: Class.isInstance on
   * class names (a class, then the object's class), and supports.
   */
  datatype BinderWorld = BinderWorld(
    isInstance: (string, string) -> bool,
    supports: (Binder, BindContext, Option<Bind>, Value) -> bool)

  /** A binder provider: its dialect id and its binders, each possibly null. */
  datatype BinderProvider = BinderProvider(dialectId: Option<string>, binders: Option<seq<Option<Binder>>>)

  /** One application of a binder to a target. */
  datatype Application = Application(binder: Binder, ctx: BindContext, bind: Option<Bind>, value: Value)

  /** A native target; the binders applied to it are recorded in order. */
  class BindTarget {
    const cls: string
    var applied: seq<Application>

    constructor (cls: string)
      ensures this.cls == cls && applied == []
    {
      this.cls := cls;
      applied := [];
    }
  }

  /** The binders one provider contributes to a tier. */
  function Contributed(p: Option<BinderProvider>, global: bool, dialectId: string): seq<Option<Binder>>
  {
    if p.None? || p.value.binders.None? then []
    else
      var did := UserTypeRegistry.NormalizeDialect(p.value.dialectId);
      var selected := if global then did == UserTypeRegistry.GlobalDialect
                      else did != UserTypeRegistry.GlobalDialect && did == dialectId;
      if selected then p.value.binders.value else []
  }

  /** The binders of the providers one tier selects, in registration order. */
  function Ordered(providers: seq<Option<BinderProvider>>, global: bool, dialectId: string): seq<Option<Binder>>
  {
    if providers == [] then []
    else Ordered(providers[..|providers| - 1], global, dialectId) + Contributed(providers[|providers| - 1], global, dialectId)
  }

  predicate NoNull(bs: seq<Option<Binder>>)
  {
    forall i :: 0 <= i < |bs| ==> bs[i].Some?
  }

  function Unwrapped(bs: seq<Option<Binder>>): (r: seq<Binder>)
    requires NoNull(bs)
    ensures |r| == |bs| && forall i :: 0 <= i < |bs| ==> r[i] == bs[i].value
  {
    if bs == [] then [] else [bs[0].value] + Unwrapped(bs[1..])
  }

  /** Whether a binder takes this target and value: target class, value class (not checked for null) and supports. */
  predicate Accepts(w: BinderWorld, b: Binder, targetCls: string, ctx: BindContext, bind: Option<Bind>, value: Value)
  {
    w.isInstance(b.targetType, targetCls)
    && (value == VNull || w.isInstance(b.valueType, TypeName(value)))
    && w.supports(b, ctx, bind, value)
  }

  /** The position of the first binder that accepts, if any. */
  function FirstAccepting(w: BinderWorld, ordered: seq<Binder>, targetCls: string, ctx: BindContext, bind: Option<Bind>, value: Value): (r: Option<nat>)
    ensures r.Some? ==> r.value < |ordered| && Accepts(w, ordered[r.value], targetCls, ctx, bind, value)
    ensures r.Some? ==> forall j :: 0 <= j < r.value ==> !Accepts(w, ordered[j], targetCls, ctx, bind, value)
    ensures r.None? ==> forall j :: 0 <= j < |ordered| ==> !Accepts(w, ordered[j], targetCls, ctx, bind, value)
  {
    if ordered == [] then None
    else if Accepts(w, ordered[0], targetCls, ctx, bind, value) then Some(0)
    else
      var r := FirstAccepting(w, ordered[1..], targetCls, ctx, bind, value);
      if r.None? then None
      else
        assert ordered[1..][r.value] == ordered[r.value + 1];
        assert forall j :: 0 <= j < r.value ==> ordered[1..][j] == ordered[j + 1];
        Some(r.value + 1)
  }

  class Registry {
    const dialectId: string
    const dialectOrdered: seq<Binder>
    const globalOrdered: seq<Binder>

    constructor (dialectId: string, dialectOrdered: seq<Binder>, globalOrdered: seq<Binder>)
      ensures this.dialectId == dialectId
      ensures this.dialectOrdered == dialectOrdered && this.globalOrdered == globalOrdered
    {
      this.dialectId := dialectId;
      this.dialectOrdered := dialectOrdered;
      this.globalOrdered := globalOrdered;
    }

    /** The binder bind applies: the first accepting dialect binder, else the first accepting global one. */
    function Chosen(w: BinderWorld, targetCls: string, ctx: BindContext, bind: Option<Bind>, value: Value): (r: Option<Binder>)
      ensures r.Some? ==> Accepts(w, r.value, targetCls, ctx, bind, value)
      ensures r.Some? ==> r.value in dialectOrdered || r.value in globalOrdered
      ensures r.None? <==> ((forall j :: 0 <= j < |dialectOrdered| ==> !Accepts(w, dialectOrdered[j], targetCls, ctx, bind, value))
                            && (forall j :: 0 <= j < |globalOrdered| ==> !Accepts(w, globalOrdered[j], targetCls, ctx, bind, value)))
    {
      var d := FirstAccepting(w, dialectOrdered, targetCls, ctx, bind, value);
      if d.Some? then Some(dialectOrdered[d.value])
      else
        var g := FirstAccepting(w, globalOrdered, targetCls, ctx, bind, value);
        if g.Some? then Some(globalOrdered[g.value]) else None
    }

    /** The message of the no-binder error. */
    function NoBinderMessage(targetCls: string, bind: Option<Bind>, value: Value): string
    {
      "No binder found for dialectId=" + dialectId + ", target=" + targetCls
        + ", value=" + TypeName(value)
        + ", userTypeId=" + (if bind.None? then "null" else bind.value.userTypeId)
    }

    /** tryBind: the loop over one tier; the first accepting binder is applied and ends it. */
    static method TryBind(w: BinderWorld, ordered: seq<Binder>, target: BindTarget, ctx: BindContext, bind: Option<Bind>, value: Value)
      returns (found: bool)
      modifies target
      ensures var first := FirstAccepting(w, ordered, target.cls, ctx, bind, value);
        found == first.Some?
        && target.applied == old(target.applied) + (if found then [Application(ordered[first.value], ctx, bind, value)] else [])
    {
      var i := 0;
      while i < |ordered|
        invariant 0 <= i <= |ordered|
        invariant forall j :: 0 <= j < i ==> !Accepts(w, ordered[j], target.cls, ctx, bind, value)
        invariant target.applied == old(target.applied)
      {
        var b := ordered[i];
        if w.isInstance(b.targetType, target.cls)
          && (value == VNull || w.isInstance(b.valueType, TypeName(value)))
          && w.supports(b, ctx, bind, value)
        {
          target.applied := target.applied + [Application(b, ctx, bind, value)];
          FirstIsFirst(w, ordered, target.cls, ctx, bind, value, i);
          return true;
        }
        i := i + 1;
      }
      return false;
    }

    /** bind: argument checks, then the dialect tier, then the global tier, else the error. */
    method Bind(w: BinderWorld, target: BindTarget?, ctx: Option<BindContext>, bind: Option<Bind>, value: Value)
      returns (r: Result<()>)
      modifies target
      ensures target == null ==> r == Err(IllegalArgument("target is required"))
      ensures target != null && ctx.None? ==> r == Err(IllegalArgument("ctx is required"))
      ensures target != null && ctx.Some? && ctx.value.opKind.None? ==> r == Err(IllegalArgument("ctx.opKind is required"))
      ensures target != null && ctx.Some? && ctx.value.opKind.Some? ==>
        var chosen := Chosen(w, target.cls, ctx.value, bind, value);
        (chosen.Some? ==> r == Ok(()) && target.applied == old(target.applied) + [Application(chosen.value, ctx.value, bind, value)])
        && (chosen.None? ==> r == Err(IllegalArgument(NoBinderMessage(target.cls, bind, value))) && target.applied == old(target.applied))
    {
      if target == null { return Err(IllegalArgument("target is required")); }
      if ctx.None? { return Err(IllegalArgument("ctx is required")); }
      if ctx.value.opKind.None? { return Err(IllegalArgument("ctx.opKind is required")); }
      var done := TryBind(w, dialectOrdered, target, ctx.value, bind, value);
      if done { return Ok(()); }
      done := TryBind(w, globalOrdered, target, ctx.value, bind, value);
      if done { return Ok(()); }
      return Err(IllegalArgument(NoBinderMessage(target.cls, bind, value)));
    }
  }

  lemma FirstIsFirst(w: BinderWorld, ordered: seq<Binder>, targetCls: string, ctx: BindContext, bind: Option<Bind>, value: Value, i: nat)
    requires i < |ordered| && Accepts(w, ordered[i], targetCls, ctx, bind, value)
    requires forall j :: 0 <= j < i ==> !Accepts(w, ordered[j], targetCls, ctx, bind, value)
    ensures FirstAccepting(w, ordered, targetCls, ctx, bind, value) == Some(i)
  {
    var r := FirstAccepting(w, ordered, targetCls, ctx, bind, value);
    assert r.Some?;
    assert !(r.value < i) && !(i < r.value);
  }

  /**
   * The registry constructor: the two tiers in registration order; List.copyOf
   * refuses a null binder in either tier.
   */
  method Build(dialectId: Option<string>, providers: seq<Option<BinderProvider>>) returns (r: Result<Registry>)
    ensures var did0 := if dialectId.None? || Strings.IsBlank(dialectId.value) then "" else dialectId.value;
      var dialect, global := Ordered(providers, false, did0), Ordered(providers, true, did0);
      (r.Ok? <==> NoNull(dialect) && NoNull(global))
      && (r.Ok? ==> r.value.dialectId == did0 && r.value.dialectOrdered == Unwrapped(dialect) && r.value.globalOrdered == Unwrapped(global))
      && (r.Err? ==> r.error.NullPointer?)
  {
    var did0 := if dialectId.None? || Strings.IsBlank(dialectId.value) then "" else dialectId.value;
    var dialect: seq<Option<Binder>> := [];
    var global: seq<Option<Binder>> := [];
    for i := 0 to |providers|
      invariant dialect == Ordered(providers[..i], false, did0)
      invariant global == Ordered(providers[..i], true, did0)
    {
      assert providers[..i + 1][..i] == providers[..i];
      var p := providers[i];
      if p.Some? && p.value.binders.Some? {
        var did := UserTypeRegistry.NormalizeDialect(p.value.dialectId);
        if did == UserTypeRegistry.GlobalDialect {
          global := global + p.value.binders.value;
        } else if did == did0 {
          dialect := dialect + p.value.binders.value;
        }
      }
    }
    assert providers[..|providers|] == providers;
    if !(NoNull(dialect) && NoNull(global)) {
      return Err(NullPointer("List.copyOf: null element"));
    }
    var reg := new Registry(did0, Unwrapped(dialect), Unwrapped(global));
    return Ok(reg);
  }

  /** A dialect binder that accepts is preferred to every global binder. */
  lemma DialectBeforeGlobal(reg: Registry, w: BinderWorld, targetCls: string, ctx: BindContext, bind: Option<Bind>, value: Value, i: nat)
    requires i < |reg.dialectOrdered| && Accepts(w, reg.dialectOrdered[i], targetCls, ctx, bind, value)
    requires forall j :: 0 <= j < i ==> !Accepts(w, reg.dialectOrdered[j], targetCls, ctx, bind, value)
    ensures reg.Chosen(w, targetCls, ctx, bind, value) == Some(reg.dialectOrdered[i])
  {
    FirstIsFirst(w, reg.dialectOrdered, targetCls, ctx, bind, value, i);
  }

  /** With no accepting dialect binder, the first accepting global binder is chosen. */
  lemma GlobalWhenNoDialect(reg: Registry, w: BinderWorld, targetCls: string, ctx: BindContext, bind: Option<Bind>, value: Value, i: nat)
    requires forall j :: 0 <= j < |reg.dialectOrdered| ==> !Accepts(w, reg.dialectOrdered[j], targetCls, ctx, bind, value)
    requires i < |reg.globalOrdered| && Accepts(w, reg.globalOrdered[i], targetCls, ctx, bind, value)
    requires forall j :: 0 <= j < i ==> !Accepts(w, reg.globalOrdered[j], targetCls, ctx, bind, value)
    ensures reg.Chosen(w, targetCls, ctx, bind, value) == Some(reg.globalOrdered[i])
  {
    FirstIsFirst(w, reg.globalOrdered, targetCls, ctx, bind, value, i);
  }

  /** A null value skips the value-class check: only the target class and supports decide. */
  lemma NullSkipsValueClass(w: BinderWorld, b: Binder, targetCls: string, ctx: BindContext, bind: Option<Bind>)
    ensures Accepts(w, b, targetCls, ctx, bind, VNull) <==> w.isInstance(b.targetType, targetCls) && w.supports(b, ctx, bind, VNull)
  {
  }
}
