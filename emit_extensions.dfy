/** The emit helpers: the body of a forwarding method (CallMethod) and the
    definition of a method with its parameters (AddMethod). */
module EmitExtensions {
  import opened Wrappers
  import opened Il

  /** ParameterAttributes.HasFieldMarshal. */
  const HasFieldMarshal: nat := 0x2000
  /** default(UnmanagedType). */
  const DefaultUnmanagedType: nat := 0

  /** A parameter as reflection reports it: its name, type, attribute flags
      and the value of its MarshalAs attribute, if it carries one. */
  datatype ParameterInfo = ParameterInfo(name: string, parameterType: string, attributes: nat, marshalAs: Option<nat>)

  /** A parameter defined on a generated method, with the MarshalAs value attached to it, if any. */
  datatype ParameterDefinition = ParameterDefinition(position: nat, attributes: nat, name: string, marshalAs: Option<nat>)

  /** A method defined on a generated type. */
  datatype MethodDefinition = MethodDefinition(
    name: string, attributes: nat, returnType: string,
    parameterTypes: seq<string>, parameters: seq<ParameterDefinition>)

  // ---- CallMethod ----

  /** The argument an instruction loads, if it is an argument load. */
  function ArgumentOf(op: OpCode): Option<int> {
    match op
    case Ldarg0 => Some(0)
    case Ldarg1 => Some(1)
    case Ldarg2 => Some(2)
    case Ldarg3 => Some(3)
    case Ldarg(k) => Some(k)
    case _ => None
  }

  /** The instruction that passes parameter i: the short forms for the first three. */
  function LoadParameter(i: nat): (op: OpCode)
    ensures ArgumentOf(op) == Some(i + 1)
    ensures op.Ldarg? <==> i >= 3
  {
    if i == 0 then Ldarg1
    else if i == 1 then Ldarg2
    else if i == 2 then Ldarg3
    else Ldarg(i + 1)
  }

  function ParameterLoads(count: nat): (ops: seq<OpCode>)
    ensures |ops| == count
  {
    seq(count, i requires 0 <= i < count => LoadParameter(i))
  }

  /** The body CallMethod emits: load this's delegate field, pass every
      parameter in order, call the delegate's Invoke and return its result. */
  function CallMethodCode(field: string, invoke: Callee, parameterCount: nat): seq<OpCode> {
    [Ldarg0, Ldfld(field)] + ParameterLoads(parameterCount) + [Callvirt(invoke), Ret]
  }

  /** The shape of that body: `this._field` first, then one load per
      parameter loading argument i + 1 for parameter i (short forms for the
      first three), then the single call and the return. */
  lemma {:induction false} CallMethodCodeShape(field: string, invoke: Callee, parameterCount: nat)
    ensures var code := CallMethodCode(field, invoke, parameterCount);
      && |code| == parameterCount + 4
      && code[0] == Ldarg0 && code[1] == Ldfld(field)
      && (forall k :: 2 <= k < parameterCount + 2 ==> ArgumentOf(code[k]) == Some(k - 1))
      && (forall k :: 2 <= k < parameterCount + 2 ==> (code[k].Ldarg? <==> k >= 5))
      && code[parameterCount + 2] == Callvirt(invoke) && code[parameterCount + 3] == Ret
      && (forall k :: 0 <= k < |code| && code[k].Callvirt? ==> k == parameterCount + 2)
  {
  }

  method CallMethod(il: ILGenerator, field: string, invoke: Callee, parameters: seq<ParameterInfo>)
    modifies il
    ensures il.code == old(il.code) + CallMethodCode(field, invoke, |parameters|)
    ensures il.localCount == old(il.localCount)
  {
    il.Emit(Ldarg0);
    il.Emit(Ldfld(field));
    for i := 0 to |parameters|
      invariant il.code == old(il.code) + [Ldarg0, Ldfld(field)] + ParameterLoads(i)
      invariant il.localCount == old(il.localCount)
    {
      assert ParameterLoads(i + 1) == ParameterLoads(i) + [LoadParameter(i)];
      if i == 0 {
        il.Emit(Ldarg1);
      } else if i == 1 {
        il.Emit(Ldarg2);
      } else if i == 2 {
        il.Emit(Ldarg3);
      } else {
        il.Emit(Ldarg(i + 1));
      }
    }
    il.Emit(Callvirt(invoke));
    il.Emit(Ret);
  }

  /** Passing the first k parameters pushes arguments 1 .. k, in order. */
  lemma {:induction false} ParameterLoadsPush(k: nat, arguments: seq<Value>, m: Machine, ctx: Context)
    requires k <= |arguments| && ctx.arguments == [ThisObject] + arguments
    requires m.status.Running?
    ensures Run(ParameterLoads(k), m, ctx) == m.(stack := m.stack + arguments[..k])
  {
    if k == 0 {
      assert m.stack + arguments[..0] == m.stack;
    } else {
      assert ParameterLoads(k) == ParameterLoads(k - 1) + [LoadParameter(k - 1)];
      RunAppend(ParameterLoads(k - 1), [LoadParameter(k - 1)], m, ctx);
      ParameterLoadsPush(k - 1, arguments, m, ctx);
      assert ctx.arguments[k] == arguments[k - 1];
      assert arguments[..k] == arguments[..k - 1] + [arguments[k - 1]];
    }
  }

  /** `this._field` pushes the delegate stored in the field. */
  lemma {:induction false} LoadDelegateField(field: string, fields: map<string, Value>, ctx: Context)
    requires field in fields && |ctx.arguments| >= 1 && ctx.arguments[0] == ThisObject
    ensures Run([Ldarg0, Ldfld(field)], Start(0, fields), ctx) == Start(0, fields).(stack := [fields[field]])
  {
    var m0 := Start(0, fields);
    var m1 := m0.(stack := [ThisObject]);
    assert Step(Ldarg0, m0, ctx) == m1;
    RunCons(Ldarg0, [Ldfld(field)], m0, ctx);
    RunCons(Ldfld(field), [], m1, ctx);
  }

  /** Invoke with the delegate and its arguments on the stack, then return. */
  lemma {:induction false} InvokeAndReturn(delegateType: string, target: Value, arguments: seq<Value>, m: Machine, ctx: Context)
    requires m.status.Running? && m.stack == [target] + arguments && target.DelegateObject?
    ensures Run([Callvirt(Invoke(delegateType, |arguments|)), Ret], m, ctx)
         == m.(status := Returned, stack := [ctx.invoke(target, arguments)],
               calls := m.calls + [InvokeCall(target, arguments)])
  {
    var n := |arguments|;
    RunCons(Callvirt(Invoke(delegateType, n)), [Ret], m, ctx);
    assert m.stack[|m.stack| - n..] == arguments;
    assert m.stack[..|m.stack| - (n + 1)] == [];
    var m1 := Step(Callvirt(Invoke(delegateType, n)), m, ctx);
    RunCons(Ret, [], m1, ctx);
  }

  /** The generated method forwards its arguments unchanged and in order to
      the delegate stored in the field, and returns what the delegate returns. */
  lemma {:induction false} CallMethodForwards(field: string, delegateType: string, arguments: seq<Value>,
                           fields: map<string, Value>, ctx: Context)
    requires field in fields && fields[field].DelegateObject?
    requires ctx.arguments == [ThisObject] + arguments
    ensures var m := Run(CallMethodCode(field, Invoke(delegateType, |arguments|), |arguments|), Start(0, fields), ctx);
      m.status == Returned && m.stack == [ctx.invoke(fields[field], arguments)] &&
      m.calls == [InvokeCall(fields[field], arguments)] && m.fields == fields
  {
    var n := |arguments|;
    var m0 := Start(0, fields);
    var prologue := [Ldarg0, Ldfld(field)];
    var epilogue := [Callvirt(Invoke(delegateType, n)), Ret];
    assert CallMethodCode(field, Invoke(delegateType, n), n) == prologue + (ParameterLoads(n) + epilogue);
    RunAppend(prologue, ParameterLoads(n) + epilogue, m0, ctx);
    LoadDelegateField(field, fields, ctx);
    var m1 := m0.(stack := [fields[field]]);
    RunAppend(ParameterLoads(n), epilogue, m1, ctx);
    ParameterLoadsPush(n, arguments, m1, ctx);
    assert arguments[..n] == arguments;
    InvokeAndReturn(delegateType, fields[field], arguments, m1.(stack := [fields[field]] + arguments), ctx);
  }

  // ---- AddMethod ----

  /** GetAttributeUnmanagedType: the MarshalAs value, or the default when the parameter has none. */
  function GetAttributeUnmanagedType(p: ParameterInfo): (t: nat)
    ensures p.marshalAs.None? ==> t == DefaultUnmanagedType
    ensures p.marshalAs.Some? ==> t == p.marshalAs.value
  {
    p.marshalAs.GetOr(DefaultUnmanagedType)
  }

  /** What defining parameter `index` records: position index + 1, the
      source's attributes and name, and a MarshalAs attribute exactly when
      the attributes equal HasFieldMarshal. */
  predicate DefinesParameter(d: ParameterDefinition, index: nat, p: ParameterInfo) {
    && d.position == index + 1
    && d.attributes == p.attributes
    && d.name == p.name
    && (d.marshalAs.Some? <==> p.attributes == HasFieldMarshal)
    && (d.marshalAs.Some? ==> d.marshalAs.value == GetAttributeUnmanagedType(p))
  }

  predicate DefinesMethod(m: MethodDefinition, name: string, attributes: nat, returnType: string,
                          infoArray: seq<ParameterInfo>) {
    && m.name == name && m.attributes == attributes && m.returnType == returnType
    && |m.parameterTypes| == |infoArray| && |m.parameters| == |infoArray|
    && (forall i :: 0 <= i < |infoArray| ==> m.parameterTypes[i] == infoArray[i].parameterType)
    && (forall i :: 0 <= i < |infoArray| ==> DefinesParameter(m.parameters[i], i, infoArray[i]))
  }

  function DefineParameter(index: nat, p: ParameterInfo): (d: ParameterDefinition)
    ensures DefinesParameter(d, index, p)
  {
    ParameterDefinition(index + 1, p.attributes, p.name,
                        if p.attributes == HasFieldMarshal then Some(GetAttributeUnmanagedType(p)) else None)
  }

  /** The method AddMethod defines, as a value. */
  function AddedMethod(name: string, attributes: nat, returnType: string, infoArray: seq<ParameterInfo>): MethodDefinition {
    MethodDefinition(name, attributes, returnType,
                     seq(|infoArray|, i requires 0 <= i < |infoArray| => infoArray[i].parameterType),
                     seq(|infoArray|, i requires 0 <= i < |infoArray| => DefineParameter(i, infoArray[i])))
  }

  lemma {:induction false} AddedMethodDefines(name: string, attributes: nat, returnType: string, infoArray: seq<ParameterInfo>)
    ensures DefinesMethod(AddedMethod(name, attributes, returnType, infoArray), name, attributes, returnType, infoArray)
  {
  }

  /** Two definitions meeting DefinesMethod for the same arguments are equal:
      the predicate pins the definition down completely. */
  lemma {:induction false} DefinesMethodUnique(a: MethodDefinition, b: MethodDefinition, name: string, attributes: nat,
                            returnType: string, infoArray: seq<ParameterInfo>)
    requires DefinesMethod(a, name, attributes, returnType, infoArray)
    requires DefinesMethod(b, name, attributes, returnType, infoArray)
    ensures a == b
  {
    assert a.parameterTypes == b.parameterTypes;
    forall i | 0 <= i < |infoArray|
      ensures a.parameters[i] == b.parameters[i]
    {
      var x, y := a.parameters[i], b.parameters[i];
      assert x.marshalAs == y.marshalAs;
    }
    assert a.parameters == b.parameters;
  }

  method AddMethod(name: string, attributes: nat, returnType: string, infoArray: seq<ParameterInfo>)
    returns (m: MethodDefinition)
    ensures DefinesMethod(m, name, attributes, returnType, infoArray)
    ensures m == AddedMethod(name, attributes, returnType, infoArray)
  {
    var parameterTypes := seq(|infoArray|, i requires 0 <= i < |infoArray| => infoArray[i].parameterType);
    var parameters: seq<ParameterDefinition> := [];
    for parameterIndex := 0 to |infoArray|
      invariant |parameters| == parameterIndex
      invariant forall i :: 0 <= i < parameterIndex ==> DefinesParameter(parameters[i], i, infoArray[i])
    {
      var parameter := infoArray[parameterIndex];
      var marshalAs := None;
      if parameter.attributes == HasFieldMarshal {
        marshalAs := Some(GetAttributeUnmanagedType(parameter));
      }
      parameters := parameters + [ParameterDefinition(parameterIndex + 1, parameter.attributes, parameter.name, marshalAs)];
    }
    m := MethodDefinition(name, attributes, returnType, parameterTypes, parameters);
    AddedMethodDefines(name, attributes, returnType, infoArray);
    DefinesMethodUnique(m, AddedMethod(name, attributes, returnType, infoArray), name, attributes, returnType, infoArray);
  }
}
