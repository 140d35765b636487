/** The intermediate-language instructions the binder emits, the generator
    that collects them, and a small semantics for them: just enough of the
    CLR's evaluation stack, locals, fields and calls to run the emitted
    constructor and forwarding methods. */
module Il {
  import opened Wrappers

  /** The methods the emitted code calls. */
  datatype Callee =
    | LoadLibrary                      // NativeLoader.LoadLibrary(string, string)
    | GetProcAddress                   // NativeLoader.GetProcAddress(IntPtr, string)
    | GetTypeFromHandle                // Type.GetTypeFromHandle(RuntimeTypeHandle)
    | GetDelegateForFunctionPointer    // Marshal.GetDelegateForFunctionPointer(IntPtr, Type)
    | Invoke(delegateType: string, arity: nat)  // the Invoke method of a generated delegate type

  /** The opcodes used, with their operands. */
  datatype OpCode =
    | Ldarg0 | Ldarg1 | Ldarg2 | Ldarg3 | Ldarg(argIndex: int)
    | Ldloc1 | Ldloc(localIndex: int) | Stloc(localIndex: int)
    | Ldstr(text: string) | Ldnull
    | Ldfld(field: string) | Stfld(field: string)
    | Ldtoken(typeName: string)
    | Call(callee: Callee) | Callvirt(callee: Callee)
    | Castclass(typeName: string)
    | Ret

  /** An ILGenerator: the instructions emitted so far and the locals declared. */
  class ILGenerator {
    var code: seq<OpCode>
    var localCount: nat

    constructor ()
      ensures code == [] && localCount == 0
    {
      code := [];
      localCount := 0;
    }

    method Emit(op: OpCode)
      modifies this
      ensures code == old(code) + [op] && localCount == old(localCount)
    {
      code := code + [op];
    }

    /** DeclareLocal(typeof(IntPtr)): the new local's index. */
    method DeclareLocal() returns (index: nat)
      modifies this
      ensures index == old(localCount) && localCount == old(localCount) + 1 && code == old(code)
    {
      index := localCount;
      localCount := localCount + 1;
    }
  }

  // ---- Semantics ----

  /** The values the emitted code handles. */
  datatype Value =
    | Null
    | Str(text: string)
    | Native(pointer: int)                          // an IntPtr
    | LoaderObject                                  // the NativeLoader given to the constructor
    | ThisObject                                    // the object under construction
    | Token(typeName: string)                       // a RuntimeTypeHandle
    | TypeObject(typeName: string)                  // a System.Type
    | DelegateObject(pointer: int, typeName: string)
    | Opaque(id: int)                               // any other argument or result

  /** The exceptions the emitted code can raise. */
  datatype Thrown =
    | InvalidProgram                 // an instruction meets the wrong stack, local or operand
    | InvalidCast
    | ArgumentNull                   // a delegate requested for address 0
    | LoadLibraryFailed(name: string)

  datatype Status = Running | Returned | Threw(exception: Thrown)

  /** A call from the emitted code to the outside, in the order made. */
  datatype ExternalCall =
    | LoadLibraryCall(name: string, version: Option<string>)
    | GetProcAddressCall(handle: int, functionName: string)
    | InvokeCall(target: Value, arguments: seq<Value>)

  datatype Machine = Machine(status: Status, stack: seq<Value>, locals: map<int, Value>,
                             fields: map<string, Value>, calls: seq<ExternalCall>)

  /** The method's arguments (argument 0 is `this`) and what the callees
      answer: LoadLibrary returns a handle or throws (None), GetProcAddress
      returns an address, a delegate's Invoke returns a value. */
  datatype Context = Context(
    arguments: seq<Value>,
    loadLibrary: (string, Option<string>) -> Option<int>,
    getProcAddress: (int, string) -> int,
    invoke: (Value, seq<Value>) -> Value)

  /** A machine about to run a method body with `localCount` IntPtr locals, all zero. */
  function Start(localCount: nat, fields: map<string, Value>): (m: Machine)
    ensures m.status.Running? && m.stack == [] && m.calls == [] && m.fields == fields
    ensures forall i :: i in m.locals <==> 0 <= i < localCount
    ensures forall i :: 0 <= i < localCount ==> m.locals[i] == Native(0)
  {
    Machine(Running, [], ZeroLocals(localCount), fields, [])
  }

  /** Locals 0 .. count - 1, each holding IntPtr.Zero. */
  function ZeroLocals(count: nat): (locals: map<int, Value>)
    ensures forall i :: i in locals <==> 0 <= i < count
    ensures forall i :: 0 <= i < count ==> locals[i] == Native(0)
  {
    if count == 0 then map[] else ZeroLocals(count - 1)[count - 1 := Native(0)]
  }

  function Fail(m: Machine, e: Thrown): Machine {
    m.(status := Threw(e))
  }

  function Push(m: Machine, v: Value): Machine {
    m.(stack := m.stack + [v])
  }

  /** The stack with its top `k` values removed. */
  function Drop(m: Machine, k: nat): seq<Value>
    requires k <= |m.stack|
  {
    m.stack[..|m.stack| - k]
  }

  /** The value `k` places below the top of the stack (0 is the top). */
  function Peek(m: Machine, k: nat): Value
    requires k < |m.stack|
  {
    m.stack[|m.stack| - 1 - k]
  }

  function LoadArgument(k: int, m: Machine, ctx: Context): Machine {
    if 0 <= k < |ctx.arguments| then Push(m, ctx.arguments[k]) else Fail(m, InvalidProgram)
  }

  function LoadLocal(k: int, m: Machine): Machine {
    if k in m.locals then Push(m, m.locals[k]) else Fail(m, InvalidProgram)
  }

  /** NativeLoader.LoadLibrary(name, version) on the loader: a handle, or the exception it throws. */
  function CallLoadLibrary(m: Machine, ctx: Context): Machine {
    if |m.stack| >= 3 && Peek(m, 2) == LoaderObject && Peek(m, 1).Str? && (Peek(m, 0).Str? || Peek(m, 0) == Null) then
      var name := Peek(m, 1).text;
      var version := if Peek(m, 0).Str? then Some(Peek(m, 0).text) else None;
      var m' := m.(stack := Drop(m, 3), calls := m.calls + [LoadLibraryCall(name, version)]);
      match ctx.loadLibrary(name, version)
      case Some(handle) => Push(m', Native(handle))
      case None => Fail(m', LoadLibraryFailed(name))
    else Fail(m, InvalidProgram)
  }

  /** NativeLoader.GetProcAddress(handle, name) on the loader. */
  function CallGetProcAddress(m: Machine, ctx: Context): Machine {
    if |m.stack| >= 3 && Peek(m, 2) == LoaderObject && Peek(m, 1).Native? && Peek(m, 0).Str? then
      var handle := Peek(m, 1).pointer;
      var name := Peek(m, 0).text;
      Push(m.(stack := Drop(m, 3), calls := m.calls + [GetProcAddressCall(handle, name)]),
           Native(ctx.getProcAddress(handle, name)))
    else Fail(m, InvalidProgram)
  }

  /** Type.GetTypeFromHandle(token). */
  function CallGetTypeFromHandle(m: Machine): Machine {
    if |m.stack| >= 1 && Peek(m, 0).Token? then
      Push(m.(stack := Drop(m, 1)), TypeObject(Peek(m, 0).typeName))
    else Fail(m, InvalidProgram)
  }

  /** Marshal.GetDelegateForFunctionPointer(pointer, type): throws on a null pointer. */
  function CallGetDelegateForFunctionPointer(m: Machine): Machine {
    if |m.stack| >= 2 && Peek(m, 1).Native? && Peek(m, 0).TypeObject? then
      if Peek(m, 1).pointer == 0 then Fail(m, ArgumentNull)
      else Push(m.(stack := Drop(m, 2)), DelegateObject(Peek(m, 1).pointer, Peek(m, 0).typeName))
    else Fail(m, InvalidProgram)
  }

  /** A delegate's Invoke with `arity` arguments above the delegate on the stack. */
  function CallInvoke(arity: nat, m: Machine, ctx: Context): Machine {
    if |m.stack| >= arity + 1 && Peek(m, arity).DelegateObject? then
      var target := Peek(m, arity);
      var arguments := m.stack[|m.stack| - arity..];
      Push(m.(stack := Drop(m, arity + 1), calls := m.calls + [InvokeCall(target, arguments)]),
           ctx.invoke(target, arguments))
    else Fail(m, InvalidProgram)
  }

  /** The effect of calling `callee` with its receiver and arguments on the stack. */
  function CallEffect(callee: Callee, m: Machine, ctx: Context): Machine {
    match callee
    case LoadLibrary => CallLoadLibrary(m, ctx)
    case GetProcAddress => CallGetProcAddress(m, ctx)
    case GetTypeFromHandle => CallGetTypeFromHandle(m)
    case GetDelegateForFunctionPointer => CallGetDelegateForFunctionPointer(m)
    case Invoke(_, arity) => CallInvoke(arity, m, ctx)
  }

  function StoreLocal(k: int, m: Machine): Machine {
    if |m.stack| >= 1 && k in m.locals then m.(stack := Drop(m, 1), locals := m.locals[k := Peek(m, 0)])
    else Fail(m, InvalidProgram)
  }

  function LoadField(f: string, m: Machine): Machine {
    if |m.stack| >= 1 && Peek(m, 0) == ThisObject then
      Push(m.(stack := Drop(m, 1)), if f in m.fields then m.fields[f] else Null)
    else Fail(m, InvalidProgram)
  }

  function StoreField(f: string, m: Machine): Machine {
    if |m.stack| >= 2 && Peek(m, 1) == ThisObject then
      m.(stack := Drop(m, 2), fields := m.fields[f := Peek(m, 0)])
    else Fail(m, InvalidProgram)
  }

  /** castclass: null and an instance of the type pass unchanged. */
  function CastClass(t: string, m: Machine): Machine {
    if |m.stack| >= 1 && (Peek(m, 0) == Null || (Peek(m, 0).DelegateObject? && Peek(m, 0).typeName == t)) then m
    else if |m.stack| >= 1 then Fail(m, InvalidCast)
    else Fail(m, InvalidProgram)
  }

  /** One instruction. A machine that has returned or thrown does not move. */
  function Step(op: OpCode, m: Machine, ctx: Context): Machine {
    if !m.status.Running? then m
    else
      match op
      case Ldarg0 => LoadArgument(0, m, ctx)
      case Ldarg1 => LoadArgument(1, m, ctx)
      case Ldarg2 => LoadArgument(2, m, ctx)
      case Ldarg3 => LoadArgument(3, m, ctx)
      case Ldarg(k) => LoadArgument(k, m, ctx)
      case Ldloc1 => LoadLocal(1, m)
      case Ldloc(k) => LoadLocal(k, m)
      case Stloc(k) => StoreLocal(k, m)
      case Ldstr(s) => Push(m, Str(s))
      case Ldnull => Push(m, Null)
      case Ldfld(f) => LoadField(f, m)
      case Stfld(f) => StoreField(f, m)
      case Ldtoken(t) => Push(m, Token(t))
      case Call(callee) => CallEffect(callee, m, ctx)
      case Callvirt(callee) => CallEffect(callee, m, ctx)
      case Castclass(t) => CastClass(t, m)
      case Ret => m.(status := Returned)
  }

  /** Runs the instructions in order. */
  function Run(code: seq<OpCode>, m: Machine, ctx: Context): Machine
    decreases |code|
  {
    if code == [] then m else Run(code[1..], Step(code[0], m, ctx), ctx)
  }

  /** Running two pieces of code one after the other is running their concatenation. */
  lemma {:induction false} RunAppend(a: seq<OpCode>, b: seq<OpCode>, m: Machine, ctx: Context)
    ensures Run(a + b, m, ctx) == Run(b, Run(a, m, ctx), ctx)
    decreases |a|
  {
    if a != [] {
      assert (a + b)[0] == a[0] && (a + b)[1..] == a[1..] + b;
      RunAppend(a[1..], b, Step(a[0], m, ctx), ctx);
    } else {
      assert a + b == b;
    }
  }

  /** A machine that has returned or thrown stays as it is. */
  lemma {:induction false} RunStopped(code: seq<OpCode>, m: Machine, ctx: Context)
    requires !m.status.Running?
    ensures Run(code, m, ctx) == m
    decreases |code|
  {
    if code != [] {
      RunStopped(code[1..], m, ctx);
    }
  }

  /** Running one instruction then the rest. */
  lemma {:induction false} RunCons(op: OpCode, rest: seq<OpCode>, m: Machine, ctx: Context)
    ensures Run([op] + rest, m, ctx) == Run(rest, Step(op, m, ctx), ctx)
  {
    assert ([op] + rest)[1..] == rest;
  }
}
