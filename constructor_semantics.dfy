/** What the constructor emitted by the binder does when it runs: it loads
    the libraries in key order and stops at the first failure, before any
    symbol is looked up; then, method by method, it looks the entry point
    up in that method's library and stores a delegate over the pointer the
    `addressLoad` instruction reads back. */
module ConstructorSemantics {
  import opened Wrappers
  import opened LibraryNames
  import opened Il
  import opened NativeInstance

  /** The constructor is called with `this` and the NativeLoader. */
  predicate ConstructorArguments(ctx: Context) {
    |ctx.arguments| == 2 && ctx.arguments[0] == ThisObject && ctx.arguments[1] == LoaderObject
  }

  // ---- Loading the libraries ----

  /** The version LoadLibrary receives: null for a null or empty version. */
  function PassedVersion(version: Option<string>): (r: Option<string>)
    ensures r.None? <==> IsNullOrEmpty(version)
  {
    if IsNullOrEmpty(version) then None else version
  }

  function LoadCall(library: Library): ExternalCall {
    LoadLibraryCall(library.name, PassedVersion(library.version))
  }

  /** The LoadLibrary calls for the first `count` libraries, in key order. */
  function LoadCalls(libraries: seq<Library>, count: nat): seq<ExternalCall>
    requires count <= |libraries|
  {
    seq(count, i requires 0 <= i < count => LoadCall(libraries[i]))
  }

  predicate Loads(ctx: Context, library: Library) {
    ctx.loadLibrary(library.name, PassedVersion(library.version)).Some?
  }

  function HandleOf(ctx: Context, library: Library): int
    requires Loads(ctx, library)
  {
    ctx.loadLibrary(library.name, PassedVersion(library.version)).value
  }

  /** The first of the first `count` libraries whose load throws, or `count`. */
  function FirstFailure(ctx: Context, libraries: seq<Library>, count: nat): (f: nat)
    requires count <= |libraries|
    ensures f <= count
    ensures forall i :: 0 <= i < f ==> Loads(ctx, libraries[i])
    ensures f < count ==> !Loads(ctx, libraries[f])
  {
    if count == 0 then 0
    else
      var f := FirstFailure(ctx, libraries, count - 1);
      if f < count - 1 then f
      else if Loads(ctx, libraries[count - 1]) then count
      else count - 1
  }

  /** The locals after the first `count` loads: local i holds library i's handle. */
  function LoadedLocals(locals: map<int, Value>, libraries: seq<Library>, ctx: Context, count: nat): (r: map<int, Value>)
    requires count <= |libraries|
    requires forall i :: 0 <= i < count ==> Loads(ctx, libraries[i])
    ensures forall k :: k in r <==> k in locals || 0 <= k < count
    ensures forall i :: 0 <= i < count ==> r[i] == Native(HandleOf(ctx, libraries[i]))
    ensures forall k :: k in locals && !(0 <= k < count) ==> r[k] == locals[k]
  {
    if count == 0 then locals
    else LoadedLocals(locals, libraries, ctx, count - 1)[count - 1 := Native(HandleOf(ctx, libraries[count - 1]))]
  }

  /** Push the loader, the name and the version argument. */
  lemma {:induction false} LoadArguments(library: Library, m: Machine, ctx: Context)
    requires ConstructorArguments(ctx)
    requires m.status.Running? && m.stack == []
    ensures Run([Ldarg1, Ldstr(library.name), VersionArgument(library.version)], m, ctx)
         == m.(stack := [LoaderObject, Str(library.name), if IsNullOrEmpty(library.version) then Null else Str(library.version.value)])
  {
    var version := VersionArgument(library.version);
    var m1 := Step(Ldarg1, m, ctx);
    var m2 := Step(Ldstr(library.name), m1, ctx);
    RunCons(Ldarg1, [Ldstr(library.name), version], m, ctx);
    RunCons(Ldstr(library.name), [version], m1, ctx);
    RunCons(version, [], m2, ctx);
  }

  /** What one library's block does from machine m: the LoadLibrary call is
      made; its handle lands in local i, or its exception ends the run. */
  predicate LoadOutcome(i: nat, library: Library, ctx: Context, m: Machine, r: Machine) {
    && r.calls == m.calls + [LoadCall(library)]
    && (Loads(ctx, library) ==>
          r == m.(locals := m.locals[i := Native(HandleOf(ctx, library))], calls := r.calls))
    && (!Loads(ctx, library) ==> r.status == Threw(LoadLibraryFailed(library.name)))
  }

  /** LoadLibrary on the pushed arguments: the handle replaces them, or the exception stops the machine. */
  lemma {:induction false} CallLoadLibraryStep(library: Library, m: Machine, ctx: Context)
    requires m.status.Running?
    requires m.stack == [LoaderObject, Str(library.name), if IsNullOrEmpty(library.version) then Null else Str(library.version.value)]
    ensures Step(Callvirt(LoadLibrary), m, ctx)
         == if Loads(ctx, library) then m.(stack := [Native(HandleOf(ctx, library))], calls := m.calls + [LoadCall(library)])
            else m.(status := Threw(LoadLibraryFailed(library.name)), stack := [], calls := m.calls + [LoadCall(library)])
  {
    assert Peek(m, 1) == Str(library.name) && Drop(m, 3) == [];
  }

  /** Stloc on a one-value stack moves the value into the local. */
  lemma {:induction false} StoreLocalStep(i: nat, v: Value, m: Machine, ctx: Context)
    requires m.status.Running? && m.stack == [v] && i in m.locals
    ensures Step(Stloc(i), m, ctx) == m.(stack := [], locals := m.locals[i := v])
  {
    assert Drop(m, 1) == [];
  }

  /** Call LoadLibrary on the pushed arguments and store the handle in local i. */
  lemma {:induction false} LoadAndStoreHandle(i: nat, library: Library, m: Machine, ctx: Context)
    requires m.status.Running? && i in m.locals
    requires m.stack == [LoaderObject, Str(library.name), if IsNullOrEmpty(library.version) then Null else Str(library.version.value)]
    ensures LoadOutcome(i, library, ctx, m.(stack := []), Run([Callvirt(LoadLibrary), Stloc(i)], m, ctx))
  {
    var m1 := Step(Callvirt(LoadLibrary), m, ctx);
    CallLoadLibraryStep(library, m, ctx);
    RunCons(Callvirt(LoadLibrary), [Stloc(i)], m, ctx);
    if Loads(ctx, library) {
      StoreLocalStep(i, Native(HandleOf(ctx, library)), m1, ctx);
      RunCons(Stloc(i), [], m1, ctx);
    } else {
      RunStopped([Stloc(i)], m1, ctx);
    }
  }

  /** One library: push the loader, the name and the version, call LoadLibrary, store the handle. */
  lemma {:induction false} LoadLibraryBlock(i: nat, library: Library, m: Machine, ctx: Context)
    requires ConstructorArguments(ctx)
    requires m.status.Running? && m.stack == [] && i in m.locals
    ensures LoadOutcome(i, library, ctx, m, Run(LoadLibraryCode(i, library), m, ctx))
  {
    var push := [Ldarg1, Ldstr(library.name), VersionArgument(library.version)];
    assert LoadLibraryCode(i, library) == push + [Callvirt(LoadLibrary), Stloc(i)];
    RunAppend(push, [Callvirt(LoadLibrary), Stloc(i)], m, ctx);
    LoadArguments(library, m, ctx);
    assert Run(push, m, ctx).(stack := []) == m;
    LoadAndStoreHandle(i, library, Run(push, m, ctx), ctx);
  }

  /** The machine once the first `count` loads have all succeeded. */
  function LoadedAfter(libraries: seq<Library>, ctx: Context, m: Machine, count: nat): Machine
    requires count <= |libraries|
    requires forall i :: 0 <= i < count ==> Loads(ctx, libraries[i])
  {
    m.(locals := LoadedLocals(m.locals, libraries, ctx, count), calls := m.calls + LoadCalls(libraries, count))
  }

  /** Where the first `count` loads leave the machine: every handle stored
      and every call made when all loads succeed; otherwise the exception of
      the first failing load, with the calls up to and including it. */
  predicate LoadedFirst(libraries: seq<Library>, count: nat, m: Machine, ctx: Context, r: Machine)
    requires count <= |libraries|
  {
    var f := FirstFailure(ctx, libraries, count);
    && (f == count ==> r == LoadedAfter(libraries, ctx, m, count))
    && (f < count ==>
          r.status == Threw(LoadLibraryFailed(libraries[f].name)) && r.calls == m.calls + LoadCalls(libraries, f + 1))
  }

  /** Loading library k after the first k have loaded. */
  lemma {:induction false} LoadNext(libraries: seq<Library>, k: nat, m: Machine, ctx: Context, r: Machine)
    requires k < |libraries| && FirstFailure(ctx, libraries, k) == k
    requires LoadOutcome(k, libraries[k], ctx, LoadedAfter(libraries, ctx, m, k), r)
    ensures LoadedFirst(libraries, k + 1, m, ctx, r)
  {
    assert LoadCalls(libraries, k + 1) == LoadCalls(libraries, k) + [LoadCall(libraries[k])];
    assert r.calls == m.calls + LoadCalls(libraries, k + 1);
    if Loads(ctx, libraries[k]) {
      assert FirstFailure(ctx, libraries, k + 1) == k + 1;
    } else {
      assert FirstFailure(ctx, libraries, k + 1) == k;
    }
  }

  lemma {:induction false} LoadPhaseStep(libraries: seq<Library>, k: nat, m: Machine, ctx: Context)
    requires ConstructorArguments(ctx) && k < |libraries|
    requires m.status.Running? && m.stack == [] && k in m.locals
    requires LoadedFirst(libraries, k, m, ctx, Run(LoadLibrariesCode(libraries, k), m, ctx))
    ensures LoadedFirst(libraries, k + 1, m, ctx, Run(LoadLibrariesCode(libraries, k + 1), m, ctx))
  {
    var before := Run(LoadLibrariesCode(libraries, k), m, ctx);
    RunAppend(LoadLibrariesCode(libraries, k), LoadLibraryCode(k, libraries[k]), m, ctx);
    if FirstFailure(ctx, libraries, k) < k {
      RunStopped(LoadLibraryCode(k, libraries[k]), before, ctx);
    } else {
      LoadLibraryBlock(k, libraries[k], before, ctx);
      LoadNext(libraries, k, m, ctx, Run(LoadLibraryCode(k, libraries[k]), before, ctx));
    }
  }

  lemma {:induction false} LoadPhaseEmpty(libraries: seq<Library>, m: Machine, ctx: Context)
    ensures LoadedFirst(libraries, 0, m, ctx, Run(LoadLibrariesCode(libraries, 0), m, ctx))
  {
    assert LoadCalls(libraries, 0) == [] && m.calls + [] == m.calls;
    assert LoadedAfter(libraries, ctx, m, 0) == m;
  }

  /** The load phase: the libraries are loaded one by one in key order; the
      first load that throws ends the constructor, with no later call made. */
  lemma {:induction false} LoadPhase(libraries: seq<Library>, count: nat, m: Machine, ctx: Context)
    requires ConstructorArguments(ctx) && count <= |libraries|
    requires m.status.Running? && m.stack == []
    requires forall i :: 0 <= i < count ==> i in m.locals
    ensures LoadedFirst(libraries, count, m, ctx, Run(LoadLibrariesCode(libraries, count), m, ctx))
  {
    LoadPhaseEmpty(libraries, m, ctx);
    var k := 0;
    while k < count
      invariant k <= count
      invariant LoadedFirst(libraries, k, m, ctx, Run(LoadLibrariesCode(libraries, k), m, ctx))
    {
      LoadPhaseStep(libraries, k, m, ctx);
      k := k + 1;
    }
  }

  // ---- Filling the delegate fields ----

  /** The local an address-reading instruction reads. */
  function Slot(addressLoad: OpCode): int {
    match addressLoad
    case Ldloc1 => 1
    case Ldloc(k) => k
    case _ => -1
  }

  predicate IsLocalLoad(op: OpCode) {
    op.Ldloc1? || op.Ldloc?
  }

  /** The local holding the handle of the method's library. */
  function LibraryLocal(b: MethodBinding, libraries: seq<Library>): int {
    IndexOfKey(libraries, b.libraryName)
  }

  /** The pointer local k holds (0 when it holds none). */
  function LocalPointer(locals: map<int, Value>, k: int): int {
    if k in locals && locals[k].Native? then locals[k].pointer else 0
  }

  /** The address GetProcAddress returns for the method. */
  function Address(ctx: Context, b: MethodBinding, libraries: seq<Library>, locals: map<int, Value>): int {
    ctx.getProcAddress(LocalPointer(locals, LibraryLocal(b, libraries)), EntryPoint(b))
  }

  function ProcAddressCall(ctx: Context, b: MethodBinding, libraries: seq<Library>, locals: map<int, Value>): ExternalCall {
    GetProcAddressCall(LocalPointer(locals, LibraryLocal(b, libraries)), EntryPoint(b))
  }

  /** The locals the field phase relies on: every method's library local
      and the address slot hold pointers, and neither is the scratch local
      |libraries| unless the slot is that local. */
  predicate FieldLocals(bindings: seq<MethodBinding>, libraries: seq<Library>, addressLoad: OpCode, locals: map<int, Value>) {
    && IsLocalLoad(addressLoad)
    && |libraries| in locals
    && (forall j :: 0 <= j < |bindings| ==>
          0 <= LibraryLocal(bindings[j], libraries) < |libraries| &&
          LibraryLocal(bindings[j], libraries) in locals && locals[LibraryLocal(bindings[j], libraries)].Native?)
    && (Slot(addressLoad) == |libraries| || (Slot(addressLoad) in locals && locals[Slot(addressLoad)].Native?))
  }

  /** The pointer the delegate of a method is made from: the scratch local
      when the instruction reads it, else whatever the slot holds. */
  function DelegatePointer(ctx: Context, b: MethodBinding, libraries: seq<Library>, addressLoad: OpCode, locals: map<int, Value>): int {
    if Slot(addressLoad) == |libraries| then Address(ctx, b, libraries, locals) else LocalPointer(locals, Slot(addressLoad))
  }

  /** Push the loader, the library's handle and the entry point. */
  lemma {:induction false} ResolveArguments(b: MethodBinding, libraries: seq<Library>, m: Machine, ctx: Context)
    requires ConstructorArguments(ctx)
    requires m.status.Running? && m.stack == []
    requires LibraryLocal(b, libraries) in m.locals
    ensures Run([Ldarg1, Ldloc(LibraryLocal(b, libraries)), Ldstr(EntryPoint(b))], m, ctx)
         == m.(stack := [LoaderObject, m.locals[LibraryLocal(b, libraries)], Str(EntryPoint(b))])
  {
    var idx, entry := LibraryLocal(b, libraries), EntryPoint(b);
    var m1 := Step(Ldarg1, m, ctx);
    var m2 := Step(Ldloc(idx), m1, ctx);
    RunCons(Ldarg1, [Ldloc(idx), Ldstr(entry)], m, ctx);
    RunCons(Ldloc(idx), [Ldstr(entry)], m1, ctx);
    RunCons(Ldstr(entry), [], m2, ctx);
  }

  /** Call GetProcAddress on the pushed arguments and store the address in local n. */
  lemma {:induction false} ResolveAndStoreAddress(n: int, handle: int, entry: string, m: Machine, ctx: Context)
    requires m.status.Running? && n in m.locals
    requires m.stack == [LoaderObject, Native(handle), Str(entry)]
    ensures Run([Callvirt(GetProcAddress), Stloc(n)], m, ctx)
         == m.(stack := [], locals := m.locals[n := Native(ctx.getProcAddress(handle, entry))],
               calls := m.calls + [GetProcAddressCall(handle, entry)])
  {
    var m1 := Step(Callvirt(GetProcAddress), m, ctx);
    RunCons(Callvirt(GetProcAddress), [Stloc(n)], m, ctx);
    RunCons(Stloc(n), [], m1, ctx);
  }

  /** GetProcAddress(local IndexOfKey(library), entry point), stored in the scratch local. */
  lemma {:induction false} ResolveBlock(b: MethodBinding, libraries: seq<Library>, m: Machine, ctx: Context)
    requires ConstructorArguments(ctx)
    requires m.status.Running? && m.stack == [] && |libraries| in m.locals
    requires LibraryLocal(b, libraries) in m.locals && m.locals[LibraryLocal(b, libraries)].Native?
    ensures Run(ResolveCode(b, libraries), m, ctx)
         == m.(locals := m.locals[|libraries| := Native(Address(ctx, b, libraries, m.locals))],
               calls := m.calls + [ProcAddressCall(ctx, b, libraries, m.locals)])
  {
    var idx := LibraryLocal(b, libraries);
    var push := [Ldarg1, Ldloc(idx), Ldstr(EntryPoint(b))];
    assert ResolveCode(b, libraries) == push + [Callvirt(GetProcAddress), Stloc(|libraries|)];
    RunAppend(push, [Callvirt(GetProcAddress), Stloc(|libraries|)], m, ctx);
    ResolveArguments(b, libraries, m, ctx);
    ResolveAndStoreAddress(|libraries|, m.locals[idx].pointer, EntryPoint(b), Run(push, m, ctx), ctx);
  }

  /** Push `this`, the pointer in the slot and typeof(DelegateType). */
  lemma {:induction false} StoreDelegateArguments(b: MethodBinding, addressLoad: OpCode, m: Machine, ctx: Context)
    requires ConstructorArguments(ctx) && IsLocalLoad(addressLoad)
    requires m.status.Running? && m.stack == []
    requires Slot(addressLoad) in m.locals
    ensures Run([Ldarg0, addressLoad, Ldtoken(b.delegateType), Call(GetTypeFromHandle)], m, ctx)
         == m.(stack := [ThisObject, m.locals[Slot(addressLoad)], TypeObject(b.delegateType)])
  {
    var dt := b.delegateType;
    var m1 := Step(Ldarg0, m, ctx);
    var m2 := Step(addressLoad, m1, ctx);
    var m3 := Step(Ldtoken(dt), m2, ctx);
    RunCons(Ldarg0, [addressLoad, Ldtoken(dt), Call(GetTypeFromHandle)], m, ctx);
    RunCons(addressLoad, [Ldtoken(dt), Call(GetTypeFromHandle)], m1, ctx);
    RunCons(Ldtoken(dt), [Call(GetTypeFromHandle)], m2, ctx);
    RunCons(Call(GetTypeFromHandle), [], m3, ctx);
  }

  /** Make the delegate, cast it and store it in the field; a null pointer throws. */
  lemma {:induction false} StoreDelegateResult(b: MethodBinding, v: int, m: Machine, ctx: Context)
    requires m.status.Running? && m.stack == [ThisObject, Native(v), TypeObject(b.delegateType)]
    ensures var r := Run([Call(GetDelegateForFunctionPointer), Castclass(b.delegateType), Stfld(b.delegateField)], m, ctx);
      && (v != 0 ==> r == m.(stack := [], fields := m.fields[b.delegateField := DelegateObject(v, b.delegateType)]))
      && (v == 0 ==> r.status == Threw(ArgumentNull) && r.calls == m.calls)
  {
    var dt, field := b.delegateType, b.delegateField;
    var m1 := Step(Call(GetDelegateForFunctionPointer), m, ctx);
    RunCons(Call(GetDelegateForFunctionPointer), [Castclass(dt), Stfld(field)], m, ctx);
    if v == 0 {
      RunStopped([Castclass(dt), Stfld(field)], m1, ctx);
    } else {
      var m2 := Step(Castclass(dt), m1, ctx);
      RunCons(Castclass(dt), [Stfld(field)], m1, ctx);
      RunCons(Stfld(field), [], m2, ctx);
    }
  }

  /** this.field = delegate over the pointer in the slot; a null pointer throws. */
  lemma {:induction false} StoreDelegateBlock(b: MethodBinding, addressLoad: OpCode, m: Machine, ctx: Context)
    requires ConstructorArguments(ctx) && IsLocalLoad(addressLoad)
    requires m.status.Running? && m.stack == []
    requires Slot(addressLoad) in m.locals && m.locals[Slot(addressLoad)].Native?
    ensures var v := m.locals[Slot(addressLoad)].pointer;
      var r := Run(StoreDelegateCode(b, addressLoad), m, ctx);
      && (v != 0 ==> r == m.(fields := m.fields[b.delegateField := DelegateObject(v, b.delegateType)]))
      && (v == 0 ==> r.status == Threw(ArgumentNull) && r.calls == m.calls)
  {
    var push := [Ldarg0, addressLoad, Ldtoken(b.delegateType), Call(GetTypeFromHandle)];
    var rest := [Call(GetDelegateForFunctionPointer), Castclass(b.delegateType), Stfld(b.delegateField)];
    assert StoreDelegateCode(b, addressLoad) == push + rest;
    RunAppend(push, rest, m, ctx);
    StoreDelegateArguments(b, addressLoad, m, ctx);
    StoreDelegateResult(b, m.locals[Slot(addressLoad)].pointer, Run(push, m, ctx), ctx);
  }

  /** What one method's block does from machine m: GetProcAddress is
      called and its address lands in the scratch local; the field gets a
      delegate over the pointer the slot gives, or a null pointer throws. */
  predicate BlockOutcome(b: MethodBinding, libraries: seq<Library>, addressLoad: OpCode, ctx: Context, m: Machine, r: Machine) {
    var v := DelegatePointer(ctx, b, libraries, addressLoad, m.locals);
    var calls := m.calls + [ProcAddressCall(ctx, b, libraries, m.locals)];
    && (v != 0 ==>
          r == m.(locals := m.locals[|libraries| := Native(Address(ctx, b, libraries, m.locals))],
                  fields := m.fields[b.delegateField := DelegateObject(v, b.delegateType)],
                  calls := calls))
    && (v == 0 ==> r.status == Threw(ArgumentNull) && r.calls == calls)
  }

  /** One method's block: look the symbol up, then store the delegate. */
  lemma {:induction false} DelegateFieldBlock(b: MethodBinding, libraries: seq<Library>, addressLoad: OpCode, m: Machine, ctx: Context)
    requires ConstructorArguments(ctx) && IsLocalLoad(addressLoad)
    requires m.status.Running? && m.stack == [] && |libraries| in m.locals
    requires LibraryLocal(b, libraries) in m.locals && m.locals[LibraryLocal(b, libraries)].Native?
    requires Slot(addressLoad) == |libraries| || (Slot(addressLoad) in m.locals && m.locals[Slot(addressLoad)].Native?)
    ensures BlockOutcome(b, libraries, addressLoad, ctx, m, Run(DelegateFieldCode(b, libraries, addressLoad), m, ctx))
  {
    RunAppend(ResolveCode(b, libraries), StoreDelegateCode(b, addressLoad), m, ctx);
    ResolveBlock(b, libraries, m, ctx);
    var m' := Run(ResolveCode(b, libraries), m, ctx);
    StoreDelegateBlock(b, addressLoad, m', ctx);
  }

  // ---- The field phase ----

  /** The first of the first `count` methods whose delegate pointer is null, or `count`. */
  function FirstNull(ctx: Context, bindings: seq<MethodBinding>, libraries: seq<Library>, addressLoad: OpCode,
                     locals: map<int, Value>, count: nat): (z: nat)
    requires count <= |bindings|
    ensures z <= count
    ensures forall j :: 0 <= j < z ==> DelegatePointer(ctx, bindings[j], libraries, addressLoad, locals) != 0
    ensures z < count ==> DelegatePointer(ctx, bindings[z], libraries, addressLoad, locals) == 0
  {
    if count == 0 then 0
    else
      var z := FirstNull(ctx, bindings, libraries, addressLoad, locals, count - 1);
      if z < count - 1 then z
      else if DelegatePointer(ctx, bindings[count - 1], libraries, addressLoad, locals) != 0 then count
      else count - 1
  }

  /** The GetProcAddress calls of the first `count` methods, in the order they were bound. */
  function ProcAddressCalls(ctx: Context, bindings: seq<MethodBinding>, libraries: seq<Library>, addressLoad: OpCode,
                            locals: map<int, Value>, count: nat): seq<ExternalCall>
    requires count <= |bindings|
  {
    seq(count, j requires 0 <= j < count => ProcAddressCall(ctx, bindings[j], libraries, locals))
  }

  /** The delegate fields after the first `count` methods: each set to a delegate over its pointer. */
  function FieldsAfter(ctx: Context, bindings: seq<MethodBinding>, libraries: seq<Library>, addressLoad: OpCode,
                       locals: map<int, Value>, fields: map<string, Value>, count: nat): (r: map<string, Value>)
    requires count <= |bindings|
    ensures forall j :: 0 <= j < count ==> bindings[j].delegateField in r
  {
    if count == 0 then fields
    else
      var b := bindings[count - 1];
      FieldsAfter(ctx, bindings, libraries, addressLoad, locals, fields, count - 1)
        [b.delegateField := DelegateObject(DelegatePointer(ctx, b, libraries, addressLoad, locals), b.delegateType)]
  }

  /** The locals after the first `count` methods: the scratch local holds the last address. */
  function ScratchAfter(ctx: Context, bindings: seq<MethodBinding>, libraries: seq<Library>, addressLoad: OpCode,
                        locals: map<int, Value>, count: nat): map<int, Value>
    requires count <= |bindings|
  {
    if count == 0 then locals
    else locals[|libraries| := Native(Address(ctx, bindings[count - 1], libraries, locals))]
  }

  /** The machine once the first `count` blocks have all stored a delegate. */
  function FilledAfter(bindings: seq<MethodBinding>, libraries: seq<Library>, addressLoad: OpCode, ctx: Context,
                       m: Machine, count: nat): Machine
    requires count <= |bindings|
  {
    m.(locals := ScratchAfter(ctx, bindings, libraries, addressLoad, m.locals, count),
       fields := FieldsAfter(ctx, bindings, libraries, addressLoad, m.locals, m.fields, count),
       calls := m.calls + ProcAddressCalls(ctx, bindings, libraries, addressLoad, m.locals, count))
  }

  /** Where the first `count` delegate-field blocks leave the machine. */
  predicate FilledFirst(bindings: seq<MethodBinding>, libraries: seq<Library>, addressLoad: OpCode, count: nat,
                        m: Machine, ctx: Context, r: Machine)
    requires count <= |bindings|
  {
    var z := FirstNull(ctx, bindings, libraries, addressLoad, m.locals, count);
    && (z == count ==> r == FilledAfter(bindings, libraries, addressLoad, ctx, m, count))
    && (z < count ==>
          r.status == Threw(ArgumentNull) &&
          r.calls == m.calls + ProcAddressCalls(ctx, bindings, libraries, addressLoad, m.locals, z + 1))
  }

  /** The scratch local changes, nothing the next block reads does. */
  lemma {:induction false} ScratchFacts(bindings: seq<MethodBinding>, libraries: seq<Library>, addressLoad: OpCode, k: nat,
                     locals: map<int, Value>, ctx: Context)
    requires k < |bindings| && FieldLocals(bindings, libraries, addressLoad, locals)
    ensures var scratch := ScratchAfter(ctx, bindings, libraries, addressLoad, locals, k);
      var b := bindings[k];
      && |libraries| in scratch
      && LibraryLocal(b, libraries) in scratch && scratch[LibraryLocal(b, libraries)] == locals[LibraryLocal(b, libraries)]
      && (Slot(addressLoad) == |libraries| || (Slot(addressLoad) in scratch && scratch[Slot(addressLoad)] == locals[Slot(addressLoad)]))
      && Address(ctx, b, libraries, scratch) == Address(ctx, b, libraries, locals)
      && ProcAddressCall(ctx, b, libraries, scratch) == ProcAddressCall(ctx, b, libraries, locals)
      && DelegatePointer(ctx, b, libraries, addressLoad, scratch) == DelegatePointer(ctx, b, libraries, addressLoad, locals)
      && scratch[|libraries| := Native(Address(ctx, b, libraries, locals))]
           == ScratchAfter(ctx, bindings, libraries, addressLoad, locals, k + 1)
  {
  }

  lemma {:induction false} ProcAddressCallsNext(ctx: Context, bindings: seq<MethodBinding>, libraries: seq<Library>, addressLoad: OpCode,
                             locals: map<int, Value>, k: nat)
    requires k < |bindings|
    ensures ProcAddressCalls(ctx, bindings, libraries, addressLoad, locals, k + 1)
         == ProcAddressCalls(ctx, bindings, libraries, addressLoad, locals, k) + [ProcAddressCall(ctx, bindings[k], libraries, locals)]
  {
  }

  /** Method k's block, run after the first k blocks all stored a delegate. */
  lemma {:induction false} FillNext(bindings: seq<MethodBinding>, libraries: seq<Library>, addressLoad: OpCode, k: nat, m: Machine, ctx: Context, r: Machine)
    requires k < |bindings| && FieldLocals(bindings, libraries, addressLoad, m.locals)
    requires FirstNull(ctx, bindings, libraries, addressLoad, m.locals, k) == k
    requires BlockOutcome(bindings[k], libraries, addressLoad, ctx, FilledAfter(bindings, libraries, addressLoad, ctx, m, k), r)
    ensures FilledFirst(bindings, libraries, addressLoad, k + 1, m, ctx, r)
  {
    ScratchFacts(bindings, libraries, addressLoad, k, m.locals, ctx);
    ProcAddressCallsNext(ctx, bindings, libraries, addressLoad, m.locals, k);
    FirstNullNext(ctx, bindings, libraries, addressLoad, m.locals, k);
  }

  lemma {:induction false} FirstNullNext(ctx: Context, bindings: seq<MethodBinding>, libraries: seq<Library>, addressLoad: OpCode,
                      locals: map<int, Value>, k: nat)
    requires k < |bindings| && FirstNull(ctx, bindings, libraries, addressLoad, locals, k) == k
    ensures FirstNull(ctx, bindings, libraries, addressLoad, locals, k + 1)
         == if DelegatePointer(ctx, bindings[k], libraries, addressLoad, locals) != 0 then k + 1 else k
  {
  }

  lemma {:induction false} FieldPhaseStep(bindings: seq<MethodBinding>, libraries: seq<Library>, addressLoad: OpCode, k: nat, m: Machine, ctx: Context)
    requires ConstructorArguments(ctx) && k < |bindings|
    requires m.status.Running? && m.stack == []
    requires FieldLocals(bindings, libraries, addressLoad, m.locals)
    requires FilledFirst(bindings, libraries, addressLoad, k, m, ctx, Run(DelegateFieldsCode(bindings, libraries, addressLoad, k), m, ctx))
    ensures FilledFirst(bindings, libraries, addressLoad, k + 1, m, ctx, Run(DelegateFieldsCode(bindings, libraries, addressLoad, k + 1), m, ctx))
  {
    var before := Run(DelegateFieldsCode(bindings, libraries, addressLoad, k), m, ctx);
    RunAppend(DelegateFieldsCode(bindings, libraries, addressLoad, k), DelegateFieldCode(bindings[k], libraries, addressLoad), m, ctx);
    if FirstNull(ctx, bindings, libraries, addressLoad, m.locals, k) < k {
      RunStopped(DelegateFieldCode(bindings[k], libraries, addressLoad), before, ctx);
    } else {
      ScratchFacts(bindings, libraries, addressLoad, k, m.locals, ctx);
      DelegateFieldBlock(bindings[k], libraries, addressLoad, before, ctx);
      FillNext(bindings, libraries, addressLoad, k, m, ctx, Run(DelegateFieldCode(bindings[k], libraries, addressLoad), before, ctx));
    }
  }

  /** The field phase: each method in turn looks its symbol up and stores
      its delegate; the first null pointer ends the constructor. */
  lemma {:induction false} FieldPhase(bindings: seq<MethodBinding>, libraries: seq<Library>, addressLoad: OpCode,
                                      count: nat, m: Machine, ctx: Context)
    requires ConstructorArguments(ctx) && count <= |bindings|
    requires m.status.Running? && m.stack == []
    requires FieldLocals(bindings, libraries, addressLoad, m.locals)
    ensures FilledFirst(bindings, libraries, addressLoad, count, m, ctx, Run(DelegateFieldsCode(bindings, libraries, addressLoad, count), m, ctx))
  {
    assert ProcAddressCalls(ctx, bindings, libraries, addressLoad, m.locals, 0) == [];
    var k := 0;
    while k < count
      invariant k <= count
      invariant FilledFirst(bindings, libraries, addressLoad, k, m, ctx, Run(DelegateFieldsCode(bindings, libraries, addressLoad, k), m, ctx))
    {
      FieldPhaseStep(bindings, libraries, addressLoad, k, m, ctx);
      k := k + 1;
    }
  }

  /** With distinct field names, each method's field ends up holding its own delegate. */
  lemma {:induction false} FieldsAfterHolds(ctx: Context, bindings: seq<MethodBinding>, libraries: seq<Library>,
                                            addressLoad: OpCode, locals: map<int, Value>, fields: map<string, Value>,
                                            count: nat, j: nat)
    requires j < count <= |bindings|
    requires forall i, k :: 0 <= i < k < |bindings| ==> bindings[i].delegateField != bindings[k].delegateField
    ensures var b := bindings[j];
      FieldsAfter(ctx, bindings, libraries, addressLoad, locals, fields, count)[b.delegateField]
        == DelegateObject(DelegatePointer(ctx, b, libraries, addressLoad, locals), b.delegateType)
  {
    if j < count - 1 {
      FieldsAfterHolds(ctx, bindings, libraries, addressLoad, locals, fields, count - 1, j);
      assert bindings[j].delegateField != bindings[count - 1].delegateField;
    }
  }

  // ---- The whole constructor ----

  /** Every method's library is among the keys. */
  predicate Covers(bindings: seq<MethodBinding>, libraries: seq<Library>) {
    forall j :: 0 <= j < |bindings| ==> ContainsKey(libraries, bindings[j].libraryName)
  }

  lemma {:induction false} LibrariesOfCovers(bindings: seq<MethodBinding>)
    ensures Covers(bindings, LibrariesOf(bindings))
  {
    forall j | 0 <= j < |bindings|
      ensures ContainsKey(LibrariesOf(bindings), bindings[j].libraryName)
    {
      LibrariesOfComplete(bindings, j);
    }
  }

  /** The instruction reading the address back: Ldloc_1 as emitted, or the scratch local. */
  predicate AddressLoad(addressLoad: OpCode, libraries: seq<Library>) {
    addressLoad == Ldloc1 || addressLoad == Ldloc(|libraries|)
  }

  /** The machine after every library has loaded: local i holds library
      i's handle, the scratch local |libraries| is still zero. */
  function Loaded(libraries: seq<Library>, ctx: Context): Machine
    requires forall i :: 0 <= i < |libraries| ==> Loads(ctx, libraries[i])
  {
    var n := |libraries|;
    Machine(Running, [], LoadedLocals(ZeroLocals(n + 1), libraries, ctx, n), map[], LoadCalls(libraries, n))
  }

  /** How the field phase and the final Ret end, from machine m: the first
      null pointer throws after that method's lookup; with none the body
      returns with every delegate field set. */
  predicate Finished(bindings: seq<MethodBinding>, libraries: seq<Library>, addressLoad: OpCode, ctx: Context, m: Machine, r: Machine) {
    var z := FirstNull(ctx, bindings, libraries, addressLoad, m.locals, |bindings|);
    && (z < |bindings| ==>
          r.status == Threw(ArgumentNull) &&
          r.calls == m.calls + ProcAddressCalls(ctx, bindings, libraries, addressLoad, m.locals, z + 1))
    && (z == |bindings| ==>
          r.status == Returned &&
          r.calls == m.calls + ProcAddressCalls(ctx, bindings, libraries, addressLoad, m.locals, |bindings|) &&
          r.fields == FieldsAfter(ctx, bindings, libraries, addressLoad, m.locals, m.fields, |bindings|))
  }

  /** How a run of the constructor body ends, phase by phase: a failed load
      ends it after the loads made so far; otherwise the field phase runs
      from the loaded machine. */
  predicate ConstructedAs(bindings: seq<MethodBinding>, libraries: seq<Library>, addressLoad: OpCode, ctx: Context, r: Machine) {
    var n := |libraries|;
    var f := FirstFailure(ctx, libraries, n);
    && (f < n ==> r.status == Threw(LoadLibraryFailed(libraries[f].name)) && r.calls == LoadCalls(libraries, f + 1))
    && (f == n ==>
          && FieldLocals(bindings, libraries, addressLoad, Loaded(libraries, ctx).locals)
          && Finished(bindings, libraries, addressLoad, ctx, Loaded(libraries, ctx), r))
  }

  /** After all loads, the locals the field phase reads hold pointers. */
  lemma {:induction false} LoadedLocalsServeFields(bindings: seq<MethodBinding>, libraries: seq<Library>, addressLoad: OpCode, ctx: Context)
    requires bindings != [] && Covers(bindings, libraries) && AddressLoad(addressLoad, libraries)
    requires FirstFailure(ctx, libraries, |libraries|) == |libraries|
    ensures |libraries| >= 1
    ensures FieldLocals(bindings, libraries, addressLoad, Loaded(libraries, ctx).locals)
  {
    assert ContainsKey(libraries, bindings[0].libraryName);
  }

  /** The constructor body as the three parts it is emitted in. */
  function Body(bindings: seq<MethodBinding>, libraries: seq<Library>, addressLoad: OpCode): seq<OpCode> {
    LoadLibrariesCode(libraries, |libraries|) + DelegateFieldsCode(bindings, libraries, addressLoad, |bindings|) + [Ret]
  }

  /** The body runs as its three parts in turn. */
  lemma {:induction false} BodyParts(bindings: seq<MethodBinding>, libraries: seq<Library>, addressLoad: OpCode, m: Machine, ctx: Context)
    ensures Run(Body(bindings, libraries, addressLoad), m, ctx)
         == Run([Ret], Run(DelegateFieldsCode(bindings, libraries, addressLoad, |bindings|),
                           Run(LoadLibrariesCode(libraries, |libraries|), m, ctx), ctx), ctx)
  {
    var loads := LoadLibrariesCode(libraries, |libraries|);
    var fills := DelegateFieldsCode(bindings, libraries, addressLoad, |bindings|);
    RunAppend(loads + fills, [Ret], m, ctx);
    RunAppend(loads, fills, m, ctx);
  }

  /** The final Ret: a running machine returns, a stopped one stays. */
  function Returning(m: Machine): Machine {
    if m.status.Running? then m.(status := Returned) else m
  }

  lemma {:induction false} RunRet(m: Machine, ctx: Context)
    ensures Run([Ret], m, ctx) == Returning(m)
  {
    RunCons(Ret, [], m, ctx);
  }

  /** The field phase followed by Ret ends as Finished describes. */
  lemma {:induction false} FieldsThenReturn(bindings: seq<MethodBinding>, libraries: seq<Library>, addressLoad: OpCode, ctx: Context,
                         m: Machine, m2: Machine)
    requires FilledFirst(bindings, libraries, addressLoad, |bindings|, m, ctx, m2)
    requires m.status.Running?
    ensures Finished(bindings, libraries, addressLoad, ctx, m, Returning(m2))
  {
  }

  /** The body, run from its n + 1 zeroed locals. */
  lemma {:induction false} BodyRun(bindings: seq<MethodBinding>, libraries: seq<Library>, addressLoad: OpCode, ctx: Context)
    requires ConstructorArguments(ctx) && bindings != [] && Covers(bindings, libraries) && AddressLoad(addressLoad, libraries)
    ensures ConstructedAs(bindings, libraries, addressLoad, ctx,
                          Run(Body(bindings, libraries, addressLoad), Start(|libraries| + 1, map[]), ctx))
  {
    var n := |libraries|;
    var start := Start(n + 1, map[]);
    var fills := DelegateFieldsCode(bindings, libraries, addressLoad, |bindings|);
    BodyParts(bindings, libraries, addressLoad, start, ctx);
    LoadPhase(libraries, n, start, ctx);
    var m1 := Run(LoadLibrariesCode(libraries, n), start, ctx);
    if FirstFailure(ctx, libraries, n) < n {
      RunStopped(fills, m1, ctx);
      RunStopped([Ret], Run(fills, m1, ctx), ctx);
    } else {
      assert start.calls + LoadCalls(libraries, n) == LoadCalls(libraries, n);
      assert m1 == Loaded(libraries, ctx);
      LoadedLocalsServeFields(bindings, libraries, addressLoad, ctx);
      FieldPhase(bindings, libraries, addressLoad, |bindings|, m1, ctx);
      var m2 := Run(fills, m1, ctx);
      RunRet(m2, ctx);
      FieldsThenReturn(bindings, libraries, addressLoad, ctx, m1, m2);
    }
  }

  /** The emitted constructor: libraries loaded in key order, the first
      failed load ending it before any lookup; then each method's lookup
      and delegate, the first null pointer ending it; else it returns with
      every delegate field set. */
  lemma {:induction false} ConstructorRun(bindings: seq<MethodBinding>, addressLoad: OpCode, ctx: Context)
    requires ConstructorArguments(ctx) && bindings != [] && AddressLoad(addressLoad, LibrariesOf(bindings))
    ensures ConstructedAs(bindings, LibrariesOf(bindings), addressLoad, ctx,
                          Run(ConstructorCode(bindings, addressLoad), Start(|LibrariesOf(bindings)| + 1, map[]), ctx))
  {
    LibrariesOfCovers(bindings);
    BodyRun(bindings, LibrariesOf(bindings), addressLoad, ctx);
  }

  /** An interface without methods: the constructor declares the scratch
      local only, makes no call, sets no field and returns. */
  lemma {:induction false} ConstructorRunEmpty(addressLoad: OpCode, ctx: Context)
    ensures LibrariesOf([]) == []
    ensures var r := Run(ConstructorCode([], addressLoad), Start(1, map[]), ctx);
      r.status == Returned && r.calls == [] && r.fields == map[]
  {
    assert ConstructorCode([], addressLoad) == [Ret];
    RunRet(Start(1, map[]), ctx);
  }

  /** What GetProcAddress returns for a method: the entry point looked up
      in the handle of the method's library (0 where there is none). */
  function ResolvedAddress(ctx: Context, libraries: seq<Library>, b: MethodBinding): int {
    var i := IndexOfKey(libraries, b.libraryName);
    if 0 <= i && Loads(ctx, libraries[i]) then ctx.getProcAddress(HandleOf(ctx, libraries[i]), EntryPoint(b)) else 0
  }

  /** The conditions of a fully successful construction: distinct delegate
      fields, every library loaded with a non-null handle, every symbol found. */
  predicate AllResolve(bindings: seq<MethodBinding>, libraries: seq<Library>, ctx: Context) {
    && (forall i, k :: 0 <= i < k < |bindings| ==> bindings[i].delegateField != bindings[k].delegateField)
    && (forall i :: 0 <= i < |libraries| ==> Loads(ctx, libraries[i]) && HandleOf(ctx, libraries[i]) != 0)
    && (forall j :: 0 <= j < |bindings| ==> ResolvedAddress(ctx, libraries, bindings[j]) != 0)
  }

  /** The field phase's pointer for a method, once all libraries are loaded. */
  lemma {:induction false} PointerAfterLoads(bindings: seq<MethodBinding>, libraries: seq<Library>, addressLoad: OpCode, ctx: Context, j: nat)
    requires bindings != [] && j < |bindings| && Covers(bindings, libraries) && AddressLoad(addressLoad, libraries)
    requires AllResolve(bindings, libraries, ctx)
    ensures FirstFailure(ctx, libraries, |libraries|) == |libraries|
    ensures var locals := Loaded(libraries, ctx).locals;
      FieldLocals(bindings, libraries, addressLoad, locals) &&
      DelegatePointer(ctx, bindings[j], libraries, addressLoad, locals)
        == if Slot(addressLoad) == |libraries| then ResolvedAddress(ctx, libraries, bindings[j])
           else HandleOf(ctx, libraries[1])
  {
    var n := |libraries|;
    assert FirstFailure(ctx, libraries, n) == n;
    LoadedLocalsServeFields(bindings, libraries, addressLoad, ctx);
    var locals := Loaded(libraries, ctx).locals;
    var b := bindings[j];
    var i := IndexOfKey(libraries, b.libraryName);
    assert 0 <= i < n && locals[i] == Native(HandleOf(ctx, libraries[i]));
    if Slot(addressLoad) != n {
      assert Slot(addressLoad) == 1 < n;
      assert locals[1] == Native(HandleOf(ctx, libraries[1]));
    }
  }

  /** With every library and symbol found, a run that ends as ConstructedAs
      describes has returned, and each method's field holds a delegate over
      the pointer its slot gave. */
  lemma {:induction false} OutcomeDelegates(bindings: seq<MethodBinding>, libraries: seq<Library>, addressLoad: OpCode,
                                            ctx: Context, j: nat, r: Machine)
    requires bindings != [] && j < |bindings|
    requires Covers(bindings, libraries) && AddressLoad(addressLoad, libraries) && AllResolve(bindings, libraries, ctx)
    requires ConstructedAs(bindings, libraries, addressLoad, ctx, r)
    ensures var b := bindings[j];
      && r.status == Returned
      && b.delegateField in r.fields
      && r.fields[b.delegateField] == DelegateObject(
           if Slot(addressLoad) == |libraries| then ResolvedAddress(ctx, libraries, b) else HandleOf(ctx, libraries[1]),
           b.delegateType)
  {
    PointerAfterLoads(bindings, libraries, addressLoad, ctx, j);
    var locals := Loaded(libraries, ctx).locals;
    forall i | 0 <= i < |bindings|
      ensures DelegatePointer(ctx, bindings[i], libraries, addressLoad, locals) != 0
    {
      PointerAfterLoads(bindings, libraries, addressLoad, ctx, i);
    }
    assert FirstNull(ctx, bindings, libraries, addressLoad, locals, |bindings|) == |bindings|;
    FieldsAfterHolds(ctx, bindings, libraries, addressLoad, locals, map[], |bindings|, j);
  }

  /** As emitted, with every library and symbol found, the constructor
      returns; with a single library each field holds a delegate over its
      own symbol's address, but with two or more every field holds a
      delegate over the second library's handle: the address goes to local
      |libraries| and Ldloc_1 reads local 1 back. */
  lemma {:induction false} AsWrittenDelegates(bindings: seq<MethodBinding>, ctx: Context, j: nat)
    requires ConstructorArguments(ctx) && bindings != [] && j < |bindings|
    requires AllResolve(bindings, LibrariesOf(bindings), ctx)
    ensures var libraries := LibrariesOf(bindings);
      var r := Run(ConstructorCode(bindings, Ldloc1), Start(|libraries| + 1, map[]), ctx);
      var b := bindings[j];
      && r.status == Returned
      && b.delegateField in r.fields
      && (|libraries| == 1 ==> r.fields[b.delegateField] == DelegateObject(ResolvedAddress(ctx, libraries, b), b.delegateType))
      && (|libraries| >= 2 ==> r.fields[b.delegateField] == DelegateObject(HandleOf(ctx, libraries[1]), b.delegateType))
  {
    var libraries := LibrariesOf(bindings);
    LibrariesOfCovers(bindings);
    ConstructorRun(bindings, Ldloc1, ctx);
    OutcomeDelegates(bindings, libraries, Ldloc1, ctx, j, Run(ConstructorCode(bindings, Ldloc1), Start(|libraries| + 1, map[]), ctx));
  }

  /** Reading the scratch local back instead (Ldloc |libraries|), every field
      holds a delegate over its own symbol's address, however many libraries. */
  lemma {:induction false} ScratchSlotDelegates(bindings: seq<MethodBinding>, ctx: Context, j: nat)
    requires ConstructorArguments(ctx) && bindings != [] && j < |bindings|
    requires AllResolve(bindings, LibrariesOf(bindings), ctx)
    ensures var libraries := LibrariesOf(bindings);
      var r := Run(ConstructorCode(bindings, Ldloc(|libraries|)), Start(|libraries| + 1, map[]), ctx);
      var b := bindings[j];
      r.status == Returned && b.delegateField in r.fields &&
      r.fields[b.delegateField] == DelegateObject(ResolvedAddress(ctx, libraries, b), b.delegateType)
  {
    var libraries := LibrariesOf(bindings);
    LibrariesOfCovers(bindings);
    ConstructorRun(bindings, Ldloc(|libraries|), ctx);
    OutcomeDelegates(bindings, libraries, Ldloc(|libraries|), ctx, j, Run(ConstructorCode(bindings, Ldloc(|libraries|)), Start(|libraries| + 1, map[]), ctx));
  }

  /** A library that fails to load ends the constructor before any symbol is looked up. */
  lemma {:induction false} LoadFailureStopsBeforeLookup(bindings: seq<MethodBinding>, addressLoad: OpCode, ctx: Context, i: nat)
    requires ConstructorArguments(ctx) && bindings != [] && AddressLoad(addressLoad, LibrariesOf(bindings))
    requires i < |LibrariesOf(bindings)| && !Loads(ctx, LibrariesOf(bindings)[i])
    ensures var libraries := LibrariesOf(bindings);
      var r := Run(ConstructorCode(bindings, addressLoad), Start(|libraries| + 1, map[]), ctx);
      && r.status.Threw? && r.status.exception.LoadLibraryFailed?
      && (forall c :: c in r.calls ==> c.LoadLibraryCall?)
      && |r.calls| <= i + 1
  {
    ConstructorRun(bindings, addressLoad, ctx);
  }
}
