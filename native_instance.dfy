/** The binder (NativeInstance): from an interface whose methods carry
    RuntimeUnmanagedFunctionPointer and NativeLoaderOverride attributes, it
    decides which library and entry point each method binds to, generates a
    delegate type and a forwarding method per interface method, and emits a
    constructor that loads every library once and fills one delegate field
    per method. */
module NativeInstance {
  import opened Wrappers
  import opened Sequences
  import opened LibraryNames
  import opened Ordinal
  import opened Il
  import opened EmitExtensions

  /** MethodAttributes.Public and MethodAttributes.Virtual. */
  const MethodPublic: nat := 0x0006
  const MethodVirtual: nat := 0x0040

  /** RuntimeUnmanagedFunctionPointerAttribute. */
  datatype FunctionPointerAttribute = FunctionPointerAttribute(
    entryPoint: Option<string>, callingConvention: nat, charSet: nat, setLastError: bool,
    bestFitMapping: bool, throwOnUnmappableChar: bool,
    libraryName: string, libraryVersion: Option<string>)

  /** NativeLoaderOverrideAttribute. */
  datatype OverrideAttribute = OverrideAttribute(platform: Platform, libraryName: string, libraryVersion: Option<string>)

  /** An interface method with the attributes reflection finds on it, in order. */
  datatype InterfaceMethod = InterfaceMethod(
    name: string, returnType: string, parameters: seq<ParameterInfo>,
    functionPointerAttributes: seq<FunctionPointerAttribute>,
    overrideAttributes: seq<OverrideAttribute>)

  datatype InterfaceType = InterfaceType(name: string, isInterface: bool, isPublic: bool, methods: seq<InterfaceMethod>)

  /** The exceptions CreateInstance can end with. */
  datatype BindError =
    | NotPublicInterface(typeName: string)
    | AttributeNotSet(methodName: string)
    | ConstructorThrew(exception: Thrown)

  /** InterfaceMethodDefinition, with the two methods generated for it: the
      delegate type's Invoke and the implementation of the interface method. */
  datatype MethodBinding = MethodBinding(
    interfaceMethod: InterfaceMethod,
    attribute: FunctionPointerAttribute,
    libraryName: string, libraryVersion: Option<string>,
    delegateType: string, delegateField: string,
    invokeMethod: MethodDefinition,
    overrideMethod: MethodDefinition,
    overrideBody: seq<OpCode>)

  // ---- Binding decisions ----

  /** The method's RuntimeUnmanagedFunctionPointer attribute, or an error naming the method. */
  function GetUnmanagedFunctionPointerAttribute(m: InterfaceMethod): (r: Result<FunctionPointerAttribute, BindError>)
    ensures r.Ok? <==> m.functionPointerAttributes != []
    ensures r.Ok? ==> r.value == m.functionPointerAttributes[0]
    ensures r.Err? ==> r.error == AttributeNotSet(m.name)
  {
    if m.functionPointerAttributes == [] then Err(AttributeNotSet(m.name)) else Ok(m.functionPointerAttributes[0])
  }

  /** The first override attribute for the platform, if any. */
  function GetNativeLoaderOverrideAttribute(m: InterfaceMethod, platform: Platform): (r: Option<OverrideAttribute>)
    ensures r.None? <==> forall a :: a in m.overrideAttributes ==> a.platform != platform
    ensures forall i :: 0 <= i < |m.overrideAttributes| && m.overrideAttributes[i].platform == platform
                        && (forall j :: 0 <= j < i ==> m.overrideAttributes[j].platform != platform)
                        ==> r == Some(m.overrideAttributes[i])
  {
    var i := FirstIndex(m.overrideAttributes, (a: OverrideAttribute) => a.platform == platform);
    if i < |m.overrideAttributes| then Some(m.overrideAttributes[i]) else None
  }

  /** The library a method binds to: the attribute's, unless an override for
      the platform replaces both name and version. */
  function EffectiveLibrary(m: InterfaceMethod, attribute: FunctionPointerAttribute, platform: Platform): (r: (string, Option<string>))
    ensures GetNativeLoaderOverrideAttribute(m, platform).None? ==> r == (attribute.libraryName, attribute.libraryVersion)
    ensures GetNativeLoaderOverrideAttribute(m, platform).Some? ==>
              r == (GetNativeLoaderOverrideAttribute(m, platform).value.libraryName,
                    GetNativeLoaderOverrideAttribute(m, platform).value.libraryVersion)
  {
    match GetNativeLoaderOverrideAttribute(m, platform)
    case None => (attribute.libraryName, attribute.libraryVersion)
    case Some(o) => (o.libraryName, o.libraryVersion)
  }

  function DelegateTypeName(methodName: string): string {
    methodName + "Delegate"
  }

  function DelegateFieldName(methodName: string): string {
    "_" + methodName + "Delegate"
  }

  /** Distinct method names give distinct delegate fields. */
  lemma {:induction false} DelegateFieldNameInjective(a: string, b: string)
    requires DelegateFieldName(a) == DelegateFieldName(b)
    ensures a == b
  {
    var fa, fb := DelegateFieldName(a), DelegateFieldName(b);
    assert |a| == |b|;
    assert a == fa[1..|a| + 1] && b == fb[1..|b| + 1];
  }

  /** The symbol looked up: the attribute's EntryPoint, else the method's name. */
  function EntryPoint(b: MethodBinding): string {
    b.attribute.entryPoint.GetOr(b.interfaceMethod.name)
  }

  /** Everything GetInterfaceMethodDefinitions produces for one method. */
  function Bind(m: InterfaceMethod, attribute: FunctionPointerAttribute, platform: Platform): MethodBinding {
    var (libraryName, libraryVersion) := EffectiveLibrary(m, attribute, platform);
    MethodBinding(m, attribute, libraryName, libraryVersion,
                  DelegateTypeName(m.name), DelegateFieldName(m.name),
                  AddedMethod("Invoke", MethodPublic, m.returnType, m.parameters),
                  AddedMethod(m.name, MethodPublic + MethodVirtual, m.returnType, m.parameters),
                  CallMethodCode(DelegateFieldName(m.name), Invoke(DelegateTypeName(m.name), |m.parameters|), |m.parameters|))
  }

  /** What a method's definition holds: the library chosen by the attribute
      and the platform's override, the delegate type and field named after
      the method, an Invoke and an implementation with the method's
      signature, and a body that forwards to the delegate field. */
  lemma {:induction false} BindMeaning(m: InterfaceMethod, attribute: FunctionPointerAttribute, platform: Platform)
    ensures var b := Bind(m, attribute, platform);
      && b.interfaceMethod == m && b.attribute == attribute
      && (b.libraryName, b.libraryVersion) == EffectiveLibrary(m, attribute, platform)
      && b.delegateType == DelegateTypeName(m.name) && b.delegateField == DelegateFieldName(m.name)
      && DefinesMethod(b.invokeMethod, "Invoke", MethodPublic, m.returnType, m.parameters)
      && DefinesMethod(b.overrideMethod, m.name, MethodPublic + MethodVirtual, m.returnType, m.parameters)
      && b.overrideBody == CallMethodCode(b.delegateField, Invoke(b.delegateType, |m.parameters|), |m.parameters|)
  {
    AddedMethodDefines("Invoke", MethodPublic, m.returnType, m.parameters);
    AddedMethodDefines(m.name, MethodPublic + MethodVirtual, m.returnType, m.parameters);
  }

  /** The entry point does not depend on the platform: overrides change only the library. */
  lemma {:induction false} EntryPointIgnoresPlatform(m: InterfaceMethod, attribute: FunctionPointerAttribute, p: Platform, q: Platform)
    ensures EntryPoint(Bind(m, attribute, p)) == EntryPoint(Bind(m, attribute, q))
    ensures attribute.entryPoint.None? ==> EntryPoint(Bind(m, attribute, p)) == m.name
  {
  }

  predicate MissingAttribute(m: InterfaceMethod) {
    m.functionPointerAttributes == []
  }

  /** The definitions for all methods, in the order reflection returns the methods, or the error for
      the first method without the attribute. */
  function BindAll(methods: seq<InterfaceMethod>, platform: Platform): (r: Result<seq<MethodBinding>, BindError>)
    ensures r.Err? <==> exists i :: 0 <= i < |methods| && MissingAttribute(methods[i])
    ensures r.Err? ==> r.error == AttributeNotSet(methods[FirstIndex(methods, MissingAttribute)].name)
    ensures r.Ok? ==> |r.value| == |methods|
    ensures r.Ok? ==> forall i :: 0 <= i < |methods| ==>
              r.value[i] == Bind(methods[i], methods[i].functionPointerAttributes[0], platform)
    decreases |methods|
  {
    if methods == [] then Ok([])
    else
      match GetUnmanagedFunctionPointerAttribute(methods[0])
      case Err(e) => Err(e)
      case Ok(attribute) =>
        var rest := BindAll(methods[1..], platform);
        assert forall i :: 1 <= i < |methods| ==> methods[i] == methods[1..][i - 1];
        if rest.Err? then
          assert FirstIndex(methods, MissingAttribute) == 1 + FirstIndex(methods[1..], MissingAttribute);
          rest
        else Ok([Bind(methods[0], attribute, platform)] + rest.value)
  }

  /** CreateDelegateType: the delegate's Invoke has the interface method's signature. */
  method CreateDelegateType(m: InterfaceMethod) returns (invoke: MethodDefinition)
    ensures invoke == AddedMethod("Invoke", MethodPublic, m.returnType, m.parameters)
  {
    invoke := AddMethod("Invoke", MethodPublic, m.returnType, m.parameters);
  }

  /** DefineMethodOverrideForDelegateMethod: the implementation of the
      interface method and its forwarding body. */
  method DefineMethodOverrideForDelegateMethod(m: InterfaceMethod, delegateType: string, delegateField: string)
    returns (overrideMethod: MethodDefinition, body: seq<OpCode>)
    ensures overrideMethod == AddedMethod(m.name, MethodPublic + MethodVirtual, m.returnType, m.parameters)
    ensures body == CallMethodCode(delegateField, Invoke(delegateType, |m.parameters|), |m.parameters|)
  {
    overrideMethod := AddMethod(m.name, MethodPublic + MethodVirtual, m.returnType, m.parameters);
    var il := new ILGenerator();
    CallMethod(il, delegateField, Invoke(delegateType, |m.parameters|), m.parameters);
    body := il.code;
  }

  /** One iteration of GetInterfaceMethodDefinitions, for a method that has the attribute. */
  method DefineInterfaceMethod(interfaceMethod: InterfaceMethod, attribute: FunctionPointerAttribute, platform: Platform)
    returns (d: MethodBinding)
    ensures d == Bind(interfaceMethod, attribute, platform)
  {
    var libraryName, libraryVersion := attribute.libraryName, attribute.libraryVersion;
    var overrideAttribute := GetNativeLoaderOverrideAttribute(interfaceMethod, platform);
    if overrideAttribute.Some? {
      libraryName, libraryVersion := overrideAttribute.value.libraryName, overrideAttribute.value.libraryVersion;
    }
    var delegateType := DelegateTypeName(interfaceMethod.name);
    var invoke := CreateDelegateType(interfaceMethod);
    var delegateField := DelegateFieldName(interfaceMethod.name);
    var overrideMethod, body := DefineMethodOverrideForDelegateMethod(interfaceMethod, delegateType, delegateField);
    d := MethodBinding(interfaceMethod, attribute, libraryName, libraryVersion,
                       delegateType, delegateField, invoke, overrideMethod, body);
  }

  method GetInterfaceMethodDefinitions(methods: seq<InterfaceMethod>, platform: Platform)
    returns (r: Result<seq<MethodBinding>, BindError>)
    ensures r == BindAll(methods, platform)
  {
    var definitions: seq<MethodBinding> := [];
    for i := 0 to |methods|
      invariant |definitions| == i
      invariant forall j :: 0 <= j < i ==> !MissingAttribute(methods[j])
      invariant forall j :: 0 <= j < i ==> definitions[j] == Bind(methods[j], methods[j].functionPointerAttributes[0], platform)
    {
      var attributeResult := GetUnmanagedFunctionPointerAttribute(methods[i]);
      if attributeResult.Err? {
        BindAllFails(methods, platform, i);
        return Err(attributeResult.error);
      }
      var d := DefineInterfaceMethod(methods[i], attributeResult.value, platform);
      definitions := definitions + [d];
    }
    r := Ok(definitions);
    BindAllSucceeds(methods, platform, definitions);
  }

  /** The first method without the attribute decides BindAll's error. */
  lemma {:induction false} BindAllFails(methods: seq<InterfaceMethod>, platform: Platform, i: nat)
    requires i < |methods| && MissingAttribute(methods[i])
    requires forall j :: 0 <= j < i ==> !MissingAttribute(methods[j])
    ensures BindAll(methods, platform) == Err(AttributeNotSet(methods[i].name))
  {
    assert FirstIndex(methods, MissingAttribute) == i;
  }

  /** When every method has the attribute, BindAll binds each one in order. */
  lemma {:induction false} BindAllSucceeds(methods: seq<InterfaceMethod>, platform: Platform, definitions: seq<MethodBinding>)
    requires |definitions| == |methods|
    requires forall j :: 0 <= j < |methods| ==>
               !MissingAttribute(methods[j]) && definitions[j] == Bind(methods[j], methods[j].functionPointerAttributes[0], platform)
    ensures BindAll(methods, platform) == Ok(definitions)
  {
    var expected := BindAll(methods, platform);
    assert expected.Ok?;
    assert expected.value == definitions;
  }

  // ---- The library list (GetLibrairies) ----

  /** A SortedList entry: a library and the version it is loaded with. */
  datatype Library = Library(name: string, version: Option<string>)

  predicate ContainsKey(libraries: seq<Library>, name: string) {
    exists e :: e in libraries && e.name == name
  }

  predicate StrictlySorted(libraries: seq<Library>) {
    forall i, j :: 0 <= i < j < |libraries| ==> Less(libraries[i].name, libraries[j].name)
  }

  /** Putting an entry below every key in front keeps the list sorted. */
  lemma {:induction false} SortedPrepend(e: Library, libraries: seq<Library>)
    requires StrictlySorted(libraries)
    requires forall x :: x in libraries ==> Less(e.name, x.name)
    ensures StrictlySorted([e] + libraries)
  {
    var r := [e] + libraries;
    forall i, j | 0 <= i < j < |r|
      ensures Less(r[i].name, r[j].name)
    {
      if i == 0 {
        assert r[j] in libraries;
      } else {
        assert r[i] == libraries[i - 1] && r[j] == libraries[j - 1];
      }
    }
  }

  /** SortedList.Add: the entry goes in front of the first key above its own. */
  function Insert(libraries: seq<Library>, e: Library): (r: seq<Library>)
    ensures |r| == |libraries| + 1
    ensures forall x :: x in r <==> x in libraries || x == e
    decreases |libraries|
  {
    if libraries == [] || Less(e.name, libraries[0].name) then [e] + libraries
    else [libraries[0]] + Insert(libraries[1..], e)
  }

  /** Adding a new key to a sorted list keeps it sorted. */
  lemma {:induction false} InsertSorted(libraries: seq<Library>, e: Library)
    requires StrictlySorted(libraries) && !ContainsKey(libraries, e.name)
    ensures StrictlySorted(Insert(libraries, e))
    decreases |libraries|
  {
    if libraries == [] {
    } else if Less(e.name, libraries[0].name) {
      forall x | x in libraries
        ensures Less(e.name, x.name)
      {
        var j :| 0 <= j < |libraries| && libraries[j] == x;
        if j > 0 {
          LessTransitive(e.name, libraries[0].name, x.name);
        }
      }
      SortedPrepend(e, libraries);
    } else {
      var head, tail := libraries[0], libraries[1..];
      assert StrictlySorted(tail) by {
        forall i, j | 0 <= i < j < |tail|
          ensures Less(tail[i].name, tail[j].name)
        {
          assert tail[i] == libraries[i + 1] && tail[j] == libraries[j + 1];
        }
      }
      assert !ContainsKey(tail, e.name) by {
        forall x | x in tail
          ensures x.name != e.name
        {
          assert x in libraries;
        }
      }
      InsertSorted(tail, e);
      var rest := Insert(tail, e);
      forall x | x in rest
        ensures Less(head.name, x.name)
      {
        if x == e {
          LessTotal(e.name, head.name);
        } else {
          var j :| 0 <= j < |tail| && tail[j] == x;
          assert libraries[j + 1] == x;
        }
      }
      SortedPrepend(head, rest);
    }
  }

  /** GetLibrairies as a value: walking the methods in order, a library
      name not yet a key is added with that method's version. */
  function LibrariesOf(bindings: seq<MethodBinding>): seq<Library>
    decreases |bindings|
  {
    if bindings == [] then []
    else
      var earlier := LibrariesOf(bindings[..|bindings| - 1]);
      var b := bindings[|bindings| - 1];
      if ContainsKey(earlier, b.libraryName) then earlier
      else Insert(earlier, Library(b.libraryName, b.libraryVersion))
  }

  /** The list is strictly sorted by key. */
  lemma {:induction false} LibrariesOfSorted(bindings: seq<MethodBinding>)
    ensures StrictlySorted(LibrariesOf(bindings))
    decreases |bindings|
  {
    if bindings != [] {
      var n := |bindings| - 1;
      LibrariesOfSorted(bindings[..n]);
      var b := bindings[n];
      if !ContainsKey(LibrariesOf(bindings[..n]), b.libraryName) {
        InsertSorted(LibrariesOf(bindings[..n]), Library(b.libraryName, b.libraryVersion));
      }
    }
  }

  method GetLibraries(bindings: seq<MethodBinding>) returns (libraries: seq<Library>)
    ensures libraries == LibrariesOf(bindings)
  {
    libraries := [];
    for i := 0 to |bindings|
      invariant libraries == LibrariesOf(bindings[..i])
    {
      assert bindings[..i + 1][..i] == bindings[..i];
      var b := bindings[i];
      if !ContainsKey(libraries, b.libraryName) {
        libraries := Insert(libraries, Library(b.libraryName, b.libraryVersion));
      }
    }
    assert bindings[..|bindings|] == bindings;
  }

  /** One step of LibrariesOf: the last method adds its library unless the name is already a key. */
  lemma {:induction false} LibrariesOfStep(bindings: seq<MethodBinding>)
    requires bindings != []
    ensures var b := bindings[|bindings| - 1];
      var previous := LibrariesOf(bindings[..|bindings| - 1]);
      forall x :: x in LibrariesOf(bindings) <==>
        x in previous || (!ContainsKey(previous, b.libraryName) && x == Library(b.libraryName, b.libraryVersion))
  {
  }

  /** Every library name a method uses is a key. */
  lemma {:induction false} LibrariesOfComplete(bindings: seq<MethodBinding>, i: nat)
    requires i < |bindings|
    ensures ContainsKey(LibrariesOf(bindings), bindings[i].libraryName)
    decreases |bindings|
  {
    var n := |bindings| - 1;
    var previous := LibrariesOf(bindings[..n]);
    LibrariesOfStep(bindings);
    if i < n {
      LibrariesOfComplete(bindings[..n], i);
      var e :| e in previous && e.name == bindings[i].libraryName;
      assert e in LibrariesOf(bindings);
    } else if !ContainsKey(previous, bindings[i].libraryName) {
      assert Library(bindings[i].libraryName, bindings[i].libraryVersion) in LibrariesOf(bindings);
    } else {
      var e :| e in previous && e.name == bindings[i].libraryName;
      assert e in LibrariesOf(bindings);
    }
  }

  /** Every key is the library name of some method. */
  lemma {:induction false} LibrariesOfSound(bindings: seq<MethodBinding>, name: string)
    requires ContainsKey(LibrariesOf(bindings), name)
    ensures exists i :: 0 <= i < |bindings| && bindings[i].libraryName == name
    decreases |bindings|
  {
    var n := |bindings| - 1;
    var previous := LibrariesOf(bindings[..n]);
    LibrariesOfStep(bindings);
    var e :| e in LibrariesOf(bindings) && e.name == name;
    if e in previous {
      LibrariesOfSound(bindings[..n], name);
      var i :| 0 <= i < n && bindings[..n][i].libraryName == name;
      assert bindings[i].libraryName == name;
    } else {
      assert bindings[n].libraryName == name;
    }
  }

  /** The keys are exactly the library names the methods use. */
  lemma {:induction false} LibrariesOfKeys(bindings: seq<MethodBinding>, name: string)
    ensures ContainsKey(LibrariesOf(bindings), name) <==> exists i :: 0 <= i < |bindings| && bindings[i].libraryName == name
  {
    if ContainsKey(LibrariesOf(bindings), name) {
      LibrariesOfSound(bindings, name);
    }
    if exists i :: 0 <= i < |bindings| && bindings[i].libraryName == name {
      var i :| 0 <= i < |bindings| && bindings[i].libraryName == name;
      LibrariesOfComplete(bindings, i);
    }
  }

  /** Each name is a key once. */
  lemma {:induction false} SortedKeysUnique(libraries: seq<Library>, i: int, j: int)
    requires StrictlySorted(libraries) && 0 <= i < |libraries| && 0 <= j < |libraries|
    requires libraries[i].name == libraries[j].name
    ensures i == j
  {
    if i < j {
      LessIrreflexive(libraries[i].name);
    } else if j < i {
      LessIrreflexive(libraries[j].name);
    }
  }

  /** The entry for a name carries the version of the first method that uses that name. */
  lemma {:induction false} LibrariesOfFirstUse(bindings: seq<MethodBinding>, i: nat)
    requires i < |bindings|
    requires forall j :: 0 <= j < i ==> bindings[j].libraryName != bindings[i].libraryName
    ensures Library(bindings[i].libraryName, bindings[i].libraryVersion) in LibrariesOf(bindings)
    decreases |bindings|
  {
    var n := |bindings| - 1;
    var earlier := bindings[..n];
    if i < n {
      LibrariesOfFirstUse(earlier, i);
    } else {
      LibrariesOfKeys(earlier, bindings[i].libraryName);
    }
  }

  /** IndexOfKey: the position of the key, or -1. */
  function IndexOfKey(libraries: seq<Library>, name: string): (i: int)
    ensures -1 <= i < |libraries|
    ensures i >= 0 ==> libraries[i].name == name
    ensures i == -1 <==> !ContainsKey(libraries, name)
  {
    var k := FirstIndex(libraries, (e: Library) => e.name == name);
    if k < |libraries| then k else -1
  }

  // ---- The emitted constructor ----

  /** A null or empty version is passed as null. */
  function VersionArgument(version: Option<string>): (op: OpCode)
    ensures op == Ldnull <==> IsNullOrEmpty(version)
    ensures !IsNullOrEmpty(version) ==> op == Ldstr(version.value)
  {
    if IsNullOrEmpty(version) then Ldnull else Ldstr(version.value)
  }

  /** loader.LoadLibrary(name, version), stored in local i. */
  function LoadLibraryCode(i: nat, library: Library): seq<OpCode> {
    [Ldarg1, Ldstr(library.name), VersionArgument(library.version), Callvirt(LoadLibrary), Stloc(i)]
  }

  /** The loads of the first `count` libraries, in key order. */
  function LoadLibrariesCode(libraries: seq<Library>, count: nat): (code: seq<OpCode>)
    requires count <= |libraries|
    ensures |code| == 5 * count
  {
    if count == 0 then [] else LoadLibrariesCode(libraries, count - 1) + LoadLibraryCode(count - 1, libraries[count - 1])
  }

  method LoadLibraries(il: ILGenerator, libraries: seq<Library>)
    modifies il
    ensures il.code == old(il.code) + LoadLibrariesCode(libraries, |libraries|)
    ensures il.localCount == old(il.localCount)
  {
    for i := 0 to |libraries|
      invariant il.code == old(il.code) + LoadLibrariesCode(libraries, i)
      invariant il.localCount == old(il.localCount)
    {
      ghost var before := il.code;
      var library := libraries[i].name;
      var version := libraries[i].version;
      il.Emit(Ldarg1);
      il.Emit(Ldstr(library));
      if IsNullOrEmpty(version) {
        il.Emit(Ldnull);
      } else {
        il.Emit(Ldstr(version.value));
      }
      assert il.code == before + [Ldarg1, Ldstr(library), VersionArgument(version)];
      il.Emit(Callvirt(LoadLibrary));
      il.Emit(Stloc(i));
      assert il.code == before + LoadLibraryCode(i, libraries[i]);
      assert LoadLibrariesCode(libraries, i + 1) == LoadLibrariesCode(libraries, i) + LoadLibraryCode(i, libraries[i]);
    }
  }

  /** GetProcAddress(local IndexOfKey(library), entry point), stored in local |libraries|. */
  function ResolveCode(b: MethodBinding, libraries: seq<Library>): seq<OpCode> {
    [Ldarg1, Ldloc(IndexOfKey(libraries, b.libraryName)), Ldstr(EntryPoint(b)),
     Callvirt(GetProcAddress), Stloc(|libraries|)]
  }

  /** this.field = (DelegateType) GetDelegateForFunctionPointer(<addressLoad>, typeof(DelegateType)). */
  function StoreDelegateCode(b: MethodBinding, addressLoad: OpCode): seq<OpCode> {
    [Ldarg0, addressLoad, Ldtoken(b.delegateType), Call(GetTypeFromHandle),
     Call(GetDelegateForFunctionPointer), Castclass(b.delegateType), Stfld(b.delegateField)]
  }

  /** SetDelegateField's instructions, parameterised by the instruction that
      reads the address back; the emitted code uses Ldloc_1. */
  function DelegateFieldCode(b: MethodBinding, libraries: seq<Library>, addressLoad: OpCode): (code: seq<OpCode>)
    ensures |code| == 12
  {
    ResolveCode(b, libraries) + StoreDelegateCode(b, addressLoad)
  }

  /** The first half of SetDelegateField: resolve the entry point and keep
      the address in the scratch local. */
  method EmitGetProcAddress(il: ILGenerator, libraryIndex: int, methodName: string, tempMethodHandleIndex: nat)
    modifies il
    ensures il.code == old(il.code) + [Ldarg1, Ldloc(libraryIndex), Ldstr(methodName), Callvirt(GetProcAddress), Stloc(tempMethodHandleIndex)]
    ensures il.localCount == old(il.localCount)
  {
    il.Emit(Ldarg1);
    il.Emit(Ldloc(libraryIndex));
    il.Emit(Ldstr(methodName));
    il.Emit(Callvirt(GetProcAddress));
    il.Emit(Stloc(tempMethodHandleIndex));
  }

  /** The second half of SetDelegateField: wrap the address read back by
      Ldloc_1 in a delegate and store it in the method's field. */
  method EmitStoreDelegate(il: ILGenerator, b: MethodBinding)
    modifies il
    ensures il.code == old(il.code) + StoreDelegateCode(b, Ldloc1)
    ensures il.localCount == old(il.localCount)
  {
    il.Emit(Ldarg0);
    il.Emit(Ldloc1);
    il.Emit(Ldtoken(b.delegateType));
    il.Emit(Call(GetTypeFromHandle));
    il.Emit(Call(GetDelegateForFunctionPointer));
    il.Emit(Castclass(b.delegateType));
    il.Emit(Stfld(b.delegateField));
  }

  method SetDelegateField(il: ILGenerator, b: MethodBinding, libraries: seq<Library>)
    modifies il
    ensures il.code == old(il.code) + DelegateFieldCode(b, libraries, Ldloc1)
    ensures il.localCount == old(il.localCount)
  {
    var tempMethodHandleIndex := |libraries|;
    var libraryIndex := IndexOfKey(libraries, b.libraryName);
    var methodName := b.attribute.entryPoint.GetOr(b.interfaceMethod.name);
    EmitGetProcAddress(il, libraryIndex, methodName, tempMethodHandleIndex);
    ghost var resolved := il.code;
    EmitStoreDelegate(il, b);
    assert resolved == old(il.code) + ResolveCode(b, libraries);
  }

  /** The delegate-field blocks of the first `count` methods, in order. */
  function DelegateFieldsCode(bindings: seq<MethodBinding>, libraries: seq<Library>, addressLoad: OpCode, count: nat): (code: seq<OpCode>)
    requires count <= |bindings|
    ensures |code| == 12 * count
  {
    if count == 0 then []
    else DelegateFieldsCode(bindings, libraries, addressLoad, count - 1) + DelegateFieldCode(bindings[count - 1], libraries, addressLoad)
  }

  /** The constructor body: load every library, fill every delegate field, return. */
  function ConstructorCode(bindings: seq<MethodBinding>, addressLoad: OpCode): seq<OpCode> {
    var libraries := LibrariesOf(bindings);
    LoadLibrariesCode(libraries, |libraries|) + DelegateFieldsCode(bindings, libraries, addressLoad, |bindings|) + [Ret]
  }

  /** The foreach over the methods in DefineConstructor. */
  method SetDelegateFields(il: ILGenerator, bindings: seq<MethodBinding>, libraries: seq<Library>)
    modifies il
    ensures il.code == old(il.code) + DelegateFieldsCode(bindings, libraries, Ldloc1, |bindings|)
    ensures il.localCount == old(il.localCount)
  {
    for j := 0 to |bindings|
      invariant il.code == old(il.code) + DelegateFieldsCode(bindings, libraries, Ldloc1, j)
      invariant il.localCount == old(il.localCount)
    {
      SetDelegateField(il, bindings[j], libraries);
    }
  }

  method DefineConstructor(bindings: seq<MethodBinding>) returns (il: ILGenerator)
    ensures il.code == ConstructorCode(bindings, Ldloc1)
    ensures il.localCount == |LibrariesOf(bindings)| + 1
  {
    il := new ILGenerator();
    var libraries := GetLibraries(bindings);
    for i := 0 to |libraries|
      invariant il.code == [] && il.localCount == i
    {
      var _ := il.DeclareLocal();
    }
    var _ := il.DeclareLocal();
    ghost var loads := LoadLibrariesCode(libraries, |libraries|);
    ghost var fields := DelegateFieldsCode(bindings, libraries, Ldloc1, |bindings|);
    LoadLibraries(il, libraries);
    assert il.code == loads;
    SetDelegateFields(il, bindings, libraries);
    assert il.code == loads + fields;
    il.Emit(Ret);
    assert il.code == loads + fields + [Ret];
  }

  // ---- CreateInstance ----

  /** The created object: its generated type's name, the methods it
      implements and the delegate fields its constructor filled. */
  datatype Instance = Instance(typeName: string, bindings: seq<MethodBinding>, fields: map<string, Value>)

  /** The generated constructor's arguments: `this` and the NativeLoader.
      `loadLibrary` answers NativeLoader.LoadLibrary (None when it throws)
      and `getProcAddress` answers NativeLoader.GetProcAddress. */
  function ConstructorContext(loadLibrary: (string, Option<string>) -> Option<int>, getProcAddress: (int, string) -> int): Context {
    Context([ThisObject, LoaderObject], loadLibrary, getProcAddress, (target: Value, arguments: seq<Value>) => Null)
  }

  /** The state the generated constructor ends in. */
  function Construct(bindings: seq<MethodBinding>, loadLibrary: (string, Option<string>) -> Option<int>,
                     getProcAddress: (int, string) -> int): Machine {
    Run(ConstructorCode(bindings, Ldloc1), Start(|LibrariesOf(bindings)| + 1, map[]),
        ConstructorContext(loadLibrary, getProcAddress))
  }

  /** The guard CreateInstance applies to its type argument. */
  predicate Rejected(t: InterfaceType) {
    !t.isInterface && !t.isPublic
  }

  method CreateInstance(t: InterfaceType, platform: Platform, loadLibrary: (string, Option<string>) -> Option<int>,
                        getProcAddress: (int, string) -> int)
    returns (r: Result<Instance, BindError>)
    ensures Rejected(t) ==> r == Err(NotPublicInterface(t.name))
    ensures !Rejected(t) && BindAll(t.methods, platform).Err? ==> r == Err(BindAll(t.methods, platform).error)
    ensures !Rejected(t) && BindAll(t.methods, platform).Ok? ==>
              var bindings := BindAll(t.methods, platform).value;
              var m := Construct(bindings, loadLibrary, getProcAddress);
              (m.status.Threw? ==> r == Err(ConstructorThrew(m.status.exception))) &&
              (!m.status.Threw? ==> r == Ok(Instance("Assembly." + t.name + ".Type", bindings, m.fields)))
  {
    if !t.isInterface && !t.isPublic {
      return Err(NotPublicInterface(t.name));
    }
    var interfaceMethods := GetInterfaceMethodDefinitions(t.methods, platform);
    if interfaceMethods.Err? {
      return Err(interfaceMethods.error);
    }
    var il := DefineConstructor(interfaceMethods.value);
    var m := Run(il.code, Start(il.localCount, map[]), ConstructorContext(loadLibrary, getProcAddress));
    if m.status.Threw? {
      return Err(ConstructorThrew(m.status.exception));
    }
    r := Ok(Instance("Assembly." + t.name + ".Type", interfaceMethods.value, m.fields));
  }
}
