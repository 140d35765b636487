# Tncl.NativeLoader in Dafny

This project models the core of Tncl.NativeLoader, a .NET library that loads
native shared libraries and binds a C# interface to their exported functions.
It covers four connected parts:

- **Name normalisation** (`LibraryNames`). Each platform back-end's
  `GetOSLibraryName` turns a logical name and version into a physical file
  name: `<name>.dll` on Windows, `lib<name>.so[.<version>]` on Linux and
  `lib<name>[.<version>].dylib` on macOS. The module also holds the
  constructor's choice of back-end by platform.
- **Probe paths** (`PathResolver`). `LibraryPathResolver.GetProbePaths`
  builds the base directories in two passes and combines each with the name.
  It keeps the candidates for which `File.Exists` is false. The host
  environment is a parameter.
- **The registry** (`Registry`). `NativeLoader` is a class whose
  `loadedLibraries` map is the source's `_loadedLibrairies` dictionary.
  `Load`, `FreeLibrary` and `FreeAll` update it. The OS back-end is a class
  holding the platform's load, free and symbol-lookup functions, plus a
  ghost trace of the calls made to it. Each state-changing method is proved
  against a specification function (`LoadSpec`, `FreeSpec`, `Survivors`).
  Lemmas about those functions state the cache behaviour on each platform.
- **The binder** (`NativeInstance`, `EmitExtensions`, `Il`,
  `ConstructorSemantics`). `CreateInstance` decides, for each interface
  method:
  - the library it binds to;
  - its entry point;
  - its delegate field.

  It then computes the sorted list of distinct libraries and emits the
  constructor and the forwarding methods as instruction lists, through an
  `ILGenerator` class. A small interpreter (`Il.Run`) gives the emitted
  instructions a meaning. The main theorem is `ConstructorSemantics.ConstructorRun`. It states what the
  generated constructor does:
  - It loads the libraries in key order. The first failed load stops it
    before any symbol is looked up.
  - For each method, it looks up the entry point in that method's library.
  - It stores a delegate over the pointer it reads back.

Modelling choices:

- A C# string that may be null is `Option<string>`, with `None` for null.
- Handles and addresses are `int`, and 0 is `IntPtr.Zero`.
- `SortedList`'s comparer is ordinal: lexicographic on character codes
  (`Ordinal.Less`).
- The current platform, the process environment and the OS calls are
  parameters.

## Model

| member | source | states |
|---|---|---|
| LibraryNames.SelectBackend | Tncl.NativeLoader/NativeLoader.cs:29-42 | Windows, Linux and OSX each select their own back-end; any other platform selects none, the NotImplementedException case |
| LibraryNames.WindowsLibraryName | Tncl.NativeLoader/NativeLoaderWindows.cs:15-20 | the result ends with ".dll" ignoring case, starts with the name, has the name's length or four more, equals the name exactly when the name already ends with ".dll" ignoring case, and is otherwise the name followed by exactly ".dll" |
| LibraryNames.WindowsNameIdempotent | Tncl.NativeLoader/NativeLoaderWindows.cs:15-20 | normalising an already normalised Windows name returns it unchanged, whatever the versions |
| LibraryNames.WindowsNameIgnoresVersion | Tncl.NativeLoader/NativeLoaderWindows.cs:15-20 | the version has no effect on the Windows name |
| LibraryNames.WindowsNameKeepsUpperCaseSuffix | Tncl.NativeLoader/NativeLoaderWindows.cs:17-19 | "FOO.DLL" is kept as it is: the suffix check ignores case |
| LibraryNames.VersionSuffix | Tncl.NativeLoader/NativeLoaderUnix.cs:13-16 | the version part is empty exactly for a null or empty version, and "." + version otherwise |
| LibraryNames.UnixLibraryName | Tncl.NativeLoader/NativeLoaderUnix.cs:11-19 | the Linux name is "lib", then the name, then ".so", then the version part, at the stated positions |
| LibraryNames.UnixNullVersionIsEmptyVersion | Tncl.NativeLoader/NativeLoaderUnix.cs:13-18 | a null and an empty version both give "lib" + name + ".so" |
| LibraryNames.UnixVersionedName | Tncl.NativeLoader/NativeLoaderUnix.cs:13-18 | a non-empty version gives "lib" + name + ".so." + version |
| LibraryNames.ParseUnixLibraryName | Tncl.NativeLoader/NativeLoaderUnix.cs:18 | a name it recovers normalises back to the physical name it was given |
| LibraryNames.UnixNameRoundTrip | Tncl.NativeLoader/NativeLoaderUnix.cs:18 | parsing a Linux name recovers the logical name it was built from |
| LibraryNames.UnixNameInjective | Tncl.NativeLoader/NativeLoaderUnix.cs:18 | for a fixed version, distinct names give distinct Linux names |
| LibraryNames.UnixNameNotIdempotent | Tncl.NativeLoader/NativeLoaderUnix.cs:18 | normalising a Linux name again makes it strictly longer, so the result differs |
| LibraryNames.OsxLibraryName | Tncl.NativeLoader/NativeLoaderOSX.cs:11-19 | the macOS name is "lib", then the name, then the version part, then ".dylib", at the stated positions |
| LibraryNames.OsxNullVersionIsEmptyVersion | Tncl.NativeLoader/NativeLoaderOSX.cs:13-18 | a null and an empty version both give "lib" + name + ".dylib" |
| LibraryNames.OsxVersionedName | Tncl.NativeLoader/NativeLoaderOSX.cs:13-18 | a non-empty version gives "lib" + name + "." + version + ".dylib" |
| LibraryNames.ParseOsxLibraryName | Tncl.NativeLoader/NativeLoaderOSX.cs:18 | a name it recovers normalises back to the physical name it was given |
| LibraryNames.OsxNameRoundTrip | Tncl.NativeLoader/NativeLoaderOSX.cs:18 | parsing a macOS name recovers the logical name it was built from |
| LibraryNames.OsxNameInjective | Tncl.NativeLoader/NativeLoaderOSX.cs:18 | for a fixed version, distinct names give distinct macOS names |
| LibraryNames.OsxNameNotIdempotent | Tncl.NativeLoader/NativeLoaderOSX.cs:18 | normalising a macOS name again makes it strictly longer, so the result differs |
| LibraryNames.NormalisationIdempotentOnlyOnWindows | Tncl.NativeLoader/NativeLoader.cs:170-175 | a second normalisation of a normalised name gives it back if and only if the back-end is Windows |
| PathResolver.ArchitectureFolder | Tncl.NativeLoader/LibraryPathResolver.cs:23 | the sub-folder is "x64" exactly in a 64-bit process and "x86" exactly otherwise |
| PathResolver.PassDirectories | Tncl.NativeLoader/LibraryPathResolver.cs:29-34 | one pass yields four directories when the assembly directory is known and three otherwise |
| PathResolver.Passes | Tncl.NativeLoader/LibraryPathResolver.cs:27-35 | the passes together yield one pass's worth of directories per sub-folder |
| PathResolver.CombineAll | Tncl.NativeLoader/LibraryPathResolver.cs:38-39 | each candidate is its base directory combined with the name, in the same order |
| PathResolver.LibraryPathResolver.constructor | Tncl.NativeLoader/LibraryPathResolver.cs:19 | a new resolver has FixupLibraryName set to true |
| PathResolver.LibraryPathResolver.GetProbePaths | Tncl.NativeLoader/LibraryPathResolver.cs:21-44 | the loop over the two sub-folders builds exactly the base directories, and the result is the query over them |
| PathResolver.BaseDirectoriesOrder | Tncl.NativeLoader/LibraryPathResolver.cs:27-35 | there are 8 base directories with a known assembly directory and 6 without; the pass without a sub-folder comes first, then the architecture pass |
| PathResolver.ProbePathsSpec | Tncl.NativeLoader/LibraryPathResolver.cs:37-41 | every probe path does not exist and is a base directory combined with the name; every candidate that does not exist is probed exactly as many times as it occurs among the candidates (duplicates are kept); the order of the candidates is kept, so the probe paths are exactly the non-existent candidates in order |
| PathResolver.SameDirectoryProbedTwice | Tncl.NativeLoader/LibraryPathResolver.cs:29-41 | when the executing assembly's directory is the base directory and the file is absent there, that path is probed at least twice, since the query does not remove duplicates |
| PathResolver.NothingExistsProbesAll | Tncl.NativeLoader/LibraryPathResolver.cs:40 | when no candidate exists, every candidate is probed |
| Registry.LoadCalls | Tncl.NativeLoader/NativeLoader.cs:88-97 | one back-end Load call per attempted path, in order |
| Registry.FreeCalls | Tncl.NativeLoader/NativeLoader.cs:141-143 | one back-end Free call per key, on that key's handle, in order |
| Registry.NativeLoaderBackend.constructor | Tncl.NativeLoader/NativeLoaderBase.cs:10-13 | a back-end holds its platform functions and has made no call |
| Registry.NativeLoaderBackend.Load | Tncl.NativeLoader/NativeLoaderBase.cs:15-29 | Load returns the platform load's handle, where 0 stands for failure or a swallowed exception, and records one call |
| Registry.NativeLoaderBackend.Free | Tncl.NativeLoader/NativeLoaderBase.cs:31-34 | Free returns the platform free's answer and records one call |
| Registry.NativeLoaderBackend.GetProcAddress | Tncl.NativeLoader/NativeLoaderBase.cs:36-39 | GetProcAddress returns the platform lookup's address and records one call |
| Registry.LoadSpec | Tncl.NativeLoader/NativeLoader.cs:80-104 | a load keeps every stored handle non-zero |
| Registry.LoadSpecOkNonZero | Tncl.NativeLoader/NativeLoader.cs:80-104 | a handle Load returns is never zero, and is the one stored under the key |
| Registry.Attempts | Tncl.NativeLoader/NativeLoader.cs:88-97 | at least one path is always attempted: the bare name when no probe succeeds |
| Registry.LoadSpecMeaning | Tncl.NativeLoader/NativeLoader.cs:80-104 | a cache hit calls nothing and returns the stored handle, or KeyNotFound when the key is absent; a miss attempts the probe paths in order up to the first non-zero handle, then the bare name; on success only the key gets the handle; on failure DllNotFound is returned and the map is unchanged |
| Registry.MissStoresUnderKey | Tncl.NativeLoader/NativeLoader.cs:86-104 | on a miss the attempts are the probe order; a non-zero last handle is returned and stored under the key; zero gives DllNotFound and leaves the map unchanged |
| Registry.WindowsReloadHitsCache | Tncl.NativeLoader/NativeLoader.cs:77-84 | on Windows a second load of a loaded library returns the same handle and calls nothing |
| Registry.UnixReloadMissesCache | Tncl.NativeLoader/NativeLoader.cs:77-84 | on Linux and macOS, for any valid registry where the first load misses (the twice-normalised name is not a key), a second load of the library it stored misses the cache again, because the key is normalised twice; it probes again along the same attempts as any miss, and a success overwrites the entry under the same key |
| Registry.WindowsLoadWithoutFixupThrowsKeyNotFound | Tncl.NativeLoader/NativeLoader.cs:80-84 | without fixup, loading "foo" when "foo.dll" is stored takes the hit path and fails with KeyNotFound for "foo" |
| Registry.FreeSpec | Tncl.NativeLoader/NativeLoader.cs:116-136 | not loaded gives false with no change and no call; a successful close removes exactly that key and gives true; a failed close hands the handle to Free once, keeps the map and gives false; a name that IsLibraryLoaded finds but whose once-normalised key is missing gives KeyNotFound with no call and no change |
| Registry.WindowsFreeAfterLoad | Tncl.NativeLoader/NativeLoader.cs:116-136 | on Windows, freeing a library just stored closes its handle, and removes it when the close succeeds |
| Registry.UnixFreeAfterLoadIsNoOp | Tncl.NativeLoader/NativeLoader.cs:116-124 | on Linux and macOS, in any registry where the twice-normalised name is not a key, freeing a library just stored under its normalised key returns false without a call and keeps the entry, because the name is normalised twice |
| Registry.FreeNeverLoaded | Tncl.NativeLoader/NativeLoader.cs:120-124 | freeing from an empty registry returns false and calls nothing |
| Registry.Survivors | Tncl.NativeLoader/NativeLoader.cs:138-148 | the keys left are exactly those whose handle's close fails, each with its handle |
| Registry.SelectLibrary | Tncl.NativeLoader/NativeLoader.cs:57-65 | the first override for the current platform replaces both name and version; with none, the item's own name and version are used |
| Registry.NativeLoader.Init | Tncl.NativeLoader/NativeLoader.cs:23-45 | a new loader keeps its platform, back-end and default resolver, with an empty registry |
| Registry.NativeLoader.Create | Tncl.NativeLoader/NativeLoader.cs:23-45 | an unknown platform gives NotImplemented; any other gives a fresh loader with an empty registry and the platform's back-end |
| Registry.NativeLoader.Load | Tncl.NativeLoader/NativeLoader.cs:70-105 | a null resolver is replaced by the default; the name is normalised exactly when fixup is on; the result, the new registry and the back-end calls are those of LoadSpec over the resolver's probe paths |
| Registry.NativeLoader.LoadMissing | Tncl.NativeLoader/NativeLoader.cs:86-104 | on a miss, the result, the new registry and the back-end calls are those LoadSpec gives |
| Registry.NativeLoader.ProbeAndLoad | Tncl.NativeLoader/NativeLoader.cs:88-97 | the loop tries the paths in order and stops at the first non-zero handle, then tries the bare name; it returns the last handle and records one Load call per attempt |
| Registry.NativeLoader.TryLoadLibrary | Tncl.NativeLoader/NativeLoader.cs:107-114 | it returns the back-end's handle for the path and makes exactly that call |
| Registry.NativeLoader.LoadLibrary | Tncl.NativeLoader/NativeLoader.cs:47-50 | it is Load with the default resolver |
| Registry.NativeLoader.LoadItem | Tncl.NativeLoader/NativeLoader.cs:52-68 | a null item gives ArgumentNull with no change; otherwise it is Load of the name and version the platform override selects |
| Registry.NativeLoader.FreeLibrary | Tncl.NativeLoader/NativeLoader.cs:116-136 | the result, the new registry and the Free calls are those of FreeSpec |
| Registry.NativeLoader.FreeAll | Tncl.NativeLoader/NativeLoader.cs:138-148 | Free is called once per key present at entry, in some order without repeats; afterwards the registry holds exactly the keys whose close failed |
| Registry.NativeLoader.GetProcAddress | Tncl.NativeLoader/NativeLoader.cs:150-159 | it returns the back-end's address and makes exactly that call |
| Registry.NativeLoader.GetDelegateForFunctionName | Tncl.NativeLoader/NativeLoader.cs:161-168 | address 0 gives an error naming the handle and the function; any other address is returned |
| NativeInstance.GetUnmanagedFunctionPointerAttribute | Tncl.NativeLoader/NativeInstance.cs:268-278 | the first RuntimeUnmanagedFunctionPointer attribute, or, exactly when there is none, an error naming the method |
| NativeInstance.GetNativeLoaderOverrideAttribute | Tncl.NativeLoader/NativeInstance.cs:280-286 | the first override for the platform, or none exactly when no override names the platform |
| NativeInstance.EffectiveLibrary | Tncl.NativeLoader/NativeInstance.cs:47-56 | the attribute's library name and version, both replaced by the platform override's when there is one |
| NativeInstance.DelegateFieldNameInjective | Tncl.NativeLoader/NativeInstance.cs:59 | distinct method names give distinct "_" + name + "Delegate" fields |
| NativeInstance.BindMeaning | Tncl.NativeLoader/NativeInstance.cs:41-64 | a method's definition carries the effective library, the delegate type and field names, an Invoke and an override with the method's signature, and a forwarding body over the delegate field |
| NativeInstance.EntryPointIgnoresPlatform | Tncl.NativeLoader/NativeInstance.cs:237 | the entry point does not depend on the platform, and is the method name when the attribute gives none |
| NativeInstance.BindAll | Tncl.NativeLoader/NativeInstance.cs:36-67 | building fails exactly when some method lacks the attribute, naming the first such method; otherwise there is one definition per method, in the order reflection returns the methods |
| NativeInstance.CreateDelegateType | Tncl.NativeLoader/NativeInstance.cs:71-101 | the delegate type's Invoke has the interface method's return type and parameters |
| NativeInstance.DefineMethodOverrideForDelegateMethod | Tncl.NativeLoader/NativeInstance.cs:128-142 | the override is public and virtual, with the method's signature, and its body forwards to the delegate field's Invoke |
| NativeInstance.DefineInterfaceMethod | Tncl.NativeLoader/NativeInstance.cs:43-63 | the loop body builds the binding Bind describes |
| NativeInstance.GetInterfaceMethodDefinitions | Tncl.NativeLoader/NativeInstance.cs:36-67 | the loop builds exactly BindAll's result, failing at the first method without the attribute |
| NativeInstance.BindAllFails | Tncl.NativeLoader/NativeInstance.cs:44 | the first method without the attribute decides the error |
| NativeInstance.BindAllSucceeds | Tncl.NativeLoader/NativeInstance.cs:41-66 | the definitions built one per method in order are BindAll's result |
| NativeInstance.Insert | Tncl.NativeLoader/NativeInstance.cs:182 | inserting adds exactly the new entry |
| NativeInstance.InsertSorted | Tncl.NativeLoader/NativeInstance.cs:182 | inserting a new key into a strictly sorted list keeps it strictly sorted |
| NativeInstance.LibrariesOfSorted | Tncl.NativeLoader/NativeInstance.cs:175-186 | the library list is strictly sorted by name, so each key appears once |
| NativeInstance.GetLibraries | Tncl.NativeLoader/NativeInstance.cs:175-186 | the loop builds exactly the library list LibrariesOf describes |
| NativeInstance.LibrariesOfStep | Tncl.NativeLoader/NativeInstance.cs:178-183 | a method adds its library only when its name is not yet a key |
| NativeInstance.LibrariesOfKeys | Tncl.NativeLoader/NativeInstance.cs:175-186 | a name is a key if and only if some method uses it |
| NativeInstance.LibrariesOfComplete | Tncl.NativeLoader/NativeInstance.cs:175-186 | every method's library is a key |
| NativeInstance.LibrariesOfSound | Tncl.NativeLoader/NativeInstance.cs:175-186 | every key is some method's library |
| NativeInstance.LibrariesOfFirstUse | Tncl.NativeLoader/NativeInstance.cs:178-182 | each key carries the version of the first method, in the order reflection returns the methods, that uses it |
| NativeInstance.SortedKeysUnique | Tncl.NativeLoader/NativeInstance.cs:175-186 | in a strictly sorted list two entries with the same name are the same entry |
| NativeInstance.IndexOfKey | Tncl.NativeLoader/NativeInstance.cs:236 | the index of the key's entry, or -1 exactly when the name is not a key |
| NativeInstance.VersionArgument | Tncl.NativeLoader/NativeInstance.cs:205-212 | a null or empty version is passed as null, and any other as its string |
| NativeInstance.LoadLibrariesCode | Tncl.NativeLoader/NativeInstance.cs:195-217 | five instructions per library |
| NativeInstance.LoadLibraries | Tncl.NativeLoader/NativeInstance.cs:188-218 | the loop emits, per library in key order, the loader, the name, the version argument, the LoadLibrary call and the store to local i |
| NativeInstance.DelegateFieldCode | Tncl.NativeLoader/NativeInstance.cs:242-263 | twelve instructions per method |
| NativeInstance.EmitGetProcAddress | Tncl.NativeLoader/NativeInstance.cs:242-250 | it emits the loader, the library's local, the entry point, the GetProcAddress call and the store to the scratch local |
| NativeInstance.EmitStoreDelegate | Tncl.NativeLoader/NativeInstance.cs:253-263 | it emits this, Ldloc_1, the delegate type token, the two calls, the cast and the field store |
| NativeInstance.SetDelegateField | Tncl.NativeLoader/NativeInstance.cs:220-264 | it emits the lookup in local IndexOfKey(library), stored in local libraries.Count, then the delegate store reading Ldloc_1 |
| NativeInstance.DelegateFieldsCode | Tncl.NativeLoader/NativeInstance.cs:167-170 | twelve instructions per method |
| NativeInstance.SetDelegateFields | Tncl.NativeLoader/NativeInstance.cs:167-170 | one SetDelegateField block per method, in the order reflection returns the methods |
| NativeInstance.DefineConstructor | Tncl.NativeLoader/NativeInstance.cs:148-173 | one IntPtr local per library plus the scratch local; the body is the loads, then the field blocks, then Ret |
| NativeInstance.CreateInstance | Tncl.NativeLoader/NativeInstance.cs:15-34 | a type that is neither an interface nor public is rejected; otherwise a binding error is returned; otherwise the emitted constructor runs, and its exception or its delegate fields decide the result |
| EmitExtensions.LoadParameter | Tncl.NativeLoader/EmitExtensions.cs:24-38 | parameter i loads argument i + 1, using the short forms for the first three |
| EmitExtensions.ParameterLoads | Tncl.NativeLoader/EmitExtensions.cs:22-39 | one argument load per parameter |
| EmitExtensions.CallMethodCodeShape | Tncl.NativeLoader/EmitExtensions.cs:14-43 | the body is Ldarg_0 and Ldfld field, then argument k for parameter k - 1 with the long form from the fourth on, then Callvirt and Ret; it has parameter count + 4 instructions and a single Callvirt |
| EmitExtensions.CallMethod | Tncl.NativeLoader/EmitExtensions.cs:14-43 | the loop appends exactly that body to the generator |
| EmitExtensions.CallMethodForwards | Tncl.NativeLoader/EmitExtensions.cs:14-43 | running the body calls the delegate field's Invoke once with the method's arguments in order, returns its result and changes no field |
| EmitExtensions.GetAttributeUnmanagedType | Tncl.NativeLoader/EmitExtensions.cs:79-88 | the MarshalAs value when present, the default UnmanagedType otherwise |
| EmitExtensions.DefineParameter | Tncl.NativeLoader/EmitExtensions.cs:53-73 | the parameter gets position index + 1, the source's attributes and name, and a MarshalAs value exactly when its attributes equal HasFieldMarshal |
| EmitExtensions.AddedMethodDefines | Tncl.NativeLoader/EmitExtensions.cs:45-77 | the defined method has the name, attributes, return type, parameter types and the parameters at positions 1..n |
| EmitExtensions.DefinesMethodUnique | Tncl.NativeLoader/EmitExtensions.cs:45-77 | two methods defined from the same arguments are equal |
| EmitExtensions.AddMethod | Tncl.NativeLoader/EmitExtensions.cs:45-77 | the parameter loop defines exactly those parameters |
| Il.ILGenerator.Emit | Tncl.NativeLoader/NativeInstance.cs:201-216 | one instruction is appended and the locals are unchanged |
| Il.ILGenerator.DeclareLocal | Tncl.NativeLoader/NativeInstance.cs:160-163 | a new local is declared at the next index and the code is unchanged |
| ConstructorSemantics.FirstFailure | Tncl.NativeLoader/NativeInstance.cs:195-217 | every library before it loads and, when it is in range, its own load throws |
| ConstructorSemantics.LoadedLocals | Tncl.NativeLoader/NativeInstance.cs:214-216 | after the loads, local i holds library i's handle and the other locals are unchanged |
| ConstructorSemantics.LoadPhase | Tncl.NativeLoader/NativeInstance.cs:195-217 | the loads run in key order, and the first load that throws ends the constructor with no later call made |
| ConstructorSemantics.DelegateFieldBlock | Tncl.NativeLoader/NativeInstance.cs:242-263 | one method's block calls GetProcAddress, puts the address in the scratch local and stores a delegate over the pointer it reads back; a null pointer throws |
| ConstructorSemantics.FieldPhase | Tncl.NativeLoader/NativeInstance.cs:167-170 | the methods run their blocks in order, and the first null pointer ends the constructor |
| ConstructorSemantics.ConstructorRun | Tncl.NativeLoader/NativeInstance.cs:148-173 | the constructor loads in key order and the first failure stops it before any lookup; then it looks up each method's symbol and stores its delegate until a null pointer stops it; otherwise it returns with every field set |
| ConstructorSemantics.ConstructorRunEmpty | Tncl.NativeLoader/NativeInstance.cs:158-172 | for an interface without methods the constructor has no library, makes no call, sets no field and returns |
| ConstructorSemantics.LoadFailureStopsBeforeLookup | Tncl.NativeLoader/NativeInstance.cs:165-170 | a library that fails to load ends the constructor after at most i + 1 calls, all of them LoadLibrary calls |
| ConstructorSemantics.AsWrittenDelegates | Tncl.NativeLoader/NativeInstance.cs:233-263 | as emitted, with every library and symbol found, each field holds a delegate over its own symbol when there is one library, but over the second library's handle when there are two or more |
| ConstructorSemantics.ScratchSlotDelegates | Tncl.NativeLoader/NativeInstance.cs:233-263 | reading the scratch local back instead, each field holds a delegate over its own symbol's address, however many libraries there are |

## Left out

- Logging (`_logger?.LogDebug`) has no behaviour and is not modelled.
- The model has no locking and no racing loads, because the registry has no lock in the source.
- The OS functions behind `PlatformLoadLibrary`, `PlatformFreeLibrary` and `PlatformGetProcAddress` are parameters. An exception swallowed in `NativeLoaderBase.Load` appears as a load that returns 0.
- Platform detection (`OSUtilities.GetOsPlatform`) is a parameter. The `Platform` enum is modelled with its three platforms plus `Unknown` for every other value.
- The host environment is one parameter, `HostEnvironment`. It covers `File.Exists`, `Path.Combine`, `Assembly.Location`, `AppDomain.BaseDirectory`, `Environment.CurrentDirectory` and `Is64BitProcess`.
- Three-argument `Path.Combine(base, "bin", sub)` is modelled as two nested two-argument combines.
- The LINQ query's laziness is not modelled: probe paths are a finite sequence computed when asked for.
- The probe filter keeps the paths for which `File.Exists` is false, as the source writes it.
- `NativeLoaderWindowsOptions` is not part of this model. No search-path behaviour appears in the code that uses it.
- The shared `DefaultLibraryPathResolver` is passed to the loader's constructor.
- A custom `ILibraryPathResolver` is modelled as a `LibraryPathResolver` object. Only its `FixupLibraryName` flag can differ, and probe paths always come from the built-in query.
- Names are never null. Only versions and the assembly directory may be null.
- Registry.LoadSpec: `_loadedLibrairies[name]` on a cache hit with a missing key returns a KeyNotFound error value rather than throwing.
- Ordinal: `SortedList`'s default comparer is culture-sensitive. The model fixes it to ordinal order on character codes.
- LibraryNames.EndsWithIgnoreCase folds case on ASCII letters only. This is exact for ".dll": no other character folds onto its letters under ordinal ignore-case comparison.
- Reflection and type synthesis are not modelled: `AssemblyBuilder`, `TypeBuilder.CreateTypeInfo`, `Activator.CreateInstance`, and the native call behind a delegate. The model keeps only the binding decisions, the method definitions and the emitted instruction lists.
- Copying the attribute metadata onto the delegate type (NativeInstance.cs:103-126) passes the values through and is not modelled. So is the delegate type's runtime-implemented constructor (NativeInstance.cs:81-89).
- The checks that throw when `LoadLibrary`, `GetProcAddress`, `GetTypeFromHandle` or `GetDelegateForFunctionPointer` cannot be found by reflection (NativeInstance.cs:190-192, 222-231) are not modelled. Those methods always exist.
- NativeInstance.Construct: LoadLibrary is a function of name and version for one constructor run. It may answer a zero handle, which `Registry.LoadSpecOkNonZero` shows the registry never returns, and the registry updates its loads make are not modelled.
- NativeInstance.CreateInstance: the instance carries the generated type's name, the bindings and the delegate fields, not a CLR object.
- NativeInstance.CreateInstance: the methods of a C# interface arrive as a list, in the order reflection (`Type.GetMethods`) returns them, which .NET does not fix; overloads are not modelled apart.
- Il.Step: `Call` and `Callvirt` run the same way.
- Il.Step: `Castclass` passes null and a delegate of the target type, and throws `InvalidCast` on anything else. Type identity is the type's name.
- Il.Step: an instruction that meets the wrong stack or an unset local ends with an `InvalidProgram` outcome. The CLR verifier would reject such code up front. The constructor theorems show that this outcome is never reached.
- Il.Step: `GetDelegateForFunctionPointer` on address 0 throws `ArgumentNull`. Any other address gives a delegate over it.
- The binary IL encoding is not modelled. Short and long opcode forms are distinct constructors, but their byte encodings are not.

## Findings

| source | as written | input that shows it | evidently intended | confidence | as-written member | corrected member |
|---|---|---|---|---|---|---|
| Tncl.NativeLoader/NativeInstance.cs:255 | the delegate is built from `Ldloc_1`, while the address was stored in local `libraries.Count` (line 250) | an interface whose methods use two distinct libraries, both loading and every symbol found: every delegate field wraps the second library's handle instead of a function address | load local `libraries.Count`, the scratch local holding the address just looked up | high, not executed | ConstructorSemantics.AsWrittenDelegates | ConstructorSemantics.ScratchSlotDelegates |

The emitter and `CreateInstance` keep the source's `Ldloc_1`. The field
code is parameterised by the instruction that reads the address back, so the
corrected constructor is `ConstructorCode(bindings, Ldloc(|libraries|))`.
`ConstructorRun` is proved for both instructions.
