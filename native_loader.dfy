/** NativeLoader.cs (with the delegation of NativeLoaderBase.cs): the registry
    of loaded native libraries. The operating system's loader is an oracle:
    opening a path yields a handle or 0, closing a handle yields success, and
    a symbol lookup yields an address or 0. */
module Registry {
  import opened Wrappers
  import opened Sequences
  import opened LibraryNames
  import opened PathResolver

  /** An IntPtr; IntPtr.Zero (0) means "no handle" or "no address". */
  type Handle = int

  /** A call made into the operating system's loader. */
  datatype NativeCall =
    | LoadCall(fileName: string)
    | FreeCall(handle: Handle)
    | ProcAddressCall(handle: Handle, functionName: string)

  /** The exceptions the registry throws. */
  datatype LoaderError =
    | NotImplemented                               // no back-end for the platform
    | ArgumentNull                                 // Load(LibraryItem) given null
    | KeyNotFound(key: string)                     // the dictionary indexer on a missing key
    | DllNotFound(name: string)                    // no probe path and no bare-name load succeeded
    | ProcAddressNotFound(handle: Handle, name: string)  // GetDelegateForFunctionName on address 0

  /** The load calls for the given paths, in order. */
  function LoadCalls(paths: seq<string>): (r: seq<NativeCall>)
    ensures |r| == |paths|
    ensures forall i :: 0 <= i < |paths| ==> r[i] == LoadCall(paths[i])
  {
    seq(|paths|, i requires 0 <= i < |paths| => LoadCall(paths[i]))
  }

  /** The free calls for the given keys of `loaded`, in order. */
  function FreeCalls(keys: seq<string>, loaded: map<string, Handle>): (r: seq<NativeCall>)
    requires forall k :: k in keys ==> k in loaded
    ensures |r| == |keys|
    ensures forall i :: 0 <= i < |keys| ==> r[i] == FreeCall(loaded[keys[i]])
  {
    seq(|keys|, i requires 0 <= i < |keys| => FreeCall(loaded[keys[i]]))
  }

  /** One of the platform back-ends (NativeLoaderBase and a subclass). The
      three Platform* functions stand for the foreign calls; a load that
      throws is the oracle returning 0. `calls` records every call made. */
  class NativeLoaderBackend {
    const backend: Backend
    const platformLoadLibrary: string -> Handle
    const platformFreeLibrary: Handle -> bool
    const platformGetProcAddress: (Handle, string) -> Handle
    ghost var calls: seq<NativeCall>

    constructor (backend: Backend, platformLoadLibrary: string -> Handle, platformFreeLibrary: Handle -> bool,
                 platformGetProcAddress: (Handle, string) -> Handle)
      ensures this.backend == backend && this.platformLoadLibrary == platformLoadLibrary
      ensures this.platformFreeLibrary == platformFreeLibrary && this.platformGetProcAddress == platformGetProcAddress
      ensures calls == []
    {
      this.backend := backend;
      this.platformLoadLibrary := platformLoadLibrary;
      this.platformFreeLibrary := platformFreeLibrary;
      this.platformGetProcAddress := platformGetProcAddress;
      calls := [];
    }

    method Load(fileName: string) returns (handle: Handle)
      modifies this
      ensures handle == platformLoadLibrary(fileName)
      ensures calls == old(calls) + [LoadCall(fileName)]
    {
      handle := platformLoadLibrary(fileName);
      calls := calls + [LoadCall(fileName)];
    }

    method Free(handle: Handle) returns (ok: bool)
      modifies this
      ensures ok == platformFreeLibrary(handle)
      ensures calls == old(calls) + [FreeCall(handle)]
    {
      ok := platformFreeLibrary(handle);
      calls := calls + [FreeCall(handle)];
    }

    method GetProcAddress(handle: Handle, functionName: string) returns (address: Handle)
      modifies this
      ensures address == platformGetProcAddress(handle, functionName)
      ensures calls == old(calls) + [ProcAddressCall(handle, functionName)]
    {
      address := platformGetProcAddress(handle, functionName);
      calls := calls + [ProcAddressCall(handle, functionName)];
    }
  }

  /** Every handle the registry stores is non-zero. */
  predicate ValidRegistry(loaded: map<string, Handle>) {
    forall k :: k in loaded ==> loaded[k] != 0
  }

  /** The key Load stores under: the normalised name when the resolver asks
      for fixup, the given name otherwise. */
  function LoadKey(backend: Backend, fixupLibraryName: bool, name: string, version: Option<string>): string {
    if fixupLibraryName then GetOSLibraryName(backend, name, version) else name
  }

  /** IsLibraryLoaded: normalises the name it is given and looks that up. */
  predicate IsLibraryLoaded(backend: Backend, loaded: map<string, Handle>, fileName: string, version: Option<string>) {
    GetOSLibraryName(backend, fileName, version) in loaded
  }

  /** What one Load does once the key is fixed: its result, the new
      dictionary, and the paths handed to the OS loader, in order. */
  datatype LoadOutcome = LoadOutcome(result: Result<Handle, LoaderError>, loaded: map<string, Handle>, attempted: seq<string>)

  /** Load's decision for `key` on the dictionary `loaded`, given the probe
      paths and the OS loader. */
  function LoadSpec(backend: Backend, open: string -> Handle, loaded: map<string, Handle>, key: string,
                    version: Option<string>, probes: seq<string>): (o: LoadOutcome)
    requires ValidRegistry(loaded)
    ensures ValidRegistry(o.loaded)
  {
    if IsLibraryLoaded(backend, loaded, key, version) then
      LoadOutcome(if key in loaded then Ok(loaded[key]) else Err(KeyNotFound(key)), loaded, [])
    else
      var attempted := Attempts(probes, key, open);
      var handle := open(attempted[|attempted| - 1]);
      if handle != 0 then LoadOutcome(Ok(handle), loaded[key := handle], attempted)
      else LoadOutcome(Err(DllNotFound(key)), loaded, attempted)
  }

  /** A handle Load returns is never IntPtr.Zero: a hit returns a stored
      handle, which the registry keeps non-zero, and a miss returns only a
      handle that passed the zero test. */
  lemma {:induction false} LoadSpecOkNonZero(backend: Backend, open: string -> Handle, loaded: map<string, Handle>, key: string,
                                             version: Option<string>, probes: seq<string>)
    requires ValidRegistry(loaded)
    ensures var o := LoadSpec(backend, open, loaded, key, version, probes);
            o.result.Ok? ==> o.result.value != 0 && o.result.value == o.loaded[key]
  {
    var o := LoadSpec(backend, open, loaded, key, version, probes);
    if o.result.Ok? && IsLibraryLoaded(backend, loaded, key, version) {
      assert key in loaded && o.result.value == loaded[key];
    }
  }

  /** The paths the probe loop and the bare-name fallback hand to the OS
      loader: the probe paths up to the first that opens, or all of them and
      then the bare name. */
  function Attempts(probes: seq<string>, key: string, open: string -> Handle): (r: seq<string>)
    ensures r != []
  {
    var i := FirstIndex(probes, (path: string) => open(path) != 0);
    if i < |probes| then probes[..i + 1] else probes + [key]
  }

  /** What a Load decides. A cache hit never calls the OS loader and changes
      nothing; it answers with the entry for `key`, which need not exist. A
      miss tries the probe paths in order and stops at the first non-zero
      handle, tries the bare name only after every probe path failed, stores
      the handle under `key` alone on success and changes nothing on failure. */
  lemma {:induction false} LoadSpecMeaning(backend: Backend, open: string -> Handle, loaded: map<string, Handle>, key: string,
                        version: Option<string>, probes: seq<string>)
    requires ValidRegistry(loaded)
    ensures var o := LoadSpec(backend, open, loaded, key, version, probes);
            IsLibraryLoaded(backend, loaded, key, version) ==>
              && o.attempted == [] && o.loaded == loaded
              && o.result == (if key in loaded then Ok(loaded[key]) else Err(KeyNotFound(key)))
    ensures var o := LoadSpec(backend, open, loaded, key, version, probes);
            !IsLibraryLoaded(backend, loaded, key, version) ==>
              && o.attempted != []
              && ((|o.attempted| <= |probes| && o.attempted == probes[..|o.attempted|]) || o.attempted == probes + [key])
              && (forall j :: 0 <= j < |o.attempted| - 1 ==> open(o.attempted[j]) == 0)
              && (o.result.Ok? <==> open(o.attempted[|o.attempted| - 1]) != 0)
              && (o.result.Ok? ==> o.result.value == open(o.attempted[|o.attempted| - 1]) && o.loaded == loaded[key := o.result.value])
              && (o.result.Err? ==> o.result == Err(DllNotFound(key)) && o.attempted == probes + [key] && o.loaded == loaded)
  {
  }

  /** What one FreeLibrary does: its result, the new dictionary and the
      handles handed to the OS loader's free. */
  datatype FreeOutcome = FreeOutcome(result: Result<bool, LoaderError>, loaded: map<string, Handle>, freed: seq<Handle>)

  /** FreeLibrary's decision: the name is normalised, then checked with
      IsLibraryLoaded (which normalises it again), then freed by its
      once-normalised key. */
  function FreeSpec(backend: Backend, free: Handle -> bool, loaded: map<string, Handle>,
                    fileName: string, version: Option<string>): (o: FreeOutcome)
    ensures var key := GetOSLibraryName(backend, fileName, version);
            && (!IsLibraryLoaded(backend, loaded, key, version) ==> o == FreeOutcome(Ok(false), loaded, []))
            && (o.result == Ok(true) <==> key in loaded && IsLibraryLoaded(backend, loaded, key, version) && free(loaded[key]))
            && (o.result == Ok(true) ==> o.loaded == loaded - {key} && o.freed == [loaded[key]])
            && (o.result != Ok(true) ==> o.loaded == loaded)
            && (o.freed != [] ==> key in loaded && o.freed == [loaded[key]] && o.result == Ok(free(loaded[key])))
            && (o.result.Err? ==> o.result.error == KeyNotFound(key) && key !in loaded && o.freed == [])
            && (IsLibraryLoaded(backend, loaded, key, version) && key !in loaded ==> o == FreeOutcome(Err(KeyNotFound(key)), loaded, []))
            && (IsLibraryLoaded(backend, loaded, key, version) && key in loaded && !free(loaded[key])
                ==> o == FreeOutcome(Ok(false), loaded, [loaded[key]]))
  {
    var key := GetOSLibraryName(backend, fileName, version);
    if !IsLibraryLoaded(backend, loaded, key, version) then FreeOutcome(Ok(false), loaded, [])
    else if key !in loaded then FreeOutcome(Err(KeyNotFound(key)), loaded, [])
    else if free(loaded[key]) then FreeOutcome(Ok(true), loaded - {key}, [loaded[key]])
    else FreeOutcome(Ok(false), loaded, [loaded[key]])
  }

  /** The entries FreeAll leaves: those whose close failed. */
  function Survivors(loaded: map<string, Handle>, free: Handle -> bool): (r: map<string, Handle>)
    ensures forall k :: k in r <==> k in loaded && !free(loaded[k])
    ensures forall k :: k in r ==> r[k] == loaded[k]
  {
    map k | k in loaded && !free(loaded[k]) :: loaded[k]
  }

  // ---- Consequences of normalising twice ----

  /** On Windows with fixup, loading a library that Load just returned answers
      from the cache: the same handle, no call to the OS loader, nothing changed. */
  lemma {:induction false} WindowsReloadHitsCache(open: string -> Handle, loaded: map<string, Handle>, name: string,
                                                  version: Option<string>, probes: seq<string>, probes': seq<string>)
    requires ValidRegistry(loaded)
    requires LoadSpec(WindowsBackend, open, loaded, LoadKey(WindowsBackend, true, name, version), version, probes).result.Ok?
    ensures var key := LoadKey(WindowsBackend, true, name, version);
            var first := LoadSpec(WindowsBackend, open, loaded, key, version, probes);
            var second := LoadSpec(WindowsBackend, open, first.loaded, key, version, probes');
            second.result == first.result && second.attempted == [] && second.loaded == first.loaded
  {
    var key := LoadKey(WindowsBackend, true, name, version);
    var first := LoadSpec(WindowsBackend, open, loaded, key, version, probes);
    LoadSpecMeaning(WindowsBackend, open, loaded, key, version, probes);
    WindowsNameIdempotent(name, version, version);
    assert key in first.loaded && first.loaded[key] == first.result.value;
    assert IsLibraryLoaded(WindowsBackend, first.loaded, key, version);
  }

  /** On Linux and macOS with fixup, a library that a Load just stored is not
      found by the next Load of the same name: the lookup normalises the stored
      key a second time, so the OS loader is called again and a success
      overwrites the entry under the same key. The first Load must itself have
      missed, that is, the twice-normalised name is not already a key. */
  lemma {:induction false} UnixReloadMissesCache(backend: Backend, open: string -> Handle, loaded: map<string, Handle>, name: string,
                                                 version: Option<string>, probes: seq<string>, probes': seq<string>)
    requires backend != WindowsBackend
    requires ValidRegistry(loaded)
    requires !IsLibraryLoaded(backend, loaded, LoadKey(backend, true, name, version), version)
    requires LoadSpec(backend, open, loaded, LoadKey(backend, true, name, version), version, probes).result.Ok?
    ensures var key := LoadKey(backend, true, name, version);
            var first := LoadSpec(backend, open, loaded, key, version, probes);
            var second := LoadSpec(backend, open, first.loaded, key, version, probes');
            && !IsLibraryLoaded(backend, first.loaded, key, version)
            && second.attempted == Attempts(probes', key, open)
            && (second.result.Ok? ==> second.loaded == loaded[key := second.result.value])
  {
    var key := LoadKey(backend, true, name, version);
    var first := LoadSpec(backend, open, loaded, key, version, probes);
    assert first.loaded == loaded[key := first.result.value] by {
      LoadSpecMeaning(backend, open, loaded, key, version, probes);
    }
    assert !IsLibraryLoaded(backend, first.loaded, key, version) by {
      NormalisationIdempotentOnlyOnWindows(backend, name, version);
    }
    LoadSpecOkNonZero(backend, open, loaded, key, version, probes);
    var second := LoadSpec(backend, open, first.loaded, key, version, probes');
    MissStoresUnderKey(backend, open, first.loaded, key, version, probes');
    if second.result.Ok? {
      assert first.loaded[key := second.result.value] == loaded[key := second.result.value];
    }
  }

  /** A Load that misses calls the OS loader and, when it succeeds, stores the
      handle under `key` and leaves every other entry alone. */
  lemma {:induction false} MissStoresUnderKey(backend: Backend, open: string -> Handle, loaded: map<string, Handle>, key: string,
                                              version: Option<string>, probes: seq<string>)
    requires ValidRegistry(loaded) && !IsLibraryLoaded(backend, loaded, key, version)
    ensures var o := LoadSpec(backend, open, loaded, key, version, probes);
            o.attempted != [] && (o.result.Ok? ==> o.loaded == loaded[key := o.result.value])
    ensures var o := LoadSpec(backend, open, loaded, key, version, probes);
            var handle := open(o.attempted[|o.attempted| - 1]);
            && o.attempted == Attempts(probes, key, open)
            && (handle != 0 ==> o.result == Ok(handle))
            && (handle == 0 ==> o.result == Err(DllNotFound(key)) && o.loaded == loaded)
  {
    var attempted := Attempts(probes, key, open);
    assert LoadSpec(backend, open, loaded, key, version, probes).attempted == attempted;
  }

  /** Without fixup, Load("foo") on Windows throws KeyNotFound when "foo.dll"
      is already a key: the lookup finds the normalised name, the indexer
      reads the bare one. */
  lemma {:induction false} WindowsLoadWithoutFixupThrowsKeyNotFound(open: string -> Handle, probes: seq<string>)
    ensures LoadSpec(WindowsBackend, open, map["foo.dll" := 1], LoadKey(WindowsBackend, false, "foo", None), None, probes).result
            == Err(KeyNotFound("foo"))
  {
    assert !EndsWithIgnoreCase("foo", DllSuffix);
    assert WindowsLibraryName("foo", None) == "foo.dll";
  }

  /** On Windows, FreeLibrary finds the key Load stored with fixup, closes its
      handle once, and removes it exactly when the close succeeds. */
  lemma {:induction false} WindowsFreeAfterLoad(free: Handle -> bool, loaded: map<string, Handle>, name: string,
                                                version: Option<string>, handle: Handle)
    ensures var key := LoadKey(WindowsBackend, true, name, version);
            var stored := loaded[key := handle];
            FreeSpec(WindowsBackend, free, stored, name, version)
            == FreeOutcome(Ok(free(handle)), if free(handle) then stored - {key} else stored, [handle])
  {
    WindowsNameIdempotent(name, version, version);
  }

  /** On Linux and macOS, FreeLibrary never finds a library Load stored with
      fixup, as long as the twice-normalised name is not itself a key: it
      returns false, closes nothing and keeps the entry. */
  lemma {:induction false} UnixFreeAfterLoadIsNoOp(backend: Backend, free: Handle -> bool, loaded: map<string, Handle>, name: string,
                                                   version: Option<string>, handle: Handle)
    requires backend != WindowsBackend
    requires !IsLibraryLoaded(backend, loaded, LoadKey(backend, true, name, version), version)
    ensures var stored := loaded[LoadKey(backend, true, name, version) := handle];
            FreeSpec(backend, free, stored, name, version) == FreeOutcome(Ok(false), stored, [])
  {
    NormalisationIdempotentOnlyOnWindows(backend, name, version);
  }

  /** Freeing a library that was never loaded returns false and changes nothing. */
  lemma {:induction false} FreeNeverLoaded(backend: Backend, free: Handle -> bool, name: string, version: Option<string>)
    ensures FreeSpec(backend, free, map[], name, version) == FreeOutcome(Ok(false), map[], [])
  {
  }

  /** A LibraryVersion override of a LibraryItem, for one platform. */
  datatype LibraryVersion = LibraryVersion(name: string, version: Option<string>, platform: Platform)

  /** A library to load, with per-platform overrides of its name and version. */
  datatype LibraryItem = LibraryItem(name: string, version: Option<string>, overrideLibraryName: seq<LibraryVersion>)

  /** Load(LibraryItem)'s choice: the first override for the platform replaces
      both name and version; without one the item's own are used. */
  function SelectLibrary(item: LibraryItem, platform: Platform): (r: (string, Option<string>))
    ensures (forall ov :: ov in item.overrideLibraryName ==> ov.platform != platform) ==> r == (item.name, item.version)
    ensures forall i :: 0 <= i < |item.overrideLibraryName| && item.overrideLibraryName[i].platform == platform
                        && (forall j :: 0 <= j < i ==> item.overrideLibraryName[j].platform != platform)
                        ==> r == (item.overrideLibraryName[i].name, item.overrideLibraryName[i].version)
  {
    var overrides := item.overrideLibraryName;
    var i := FirstIndex(overrides, (ov: LibraryVersion) => ov.platform == platform);
    if i < |overrides| then (overrides[i].name, overrides[i].version) else (item.name, item.version)
  }

  class NativeLoader {
    var loadedLibraries: map<string, Handle>
    const loader: NativeLoaderBackend
    const platform: Platform
    /** LibraryPathResolver.DefaultLibraryPathResolver: the one resolver shared
        by every call that passes none. */
    const defaultResolver: LibraryPathResolver

    ghost predicate Valid()
      reads this
    {
      ValidRegistry(loadedLibraries) && SelectBackend(platform) == Some(loader.backend)
    }

    constructor Init(platform: Platform, loader: NativeLoaderBackend, defaultResolver: LibraryPathResolver)
      requires SelectBackend(platform) == Some(loader.backend)
      ensures Valid() && loadedLibraries == map[]
      ensures this.platform == platform && this.loader == loader && this.defaultResolver == defaultResolver
    {
      this.platform := platform;
      this.loader := loader;
      this.defaultResolver := defaultResolver;
      loadedLibraries := map[];
    }

    /** The public constructor: picks the back-end for the platform, or throws
        NotImplementedException when there is none. */
    static method Create(platform: Platform, platformLoadLibrary: string -> Handle, platformFreeLibrary: Handle -> bool,
                         platformGetProcAddress: (Handle, string) -> Handle, defaultResolver: LibraryPathResolver)
      returns (r: Result<NativeLoader, LoaderError>)
      ensures r.Err? <==> platform == Unknown
      ensures r.Err? ==> r.error == NotImplemented
      ensures r.Ok? ==> && fresh(r.value) && fresh(r.value.loader) && r.value.Valid()
                        && r.value.loadedLibraries == map[] && r.value.platform == platform
                        && Some(r.value.loader.backend) == SelectBackend(platform)
                        && r.value.loader.platformLoadLibrary == platformLoadLibrary
                        && r.value.loader.platformFreeLibrary == platformFreeLibrary
                        && r.value.loader.platformGetProcAddress == platformGetProcAddress
                        && r.value.loader.calls == [] && r.value.defaultResolver == defaultResolver
    {
      var backend: Backend;
      match platform {
        case Windows => backend := WindowsBackend;
        case Linux => backend := UnixBackend;
        case OSX => backend := OsxBackend;
        case Unknown => return Err(NotImplemented);
      }
      var b := new NativeLoaderBackend(backend, platformLoadLibrary, platformFreeLibrary, platformGetProcAddress);
      var l := new NativeLoader.Init(platform, b, defaultResolver);
      r := Ok(l);
    }

    /** Load(name, version, resolver): a null resolver means the shared default. */
    method Load(name: string, version: Option<string>, libraryPathResolver: LibraryPathResolver?, env: HostEnvironment)
      returns (r: Result<Handle, LoaderError>)
      requires Valid()
      modifies this, loader
      ensures Valid()
      ensures var resolver := if libraryPathResolver == null then defaultResolver else libraryPathResolver;
              var key := LoadKey(loader.backend, resolver.fixupLibraryName, name, version);
              var o := LoadSpec(loader.backend, loader.platformLoadLibrary, old(loadedLibraries), key, version, ProbePaths(env, key));
              && r == o.result && loadedLibraries == o.loaded
              && loader.calls == old(loader.calls) + LoadCalls(o.attempted)
    {
      var resolver := libraryPathResolver;
      if resolver == null {
        resolver := defaultResolver;
      }
      var key := name;
      if resolver.fixupLibraryName {
        key := GetOSLibraryName(loader.backend, name, version);
      }
      assert key == LoadKey(loader.backend, resolver.fixupLibraryName, name, version);
      if IsLibraryLoaded(loader.backend, loadedLibraries, key, version) {
        if key !in loadedLibraries {
          return Err(KeyNotFound(key));
        }
        return Ok(loadedLibraries[key]);
      }
      var fileNames := resolver.GetProbePaths(key, env);
      r := LoadMissing(key, version, fileNames);
    }

    /** The rest of Load after a cache miss: probe, fall back to the bare
        name, then store the handle or throw DllNotFoundException. */
    method LoadMissing(key: string, version: Option<string>, fileNames: seq<string>) returns (r: Result<Handle, LoaderError>)
      requires Valid() && !IsLibraryLoaded(loader.backend, loadedLibraries, key, version)
      modifies this, loader
      ensures Valid()
      ensures var o := LoadSpec(loader.backend, loader.platformLoadLibrary, old(loadedLibraries), key, version, fileNames);
              && r == o.result && loadedLibraries == o.loaded
              && loader.calls == old(loader.calls) + LoadCalls(o.attempted)
    {
      MissStoresUnderKey(loader.backend, loader.platformLoadLibrary, loadedLibraries, key, version, fileNames);
      var handle, attempted := ProbeAndLoad(fileNames, key);
      if handle != 0 {
        loadedLibraries := loadedLibraries[key := handle];
      } else {
        return Err(DllNotFound(key));
      }
      return Ok(loadedLibraries[key]);
    }

    /** The probe loop of Load, stopping at the first non-zero handle, and the
        bare-name fallback when every probe path failed. */
    method ProbeAndLoad(fileNames: seq<string>, key: string) returns (handle: Handle, ghost attempted: seq<string>)
      modifies loader
      ensures attempted == Attempts(fileNames, key, loader.platformLoadLibrary)
      ensures handle == loader.platformLoadLibrary(attempted[|attempted| - 1])
      ensures loader.calls == old(loader.calls) + LoadCalls(attempted)
    {
      handle := 0;
      ghost var open := loader.platformLoadLibrary;
      var i := 0;
      while i < |fileNames|
        invariant 0 <= i <= |fileNames| && handle == 0
        invariant forall j :: 0 <= j < i ==> open(fileNames[j]) == 0
        invariant loader.calls == old(loader.calls) + LoadCalls(fileNames[..i])
      {
        handle := TryLoadLibrary(fileNames[i]);
        assert fileNames[..i + 1] == fileNames[..i] + [fileNames[i]];
        if handle != 0 {
          break;
        }
        i := i + 1;
      }
      ghost var firstHit := FirstIndex(fileNames, (path: string) => open(path) != 0);
      if handle != 0 {
        assert i == firstHit;
        attempted := fileNames[..i + 1];
      } else {
        assert i == |fileNames| == firstHit && fileNames[..i] == fileNames;
        handle := loader.Load(key);
        attempted := fileNames + [key];
        assert LoadCalls(fileNames) + [LoadCall(key)] == LoadCalls(attempted);
      }
    }

    /** TryLoadLibrary: one load attempt (its logging is not modelled). */
    method TryLoadLibrary(fileName: string) returns (handle: Handle)
      modifies loader
      ensures handle == loader.platformLoadLibrary(fileName)
      ensures loader.calls == old(loader.calls) + [LoadCall(fileName)]
    {
      handle := loader.Load(fileName);
    }

    /** LoadLibrary(name, version): Load with the shared default resolver. */
    method LoadLibrary(name: string, version: Option<string>, env: HostEnvironment) returns (r: Result<Handle, LoaderError>)
      requires Valid()
      modifies this, loader
      ensures Valid()
      ensures var key := LoadKey(loader.backend, defaultResolver.fixupLibraryName, name, version);
              var o := LoadSpec(loader.backend, loader.platformLoadLibrary, old(loadedLibraries), key, version, ProbePaths(env, key));
              && r == o.result && loadedLibraries == o.loaded
              && loader.calls == old(loader.calls) + LoadCalls(o.attempted)
    {
      r := Load(name, version, null, env);
    }

    /** Load(LibraryItem, resolver): throws on null, applies the platform's
        override, then loads. */
    method LoadItem(library: Option<LibraryItem>, libraryPathResolver: LibraryPathResolver?, env: HostEnvironment)
      returns (r: Result<Handle, LoaderError>)
      requires Valid()
      modifies this, loader
      ensures Valid()
      ensures library.None? ==> r == Err(ArgumentNull) && loadedLibraries == old(loadedLibraries) && loader.calls == old(loader.calls)
      ensures library.Some? ==>
              var (name, version) := SelectLibrary(library.value, platform);
              var resolver := if libraryPathResolver == null then defaultResolver else libraryPathResolver;
              var key := LoadKey(loader.backend, resolver.fixupLibraryName, name, version);
              var o := LoadSpec(loader.backend, loader.platformLoadLibrary, old(loadedLibraries), key, version, ProbePaths(env, key));
              && r == o.result && loadedLibraries == o.loaded
              && loader.calls == old(loader.calls) + LoadCalls(o.attempted)
    {
      if library.None? {
        return Err(ArgumentNull);
      }
      var (name, version) := SelectLibrary(library.value, platform);
      r := Load(name, version, libraryPathResolver, env);
    }

    /** FreeLibrary(fileName, version): always normalises the name, whatever
        the resolver's fixup setting was when it was loaded. */
    method FreeLibrary(fileName: string, version: Option<string>) returns (r: Result<bool, LoaderError>)
      requires Valid()
      modifies this, loader
      ensures Valid()
      ensures var o := FreeSpec(loader.backend, loader.platformFreeLibrary, old(loadedLibraries), fileName, version);
              && r == o.result && loadedLibraries == o.loaded
              && loader.calls == old(loader.calls) + seq(|o.freed|, i requires 0 <= i < |o.freed| => FreeCall(o.freed[i]))
    {
      var key := GetOSLibraryName(loader.backend, fileName, version);
      if !IsLibraryLoaded(loader.backend, loadedLibraries, key, version) {
        return Ok(false);
      }
      if key !in loadedLibraries {
        return Err(KeyNotFound(key));
      }
      var ok := loader.Free(loadedLibraries[key]);
      if ok {
        loadedLibraries := loadedLibraries - {key};
        return Ok(true);
      } else {
        return Ok(false);
      }
    }

    /** FreeAll: frees each key of a snapshot of the dictionary, in the
        dictionary's (unspecified) order, returned as `order`, and removes the
        keys whose close succeeded. */
    method FreeAll() returns (ghost order: seq<string>)
      requires Valid()
      modifies this, loader
      ensures Valid()
      ensures forall k :: k in order <==> k in old(loadedLibraries)
      ensures forall i, j :: 0 <= i < j < |order| ==> order[i] != order[j]
      ensures loader.calls == old(loader.calls) + FreeCalls(order, old(loadedLibraries))
      ensures loadedLibraries == Survivors(old(loadedLibraries), loader.platformFreeLibrary)
    {
      ghost var start := loadedLibraries;
      var keys := loadedLibraries.Keys;
      order := [];
      while keys != {}
        invariant keys <= start.Keys
        invariant forall k :: k in order <==> k in start && k !in keys
        invariant forall i, j :: 0 <= i < j < |order| ==> order[i] != order[j]
        invariant forall k :: k in loadedLibraries <==> k in start && (k in keys || !loader.platformFreeLibrary(start[k]))
        invariant forall k :: k in loadedLibraries ==> loadedLibraries[k] == start[k]
        invariant loader.calls == old(loader.calls) + FreeCalls(order, start)
        decreases keys
      {
        var key :| key in keys;
        var ok := loader.Free(loadedLibraries[key]);
        if ok {
          loadedLibraries := loadedLibraries - {key};
        }
        keys := keys - {key};
        order := order + [key];
      }
    }

    /** GetProcAddress: the address the OS loader resolves, 0 when not found. */
    method GetProcAddress(handle: Handle, name: string) returns (address: Handle)
      modifies loader
      ensures address == loader.platformGetProcAddress(handle, name)
      ensures loader.calls == old(loader.calls) + [ProcAddressCall(handle, name)]
    {
      address := loader.GetProcAddress(handle, name);
    }

    /** GetDelegateForFunctionName: the resolved address, or an exception when
        it is 0 (the delegate built from it is not modelled). */
    method GetDelegateForFunctionName(handle: Handle, name: string) returns (r: Result<Handle, LoaderError>)
      modifies loader
      ensures var address := loader.platformGetProcAddress(handle, name);
              r == if address == 0 then Err(ProcAddressNotFound(handle, name)) else Ok(address)
      ensures loader.calls == old(loader.calls) + [ProcAddressCall(handle, name)]
    {
      var address := GetProcAddress(handle, name);
      if address == 0 {
        return Err(ProcAddressNotFound(handle, name));
      }
      return Ok(address);
    }
  }
}
