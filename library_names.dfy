/** The platform back-ends' `GetOSLibraryName`: how a logical library name and
    version become the physical file name on Windows, Linux and macOS
    (NativeLoaderWindows.cs, NativeLoaderUnix.cs, NativeLoaderOSX.cs), and the
    constructor's choice of back-end by platform (NativeLoader.cs). */
module LibraryNames {
  import opened Wrappers

  /** The operating systems the loader tells apart. `Unknown` is the enum's
      default, which platform detection yields on any other OS. */
  datatype Platform = Unknown | Windows | Linux | OSX

  /** The three concrete back-ends (subclasses of NativeLoaderBase). */
  datatype Backend = WindowsBackend | UnixBackend | OsxBackend

  /** The constructor's switch: a back-end per supported platform, None where
      the source throws NotImplementedException. */
  function SelectBackend(platform: Platform): (r: Option<Backend>)
    ensures r.None? <==> platform == Unknown
    ensures r == Some(WindowsBackend) <==> platform == Windows
    ensures r == Some(UnixBackend) <==> platform == Linux
    ensures r == Some(OsxBackend) <==> platform == OSX
  {
    match platform
    case Windows => Some(WindowsBackend)
    case Linux => Some(UnixBackend)
    case OSX => Some(OsxBackend)
    case Unknown => None
  }

  /** C#'s `string.IsNullOrEmpty`. */
  predicate IsNullOrEmpty(s: Option<string>) {
    s.None? || s.value == ""
  }

  /** Upper-casing used by ordinal ignore-case comparison, on ASCII letters. */
  function ToUpperOrdinal(c: char): char {
    if 'a' <= c <= 'z' then (c as int - 32) as char else c
  }

  /** `a.Equals(b, StringComparison.OrdinalIgnoreCase)`. */
  predicate EqualsIgnoreCase(a: string, b: string) {
    |a| == |b| && forall i :: 0 <= i < |a| ==> ToUpperOrdinal(a[i]) == ToUpperOrdinal(b[i])
  }

  /** `s.EndsWith(suffix, StringComparison.OrdinalIgnoreCase)`. */
  predicate EndsWithIgnoreCase(s: string, suffix: string) {
    |suffix| <= |s| && EqualsIgnoreCase(s[|s| - |suffix|..], suffix)
  }

  const DllSuffix: string := ".dll"

  /** Windows: append ".dll" unless the name already ends with it, in any case;
      the version is ignored. */
  function WindowsLibraryName(fileName: string, version: Option<string>): (r: string)
    ensures EndsWithIgnoreCase(r, DllSuffix)
    ensures |r| == |fileName| || |r| == |fileName| + |DllSuffix|
    ensures r[..|fileName|] == fileName
    ensures r == fileName <==> EndsWithIgnoreCase(fileName, DllSuffix)
    ensures !EndsWithIgnoreCase(fileName, DllSuffix) ==> r == fileName + DllSuffix
  {
    if !EndsWithIgnoreCase(fileName, DllSuffix) then
      var r := fileName + DllSuffix;
      assert r[|r| - |DllSuffix|..] == DllSuffix;
      r
    else
      fileName
  }

  /** The version part of a Unix or macOS name: "" for a null or empty
      version, "." + version otherwise. */
  function VersionSuffix(version: Option<string>): (r: string)
    ensures r == "" <==> IsNullOrEmpty(version)
    ensures r != "" ==> r[0] == '.' && r[1..] == version.value
  {
    if !IsNullOrEmpty(version) then "." + version.value else ""
  }

  /** Linux: "lib" + name + ".so", followed by "." + version when there is one. */
  function UnixLibraryName(fileName: string, version: Option<string>): (r: string)
    ensures |r| == 6 + |fileName| + |VersionSuffix(version)|
    ensures r[..3] == "lib"
    ensures r[3..3 + |fileName|] == fileName
    ensures r[3 + |fileName|..6 + |fileName|] == ".so"
    ensures r[6 + |fileName|..] == VersionSuffix(version)
  {
    "lib" + fileName + ".so" + VersionSuffix(version)
  }

  /** macOS: "lib" + name, then "." + version when there is one, then ".dylib". */
  function OsxLibraryName(fileName: string, version: Option<string>): (r: string)
    ensures |r| == 9 + |fileName| + |VersionSuffix(version)|
    ensures r[..3] == "lib"
    ensures r[3..3 + |fileName|] == fileName
    ensures r[3 + |fileName|..|r| - 6] == VersionSuffix(version)
    ensures r[|r| - 6..] == ".dylib"
  {
    "lib" + fileName + VersionSuffix(version) + ".dylib"
  }

  /** `GetOSLibraryName`, dispatched on the back-end. */
  function GetOSLibraryName(backend: Backend, fileName: string, version: Option<string>): string {
    match backend
    case WindowsBackend => WindowsLibraryName(fileName, version)
    case UnixBackend => UnixLibraryName(fileName, version)
    case OsxBackend => OsxLibraryName(fileName, version)
  }

  /** Recovers the logical name from a Linux file name built for `version`. */
  function ParseUnixLibraryName(physical: string, version: Option<string>): (r: Option<string>)
    ensures r.Some? ==> UnixLibraryName(r.value, version) == physical
  {
    var suffix := ".so" + VersionSuffix(version);
    if |physical| >= 3 + |suffix| && physical[..3] == "lib" && physical[|physical| - |suffix|..] == suffix then
      var name := physical[3..|physical| - |suffix|];
      assert physical == "lib" + name + suffix;
      Some(name)
    else
      None
  }

  /** Recovers the logical name from a macOS file name built for `version`. */
  function ParseOsxLibraryName(physical: string, version: Option<string>): (r: Option<string>)
    ensures r.Some? ==> OsxLibraryName(r.value, version) == physical
  {
    var suffix := VersionSuffix(version) + ".dylib";
    if |physical| >= 3 + |suffix| && physical[..3] == "lib" && physical[|physical| - |suffix|..] == suffix then
      var name := physical[3..|physical| - |suffix|];
      assert physical == "lib" + name + suffix;
      Some(name)
    else
      None
  }

  // ---- Windows ----

  /** Normalising a Windows name twice gives the same name as normalising it once. */
  lemma {:induction false} WindowsNameIdempotent(fileName: string, version: Option<string>, version': Option<string>)
    ensures WindowsLibraryName(WindowsLibraryName(fileName, version), version') == WindowsLibraryName(fileName, version)
  {
  }

  /** The version argument has no effect on a Windows name. */
  lemma {:induction false} WindowsNameIgnoresVersion(fileName: string, version: Option<string>, version': Option<string>)
    ensures WindowsLibraryName(fileName, version) == WindowsLibraryName(fileName, version')
  {
  }

  /** A name ending in ".dll" in any letter case (e.g. "FOO.DLL") is kept as it is. */
  lemma {:induction false} WindowsNameKeepsUpperCaseSuffix()
    ensures WindowsLibraryName("FOO.DLL", None) == "FOO.DLL"
  {
    assert EqualsIgnoreCase("FOO.DLL"[3..], DllSuffix);
  }

  // ---- Linux ----

  /** A null and an empty version give the same Linux name: "lib" + name + ".so". */
  lemma {:induction false} UnixNullVersionIsEmptyVersion(fileName: string)
    ensures UnixLibraryName(fileName, None) == UnixLibraryName(fileName, Some("")) == "lib" + fileName + ".so"
  {
  }

  /** A non-empty version is appended after ".so" with a dot. */
  lemma {:induction false} UnixVersionedName(fileName: string, version: string)
    requires version != ""
    ensures UnixLibraryName(fileName, Some(version)) == "lib" + fileName + ".so." + version
  {
  }

  /** The three slices of a string built as prefix + middle + suffix. */
  lemma {:induction false} ThreeParts(s: string, prefix: string, middle: string, suffix: string)
    requires s == prefix + middle + suffix
    ensures s[..|prefix|] == prefix
    ensures s[|prefix|..|s| - |suffix|] == middle
    ensures s[|s| - |suffix|..] == suffix
  {
    assert s[..|prefix|] == prefix;
    assert s[|prefix|..|s| - |suffix|] == middle;
  }

  /** Parsing a Linux name recovers the logical name it was built from. */
  lemma {:induction false} UnixNameRoundTrip(fileName: string, version: Option<string>)
    ensures ParseUnixLibraryName(UnixLibraryName(fileName, version), version) == Some(fileName)
  {
    var physical := UnixLibraryName(fileName, version);
    var suffix := ".so" + VersionSuffix(version);
    assert physical == "lib" + fileName + suffix by {
      assert physical[..|physical| - |suffix|] == "lib" + fileName;
    }
    ThreeParts(physical, "lib", fileName, suffix);
  }

  /** For a fixed version, distinct names give distinct Linux file names. */
  lemma {:induction false} UnixNameInjective(a: string, b: string, version: Option<string>)
    requires UnixLibraryName(a, version) == UnixLibraryName(b, version)
    ensures a == b
  {
    UnixNameRoundTrip(a, version);
    UnixNameRoundTrip(b, version);
  }

  /** Re-normalising a Linux name lengthens it, so it never gives the same name back. */
  lemma {:induction false} UnixNameNotIdempotent(fileName: string, version: Option<string>)
    ensures |UnixLibraryName(UnixLibraryName(fileName, version), version)| > |UnixLibraryName(fileName, version)|
    ensures UnixLibraryName(UnixLibraryName(fileName, version), version) != UnixLibraryName(fileName, version)
  {
  }

  // ---- macOS ----

  /** A null and an empty version give the same macOS name: "lib" + name + ".dylib". */
  lemma {:induction false} OsxNullVersionIsEmptyVersion(fileName: string)
    ensures OsxLibraryName(fileName, None) == OsxLibraryName(fileName, Some("")) == "lib" + fileName + ".dylib"
  {
  }

  /** A non-empty version goes between the name and ".dylib", after a dot. */
  lemma {:induction false} OsxVersionedName(fileName: string, version: string)
    requires version != ""
    ensures OsxLibraryName(fileName, Some(version)) == "lib" + fileName + "." + version + ".dylib"
  {
  }

  /** Parsing a macOS name recovers the logical name it was built from. */
  lemma {:induction false} OsxNameRoundTrip(fileName: string, version: Option<string>)
    ensures ParseOsxLibraryName(OsxLibraryName(fileName, version), version) == Some(fileName)
  {
    var physical := OsxLibraryName(fileName, version);
    var suffix := VersionSuffix(version) + ".dylib";
    assert physical == "lib" + fileName + suffix;
    ThreeParts(physical, "lib", fileName, suffix);
  }

  /** For a fixed version, distinct names give distinct macOS file names. */
  lemma {:induction false} OsxNameInjective(a: string, b: string, version: Option<string>)
    requires OsxLibraryName(a, version) == OsxLibraryName(b, version)
    ensures a == b
  {
    OsxNameRoundTrip(a, version);
    OsxNameRoundTrip(b, version);
  }

  /** Re-normalising a macOS name lengthens it, so it never gives the same name back. */
  lemma {:induction false} OsxNameNotIdempotent(fileName: string, version: Option<string>)
    ensures |OsxLibraryName(OsxLibraryName(fileName, version), version)| > |OsxLibraryName(fileName, version)|
    ensures OsxLibraryName(OsxLibraryName(fileName, version), version) != OsxLibraryName(fileName, version)
  {
  }

  // ---- All back-ends ----

  /** Normalisation is idempotent exactly on Windows: on Linux and macOS a
      second normalisation never returns the name it was given. */
  lemma {:induction false} NormalisationIdempotentOnlyOnWindows(backend: Backend, fileName: string, version: Option<string>)
    ensures var once := GetOSLibraryName(backend, fileName, version);
            GetOSLibraryName(backend, once, version) == once <==> backend == WindowsBackend
  {
    match backend
    case WindowsBackend => WindowsNameIdempotent(fileName, version, version);
    case UnixBackend => UnixNameNotIdempotent(fileName, version);
    case OsxBackend => OsxNameNotIdempotent(fileName, version);
  }
}
