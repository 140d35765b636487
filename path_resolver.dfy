/** LibraryPathResolver.cs: the candidate paths probed for a physical library
    file name. The process environment (bitness, the executing assembly's
    directory, the application base and current directories, Path.Combine and
    File.Exists) is a parameter. */
module PathResolver {
  import opened Wrappers
  import opened Sequences

  /** What GetProbePaths reads from the process and the file system. */
  datatype HostEnvironment = HostEnvironment(
    is64BitProcess: bool,                         // Environment.Is64BitProcess
    executingAssemblyDirectory: Option<string>,   // Path.GetDirectoryName(Assembly.Location), may be null
    baseDirectory: string,                        // AppDomain.CurrentDomain.BaseDirectory
    currentDirectory: string,                     // Environment.CurrentDirectory
    combine: (string, string) -> string,          // Path.Combine
    fileExists: string -> bool)                   // File.Exists

  /** The architecture sub-folder: "x64" in a 64-bit process, "x86" otherwise. */
  function ArchitectureFolder(is64BitProcess: bool): (r: string)
    ensures r == "x64" <==> is64BitProcess
    ensures r == "x86" <==> !is64BitProcess
  {
    if is64BitProcess then "x64" else "x86"
  }

  /** The two sub-folder passes, in order: none, then the architecture folder. */
  function SubFolders(env: HostEnvironment): seq<string> {
    ["", ArchitectureFolder(env.is64BitProcess)]
  }

  /** The base directories of one pass, in priority order: the executing
      assembly's directory (when known), the base directory, base/"bin", and
      the current directory, each combined with the sub-folder. */
  function PassDirectories(env: HostEnvironment, subFolder: string): (r: seq<string>)
    ensures |r| == if env.executingAssemblyDirectory.Some? then 4 else 3
  {
    (if env.executingAssemblyDirectory.Some? then [env.combine(env.executingAssemblyDirectory.value, subFolder)] else [])
    + [ env.combine(env.baseDirectory, subFolder),
        env.combine(env.combine(env.baseDirectory, "bin"), subFolder),
        env.combine(env.currentDirectory, subFolder) ]
  }

  /** The base directories of the passes over `subFolders`, one pass after the other. */
  function Passes(env: HostEnvironment, subFolders: seq<string>): (r: seq<string>)
    ensures |r| == |subFolders| * |PassDirectories(env, "")|
  {
    if subFolders == [] then []
    else Passes(env, subFolders[..|subFolders| - 1]) + PassDirectories(env, subFolders[|subFolders| - 1])
  }

  /** The full list of base directories GetProbePaths builds. */
  function BaseDirectories(env: HostEnvironment): seq<string> {
    Passes(env, SubFolders(env))
  }

  /** Each directory combined with the file name, in the same order. */
  function CombineAll(directories: seq<string>, name: string, combine: (string, string) -> string): (r: seq<string>)
    ensures |r| == |directories|
    ensures forall i :: 0 <= i < |r| ==> r[i] == combine(directories[i], name)
  {
    seq(|directories|, i requires 0 <= i < |directories| => combine(directories[i], name))
  }

  /** The LINQ query of GetProbePaths: the combined paths for which File.Exists
      is false, in base-directory order. */
  function ProbePaths(env: HostEnvironment, name: string): seq<string> {
    Where(CombineAll(BaseDirectories(env), name, env.combine), (path: string) => !env.fileExists(path))
  }

  class LibraryPathResolver {
    /** Whether Load normalises the name before probing. */
    var fixupLibraryName: bool

    /** A new resolver normalises names by default. */
    constructor ()
      ensures fixupLibraryName
    {
      fixupLibraryName := true;
    }

    /** Builds the base directories pass by pass, then keeps the combined paths
        that do not exist. */
    method GetProbePaths(name: string, env: HostEnvironment) returns (paths: seq<string>)
      ensures paths == ProbePaths(env, name)
    {
      var platformName := ArchitectureFolder(env.is64BitProcess);
      var subFolders := ["", platformName];
      var baseDirectories: seq<string> := [];
      for k := 0 to |subFolders|
        invariant baseDirectories == Passes(env, subFolders[..k])
      {
        var platformSubFolder := subFolders[k];
        if env.executingAssemblyDirectory.Some? {
          baseDirectories := baseDirectories + [env.combine(env.executingAssemblyDirectory.value, platformSubFolder)];
        }
        baseDirectories := baseDirectories + [env.combine(env.baseDirectory, platformSubFolder)];
        baseDirectories := baseDirectories + [env.combine(env.combine(env.baseDirectory, "bin"), platformSubFolder)];
        baseDirectories := baseDirectories + [env.combine(env.currentDirectory, platformSubFolder)];
        assert subFolders[..k + 1][..k] == subFolders[..k];
      }
      assert subFolders[..|subFolders|] == SubFolders(env);
      paths := Where(CombineAll(baseDirectories, name, env.combine), (path: string) => !env.fileExists(path));
    }
  }

  /** There are eight base directories when the assembly directory is known and
      six otherwise; the first pass has no sub-folder and the second pass uses
      the architecture folder, each in the fixed priority order. */
  lemma {:induction false} BaseDirectoriesOrder(env: HostEnvironment)
    ensures |BaseDirectories(env)| == if env.executingAssemblyDirectory.Some? then 8 else 6
    ensures BaseDirectories(env) == PassDirectories(env, "") + PassDirectories(env, ArchitectureFolder(env.is64BitProcess))
  {
    var subs := SubFolders(env);
    assert subs[..1] == [""] && subs[..1][..0] == [];
    assert Passes(env, subs[..1]) == PassDirectories(env, "");
    assert Passes(env, subs) == Passes(env, subs[..1]) + PassDirectories(env, subs[1]);
  }

  /** Every probe path is a base directory combined with the name and does not
      exist; every combination that does not exist is a probe path, as many
      times as it occurs among the candidates (two base directories that
      coincide give the same path twice); and the probe paths keep the base
      directories' order. Together these make the probe paths exactly the
      candidates that do not exist, in order. */
  lemma {:induction false} ProbePathsSpec(env: HostEnvironment, name: string)
    ensures var candidates := CombineAll(BaseDirectories(env), name, env.combine);
            && (forall p :: p in ProbePaths(env, name) ==> !env.fileExists(p))
            && (forall p :: p in ProbePaths(env, name) ==>
                  exists i :: 0 <= i < |BaseDirectories(env)| && p == env.combine(BaseDirectories(env)[i], name))
            && (forall i :: 0 <= i < |candidates| && !env.fileExists(candidates[i]) ==> candidates[i] in ProbePaths(env, name))
            && IsSubsequence(ProbePaths(env, name), candidates)
            && (forall p :: p in candidates ==> multiset(ProbePaths(env, name))[p] == if env.fileExists(p) then 0 else multiset(candidates)[p])
  {
    var candidates := CombineAll(BaseDirectories(env), name, env.combine);
    var keep := (path: string) => !env.fileExists(path);
    WhereIsSubsequence(candidates, keep);
    forall p | p in ProbePaths(env, name)
      ensures exists i :: 0 <= i < |BaseDirectories(env)| && p == env.combine(BaseDirectories(env)[i], name)
    {
      assert p in candidates;
      var i :| 0 <= i < |candidates| && candidates[i] == p;
    }
  }

  /** When the executing assembly's directory is the application base
      directory, the first two candidates coincide, and a path that does not
      exist there is probed (at least) twice: the filter does not remove
      duplicates. */
  lemma {:induction false} SameDirectoryProbedTwice(env: HostEnvironment, name: string)
    requires env.executingAssemblyDirectory == Some(env.baseDirectory)
    requires !env.fileExists(env.combine(env.combine(env.baseDirectory, ""), name))
    ensures multiset(ProbePaths(env, name))[env.combine(env.combine(env.baseDirectory, ""), name)] >= 2
  {
    var p := env.combine(env.combine(env.baseDirectory, ""), name);
    var candidates := CombineAll(BaseDirectories(env), name, env.combine);
    BaseDirectoriesOrder(env);
    assert candidates[0] == p && candidates[1] == p;
    assert candidates == candidates[..2] + candidates[2..];
    assert candidates[..2] == [p, p];
    assert multiset(candidates)[p] >= 2;
    ProbePathsSpec(env, name);
  }

  /** With no file present at any candidate, every candidate is probed: eight or six paths. */
  lemma {:induction false} NothingExistsProbesAll(env: HostEnvironment, name: string)
    requires forall p :: !env.fileExists(p)
    ensures ProbePaths(env, name) == CombineAll(BaseDirectories(env), name, env.combine)
  {
    WhereKeepsAll(CombineAll(BaseDirectories(env), name, env.combine), (path: string) => !env.fileExists(path));
  }

  /** `Where` with a predicate that holds everywhere on `s` returns `s`. */
  lemma {:induction false} WhereKeepsAll<T>(s: seq<T>, p: T -> bool)
    requires forall x :: x in s ==> p(x)
    ensures Where(s, p) == s
  {
    if s != [] {
      WhereKeepsAll(s[1..], p);
    }
  }
}
