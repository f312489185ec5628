/**
 * The Windows uninstaller: Python installations found under the standard
 * folders, in the registry, on the PATH and by walking the drives; Java
 * installations found under the standard folders, on the PATH and in the
 * registry. Paths use the `\` separator.
 */
module WindowsUninstaller {
  import opened Wrappers
  import opened Text
  import opened Paths
  import opened Lists
  import opened Versions
  import opened Discovery
  import opened Cleanup
  import opened JavaPaths

  const PythonKeywords: seq<string> := ["python", "conda"]
  const JavaKeywords: seq<string> := ["java", "jdk", "jre"]

  // ---------------------------------------------------------------------
  // Python

  /** `_determine_install_type`: the first matching rule on the lower-cased path wins. */
  function PythonInstallType(path: string): (t: string)
    ensures t in ["Conda", "Virtualenv", "用户安装", "系统安装"]
    ensures Contains(Lower(path), "conda") ==> t == "Conda"
  {
    var l := Lower(path);
    if Contains(l, "conda") then "Conda"
    else if Contains(l, "virtualenv") || Contains(l, "venv") then "Virtualenv"
    else if Contains(l, "appdata") then "用户安装"
    else "系统安装"
  }

  /**
   * The label depends only on the lower-cased path, and each label is given
   * exactly when its own keywords occur and no earlier rule's do.
   */
  lemma PythonInstallTypeRules(path: string)
    ensures PythonInstallType(Lower(path)) == PythonInstallType(path)
    ensures var l := Lower(path);
      PythonInstallType(path) == "Conda" <==> Contains(l, "conda")
    ensures var l := Lower(path);
      PythonInstallType(path) == "Virtualenv" <==>
        !Contains(l, "conda") && (Contains(l, "virtualenv") || Contains(l, "venv"))
    ensures var l := Lower(path);
      PythonInstallType(path) == "用户安装" <==>
        !Contains(l, "conda") && !Contains(l, "virtualenv") && !Contains(l, "venv") && Contains(l, "appdata")
    ensures var l := Lower(path);
      PythonInstallType(path) == "系统安装" <==>
        !Contains(l, "conda") && !Contains(l, "virtualenv") && !Contains(l, "venv") && !Contains(l, "appdata")
  {
    LowerIdempotent(path);
  }

  /** The interpreter `_validate_python_path` looks for: `python.exe`, else `Scripts\python.exe`. */
  function PythonExe(fs: FileSystem, path: string): (r: string)
    ensures Exists(fs, PathJoin(path, "python.exe", Nt), Nt) ==> r == PathJoin(path, "python.exe", Nt)
    ensures !Exists(fs, PathJoin(path, "python.exe", Nt), Nt) ==> r == PathJoin(PathJoin(path, "Scripts", Nt), "python.exe", Nt)
    ensures r[..|path|] == path
  {
    PathJoinParts(path, "python.exe", Nt);
    PathJoinParts(path, "Scripts", Nt);
    PathJoinParts(PathJoin(path, "Scripts", Nt), "python.exe", Nt);
    var direct := PathJoin(path, "python.exe", Nt);
    if Exists(fs, direct, Nt) then direct else PathJoin(PathJoin(path, "Scripts", Nt), "python.exe", Nt)
  }

  /** What `_validate_python_path` would record for a candidate, before the duplicate check. */
  function PythonRecord(host: Host, c: Candidate): (r: Option<Record>)
    ensures r.Some? <==> (Exists(host.fs, PathJoin(c.path, "python.exe", Nt), Nt)
                          || Exists(host.fs, PathJoin(PathJoin(c.path, "Scripts", Nt), "python.exe", Nt), Nt))
    ensures r.Some? ==> && r.value.path == c.path && r.value.source == c.source
                        && r.value.installType == PythonInstallType(c.path)
                        && r.value.executable.Some? && Exists(host.fs, r.value.executable.value, Nt)
                        && r.value.version == PythonVersion(host.run(r.value.executable.value))
  {
    var exe := PythonExe(host.fs, c.path);
    if Exists(host.fs, exe, Nt) then
      Some(Record(c.path, PythonVersion(host.run(exe)), PythonInstallType(c.path), c.source, Some(exe)))
    else None
  }

  /** Where the Python scans look, each with the label it records. */
  datatype PythonScan = PythonScan(
    standard: seq<Candidate>,  // glob matches of the standard patterns
    registry: seq<string>,     // InstallPath values under the Python registry keys
    pathVar: string,           // the PATH environment variable
    walked: seq<Candidate>)    // directories the walk over the drives offers

  /** `detect_installations`: standard folders, registry, PATH, then the walk. */
  function PythonCandidates(fs: FileSystem, scan: PythonScan): (r: seq<Candidate>)
    ensures forall c :: c in r <==>
      || (c in scan.standard && Exists(fs, c.path, Nt))
      || (c.source == "注册表" && c.path in scan.registry)
      || (c.source == "PATH环境变量" && c.path in Split(scan.pathVar, ';') && c.path != "" && ContainsAny(Lower(c.path), PythonKeywords))
      || c in scan.walked
    ensures Existing(fs, scan.standard, Nt) <= r
  {
    Existing(fs, scan.standard, Nt)
    + Tagged(scan.registry, "注册表")
    + Tagged(Mentioning(scan.pathVar, ';', PythonKeywords), "PATH环境变量")
    + scan.walked
  }

  function PythonFound(host: Host, cands: seq<Candidate>): (r: seq<Option<Record>>)
    ensures |r| == |cands|
    ensures forall i :: 0 <= i < |cands| ==> r[i] == PythonRecord(host, cands[i])
  {
    seq(|cands|, i requires 0 <= i < |cands| => PythonRecord(host, cands[i]))
  }

  /** Types whose official uninstaller is run. */
  predicate HasOfficialUninstaller(r: Record) {
    r.installType == "系统安装" || r.installType == "用户安装"
  }

  /** `u` is the uninstaller of record `r`, and it exists. */
  predicate RunsUninstaller(fs: FileSystem, r: Record, u: string) {
    HasOfficialUninstaller(r) && u == PathJoin(r.path, "Uninstall.exe", Nt) && Exists(fs, u, Nt)
  }

  /** The uninstallers `_run_uninstallers` invokes, in inventory order. */
  function Uninstallers(fs: FileSystem, recs: seq<Record>): (r: seq<string>)
    ensures forall u :: u in r <==> exists i :: 0 <= i < |recs| && RunsUninstaller(fs, recs[i], u)
  {
    if |recs| == 0 then []
    else
      var rest := Uninstallers(fs, recs[1..]);
      var u := PathJoin(recs[0].path, "Uninstall.exe", Nt);
      assert forall i :: 1 <= i < |recs| ==> recs[i] == recs[1..][i - 1];
      if HasOfficialUninstaller(recs[0]) && Exists(fs, u, Nt) then [u] + rest else rest
  }

  /** No record is skipped by the Windows removal loops. */
  predicate NoSkip(r: Record) {
    false
  }

  class PythonUninstaller {
    var installations: seq<Record>

    predicate Valid()
      reads this
    {
      DistinctPaths(installations)
    }

    constructor()
      ensures installations == [] && Valid()
    {
      installations := [];
    }

    /** `_validate_python_path`: append the candidate's record unless invalid or already listed. */
    method ValidatePythonPath(host: Host, path: string, source: string)
      requires Valid()
      modifies this
      ensures Valid()
      ensures installations == InsertOpt(old(installations), PythonRecord(host, Candidate(path, source)))
    {
      var exe := PathJoin(path, "python.exe", Nt);
      if !Exists(host.fs, exe, Nt) {
        exe := PathJoin(PathJoin(path, "Scripts", Nt), "python.exe", Nt);
      }
      if Exists(host.fs, exe, Nt) {
        var version := PythonVersion(host.run(exe));
        var installType := PythonInstallType(path);
        var present := FindPath(installations, path);
        if !present {
          installations := installations + [Record(path, version, installType, source, Some(exe))];
        }
      }
    }

    /** The loop of `detect_installations`: every candidate is checked in order. */
    method ValidatePythonPaths(host: Host, cands: seq<Candidate>)
      requires Valid()
      modifies this
      ensures Valid()
      ensures installations == Discover(old(installations), PythonFound(host, cands))
    {
      var outcomes := PythonFound(host, cands);
      var i := 0;
      while i < |cands|
        invariant 0 <= i <= |cands|
        invariant Valid()
        invariant installations == Discover(old(installations), outcomes[..i])
      {
        ValidatePythonPath(host, cands[i].path, cands[i].source);
        assert outcomes[i] == PythonRecord(host, Candidate(cands[i].path, cands[i].source));
        DiscoverSnoc(old(installations), outcomes, i);
        i := i + 1;
      }
      assert outcomes[..i] == outcomes;
    }

    /** `detect_installations`: the candidate lists in scan order. */
    method DetectInstallations(host: Host, scan: PythonScan) returns (found: seq<Record>)
      requires Valid()
      modifies this
      ensures Valid()
      ensures installations == Discover(old(installations), PythonFound(host, PythonCandidates(host.fs, scan)))
      ensures found == installations
    {
      ValidatePythonPaths(host, PythonCandidates(host.fs, scan));
      found := installations;
    }

    /**
     * `verify_uninstall`: scan again from an empty inventory; success exactly
     * when no candidate is valid any more, otherwise the old inventory is put back.
     */
    method VerifyUninstall(host: Host, scan: PythonScan) returns (ok: bool)
      requires Valid()
      modifies this
      ensures Valid()
      ensures ok <==> forall i :: 0 <= i < |PythonCandidates(host.fs, scan)| ==> PythonRecord(host, PythonCandidates(host.fs, scan)[i]).None?
      ensures ok ==> installations == []
      ensures !ok ==> installations == old(installations)
    {
      var original := installations;
      installations := [];
      var _ := DetectInstallations(host, scan);
      var found := PythonFound(host, PythonCandidates(host.fs, scan));
      DiscoverEmpty(found);
      if installations == [] {
        return true;
      }
      installations := original;
      return false;
    }

    /** `_run_uninstallers`: the official uninstallers, chosen on the filesystem before any deletion. */
    method RunUninstallers(fs: FileSystem) returns (invoked: seq<string>)
      ensures invoked == Uninstallers(fs, installations)
    {
      invoked := [];
      var i := |installations|;
      while i > 0
        invariant 0 <= i <= |installations|
        invariant invoked == Uninstallers(fs, installations[i..])
      {
        i := i - 1;
        assert installations[i..][1..] == installations[i + 1..];
        var u := PathJoin(installations[i].path, "Uninstall.exe", Nt);
        if HasOfficialUninstaller(installations[i]) && Exists(fs, u, Nt) {
          invoked := [u] + invoked;
        }
      }
    }

    /** `_remove_installation_dirs`: each existing path is removed as a tree; failures are skipped. */
    method RemoveInstallationDirs(fs: FileSystem, denied: set<string>) returns (fs': FileSystem)
      ensures fs' == RemovePaths(fs, TargetPaths(installations, NoSkip), Nt, denied, false)
    {
      fs' := fs;
      var i := 0;
      while i < |installations|
        invariant 0 <= i <= |installations|
        invariant RemovePaths(fs', TargetPaths(installations[i..], NoSkip), Nt, denied, false)
               == RemovePaths(fs, TargetPaths(installations, NoSkip), Nt, denied, false)
      {
        assert installations[i..][1..] == installations[i + 1..];
        var p := installations[i].path;
        if Exists(fs', p, Nt) {
          fs' := RemoveTree(fs', p, Nt, denied);
        }
        i := i + 1;
      }
    }

    /**
     * `uninstall`: the official uninstallers run first, chosen on the
     * filesystem as it was, then the directories are removed. What the
     * uninstallers themselves delete is not modelled.
     */
    method Uninstall(fs: FileSystem, denied: set<string>) returns (invoked: seq<string>, fs': FileSystem)
      ensures installations == [] ==> invoked == [] && fs' == fs
      ensures installations != [] ==> invoked == Uninstallers(fs, installations)
      ensures installations != [] ==> fs' == RemovePaths(fs, TargetPaths(installations, NoSkip), Nt, denied, false)
    {
      if installations == [] {
        return [], fs;
      }
      invoked := RunUninstallers(fs);
      fs' := RemoveInstallationDirs(fs, denied);
    }
  }

  // ---------------------------------------------------------------------
  // Java

  /** What `_check_java_path` would record for a candidate, before the duplicate check. */
  function JavaRecord(host: Host, c: Candidate): (r: Option<Record>)
    ensures var home := WindowsJavaHome(c.path);
      && (r.Some? <==> Exists(host.fs, PathJoin(PathJoin(home, "bin", Nt), "java.exe", Nt), Nt))
      && (r.Some? ==> && r.value.path == home && r.value.source == c.source
                      && (r.value.installType == "JDK" <==> Exists(host.fs, PathJoin(PathJoin(home, "bin", Nt), "javac.exe", Nt), Nt))
                      && (r.value.installType == "JDK" || r.value.installType == "JRE")
                      && r.value.version == JavaVersion(host.run(PathJoin(PathJoin(home, "bin", Nt), "java.exe", Nt))))
  {
    var home := WindowsJavaHome(c.path);
    var java := PathJoin(PathJoin(home, "bin", Nt), "java.exe", Nt);
    var javac := PathJoin(PathJoin(home, "bin", Nt), "javac.exe", Nt);
    if Exists(host.fs, java, Nt) then
      Some(Record(home, JavaVersion(host.run(java)), if Exists(host.fs, javac, Nt) then "JDK" else "JRE", c.source, None))
    else None
  }

  /** Where the Java scans look. */
  datatype JavaScan = JavaScan(
    standard: seq<Candidate>,  // the standard folders and their glob matches
    pathVar: string,           // the PATH environment variable
    registry: seq<Candidate>)  // JavaHome values under the vendors' registry keys

  /** `find_java_installations`: standard folders, PATH, then the registry. */
  function JavaCandidates(fs: FileSystem, scan: JavaScan): (r: seq<Candidate>)
    ensures forall c :: c in r <==>
      || (c in scan.standard && Exists(fs, c.path, Nt))
      || (c.source == "PATH环境变量中的Java" && c.path in Split(scan.pathVar, ';') && c.path != "" && ContainsAny(Lower(c.path), JavaKeywords))
      || c in scan.registry
    ensures Existing(fs, scan.standard, Nt) <= r
  {
    Existing(fs, scan.standard, Nt)
    + Tagged(Mentioning(scan.pathVar, ';', JavaKeywords), "PATH环境变量中的Java")
    + scan.registry
  }

  function JavaFound(host: Host, cands: seq<Candidate>): (r: seq<Option<Record>>)
    ensures |r| == |cands|
    ensures forall i :: 0 <= i < |cands| ==> r[i] == JavaRecord(host, cands[i])
  {
    seq(|cands|, i requires 0 <= i < |cands| => JavaRecord(host, cands[i]))
  }

  predicate AllNormal(recs: seq<Record>, fl: Flavour) {
    forall i :: 0 <= i < |recs| ==> IsNormal(recs[i].path, fl)
  }

  lemma InsertKeepsNormal(recs: seq<Record>, found: Option<Record>, fl: Flavour)
    requires AllNormal(recs, fl)
    requires found.Some? ==> IsNormal(found.value.path, fl)
    ensures AllNormal(InsertOpt(recs, found), fl)
  {
  }

  class JavaUninstaller {
    var javaInstallations: seq<Record>

    /** Stored homes are normal and pairwise distinct. */
    predicate Valid()
      reads this
    {
      DistinctPaths(javaInstallations) && AllNormal(javaInstallations, Nt)
    }

    constructor()
      ensures javaInstallations == [] && Valid()
    {
      javaInstallations := [];
    }

    /** `_check_java_path`, with the parent of a `bin` directory normalised again. */
    method CheckJavaPath(host: Host, path: string, source: string)
      requires Valid()
      modifies this
      ensures Valid()
      ensures javaInstallations == InsertOpt(old(javaInstallations), JavaRecord(host, Candidate(path, source)))
    {
      var home := WindowsJavaHome(path);
      InsertKeepsNormal(javaInstallations, JavaRecord(host, Candidate(path, source)), Nt);
      var seen := FindNormalisedPath(javaInstallations, home, Nt);
      NormalisedLookup(javaInstallations, home, Nt);
      if seen {
        return;
      }
      var java := PathJoin(PathJoin(home, "bin", Nt), "java.exe", Nt);
      var javac := PathJoin(PathJoin(home, "bin", Nt), "javac.exe", Nt);
      if Exists(host.fs, java, Nt) {
        var version := JavaVersion(host.run(java));
        var installType := if Exists(host.fs, javac, Nt) then "JDK" else "JRE";
        javaInstallations := javaInstallations + [Record(home, version, installType, source, None)];
      }
    }

    /** The loop of `find_java_installations`: every candidate is checked in order. */
    method CheckJavaPaths(host: Host, cands: seq<Candidate>)
      requires Valid()
      modifies this
      ensures Valid()
      ensures javaInstallations == Discover(old(javaInstallations), JavaFound(host, cands))
    {
      var outcomes := JavaFound(host, cands);
      var i := 0;
      while i < |cands|
        invariant 0 <= i <= |cands|
        invariant Valid()
        invariant javaInstallations == Discover(old(javaInstallations), outcomes[..i])
      {
        CheckJavaPath(host, cands[i].path, cands[i].source);
        assert outcomes[i] == JavaRecord(host, Candidate(cands[i].path, cands[i].source));
        DiscoverSnoc(old(javaInstallations), outcomes, i);
        i := i + 1;
      }
      assert outcomes[..i] == outcomes;
    }

    /** `find_java_installations`: the candidate lists in scan order. */
    method FindJavaInstallations(host: Host, scan: JavaScan) returns (found: seq<Record>)
      requires Valid()
      modifies this
      ensures Valid()
      ensures javaInstallations == Discover(old(javaInstallations), JavaFound(host, JavaCandidates(host.fs, scan)))
      ensures found == javaInstallations
    {
      CheckJavaPaths(host, JavaCandidates(host.fs, scan));
      found := javaInstallations;
    }

    /** `verify_uninstall`: success exactly when the new scan finds nothing; otherwise the old inventory is put back. */
    method VerifyUninstall(host: Host, scan: JavaScan) returns (ok: bool)
      requires Valid()
      modifies this
      ensures Valid()
      ensures ok <==> forall i :: 0 <= i < |JavaCandidates(host.fs, scan)| ==> JavaRecord(host, JavaCandidates(host.fs, scan)[i]).None?
      ensures ok ==> javaInstallations == []
      ensures !ok ==> javaInstallations == old(javaInstallations)
    {
      var original := javaInstallations;
      javaInstallations := [];
      var remaining := FindJavaInstallations(host, scan);
      DiscoverEmpty(JavaFound(host, JavaCandidates(host.fs, scan)));
      if remaining == [] {
        return true;
      }
      javaInstallations := original;
      return false;
    }

    /** `_remove_java_dirs`: each existing home is removed as a tree; failures are skipped. */
    method RemoveJavaDirs(fs: FileSystem, denied: set<string>) returns (fs': FileSystem)
      ensures fs' == RemovePaths(fs, TargetPaths(javaInstallations, NoSkip), Nt, denied, false)
    {
      fs' := fs;
      var i := 0;
      while i < |javaInstallations|
        invariant 0 <= i <= |javaInstallations|
        invariant RemovePaths(fs', TargetPaths(javaInstallations[i..], NoSkip), Nt, denied, false)
               == RemovePaths(fs, TargetPaths(javaInstallations, NoSkip), Nt, denied, false)
      {
        assert javaInstallations[i..][1..] == javaInstallations[i + 1..];
        var p := javaInstallations[i].path;
        if Exists(fs', p, Nt) {
          fs' := RemoveTree(fs', p, Nt, denied);
        }
        i := i + 1;
      }
    }
  }
}
