/**
 * The macOS uninstaller: Python installations found under the standard
 * locations, through Homebrew, in the usual Conda folders and by walking the
 * disk; Java installations found under the standard locations, on the PATH
 * and through Homebrew. Shell start-up files are cleaned without a backup.
 */
module MacUninstaller {
  import opened Wrappers
  import opened Text
  import opened Paths
  import opened Lists
  import opened Versions
  import opened Discovery
  import opened Cleanup
  import opened JavaPaths

  const PythonCleanKeywords: seq<string> := ["python", "pyenv", "conda", "anaconda"]
  const JavaKeywords: seq<string> := ["java", "jdk", "jre"]

  // ---------------------------------------------------------------------
  // install type

  /** `_determine_install_type` as written: the framework rule tests a mixed-case needle against the lower-cased path. */
  function PythonInstallTypeAsWritten(path: string): string {
    var l := Lower(path);
    if Contains(l, "conda") || Contains(l, "anaconda") then "Conda"
    else if Contains(l, "virtualenv") || Contains(l, "venv") || Contains(l, ".virtualenvs") then "Virtualenv"
    else if Contains(l, "pyenv") then "pyenv"
    else if Contains(l, "homebrew") || Contains(l, "/usr/local/") then "Homebrew"
    else if Contains(l, "/Library/Frameworks/") then "官方框架"
    else if Contains(l, "/usr/bin/") then "系统Python"
    else "自定义安装"
  }

  /** As written, no path is ever labelled as an official framework install. */
  lemma FrameworkLabelUnreachable(path: string)
    ensures PythonInstallTypeAsWritten(path) != "官方框架"
  {
    assert IsAsciiUpper("/Library/Frameworks/"[1]);
    LowerNeverContainsUpper(path, "/Library/Frameworks/");
  }

  /** `_determine_install_type` with the framework rule in lower case, as the other rules are. */
  function PythonInstallType(path: string): (t: string)
    ensures t in ["Conda", "Virtualenv", "pyenv", "Homebrew", "官方框架", "系统Python", "自定义安装"]
    ensures Contains(Lower(path), "conda") ==> t == "Conda"
  {
    var l := Lower(path);
    if Contains(l, "conda") || Contains(l, "anaconda") then "Conda"
    else if Contains(l, "virtualenv") || Contains(l, "venv") || Contains(l, ".virtualenvs") then "Virtualenv"
    else if Contains(l, "pyenv") then "pyenv"
    else if Contains(l, "homebrew") || Contains(l, "/usr/local/") then "Homebrew"
    else if Contains(l, "/library/frameworks/") then "官方框架"
    else if Contains(l, "/usr/bin/") then "系统Python"
    else "自定义安装"
  }

  /** The corrected rule differs from the written one only where it gives the framework label. */
  lemma FrameworkRuleOnlyChange(path: string)
    ensures PythonInstallType(path) != "官方框架" ==> PythonInstallType(path) == PythonInstallTypeAsWritten(path)
  {
    FrameworkLabelUnreachable(path);
  }

  /** "/library/frameworks/" names neither a Conda nor a virtual environment keyword. */
  lemma FrameworkNotEnv(l: string)
    requires l == "/library/frameworks/"
    ensures !Contains(l, "conda") && !Contains(l, "anaconda")
    ensures !Contains(l, "virtualenv") && !Contains(l, "venv") && !Contains(l, ".virtualenvs")
  {
    MissingCharNotContained(l, "conda", 0);
    MissingCharNotContained(l, "anaconda", 3);
    MissingCharNotContained(l, "virtualenv", 0);
    MissingCharNotContained(l, "venv", 0);
    MissingCharNotContained(l, ".virtualenvs", 1);
  }

  /** "/library/frameworks/" names neither pyenv nor a Homebrew keyword. */
  lemma FrameworkNotManaged(l: string)
    requires l == "/library/frameworks/"
    ensures !Contains(l, "pyenv") && !Contains(l, "homebrew") && !Contains(l, "/usr/local/")
  {
    MissingCharNotContained(l, "pyenv", 0);
    MissingCharNotContained(l, "homebrew", 0);
    MissingCharNotContained(l, "/usr/local/", 1);
  }

  /** The corrected rule does give the framework label. */
  lemma FrameworkLabelReachable()
    ensures PythonInstallType("/Library/Frameworks/") == "官方框架"
  {
    var l := Lower("/Library/Frameworks/");
    assert l == "/library/frameworks/";
    assert OccursAt(l, "/library/frameworks/", 0);
    FrameworkNotEnv(l);
    FrameworkNotManaged(l);
  }

  /**
   * The label depends only on the lower-cased path, and each label is given
   * exactly when its own keywords occur and no earlier rule's do; `anaconda`
   * and `.virtualenvs` never decide, since `conda` and `virtualenv` catch them first.
   */
  lemma PythonInstallTypeRules(path: string)
    ensures PythonInstallType(Lower(path)) == PythonInstallType(path)
    ensures var l := Lower(path);
      PythonInstallType(path) == "Conda" <==> Contains(l, "conda")
    ensures var l := Lower(path);
      PythonInstallType(path) == "Virtualenv" <==>
        !Contains(l, "conda") && (Contains(l, "virtualenv") || Contains(l, "venv"))
    ensures var l := Lower(path);
      PythonInstallType(path) == "pyenv" <==>
        !Contains(l, "conda") && !Contains(l, "virtualenv") && !Contains(l, "venv") && Contains(l, "pyenv")
    ensures var l := Lower(path);
      PythonInstallType(path) == "Homebrew" <==>
        !Contains(l, "conda") && !Contains(l, "virtualenv") && !Contains(l, "venv") && !Contains(l, "pyenv")
        && (Contains(l, "homebrew") || Contains(l, "/usr/local/"))
    ensures var l := Lower(path);
      PythonInstallType(path) == "官方框架" <==>
        !Contains(l, "conda") && !Contains(l, "virtualenv") && !Contains(l, "venv") && !Contains(l, "pyenv")
        && !Contains(l, "homebrew") && !Contains(l, "/usr/local/") && Contains(l, "/library/frameworks/")
    ensures var l := Lower(path);
      PythonInstallType(path) == "系统Python" <==>
        !Contains(l, "conda") && !Contains(l, "virtualenv") && !Contains(l, "venv") && !Contains(l, "pyenv")
        && !Contains(l, "homebrew") && !Contains(l, "/usr/local/") && !Contains(l, "/library/frameworks/")
        && Contains(l, "/usr/bin/")
    ensures var l := Lower(path);
      PythonInstallType(path) == "自定义安装" <==>
        !Contains(l, "conda") && !Contains(l, "virtualenv") && !Contains(l, "venv") && !Contains(l, "pyenv")
        && !Contains(l, "homebrew") && !Contains(l, "/usr/local/") && !Contains(l, "/library/frameworks/")
        && !Contains(l, "/usr/bin/")
  {
    LowerIdempotent(path);
    LongerKeywords(Lower(path));
  }

  // ---------------------------------------------------------------------
  // Python

  /**
   * The home and interpreter `_validate_python_path` settles on: a file whose
   * name contains `python` is the interpreter and its grandparent the home;
   * otherwise the home is the path and the interpreter `bin/python3`, else `bin/python`.
   */
  function PythonTarget(fs: FileSystem, path: string): (r: (string, string))
    ensures IsFile(fs, path, Posix) && Contains(Basename(path, Posix), "python") ==>
      r == (Dirname(Dirname(path, Posix), Posix), path)
    ensures var bin := PathJoin(path, "bin", Posix);
      !(IsFile(fs, path, Posix) && Contains(Basename(path, Posix), "python")) ==>
        && r.0 == path
        && (Exists(fs, PathJoin(bin, "python3", Posix), Posix) ==> r.1 == PathJoin(bin, "python3", Posix))
        && (!Exists(fs, PathJoin(bin, "python3", Posix), Posix) ==> r.1 == PathJoin(bin, "python", Posix))
  {
    if IsFile(fs, path, Posix) && Contains(Basename(path, Posix), "python") then
      (Dirname(Dirname(path, Posix), Posix), path)
    else
      var python3 := PathJoin(PathJoin(path, "bin", Posix), "python3", Posix);
      if Exists(fs, python3, Posix) then (path, python3)
      else (path, PathJoin(PathJoin(path, "bin", Posix), "python", Posix))
  }

  /** What `_validate_python_path` would record for a candidate, before the duplicate check. */
  function PythonRecord(host: Host, c: Candidate): (r: Option<Record>)
    ensures r.Some? ==> && r.value.source == c.source
                        && r.value.installType == PythonInstallType(r.value.path)
                        && r.value.executable.Some? && Exists(host.fs, r.value.executable.value, Posix)
                        && r.value.version == PythonVersion(host.run(r.value.executable.value))
    ensures IsFile(host.fs, c.path, Posix) && Contains(Basename(c.path, Posix), "python") ==>
      r.Some? && r.value.executable == Some(c.path) && r.value.path == Dirname(Dirname(c.path, Posix), Posix)
    ensures !(IsFile(host.fs, c.path, Posix) && Contains(Basename(c.path, Posix), "python")) ==>
      && (r.Some? <==> (Exists(host.fs, PathJoin(PathJoin(c.path, "bin", Posix), "python3", Posix), Posix)
                        || Exists(host.fs, PathJoin(PathJoin(c.path, "bin", Posix), "python", Posix), Posix)))
      && (r.Some? ==> r.value.path == c.path)
  {
    var (home, exe) := PythonTarget(host.fs, c.path);
    if Exists(host.fs, exe, Posix) then
      Some(Record(home, PythonVersion(host.run(exe)), PythonInstallType(home), c.source, Some(exe)))
    else None
  }

  /** An interpreter `<prefix>/bin/<name>` is recorded under `<prefix>`. */
  lemma InterpreterRecordedUnderPrefix(host: Host, prefix: string, name: string, source: string)
    requires |prefix| > 0 && prefix[|prefix| - 1] != '/'
    requires '/' !in name && Contains(name, "python")
    requires IsFile(host.fs, prefix + "/bin/" + name, Posix)
    ensures var r := PythonRecord(host, Candidate(prefix + "/bin/" + name, source));
      r.Some? && r.value.path == prefix && r.value.executable == Some(prefix + "/bin/" + name)
  {
    var bin := prefix + "/bin";
    assert prefix + "/bin/" + name == bin + ['/'] + name;
    assert bin == prefix + ['/'] + "bin";
    DirnameOfChild(bin, name, Posix);
    DirnameOfChild(prefix, "bin", Posix);
  }

  /** `_check_homebrew` and `_check_homebrew_java`: the formula list gates the prefix glob; a missing `brew` offers nothing. */
  function BrewCandidates(brewList: ProcOutput, names: seq<string>, matches: seq<string>): (r: seq<Candidate>)
    ensures BrewLists(brewList, names) ==> r == Tagged(matches, "Homebrew")
    ensures !BrewLists(brewList, names) ==> r == []
    ensures forall i :: 0 <= i < |r| ==> r[i].source == "Homebrew" && r[i].path == matches[i]
    ensures forall c :: c in r <==> BrewLists(brewList, names) && c.source == "Homebrew" && c.path in matches
  {
    if BrewLists(brewList, names) then Tagged(matches, "Homebrew") else []
  }

  /** `brew list` ran and its output names one of the formulae. */
  predicate BrewLists(brewList: ProcOutput, names: seq<string>) {
    brewList.Completed? && ContainsAny(brewList.stdout, names)
  }

  /** `_check_conda`: the fixed Conda folders under the home directory and under /opt. */
  function CondaPaths(home: string): seq<string> {
    [PathJoin(home, "anaconda", Posix), PathJoin(home, "anaconda2", Posix), PathJoin(home, "anaconda3", Posix),
     PathJoin(home, "miniconda", Posix), PathJoin(home, "miniconda2", Posix), PathJoin(home, "miniconda3", Posix),
     "/opt/anaconda", "/opt/anaconda2", "/opt/anaconda3", "/opt/miniconda", "/opt/miniconda2", "/opt/miniconda3"]
  }

  /** The Conda folders under the home directory and `/opt` that exist, tagged "Conda". */
  function CondaCandidates(fs: FileSystem, home: string): (r: seq<Candidate>)
    ensures forall c :: c in r <==> c.source == "Conda" && c.path in CondaPaths(home) && Exists(fs, c.path, Posix)
  {
    Existing(fs, Tagged(CondaPaths(home), "Conda"), Posix)
  }

  /** Where the Python scans look. */
  datatype PythonScan = PythonScan(
    standard: seq<Candidate>,  // glob matches of the standard patterns
    brewList: ProcOutput,      // `brew list`
    brewMatches: seq<string>,  // `<brew prefix>/opt/python@*`
    home: string,              // the user's home directory
    walked: seq<Candidate>)    // directories the walk offers

  /** `detect_installations`: standard locations, Homebrew, Conda folders, then the walk. */
  function PythonCandidates(fs: FileSystem, scan: PythonScan): (r: seq<Candidate>)
    ensures forall c :: c in r <==>
      || (c in scan.standard && Exists(fs, c.path, Posix))
      || (BrewLists(scan.brewList, ["python", "python@"]) && c.source == "Homebrew" && c.path in scan.brewMatches)
      || (c.source == "Conda" && c.path in CondaPaths(scan.home) && Exists(fs, c.path, Posix))
      || c in scan.walked
    ensures Existing(fs, scan.standard, Posix) <= r
  {
    Existing(fs, scan.standard, Posix)
    + BrewCandidates(scan.brewList, ["python", "python@"], scan.brewMatches)
    + CondaCandidates(fs, scan.home)
    + scan.walked
  }

  function PythonFound(host: Host, cands: seq<Candidate>): (r: seq<Option<Record>>)
    ensures |r| == |cands|
    ensures forall i :: 0 <= i < |cands| ==> r[i] == PythonRecord(host, cands[i])
  {
    seq(|cands|, i requires 0 <= i < |cands| => PythonRecord(host, cands[i]))
  }

  /** The start-up files both cleaners rewrite. */
  function ShellFiles(home: string): seq<string> {
    [PathJoin(home, ".bash_profile", Posix), PathJoin(home, ".zshrc", Posix),
     PathJoin(home, ".bashrc", Posix), PathJoin(home, ".profile", Posix)]
  }

  /** No record is skipped by the macOS removal loops. */
  predicate NoSkip(r: Record) {
    false
  }

  class PythonUninstaller {
    var installations: seq<Record>

    predicate Valid()
      reads this
    {
      DistinctPaths(installations)
    }

    constructor()
      ensures installations == [] && Valid()
    {
      installations := [];
    }

    /** `_validate_python_path`: append the candidate's record unless invalid or already listed. */
    method ValidatePythonPath(host: Host, path: string, source: string)
      requires Valid()
      modifies this
      ensures Valid()
      ensures installations == InsertOpt(old(installations), PythonRecord(host, Candidate(path, source)))
    {
      var home := path;
      var exe;
      if IsFile(host.fs, path, Posix) && Contains(Basename(path, Posix), "python") {
        exe := path;
        home := Dirname(Dirname(exe, Posix), Posix);
      } else {
        exe := PathJoin(PathJoin(path, "bin", Posix), "python3", Posix);
        if !Exists(host.fs, exe, Posix) {
          exe := PathJoin(PathJoin(path, "bin", Posix), "python", Posix);
        }
      }
      if Exists(host.fs, exe, Posix) {
        var version := PythonVersion(host.run(exe));
        var installType := PythonInstallType(home);
        var present := FindPath(installations, home);
        if !present {
          installations := installations + [Record(home, version, installType, source, Some(exe))];
        }
      }
    }

    /** The loop of `detect_installations`: every candidate is checked in order. */
    method ValidatePythonPaths(host: Host, cands: seq<Candidate>)
      requires Valid()
      modifies this
      ensures Valid()
      ensures installations == Discover(old(installations), PythonFound(host, cands))
    {
      var outcomes := PythonFound(host, cands);
      var i := 0;
      while i < |cands|
        invariant 0 <= i <= |cands|
        invariant Valid()
        invariant installations == Discover(old(installations), outcomes[..i])
      {
        ValidatePythonPath(host, cands[i].path, cands[i].source);
        assert outcomes[i] == PythonRecord(host, Candidate(cands[i].path, cands[i].source));
        DiscoverSnoc(old(installations), outcomes, i);
        i := i + 1;
      }
      assert outcomes[..i] == outcomes;
    }

    /** `detect_installations`: the candidate lists in scan order. */
    method DetectInstallations(host: Host, scan: PythonScan) returns (found: seq<Record>)
      requires Valid()
      modifies this
      ensures Valid()
      ensures installations == Discover(old(installations), PythonFound(host, PythonCandidates(host.fs, scan)))
      ensures found == installations
    {
      ValidatePythonPaths(host, PythonCandidates(host.fs, scan));
      found := installations;
    }

    /** `verify_uninstall`: success exactly when the new scan finds nothing; otherwise the old inventory is put back. */
    method VerifyUninstall(host: Host, scan: PythonScan) returns (ok: bool)
      requires Valid()
      modifies this
      ensures Valid()
      ensures ok <==> forall i :: 0 <= i < |PythonCandidates(host.fs, scan)| ==> PythonRecord(host, PythonCandidates(host.fs, scan)[i]).None?
      ensures ok ==> installations == []
      ensures !ok ==> installations == old(installations)
    {
      var original := installations;
      installations := [];
      var _ := DetectInstallations(host, scan);
      DiscoverEmpty(PythonFound(host, PythonCandidates(host.fs, scan)));
      if installations == [] {
        return true;
      }
      installations := original;
      return false;
    }

    /** `_remove_installation_dirs`: each existing path is removed as a tree; failures are skipped. */
    method RemoveInstallationDirs(fs: FileSystem, denied: set<string>) returns (fs': FileSystem)
      ensures fs' == RemovePaths(fs, TargetPaths(installations, NoSkip), Posix, denied, false)
    {
      fs' := fs;
      var i := 0;
      while i < |installations|
        invariant 0 <= i <= |installations|
        invariant RemovePaths(fs', TargetPaths(installations[i..], NoSkip), Posix, denied, false)
               == RemovePaths(fs, TargetPaths(installations, NoSkip), Posix, denied, false)
      {
        assert installations[i..][1..] == installations[i + 1..];
        var p := installations[i].path;
        if Exists(fs', p, Posix) {
          fs' := RemoveTree(fs', p, Posix, denied);
        }
        i := i + 1;
      }
    }

    /** `_clean_environment`: the start-up files lose every line naming Python, Conda or pyenv (any case); no backup. */
    method CleanEnvironment(fs: FileSystem, home: string, denied: set<string>) returns (fs': FileSystem)
      ensures fs' == CleanFiles(fs, ShellFiles(home), KeepsLine(PythonCleanKeywords, true), false, denied)
    {
      fs' := CleanFilesLoop(fs, ShellFiles(home), PythonCleanKeywords, true, false, denied);
    }

    /** `uninstall`: nothing happens without installations; otherwise the directories go first, then the start-up files are cleaned. */
    method Uninstall(fs: FileSystem, home: string, denied: set<string>) returns (fs': FileSystem)
      ensures installations == [] ==> fs' == fs
      ensures installations != [] ==>
        fs' == CleanFiles(RemovePaths(fs, TargetPaths(installations, NoSkip), Posix, denied, false),
                          ShellFiles(home), KeepsLine(PythonCleanKeywords, true), false, denied)
    {
      if installations == [] {
        return fs;
      }
      var removed := RemoveInstallationDirs(fs, denied);
      fs' := CleanEnvironment(removed, home, denied);
    }
  }

  // ---------------------------------------------------------------------
  // Java

  /**
   * What `_check_java_path` would record for a candidate, before the duplicate
   * check: a record exactly when `<home>/bin/java` exists, under its home
   * (normal, link resolved, `bin` stripped); a JDK exactly when
   * `<home>/bin/javac` exists.
   */
  function JavaRecord(host: Host, c: Candidate): (r: Option<Record>)
    ensures var home := MacJavaHome(host.fs, c.path);
      && (r.Some? <==> Exists(host.fs, PathJoin(PathJoin(home, "bin", Posix), "java", Posix), Posix))
      && (r.Some? ==> && r.value.path == home && IsNormal(home, Posix) && r.value.source == c.source
                      && (r.value.installType == "JDK" <==> Exists(host.fs, PathJoin(PathJoin(home, "bin", Posix), "javac", Posix), Posix))
                      && (r.value.installType == "JDK" || r.value.installType == "JRE")
                      && r.value.version == JavaVersion(host.run(PathJoin(PathJoin(home, "bin", Posix), "java", Posix))))
  {
    var home := MacJavaHome(host.fs, c.path);
    var java := PathJoin(PathJoin(home, "bin", Posix), "java", Posix);
    var javac := PathJoin(PathJoin(home, "bin", Posix), "javac", Posix);
    if Exists(host.fs, java, Posix) then
      Some(Record(home, JavaVersion(host.run(java)), if Exists(host.fs, javac, Posix) then "JDK" else "JRE", c.source, None))
    else None
  }

  /** Where the Java scans look. */
  datatype JavaScan = JavaScan(
    standard: seq<Candidate>,  // glob matches of the standard patterns
    pathVar: string,           // the PATH environment variable
    brewList: ProcOutput,      // `brew list`
    brewMatches: seq<string>)  // `<brew prefix>/opt/openjdk@*`

  /** `find_java_installations`: standard locations, PATH, then Homebrew. */
  function JavaCandidates(fs: FileSystem, scan: JavaScan): (r: seq<Candidate>)
    ensures forall c :: c in r <==>
      || (c in scan.standard && Exists(fs, c.path, Posix))
      || (c.source == "PATH环境变量中的Java" && c.path in Split(scan.pathVar, ':') && c.path != "" && ContainsAny(Lower(c.path), JavaKeywords))
      || (BrewLists(scan.brewList, ["openjdk", "java"]) && c.source == "Homebrew" && c.path in scan.brewMatches)
    ensures Existing(fs, scan.standard, Posix) <= r
  {
    Existing(fs, scan.standard, Posix)
    + Tagged(Mentioning(scan.pathVar, ':', JavaKeywords), "PATH环境变量中的Java")
    + BrewCandidates(scan.brewList, ["openjdk", "java"], scan.brewMatches)
  }

  function JavaFound(host: Host, cands: seq<Candidate>): (r: seq<Option<Record>>)
    ensures |r| == |cands|
    ensures forall i :: 0 <= i < |cands| ==> r[i] == JavaRecord(host, cands[i])
  {
    seq(|cands|, i requires 0 <= i < |cands| => JavaRecord(host, cands[i]))
  }

  const PluginPaths: seq<string> := ["/Library/Internet Plug-Ins/JavaAppletPlugin.plugin", "/Library/PreferencePanes/JavaControlPanel.prefPane"]

  predicate AllNormal(recs: seq<Record>) {
    forall i :: 0 <= i < |recs| ==> IsNormal(recs[i].path, Posix)
  }

  class JavaUninstaller {
    var javaInstallations: seq<Record>

    /** Stored homes are normal and pairwise distinct. */
    predicate Valid()
      reads this
    {
      DistinctPaths(javaInstallations) && AllNormal(javaInstallations)
    }

    constructor()
      ensures javaInstallations == [] && Valid()
    {
      javaInstallations := [];
    }

    /** `_check_java_path`, with the parent of a `bin` directory normalised again. */
    method CheckJavaPath(host: Host, path: string, source: string)
      requires Valid()
      modifies this
      ensures Valid()
      ensures javaInstallations == InsertOpt(old(javaInstallations), JavaRecord(host, Candidate(path, source)))
    {
      var home := Normpath(path, Posix);
      if IsLink(host.fs, home, Posix) {
        home := RealPath(host.fs, home, Posix);
      }
      home := StripBin(home, Posix);
      assert home == MacJavaHome(host.fs, path);
      var seen := FindNormalisedPath(javaInstallations, home, Posix);
      NormalisedLookup(javaInstallations, home, Posix);
      if seen {
        return;
      }
      var java := PathJoin(PathJoin(home, "bin", Posix), "java", Posix);
      var javac := PathJoin(PathJoin(home, "bin", Posix), "javac", Posix);
      if Exists(host.fs, java, Posix) {
        var version := JavaVersion(host.run(java));
        var installType := if Exists(host.fs, javac, Posix) then "JDK" else "JRE";
        javaInstallations := javaInstallations + [Record(home, version, installType, source, None)];
      }
    }

    /** The loop of `find_java_installations`: every candidate is checked in order. */
    method CheckJavaPaths(host: Host, cands: seq<Candidate>)
      requires Valid()
      modifies this
      ensures Valid()
      ensures javaInstallations == Discover(old(javaInstallations), JavaFound(host, cands))
    {
      var outcomes := JavaFound(host, cands);
      var i := 0;
      while i < |cands|
        invariant 0 <= i <= |cands|
        invariant Valid()
        invariant javaInstallations == Discover(old(javaInstallations), outcomes[..i])
      {
        CheckJavaPath(host, cands[i].path, cands[i].source);
        assert outcomes[i] == JavaRecord(host, Candidate(cands[i].path, cands[i].source));
        DiscoverSnoc(old(javaInstallations), outcomes, i);
        i := i + 1;
      }
      assert outcomes[..i] == outcomes;
    }

    /** `find_java_installations`: the candidate lists in scan order. */
    method FindJavaInstallations(host: Host, scan: JavaScan) returns (found: seq<Record>)
      requires Valid()
      modifies this
      ensures Valid()
      ensures javaInstallations == Discover(old(javaInstallations), JavaFound(host, JavaCandidates(host.fs, scan)))
      ensures found == javaInstallations
    {
      CheckJavaPaths(host, JavaCandidates(host.fs, scan));
      found := javaInstallations;
    }

    /** `verify_uninstall`: success exactly when the new scan finds nothing; otherwise the old inventory is put back. */
    method VerifyUninstall(host: Host, scan: JavaScan) returns (ok: bool)
      requires Valid()
      modifies this
      ensures Valid()
      ensures ok <==> forall i :: 0 <= i < |JavaCandidates(host.fs, scan)| ==> JavaRecord(host, JavaCandidates(host.fs, scan)[i]).None?
      ensures ok ==> javaInstallations == []
      ensures !ok ==> javaInstallations == old(javaInstallations)
    {
      var original := javaInstallations;
      javaInstallations := [];
      var remaining := FindJavaInstallations(host, scan);
      DiscoverEmpty(JavaFound(host, JavaCandidates(host.fs, scan)));
      if remaining == [] {
        return true;
      }
      javaInstallations := original;
      return false;
    }

    /** `_remove_java_dirs`: each existing home is removed as a tree; failures are skipped. */
    method RemoveJavaDirs(fs: FileSystem, denied: set<string>) returns (fs': FileSystem)
      ensures fs' == RemovePaths(fs, TargetPaths(javaInstallations, NoSkip), Posix, denied, false)
    {
      fs' := fs;
      var i := 0;
      while i < |javaInstallations|
        invariant 0 <= i <= |javaInstallations|
        invariant RemovePaths(fs', TargetPaths(javaInstallations[i..], NoSkip), Posix, denied, false)
               == RemovePaths(fs, TargetPaths(javaInstallations, NoSkip), Posix, denied, false)
      {
        assert javaInstallations[i..][1..] == javaInstallations[i + 1..];
        var p := javaInstallations[i].path;
        if Exists(fs', p, Posix) {
          fs' := RemoveTree(fs', p, Posix, denied);
        }
        i := i + 1;
      }
    }

    /** `_remove_java_plugins`: the browser plug-in and the control panel, each removed if present. */
    method RemoveJavaPlugins(fs: FileSystem, denied: set<string>) returns (fs': FileSystem)
      ensures fs' == RemovePaths(fs, PluginPaths, Posix, denied, false)
    {
      fs' := RemoveTrees(fs, PluginPaths, Posix, denied);
    }

    /** `_clean_environment`: the start-up files lose every line naming Java, a JDK or a JRE (any case); no backup. */
    method CleanEnvironment(fs: FileSystem, home: string, denied: set<string>) returns (fs': FileSystem)
      ensures fs' == CleanFiles(fs, ShellFiles(home), KeepsLine(JavaKeywords, true), false, denied)
    {
      fs' := CleanFilesLoop(fs, ShellFiles(home), JavaKeywords, true, false, denied);
    }

    /** `uninstall_java`: nothing happens without installations; otherwise homes, then plug-ins, then start-up files. */
    method UninstallJava(fs: FileSystem, home: string, denied: set<string>) returns (fs': FileSystem)
      ensures javaInstallations == [] ==> fs' == fs
      ensures javaInstallations != [] ==>
        fs' == CleanFiles(RemovePaths(RemovePaths(fs, TargetPaths(javaInstallations, NoSkip), Posix, denied, false),
                                      PluginPaths, Posix, denied, false),
                          ShellFiles(home), KeepsLine(JavaKeywords, true), false, denied)
    {
      if javaInstallations == [] {
        return fs;
      }
      var removed := RemoveJavaDirs(fs, denied);
      removed := RemoveJavaPlugins(removed, denied);
      fs' := CleanEnvironment(removed, home, denied);
    }
  }
}
