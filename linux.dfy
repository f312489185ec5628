/**
 * The Linux uninstaller: Python installations found under the standard
 * locations, by walking for virtual environments and in the usual Conda
 * folders with their `envs`; Java installations found under the standard
 * locations, through `update-alternatives` and on the PATH. System
 * installations are never deleted, and every environment file is copied to
 * `<file>.bak` before it is cleaned.
 */
module LinuxUninstaller {
  import opened Wrappers
  import opened Text
  import opened Paths
  import opened Lists
  import opened Versions
  import opened Discovery
  import opened Cleanup

  /** The Python cleaner's keywords, matched case-sensitively. */
  const PythonEnvKeywords: seq<string> := ["PYTHON", "CONDA", "ANACONDA"]
  /** The Java cleaner's and the PATH scan's keywords, matched against the lower-case text. */
  const JavaKeywords: seq<string> := ["java", "jdk", "jre"]
  const SystemPython: string := "系统Python"
  const SystemJava: string := "系统Java"

  // ---------------------------------------------------------------------
  // Python: install type

  /** `_determine_install_type`: the first rule whose keyword the lower-case path contains. */
  function PythonInstallType(path: string): (t: string)
    ensures t in ["Conda", "Virtualenv", "用户安装", SystemPython, "自定义安装"]
    ensures Contains(Lower(path), "conda") ==> t == "Conda"
  {
    var l := Lower(path);
    if Contains(l, "conda") || Contains(l, "anaconda") then "Conda"
    else if Contains(l, "virtualenv") || Contains(l, "venv") || Contains(l, ".virtualenvs") then "Virtualenv"
    else if Contains(l, ".local") || Contains(l, ".pyenv") then "用户安装"
    else if Contains(l, "/usr/bin") then SystemPython
    else "自定义安装"
  }

  /**
   * The label depends only on the lower-cased path, and each label is given
   * exactly when its own keywords occur and no earlier rule's do; `anaconda`
   * and `.virtualenvs` never decide, since `conda` and `virtualenv` catch them first.
   */
  lemma PythonInstallTypeRules(path: string)
    ensures PythonInstallType(Lower(path)) == PythonInstallType(path)
    ensures var l := Lower(path);
      PythonInstallType(path) == "Conda" <==> Contains(l, "conda")
    ensures var l := Lower(path);
      PythonInstallType(path) == "Virtualenv" <==>
        !Contains(l, "conda") && (Contains(l, "virtualenv") || Contains(l, "venv"))
    ensures var l := Lower(path);
      PythonInstallType(path) == "用户安装" <==>
        !Contains(l, "conda") && !Contains(l, "virtualenv") && !Contains(l, "venv")
        && (Contains(l, ".local") || Contains(l, ".pyenv"))
    ensures var l := Lower(path);
      PythonInstallType(path) == SystemPython <==>
        !Contains(l, "conda") && !Contains(l, "virtualenv") && !Contains(l, "venv")
        && !Contains(l, ".local") && !Contains(l, ".pyenv") && Contains(l, "/usr/bin")
    ensures var l := Lower(path);
      PythonInstallType(path) == "自定义安装" <==>
        !Contains(l, "conda") && !Contains(l, "virtualenv") && !Contains(l, "venv")
        && !Contains(l, ".local") && !Contains(l, ".pyenv") && !Contains(l, "/usr/bin")
  {
    LowerIdempotent(path);
    LongerKeywords(Lower(path));
  }

  // ---------------------------------------------------------------------
  // Python: validation

  /** The path `_validate_python_path` works on: a symbolic link is replaced by its real path. */
  function PythonTarget(fs: FileSystem, path: string): (r: string)
    ensures !IsLink(fs, path, Posix) ==> r == path
    ensures IsLink(fs, path, Posix) ==> IsNormal(r, Posix) && r == RealPath(fs, path, Posix)
  {
    if IsLink(fs, path, Posix) then RealPath(fs, path, Posix) else path
  }

  function PythonBin(home: string): string {
    PathJoin(PathJoin(home, "bin", Posix), "python", Posix)
  }

  /**
   * What `_validate_python_path` would record for a candidate, before the
   * duplicate check: an executable file records itself, a directory records
   * itself with its `bin/python`.
   */
  function PythonRecord(host: Host, c: Candidate): (r: Option<Record>)
    ensures var p := PythonTarget(host.fs, c.path);
      r.Some? <==> IsExecutableFile(host.fs, p, Posix) || (IsDir(host.fs, p, Posix) && Exists(host.fs, PythonBin(p), Posix))
    ensures r.Some? ==>
      && r.value.path == PythonTarget(host.fs, c.path)
      && r.value.source == c.source
      && r.value.installType == PythonInstallType(r.value.path)
      && r.value.executable.Some? && Exists(host.fs, r.value.executable.value, Posix)
      && r.value.version == PythonVersion(host.run(r.value.executable.value))
    ensures r.Some? && IsFile(host.fs, r.value.path, Posix) ==> r.value.executable == Some(r.value.path)
    ensures r.Some? && IsDir(host.fs, r.value.path, Posix) ==> r.value.executable == Some(PythonBin(r.value.path))
  {
    var p := PythonTarget(host.fs, c.path);
    if IsExecutableFile(host.fs, p, Posix) then
      Some(Record(p, PythonVersion(host.run(p)), PythonInstallType(p), c.source, Some(p)))
    else if IsDir(host.fs, p, Posix) && Exists(host.fs, PythonBin(p), Posix) then
      Some(Record(p, PythonVersion(host.run(PythonBin(p))), PythonInstallType(p), c.source, Some(PythonBin(p))))
    else None
  }

  /**
   * A link and the path it resolves to give records with the same path, so a
   * scan that offers both keeps one record.
   */
  lemma LinkAndTargetRecordedOnce(host: Host, link: string, s1: string, s2: string)
    requires IsLink(host.fs, link, Posix)
    requires !IsLink(host.fs, RealPath(host.fs, link, Posix), Posix)
    ensures var a := PythonRecord(host, Candidate(link, s1));
      var b := PythonRecord(host, Candidate(RealPath(host.fs, link, Posix), s2));
      && (a.Some? <==> b.Some?)
      && (a.Some? ==> a.value.path == b.value.path)
      && |Discover([], [a, b])| <= 1
  {
    var a := PythonRecord(host, Candidate(link, s1));
    var b := PythonRecord(host, Candidate(RealPath(host.fs, link, Posix), s2));
    assert [a, b][..1] == [a];
    assert [a][..0] == [];
  }

  /**
   * A candidate `d/w` that links to the bare name `t` (Debian's
   * `python3 -> python3.11`) records the executable sibling `d/t`.
   */
  lemma SiblingLinkRecorded(host: Host, d: string, w: string, t: string, s: string)
    requires IsNormal(d, Posix) && d != "." && d != "/"
    requires Plain([w, t], Posix)
    requires d + "/" + w in host.fs && host.fs[d + "/" + w] == Link(t)
    requires d + "/" + t in host.fs && host.fs[d + "/" + t].File? && host.fs[d + "/" + t].executable
    ensures var p := d + "/" + t;
      PythonRecord(host, Candidate(d + "/" + w, s)) == Some(Record(p, PythonVersion(host.run(p)), PythonInstallType(p), s, Some(p)))
  {
    var fs := host.fs;
    assert [w, t][0] == w && [w, t][1] == t;
    NormalChild(d, w, Posix);
    NormalChild(d, t, Posix);
    SiblingLink(fs, d, w, t, Posix);
    ResolveNonLink(fs, d + "/" + t, Posix, |fs|);
    assert PythonTarget(fs, d + "/" + w) == d + "/" + t;
  }

  // ---------------------------------------------------------------------
  // Python: candidates

  /** Where the Python scans look. */
  datatype PythonScan = PythonScan(
    standard: seq<Candidate>,        // glob matches of the standard patterns
    walked: seq<Candidate>,          // virtual environments the walk offers
    home: string,                    // the user's home directory
    listdir: string -> seq<string>)  // `os.listdir`

  /** `_check_conda_envs`: the Conda folders looked at. */
  function CondaRoots(home: string): seq<string> {
    [PathJoin(home, "anaconda3", Posix), PathJoin(home, "miniconda3", Posix), "/opt/anaconda3", "/opt/miniconda3"]
  }

  /** The entries of an `envs` folder, as paths. */
  function EnvPaths(envs: string, names: seq<string>): (r: seq<string>)
    ensures |r| == |names|
    ensures forall i :: 0 <= i < |r| ==> r[i] == PathJoin(envs, names[i], Posix)
  {
    seq(|names|, i requires 0 <= i < |names| => PathJoin(envs, names[i], Posix))
  }

  /** The environments of one Conda folder: an entry per name listed in its `envs` folder, or nothing when that is missing. */
  function EnvCandidates(fs: FileSystem, envs: string, listdir: string -> seq<string>): (r: seq<Candidate>)
    ensures |r| == (if Exists(fs, envs, Posix) then |listdir(envs)| else 0)
    ensures forall i :: 0 <= i < |r| ==> r[i] == Candidate(PathJoin(envs, listdir(envs)[i], Posix), "Conda环境")
  {
    if Exists(fs, envs, Posix) then Tagged(EnvPaths(envs, listdir(envs)), "Conda环境") else []
  }

  /** One Conda folder: nothing when it is missing, else itself followed by the entries of its `envs` folder. */
  function RootCandidates(fs: FileSystem, root: string, listdir: string -> seq<string>): (r: seq<Candidate>)
    ensures r != [] <==> Exists(fs, root, Posix)
    ensures r != [] ==> r[0] == Candidate(root, "Conda")
    ensures r != [] ==> r[1..] == EnvCandidates(fs, PathJoin(root, "envs", Posix), listdir)
  {
    if !Exists(fs, root, Posix) then []
    else [Candidate(root, "Conda")] + EnvCandidates(fs, PathJoin(root, "envs", Posix), listdir)
  }

  /** A Conda folder's candidates are the folder itself, first, and then environments only. */
  lemma RootCandidateLabel(fs: FileSystem, root: string, listdir: string -> seq<string>, i: int)
    requires 0 <= i < |RootCandidates(fs, root, listdir)|
    ensures var c := RootCandidates(fs, root, listdir)[i];
      (c.source == "Conda" || c.source == "Conda环境") && (c.source == "Conda" ==> c.path == root && Exists(fs, root, Posix))
  {
  }

  /** `_check_conda_envs`: the Conda folders in order, each with its environments. */
  function CondaCandidates(fs: FileSystem, roots: seq<string>, listdir: string -> seq<string>): (r: seq<Candidate>)
    ensures forall c :: c in r <==> exists k :: 0 <= k < |roots| && c in RootCandidates(fs, roots[k], listdir)
    decreases |roots|
  {
    if |roots| == 0 then []
    else
      var rest := CondaCandidates(fs, roots[1..], listdir);
      assert forall k :: 1 <= k < |roots| ==> roots[k] == roots[1..][k - 1];
      RootCandidates(fs, roots[0], listdir) + rest
  }

  /** Every candidate is labelled as a Conda folder or a Conda environment. */
  predicate CondaLabelled(cs: seq<Candidate>) {
    forall i :: 0 <= i < |cs| ==> cs[i].source == "Conda" || cs[i].source == "Conda环境"
  }

  /** Every candidate labelled as a Conda folder is one of `roots` and exists. */
  predicate FoldersAmong(fs: FileSystem, cs: seq<Candidate>, roots: seq<string>) {
    forall i :: 0 <= i < |cs| && cs[i].source == "Conda" ==> cs[i].path in roots && Exists(fs, cs[i].path, Posix)
  }

  /** Labels survive concatenation. */
  lemma ConcatLabelled(here: seq<Candidate>, rest: seq<Candidate>)
    requires CondaLabelled(here) && CondaLabelled(rest)
    ensures CondaLabelled(here + rest)
  {
    var r := here + rest;
    forall i | 0 <= i < |r|
      ensures r[i].source == "Conda" || r[i].source == "Conda环境"
    {
      if i >= |here| {
        assert r[i] == rest[i - |here|];
      }
    }
  }

  /** Folder entries from the first root and from the remaining roots are all among the roots. */
  lemma ConcatFolders(fs: FileSystem, here: seq<Candidate>, rest: seq<Candidate>, roots: seq<string>)
    requires |roots| > 0
    requires FoldersAmong(fs, here, roots[..1]) && FoldersAmong(fs, rest, roots[1..])
    ensures FoldersAmong(fs, here + rest, roots)
  {
    var r := here + rest;
    forall i | 0 <= i < |r| && r[i].source == "Conda"
      ensures r[i].path in roots && Exists(fs, r[i].path, Posix)
    {
      if i < |here| {
        assert r[i] == here[i];
        assert roots[..1][0] == roots[0];
      } else {
        var c := rest[i - |here|];
        assert r[i] == c;
        var j :| 0 <= j < |roots[1..]| && roots[1..][j] == c.path;
        assert roots[j + 1] == c.path;
      }
    }
  }

  /** One folder's candidates, stated through the two predicates. */
  lemma RootCandidatesShape(fs: FileSystem, root: string, listdir: string -> seq<string>)
    ensures CondaLabelled(RootCandidates(fs, root, listdir))
    ensures FoldersAmong(fs, RootCandidates(fs, root, listdir), [root])
  {
    var here := RootCandidates(fs, root, listdir);
    forall i | 0 <= i < |here|
      ensures here[i].source == "Conda" || here[i].source == "Conda环境"
      ensures here[i].source == "Conda" ==> here[i].path in [root] && Exists(fs, here[i].path, Posix)
    {
      RootCandidateLabel(fs, root, listdir, i);
    }
  }

  /** Every Conda candidate is labelled as a folder or an environment. */
  lemma {:induction false} CondaCandidatesLabelled(fs: FileSystem, roots: seq<string>, listdir: string -> seq<string>)
    ensures CondaLabelled(CondaCandidates(fs, roots, listdir))
    decreases |roots|
  {
    if |roots| > 0 {
      CondaCandidatesLabelled(fs, roots[1..], listdir);
      RootCandidatesShape(fs, roots[0], listdir);
      ConcatLabelled(RootCandidates(fs, roots[0], listdir), CondaCandidates(fs, roots[1..], listdir));
    }
  }

  /** Every Conda candidate labelled as a folder is one of the roots, and that root exists. */
  lemma {:induction false} CondaFoldersAreRoots(fs: FileSystem, roots: seq<string>, listdir: string -> seq<string>)
    ensures FoldersAmong(fs, CondaCandidates(fs, roots, listdir), roots)
    decreases |roots|
  {
    if |roots| > 0 {
      CondaFoldersAreRoots(fs, roots[1..], listdir);
      RootCandidatesShape(fs, roots[0], listdir);
      assert [roots[0]] == roots[..1];
      ConcatFolders(fs, RootCandidates(fs, roots[0], listdir), CondaCandidates(fs, roots[1..], listdir), roots);
    }
  }

  /** Every existing Conda folder is itself a candidate. */
  lemma {:induction false} CondaCandidatesCoverRoots(fs: FileSystem, roots: seq<string>, listdir: string -> seq<string>)
    ensures forall k :: 0 <= k < |roots| && Exists(fs, roots[k], Posix) ==>
      Candidate(roots[k], "Conda") in CondaCandidates(fs, roots, listdir)
    decreases |roots|
  {
    if |roots| > 0 {
      var here := RootCandidates(fs, roots[0], listdir);
      var rest := CondaCandidates(fs, roots[1..], listdir);
      CondaCandidatesCoverRoots(fs, roots[1..], listdir);
      forall k | 0 <= k < |roots| && Exists(fs, roots[k], Posix)
        ensures Candidate(roots[k], "Conda") in here + rest
      {
        if k == 0 {
          assert (here + rest)[0] == here[0];
        } else {
          assert roots[k] == roots[1..][k - 1];
          assert Candidate(roots[k], "Conda") in rest;
        }
      }
    }
  }

  /** `detect_installations`: standard locations, the virtual-environment walk, then Conda. */
  function PythonCandidates(fs: FileSystem, scan: PythonScan): (r: seq<Candidate>)
    ensures forall c :: c in r <==>
      || (c in scan.standard && Exists(fs, c.path, Posix))
      || c in scan.walked
      || exists k :: 0 <= k < |CondaRoots(scan.home)| && c in RootCandidates(fs, CondaRoots(scan.home)[k], scan.listdir)
    ensures Existing(fs, scan.standard, Posix) <= r
  {
    Existing(fs, scan.standard, Posix)
    + scan.walked
    + CondaCandidates(fs, CondaRoots(scan.home), scan.listdir)
  }

  function PythonFound(host: Host, cands: seq<Candidate>): (r: seq<Option<Record>>)
    ensures |r| == |cands|
    ensures forall i :: 0 <= i < |cands| ==> r[i] == PythonRecord(host, cands[i])
  {
    seq(|cands|, i requires 0 <= i < |cands| => PythonRecord(host, cands[i]))
  }

  // ---------------------------------------------------------------------
  // environment files

  /** The files both cleaners rewrite. */
  function EnvFiles(home: string): seq<string> {
    [PathJoin(home, ".bashrc", Posix), PathJoin(home, ".bash_profile", Posix), PathJoin(home, ".zshrc", Posix),
     PathJoin(home, ".profile", Posix), "/etc/environment"]
  }

  /** The Python cleaner matches case-sensitively, so a line written in lower case is always kept. */
  lemma LowerCaseLineKeptByPythonClean(line: string)
    ensures KeepsLine(PythonEnvKeywords, false)(Lower(line))
  {
    forall k | 0 <= k < |PythonEnvKeywords|
      ensures !Contains(Lower(line), PythonEnvKeywords[k])
    {
      assert IsAsciiUpper(PythonEnvKeywords[k][0]);
      LowerNeverContainsUpper(line, PythonEnvKeywords[k]);
    }
  }

  /**
   * The backup is taken afresh by every cleaner: after the Python and then
   * the Java clean, `<file>.bak` holds the file as the first clean left it,
   * not as it was.
   */
  lemma SecondBackupHoldsFirstClean(fs: FileSystem, f: string, keep1: string -> bool, keep2: string -> bool, denied: set<string>)
    requires f !in denied
    requires Normpath(f, Posix) in fs && fs[Normpath(f, Posix)].File?
    requires BackupPath(f) != Normpath(f, Posix)
    ensures var q := Normpath(f, Posix);
      var twice := RewriteFile(RewriteFile(fs, f, keep1, true, denied), f, keep2, true, denied);
      && twice[BackupPath(f)].lines == Filter(fs[q].lines, keep1)
      && twice[q].lines == Filter(Filter(fs[q].lines, keep1), keep2)
  {
    var q := Normpath(f, Posix);
    var once := RewriteFile(fs, f, keep1, true, denied);
    ResolveNonLink(fs, f, Posix, |fs|);
    assert RealPath(fs, f, Posix) == q;
    assert IsFile(fs, f, Posix);
    assert once[q].File?;
    ResolveNonLink(once, f, Posix, |once|);
    assert RealPath(once, f, Posix) == q;
    assert IsFile(once, f, Posix);
  }

  // ---------------------------------------------------------------------
  // Python: the uninstaller

  /** The removal loop leaves system interpreters to the package manager. */
  predicate IsSystemPython(r: Record) {
    r.installType == SystemPython
  }

  class PythonUninstaller {
    var installations: seq<Record>

    predicate Valid()
      reads this
    {
      DistinctPaths(installations)
    }

    constructor()
      ensures installations == [] && Valid()
    {
      installations := [];
    }

    /** `_validate_python_path`: append the candidate's record unless invalid or already listed. */
    method ValidatePythonPath(host: Host, path: string, source: string)
      requires Valid()
      modifies this
      ensures Valid()
      ensures installations == InsertOpt(old(installations), PythonRecord(host, Candidate(path, source)))
    {
      var p := path;
      if IsLink(host.fs, p, Posix) {
        p := RealPath(host.fs, p, Posix);
      }
      if IsExecutableFile(host.fs, p, Posix) {
        var version := PythonVersion(host.run(p));
        var installType := PythonInstallType(p);
        var present := FindPath(installations, p);
        if !present {
          installations := installations + [Record(p, version, installType, source, Some(p))];
        }
      } else if IsDir(host.fs, p, Posix) {
        var pythonBin := PythonBin(p);
        if Exists(host.fs, pythonBin, Posix) {
          var version := PythonVersion(host.run(pythonBin));
          var installType := PythonInstallType(p);
          var present := FindPath(installations, p);
          if !present {
            installations := installations + [Record(p, version, installType, source, Some(pythonBin))];
          }
        }
      }
    }

    /** The loop of `detect_installations`: every candidate is checked in order. */
    method ValidatePythonPaths(host: Host, cands: seq<Candidate>)
      requires Valid()
      modifies this
      ensures Valid()
      ensures installations == Discover(old(installations), PythonFound(host, cands))
    {
      var outcomes := PythonFound(host, cands);
      var i := 0;
      while i < |cands|
        invariant 0 <= i <= |cands|
        invariant Valid()
        invariant installations == Discover(old(installations), outcomes[..i])
      {
        ValidatePythonPath(host, cands[i].path, cands[i].source);
        assert outcomes[i] == PythonRecord(host, Candidate(cands[i].path, cands[i].source));
        DiscoverSnoc(old(installations), outcomes, i);
        i := i + 1;
      }
      assert outcomes[..i] == outcomes;
    }

    /** `detect_installations`: the candidate lists in scan order. */
    method DetectInstallations(host: Host, scan: PythonScan) returns (found: seq<Record>)
      requires Valid()
      modifies this
      ensures Valid()
      ensures installations == Discover(old(installations), PythonFound(host, PythonCandidates(host.fs, scan)))
      ensures found == installations
    {
      ValidatePythonPaths(host, PythonCandidates(host.fs, scan));
      found := installations;
    }

    /** `verify_uninstall`: success exactly when the new scan finds nothing; otherwise the old inventory is put back. */
    method VerifyUninstall(host: Host, scan: PythonScan) returns (ok: bool)
      requires Valid()
      modifies this
      ensures Valid()
      ensures ok <==> forall i :: 0 <= i < |PythonCandidates(host.fs, scan)| ==> PythonRecord(host, PythonCandidates(host.fs, scan)[i]).None?
      ensures ok ==> installations == []
      ensures !ok ==> installations == old(installations)
    {
      var original := installations;
      installations := [];
      var _ := DetectInstallations(host, scan);
      DiscoverEmpty(PythonFound(host, PythonCandidates(host.fs, scan)));
      if installations == [] {
        return true;
      }
      installations := original;
      return false;
    }

    /**
     * `_remove_installation_files`: system interpreters are skipped; a file is
     * unlinked, a directory removed as a tree, anything else left alone, and
     * failures are skipped.
     */
    method RemoveInstallationFiles(fs: FileSystem, denied: set<string>) returns (fs': FileSystem)
      ensures fs' == RemovePaths(fs, TargetPaths(installations, IsSystemPython), Posix, denied, true)
    {
      fs' := fs;
      var i := 0;
      while i < |installations|
        invariant 0 <= i <= |installations|
        invariant RemovePaths(fs', TargetPaths(installations[i..], IsSystemPython), Posix, denied, true)
               == RemovePaths(fs, TargetPaths(installations, IsSystemPython), Posix, denied, true)
      {
        assert installations[i..][1..] == installations[i + 1..];
        var install := installations[i];
        if install.installType != SystemPython {
          var p := install.path;
          if IsFile(fs', p, Posix) {
            fs' := RemoveEntry(fs', p, Posix, denied);
          } else if IsDir(fs', p, Posix) {
            fs' := RemoveTree(fs', p, Posix, denied);
          }
        }
        i := i + 1;
      }
    }

    /** `_clean_environment`: each environment file is backed up, then loses every line naming PYTHON, CONDA or ANACONDA (exact case). */
    method CleanEnvironment(fs: FileSystem, home: string, denied: set<string>) returns (fs': FileSystem)
      ensures fs' == CleanFiles(fs, EnvFiles(home), KeepsLine(PythonEnvKeywords, false), true, denied)
    {
      fs' := CleanFilesLoop(fs, EnvFiles(home), PythonEnvKeywords, false, true, denied);
    }

    /** `uninstall`: nothing happens without installations; otherwise the files go first, then the environment files are cleaned. */
    method Uninstall(fs: FileSystem, home: string, denied: set<string>) returns (fs': FileSystem)
      ensures installations == [] ==> fs' == fs
      ensures installations != [] ==>
        fs' == CleanFiles(RemovePaths(fs, TargetPaths(installations, IsSystemPython), Posix, denied, true),
                          EnvFiles(home), KeepsLine(PythonEnvKeywords, false), true, denied)
    {
      if installations == [] {
        return fs;
      }
      var removed := RemoveInstallationFiles(fs, denied);
      fs' := CleanEnvironment(removed, home, denied);
    }
  }

  // ---------------------------------------------------------------------
  // Java: validation

  function JavaBin(home: string, name: string): string {
    PathJoin(PathJoin(home, "bin", Posix), name, Posix)
  }

  /**
   * What `_validate_java_path` would record for a candidate, before the
   * duplicate check: a directory with `bin/java`, a JDK when it also has
   * `bin/javac`.
   */
  function JavaRecord(host: Host, c: Candidate): (r: Option<Record>)
    ensures r.Some? <==> IsDir(host.fs, c.path, Posix) && Exists(host.fs, JavaBin(c.path, "java"), Posix)
    ensures r.Some? ==>
      && r.value.path == c.path
      && r.value.source == c.source
      && r.value.executable.None?
      && (r.value.installType == "JDK" || r.value.installType == "JRE")
      && (r.value.installType == "JDK" <==> Exists(host.fs, JavaBin(c.path, "javac"), Posix))
      && r.value.version == JavaVersion(host.run(JavaBin(c.path, "java")))
  {
    if IsDir(host.fs, c.path, Posix) && Exists(host.fs, JavaBin(c.path, "java"), Posix) then
      var installType := if Exists(host.fs, JavaBin(c.path, "javac"), Posix) then "JDK" else "JRE";
      Some(Record(c.path, JavaVersion(host.run(JavaBin(c.path, "java"))), installType, c.source, None))
    else None
  }

  // ---------------------------------------------------------------------
  // Java: candidates

  /** The home each non-empty line of `update-alternatives --list java` names: two levels up. */
  function AlternativeHomes(lines: seq<string>): (r: seq<string>)
    ensures |r| <= |lines|
    ensures forall h :: h in r <==> exists i :: 0 <= i < |lines| && lines[i] != "" && h == Dirname(Dirname(lines[i], Posix), Posix)
    decreases |lines|
  {
    if |lines| == 0 then []
    else
      var rest := AlternativeHomes(lines[1..]);
      assert forall i :: 1 <= i < |lines| ==> lines[i] == lines[1..][i - 1];
      (if lines[0] == "" then [] else [Dirname(Dirname(lines[0], Posix), Posix)]) + rest
  }

  /** `_check_alternatives`: a failure to run the command offers nothing. */
  function AlternativesCandidates(out: ProcOutput): (r: seq<Candidate>)
    ensures forall c :: c in r <==>
      out.Completed? && c.source == "alternatives系统" && c.path in AlternativeHomes(SplitLines(out.stdout))
  {
    match out
    case Raised(_) => []
    case Completed(stdout, _) => Tagged(AlternativeHomes(SplitLines(stdout)), "alternatives系统")
  }

  /** A line `<home>/bin/java` leads back to `<home>`. */
  lemma AlternativeLineNamesHome(home: string)
    requires |home| > 0 && home[|home| - 1] != '/'
    ensures AlternativeHomes([home + "/bin/java"]) == [home]
  {
    var bin := home + "/bin";
    assert home + "/bin/java" == bin + ['/'] + "java";
    assert bin == home + ['/'] + "bin";
    DirnameOfChild(bin, "java", Posix);
    DirnameOfChild(home, "bin", Posix);
  }

  /** For each PATH entry that holds a `java` entry, the home two levels above that `java`. */
  function PathHomes(fs: FileSystem, segs: seq<string>): (r: seq<string>)
    ensures |r| <= |segs|
    ensures forall h :: h in r <==> exists i :: 0 <= i < |segs| && Exists(fs, PathJoin(segs[i], "java", Posix), Posix)
                                               && h == Dirname(Dirname(PathJoin(segs[i], "java", Posix), Posix), Posix)
    decreases |segs|
  {
    if |segs| == 0 then []
    else
      var java := PathJoin(segs[0], "java", Posix);
      var rest := PathHomes(fs, segs[1..]);
      assert forall i :: 1 <= i < |segs| ==> segs[i] == segs[1..][i - 1];
      assert forall h :: h in rest <==> exists i :: 1 <= i < |segs| && Exists(fs, PathJoin(segs[i], "java", Posix), Posix)
                                                  && h == Dirname(Dirname(PathJoin(segs[i], "java", Posix), Posix), Posix);
      (if Exists(fs, java, Posix) then [Dirname(Dirname(java, Posix), Posix)] else []) + rest
  }

  /** A PATH entry without a trailing separator leads to its parent directory. */
  lemma PathEntryNamesParent(seg: string)
    requires |seg| > 0 && seg[|seg| - 1] != '/'
    ensures Dirname(Dirname(PathJoin(seg, "java", Posix), Posix), Posix) == Dirname(seg, Posix)
  {
    DirnameOfChild(seg, "java", Posix);
  }

  /** `_check_environment_paths`: PATH entries naming Java, in PATH order. */
  function PathCandidates(fs: FileSystem, pathVar: string): (r: seq<Candidate>)
    ensures forall c :: c in r <==>
      (c.source == "PATH环境变量" &&
       exists seg :: seg in Split(pathVar, ':') && seg != "" && ContainsAny(Lower(seg), JavaKeywords)
         && Exists(fs, PathJoin(seg, "java", Posix), Posix)
         && c.path == Dirname(Dirname(PathJoin(seg, "java", Posix), Posix), Posix))
  {
    Tagged(PathHomes(fs, Mentioning(pathVar, ':', JavaKeywords)), "PATH环境变量")
  }

  /** Where the Java scans look. */
  datatype JavaScan = JavaScan(
    standard: seq<Candidate>,  // glob matches of the standard patterns
    alternatives: ProcOutput,  // `update-alternatives --list java`
    pathVar: string)           // `PATH`

  /** `find_java_installations`: standard locations, alternatives, then PATH. */
  function JavaCandidates(fs: FileSystem, scan: JavaScan): (r: seq<Candidate>)
    ensures forall c :: c in r <==>
      || (c in scan.standard && Exists(fs, c.path, Posix))
      || c in AlternativesCandidates(scan.alternatives)
      || c in PathCandidates(fs, scan.pathVar)
    ensures Existing(fs, scan.standard, Posix) <= r
  {
    Existing(fs, scan.standard, Posix)
    + AlternativesCandidates(scan.alternatives)
    + PathCandidates(fs, scan.pathVar)
  }

  function JavaFound(host: Host, cands: seq<Candidate>): (r: seq<Option<Record>>)
    ensures |r| == |cands|
    ensures forall i :: 0 <= i < |cands| ==> r[i] == JavaRecord(host, cands[i])
  {
    seq(|cands|, i requires 0 <= i < |cands| => JavaRecord(host, cands[i]))
  }

  // ---------------------------------------------------------------------
  // Java: the uninstaller

  /** The removal loop leaves whatever the system-Java pattern found to the package manager. */
  predicate FromSystemJava(r: Record) {
    r.source == SystemJava
  }

  class JavaUninstaller {
    var javaInstallations: seq<Record>

    predicate Valid()
      reads this
    {
      DistinctPaths(javaInstallations)
    }

    constructor()
      ensures javaInstallations == [] && Valid()
    {
      javaInstallations := [];
    }

    /** `_validate_java_path`: append the candidate's record unless invalid or already listed. */
    method ValidateJavaPath(host: Host, path: string, source: string)
      requires Valid()
      modifies this
      ensures Valid()
      ensures javaInstallations == InsertOpt(old(javaInstallations), JavaRecord(host, Candidate(path, source)))
    {
      if IsDir(host.fs, path, Posix) {
        var javaBin := JavaBin(path, "java");
        if Exists(host.fs, javaBin, Posix) {
          var version := JavaVersion(host.run(javaBin));
          var installType := if Exists(host.fs, JavaBin(path, "javac"), Posix) then "JDK" else "JRE";
          var present := FindPath(javaInstallations, path);
          if !present {
            javaInstallations := javaInstallations + [Record(path, version, installType, source, None)];
          }
        }
      }
    }

    /** The loop of `find_java_installations`: every candidate is checked in order. */
    method ValidateJavaPaths(host: Host, cands: seq<Candidate>)
      requires Valid()
      modifies this
      ensures Valid()
      ensures javaInstallations == Discover(old(javaInstallations), JavaFound(host, cands))
    {
      var outcomes := JavaFound(host, cands);
      var i := 0;
      while i < |cands|
        invariant 0 <= i <= |cands|
        invariant Valid()
        invariant javaInstallations == Discover(old(javaInstallations), outcomes[..i])
      {
        ValidateJavaPath(host, cands[i].path, cands[i].source);
        assert outcomes[i] == JavaRecord(host, Candidate(cands[i].path, cands[i].source));
        DiscoverSnoc(old(javaInstallations), outcomes, i);
        i := i + 1;
      }
      assert outcomes[..i] == outcomes;
    }

    /** `find_java_installations`: the candidate lists in scan order. */
    method FindJavaInstallations(host: Host, scan: JavaScan) returns (found: seq<Record>)
      requires Valid()
      modifies this
      ensures Valid()
      ensures javaInstallations == Discover(old(javaInstallations), JavaFound(host, JavaCandidates(host.fs, scan)))
      ensures found == javaInstallations
    {
      ValidateJavaPaths(host, JavaCandidates(host.fs, scan));
      found := javaInstallations;
    }

    /** `verify_uninstall`: success exactly when the new scan finds nothing; otherwise the old inventory is put back. */
    method VerifyUninstall(host: Host, scan: JavaScan) returns (ok: bool)
      requires Valid()
      modifies this
      ensures Valid()
      ensures ok <==> forall i :: 0 <= i < |JavaCandidates(host.fs, scan)| ==> JavaRecord(host, JavaCandidates(host.fs, scan)[i]).None?
      ensures ok ==> javaInstallations == []
      ensures !ok ==> javaInstallations == old(javaInstallations)
    {
      var original := javaInstallations;
      javaInstallations := [];
      var remaining := FindJavaInstallations(host, scan);
      DiscoverEmpty(JavaFound(host, JavaCandidates(host.fs, scan)));
      if remaining == [] {
        return true;
      }
      javaInstallations := original;
      return false;
    }

    /** `_remove_java_files`: records from the system location are skipped; each other existing path is removed as a tree. */
    method RemoveJavaFiles(fs: FileSystem, denied: set<string>) returns (fs': FileSystem)
      ensures fs' == RemovePaths(fs, TargetPaths(javaInstallations, FromSystemJava), Posix, denied, false)
    {
      fs' := fs;
      var i := 0;
      while i < |javaInstallations|
        invariant 0 <= i <= |javaInstallations|
        invariant RemovePaths(fs', TargetPaths(javaInstallations[i..], FromSystemJava), Posix, denied, false)
               == RemovePaths(fs, TargetPaths(javaInstallations, FromSystemJava), Posix, denied, false)
      {
        assert javaInstallations[i..][1..] == javaInstallations[i + 1..];
        var install := javaInstallations[i];
        if install.source != SystemJava {
          if Exists(fs', install.path, Posix) {
            fs' := RemoveTree(fs', install.path, Posix, denied);
          }
        }
        i := i + 1;
      }
    }

    /** `_clean_environment`: each environment file is backed up, then loses every line naming Java, a JDK or a JRE (any case). */
    method CleanEnvironment(fs: FileSystem, home: string, denied: set<string>) returns (fs': FileSystem)
      ensures fs' == CleanFiles(fs, EnvFiles(home), KeepsLine(JavaKeywords, true), true, denied)
    {
      fs' := CleanFilesLoop(fs, EnvFiles(home), JavaKeywords, true, true, denied);
    }

    /**
     * `uninstall_java`: nothing happens without installations; otherwise the
     * homes go first, then the environment files are cleaned. The alternatives
     * entries it then removes live outside the filesystem model.
     */
    method UninstallJava(fs: FileSystem, home: string, denied: set<string>) returns (fs': FileSystem)
      ensures javaInstallations == [] ==> fs' == fs
      ensures javaInstallations != [] ==>
        fs' == CleanFiles(RemovePaths(fs, TargetPaths(javaInstallations, FromSystemJava), Posix, denied, false),
                          EnvFiles(home), KeepsLine(JavaKeywords, true), true, denied)
    {
      if javaInstallations == [] {
        return fs;
      }
      var removed := RemoveJavaFiles(fs, denied);
      fs' := CleanEnvironment(removed, home, denied);
    }
  }
}
