/**
 * How the Windows and macOS Java scans turn a candidate path into the home
 * directory they record: normalise it and, when it names a `bin` directory,
 * take its parent. Duplicates are then detected by comparing the normalised
 * stored paths with the new home.
 */
module JavaPaths {
  import opened Wrappers
  import opened Text
  import opened Paths
  import opened Discovery

  /** `os.path.basename(p).lower() == "bin"`. */
  predicate IsBinDir(p: string, fl: Flavour) {
    Lower(Basename(p, fl)) == "bin"
  }

  /** The home as the scan computes it from a normalised path: the parent of a `bin` directory, otherwise the path. */
  function StripBinAsWritten(n: string, fl: Flavour): (r: string)
    ensures |r| <= |n| && r == n[..|r|]
    ensures !IsBinDir(n, fl) ==> r == n
    ensures IsBinDir(n, fl) ==> |r| < |n|
  {
    DirnameBasename(n, fl);
    if IsBinDir(n, fl) then Dirname(n, fl) else n
  }

  /** The duplicate check as written: skip when some stored path normalises to the new home. */
  function InsertJavaAsWritten(recs: seq<Record>, rec: Record, fl: Flavour): (r: seq<Record>)
    ensures r == recs || r == recs + [rec]
    ensures r == recs <==> HasNormalisedPath(recs, rec.path, fl)
  {
    if HasNormalisedPath(recs, rec.path, fl) then recs else recs + [rec]
  }

  /**
   * The candidate `bin` (a relative PATH entry or registry value) becomes the
   * home "", which normalises to "." and so never matches its own stored copy:
   * checking it twice stores two records with the same path.
   */
  lemma BareBinStoredTwice(rec: Record)
    requires rec.path == StripBinAsWritten(Normpath("bin", Nt), Nt)
    ensures rec.path == ""
    ensures var twice := InsertJavaAsWritten(InsertJavaAsWritten([], rec, Nt), rec, Nt);
      |twice| == 2 && twice[0].path == twice[1].path && !DistinctPaths(twice)
  {
    BareBinHomes();
    EmptyHomeStoredTwice(rec);
  }

  /** A record whose path is "" is never found by the normalised lookup, not even in a list holding only itself. */
  lemma EmptyHomeStoredTwice(rec: Record)
    requires rec.path == ""
    ensures var twice := InsertJavaAsWritten(InsertJavaAsWritten([], rec, Nt), rec, Nt);
      |twice| == 2 && twice[0].path == twice[1].path && !DistinctPaths(twice)
  {
    var once := InsertJavaAsWritten([], rec, Nt);
    assert once == [rec];
    EmptyNormalisesToDot(once[0].path);
    assert Normpath(once[0].path, Nt) != rec.path;
    var twice := InsertJavaAsWritten(once, rec, Nt);
    assert twice == [rec, rec];
  }

  lemma EmptyNormalisesToDot(p: string)
    requires p == ""
    ensures Normpath(p, Nt) == "."
  {
    assert Split(p, '\\') == [""];
  }

  /** The bare `bin` candidate: its parent is "", which normalises to ".". */
  lemma BareBinHomes()
    ensures StripBinAsWritten(Normpath("bin", Nt), Nt) == ""
    ensures StripBin(Normpath("bin", Nt), Nt) == "."
    ensures Normpath("", Nt) == "." && Normpath(".", Nt) == "."
  {
    BinIsOwnBinDir();
    EmptyNormalisesToDot("");
    SplitNoSep(".", '\\');
    assert Normpath(".", Nt) == ".";
  }

  lemma BinIsOwnBinDir()
    ensures Normpath("bin", Nt) == "bin"
    ensures IsBinDir("bin", Nt) && Dirname("bin", Nt) == ""
  {
    SplitNoSep("bin", '\\');
    assert Normpath("bin", Nt) == "bin";
    assert Basename("bin", Nt) == "bin";
    assert Lower("bin") == "bin";
  }

  /** The home with the parent normalised again, so that it is always a normal path. */
  function StripBin(n: string, fl: Flavour): (r: string)
    ensures IsNormal(n, fl) ==> IsNormal(r, fl)
    ensures !IsBinDir(n, fl) ==> r == n
  {
    if IsBinDir(n, fl) then
      NormpathIdempotent(Dirname(n, fl), fl);
      Normpath(Dirname(n, fl), fl)
    else n
  }

  /**
   * Normalising the parent again changes the home only for a bare `bin`,
   * whose parent "" the scan as written stores unnormalised.
   */
  lemma StripBinOnlyChange(n: string, fl: Flavour)
    requires IsNormal(n, fl)
    ensures StripBin(n, fl) != StripBinAsWritten(n, fl) ==> StripBinAsWritten(n, fl) == ""
  {
    NormalParent(n, fl);
  }

  /**
   * When every stored home and the new one are normal paths, the duplicate
   * check as written inserts exactly as the path-keyed insert does.
   */
  lemma InsertJavaAgrees(recs: seq<Record>, rec: Record, fl: Flavour)
    requires forall i :: 0 <= i < |recs| ==> IsNormal(recs[i].path, fl)
    ensures InsertJavaAsWritten(recs, rec, fl) == InsertOpt(recs, Some(rec))
  {
    NormalisedLookup(recs, rec.path, fl);
  }

  /** With the parent normalised, the bare `bin` candidate becomes "." and a second check finds it stored. */
  lemma BareBinStoredOnce(rec: Record)
    requires rec.path == StripBin(Normpath("bin", Nt), Nt)
    ensures rec.path == "."
    ensures InsertJavaAsWritten(InsertJavaAsWritten([], rec, Nt), rec, Nt) == [rec]
  {
    BareBinHomes();
    var once := InsertJavaAsWritten([], rec, Nt);
    assert once == [rec];
    assert Normpath(once[0].path, Nt) == rec.path;
  }

  /** The Windows scan: normalise, then strip `bin`. */
  function WindowsJavaHome(p: string): (r: string)
    ensures IsNormal(r, Nt)
  {
    NormpathIdempotent(p, Nt);
    StripBin(Normpath(p, Nt), Nt)
  }

  /** The macOS scan: normalise, resolve a link, then strip `bin`. */
  function MacJavaHome(fs: FileSystem, p: string): (r: string)
    ensures IsNormal(r, Posix)
  {
    var n := Normpath(p, Posix);
    NormpathIdempotent(p, Posix);
    StripBin(if IsLink(fs, n, Posix) then RealPath(fs, n, Posix) else n, Posix)
  }

  /** The Windows home is the home as written, except where that is "". */
  lemma WindowsJavaHomeAsWritten(p: string)
    ensures var w := StripBinAsWritten(Normpath(p, Nt), Nt);
      w != "" ==> WindowsJavaHome(p) == w
  {
    NormpathIdempotent(p, Nt);
    StripBinOnlyChange(Normpath(p, Nt), Nt);
  }

  /** The macOS home is the home as written (after the link step), except where that is "". */
  lemma MacJavaHomeAsWritten(fs: FileSystem, p: string)
    ensures var n := Normpath(p, Posix);
      var w := StripBinAsWritten(if IsLink(fs, n, Posix) then RealPath(fs, n, Posix) else n, Posix);
      w != "" ==> MacJavaHome(fs, p) == w
  {
    var n := Normpath(p, Posix);
    NormpathIdempotent(p, Posix);
    RealPathNormal(fs, n, Posix, |fs|);
    StripBinOnlyChange(if IsLink(fs, n, Posix) then RealPath(fs, n, Posix) else n, Posix);
  }

  /**
   * Homebrew's `<prefix>/opt/<name>` links to `../Cellar/<name>/<version>`;
   * the scan records the keg in the Cellar.
   */
  lemma HomebrewOptHome(fs: FileSystem, prefix: string, name: string, version: string)
    requires IsNormal(prefix, Posix) && prefix != "." && prefix != "/"
    requires Plain([name, version], Posix) && Lower(version) != "bin"
    requires prefix + "/opt/" + name in fs
    requires fs[prefix + "/opt/" + name] == Link("../Cellar/" + name + "/" + version)
    requires !IsLink(fs, prefix + "/Cellar/" + name + "/" + version, Posix)
    ensures MacJavaHome(fs, prefix + "/opt/" + name) == prefix + "/Cellar/" + name + "/" + version
  {
    var cs := ["Cellar", name, version];
    HomebrewPaths(prefix, name, version);
    ParentRelativeLink(fs, prefix, "opt", name, cs, Posix);
    HomebrewKegNotBin(prefix, name, version);
  }

  /** The link, its target and the keg spelled as components. */
  lemma HomebrewPaths(prefix: string, name: string, version: string)
    requires IsNormal(prefix, Posix) && prefix != "." && prefix != "/"
    requires Plain([name, version], Posix)
    ensures Plain(["opt", name], Posix) && Plain(["Cellar", name, version], Posix)
    ensures prefix + "/opt/" + name == prefix + "/" + "opt" + "/" + name
    ensures IsNormal(prefix + "/opt/" + name, Posix)
    ensures "../Cellar/" + name + "/" + version == ".." + "/" + Join(["Cellar", name, version], '/')
    ensures prefix + "/Cellar/" + name + "/" + version == prefix + "/" + Join(["Cellar", name, version], '/')
  {
    PlainCellar(name, version);
    CellarSpelling(prefix, name, version);
    OptLinkNormal(prefix, name);
  }

  lemma CellarSpelling(prefix: string, name: string, version: string)
    ensures "../Cellar/" + name + "/" + version == ".." + "/" + Join(["Cellar", name, version], '/')
    ensures prefix + "/Cellar/" + name + "/" + version == prefix + "/" + Join(["Cellar", name, version], '/')
  {
    CellarJoin(name, version);
  }

  lemma OptLinkNormal(prefix: string, name: string)
    requires IsNormal(prefix, Posix) && prefix != "." && prefix != "/"
    requires name != "" && name != "." && '/' !in name
    ensures prefix + "/opt/" + name == prefix + "/" + "opt" + "/" + name
    ensures IsNormal(prefix + "/opt/" + name, Posix)
  {
    NormalGrandchild(prefix, "opt", name);
    Respell(prefix, "opt", name);
  }

  /** `x + "/a/" + b` spelled one piece at a time. */
  lemma Respell(x: string, a: string, b: string)
    ensures x + ("/" + a + "/") + b == x + "/" + a + "/" + b
  {
  }

  lemma PlainCellar(name: string, version: string)
    requires Plain([name, version], Posix)
    ensures Plain(["opt", name], Posix) && Plain(["Cellar", name, version], Posix)
  {
    assert [name, version][0] == name && [name, version][1] == version;
    assert Sep(Posix) == '/';
  }

  lemma CellarJoin(name: string, version: string)
    ensures Join(["Cellar", name, version], '/') == "Cellar/" + name + "/" + version
  {
    var cs := ["Cellar", name, version];
    assert Join(cs[2..], '/') == version;
    assert Join(cs[1..], '/') == name + "/" + version;
  }

  /** `x/a/b` is normal when `x` is and `a`, `b` are plain components. */
  lemma NormalGrandchild(x: string, a: string, b: string)
    requires IsNormal(x, Posix) && x != "." && x != "/"
    requires a != "" && a != "." && '/' !in a
    requires b != "" && b != "." && '/' !in b
    ensures IsNormal(x + "/" + a, Posix) && IsNormal(x + "/" + a + "/" + b, Posix)
    ensures |x + "/" + a| > 0 && (x + "/" + a)[|x + "/" + a| - 1] != '/'
  {
    assert Sep(Posix) == '/';
    NormalChild(x, a, Posix);
    var y := x + "/" + a;
    assert |y| > 1;
    NormalChild(y, b, Posix);
  }

  /** The keg's last component is its version, which is not `bin`. */
  lemma HomebrewKegNotBin(prefix: string, name: string, version: string)
    requires IsNormal(prefix, Posix) && prefix != "." && prefix != "/"
    requires Plain([name, version], Posix) && Lower(version) != "bin"
    ensures !IsBinDir(prefix + "/Cellar/" + name + "/" + version, Posix)
  {
    assert [name, version][0] == name && [name, version][1] == version;
    NormalGrandchild(prefix, "Cellar", name);
    var parent := prefix + "/Cellar/" + name;
    assert parent == prefix + "/" + "Cellar" + "/" + name;
    assert Sep(Posix) == '/';
    DirnameOfChild(parent, version, Posix);
    assert prefix + "/Cellar/" + name + "/" + version == parent + "/" + version;
  }

  /**
   * A home `x` and its `bin` directory give the same home, so the scan keeps
   * at most one record for the pair.
   */
  lemma BinAndParentAgree(x: string, fl: Flavour)
    requires IsNormal(x, fl) && x != "." && x != [Sep(fl)]
    requires !IsBinDir(x, fl)
    ensures StripBin(Normpath(x + [Sep(fl)] + "bin", fl), fl) == x
    ensures StripBin(Normpath(x, fl), fl) == x
  {
    var c := Sep(fl);
    NormalChild(x, "bin", fl);
    var y := x + [c] + "bin";
    DirnameOfChild(x, "bin", fl);
    assert Lower("bin") == "bin";
    assert IsBinDir(y, fl);
  }
}
