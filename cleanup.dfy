/**
 * What uninstalling does to the machine: the PATH value with the matching
 * entries dropped, shell and environment files rewritten without the lines
 * that mention the runtime, and installation paths deleted one after another
 * where a failed deletion does not stop the rest.
 */
module Cleanup {
  import opened Text
  import opened Paths
  import opened Lists
  import opened Discovery

  // ---------------------------------------------------------------------
  // the Windows Path value

  /** A Path entry the cleaner keeps: not empty, and its lower-case form names none of the keywords. */
  function KeepsEntry(kws: seq<string>): string -> bool {
    (s: string) => s != "" && !ContainsAny(Lower(s), kws)
  }

  /** `';'.join(p for p in value.split(';') if p and not any(kw in p.lower() for kw in kws))`. */
  function CleanPathValue(value: string, kws: seq<string>): string {
    Join(Filter(Split(value, ';'), KeepsEntry(kws)), ';')
  }

  /**
   * The entries of the cleaned value are exactly the kept entries of the old
   * one, in their old order; when none is kept the value becomes empty. No
   * entry left names a keyword.
   */
  lemma CleanPathValueEntries(value: string, kws: seq<string>)
    ensures var kept := Filter(Split(value, ';'), KeepsEntry(kws));
      && (kept == [] ==> CleanPathValue(value, kws) == "")
      && (kept != [] ==> Split(CleanPathValue(value, kws), ';') == kept)
    ensures forall s :: s in Split(CleanPathValue(value, kws), ';') ==> s == "" || !ContainsAny(Lower(s), kws)
  {
    var kept := Filter(Split(value, ';'), KeepsEntry(kws));
    if kept != [] {
      SplitJoin(kept, ';');
    } else {
      assert Split("", ';') == [""];
    }
  }

  /** Cleaning the value a second time changes nothing. */
  lemma CleanPathValueIdempotent(value: string, kws: seq<string>)
    ensures CleanPathValue(CleanPathValue(value, kws), kws) == CleanPathValue(value, kws)
  {
    var kept := Filter(Split(value, ';'), KeepsEntry(kws));
    CleanPathValueEntries(value, kws);
    if kept == [] {
      assert Split("", ';') == [""];
      assert Filter([""], KeepsEntry(kws)) == [];
    } else {
      FilterIdempotent(Split(value, ';'), KeepsEntry(kws));
    }
  }

  // ---------------------------------------------------------------------
  // shell and environment files

  /** A line the cleaner keeps: it names none of the keywords (in its lower-case form when `fold`). */
  function KeepsLine(kws: seq<string>, fold: bool): string -> bool {
    (line: string) => !ContainsAny(if fold then Lower(line) else line, kws)
  }

  /** The loop that builds `new_lines` from the lines it keeps. */
  method FilterLines(lines: seq<string>, kws: seq<string>, fold: bool) returns (newLines: seq<string>)
    ensures newLines == Filter(lines, KeepsLine(kws, fold))
  {
    var keep := KeepsLine(kws, fold);
    newLines := [];
    var i := 0;
    while i < |lines|
      invariant 0 <= i <= |lines|
      invariant newLines == Filter(lines[..i], keep)
    {
      assert lines[..i + 1] == lines[..i] + [lines[i]];
      FilterAppend(lines[..i], [lines[i]], keep);
      assert Filter([lines[i]], keep) == if keep(lines[i]) then [lines[i]] else [];
      if keep(lines[i]) {
        newLines := newLines + [lines[i]];
      }
      i := i + 1;
    }
    assert lines[..i] == lines;
  }

  function BackupPath(f: string): string {
    Normpath(f + ".bak", Posix)
  }

  /**
   * Rewriting one file (following links) with the lines `keep` accepts. With
   * `backup`, the file is first copied to `<file>.bak`. A file that does not
   * exist, is not a regular file, or whose rewrite fails is left alone.
   */
  function RewriteFile(fs: FileSystem, f: string, keep: string -> bool, backup: bool, denied: set<string>): (r: FileSystem)
    ensures var q := RealPath(fs, f, Posix);
      if f in denied || !IsFile(fs, f, Posix) then r == fs
      else
        && q in r && r[q].File? && r[q].executable == fs[q].executable
        && (backup ==> r.Keys == fs.Keys + {BackupPath(f)})
        && (!backup ==> r.Keys == fs.Keys)
        && (backup && BackupPath(f) != q ==> r[BackupPath(f)] == fs[q] && r[q].lines == Filter(fs[q].lines, keep))
        && (!backup ==> r[q].lines == Filter(fs[q].lines, keep))
        && (forall k :: k in fs && k != q && (backup ==> k != BackupPath(f)) ==> r[k] == fs[k])
  {
    var q := RealPath(fs, f, Posix);
    if f in denied || !IsFile(fs, f, Posix) then fs
    else
      assert q in fs && fs[q].File?;
      var copied := if backup then fs[BackupPath(f) := fs[q]] else fs;
      assert q in copied && copied[q] == fs[q];
      assert copied.Keys == if backup then fs.Keys + {BackupPath(f)} else fs.Keys;
      copied[q := File(fs[q].executable, Filter(fs[q].lines, keep))]
  }

  /** Two filesystems with the same entries and the same links, differing at most in file contents. */
  predicate SameLinks(fs: FileSystem, fs': FileSystem) {
    && fs.Keys == fs'.Keys
    && (forall k :: k in fs ==> (fs[k].Link? <==> fs'[k].Link?))
    && (forall k :: k in fs && fs[k].Link? ==> fs'[k] == fs[k])
    && (forall k :: k in fs ==> (fs[k].File? <==> fs'[k].File?))
  }

  lemma SameKeysSameSize(fs: FileSystem, fs': FileSystem)
    requires fs.Keys == fs'.Keys
    ensures |fs| == |fs'|
  {
    assert |fs.Keys| == |fs| && |fs'.Keys| == |fs'|;
  }

  lemma {:induction false} ResolveSameLinks(fs: FileSystem, fs': FileSystem, p: string, fl: Flavour, fuel: nat)
    requires SameLinks(fs, fs')
    ensures Resolve(fs, p, fl, fuel) == Resolve(fs', p, fl, fuel)
    decreases fuel
  {
    var q := Normpath(p, fl);
    if fuel > 0 && q in fs && fs[q].Link? {
      ResolveSameLinks(fs, fs', LinkDestination(q, fs[q].target, fl), fl, fuel - 1);
    }
  }

  /** Links are followed the same way when only file contents differ. */
  lemma RealPathSameLinks(fs: FileSystem, fs': FileSystem, p: string, fl: Flavour)
    requires SameLinks(fs, fs')
    ensures RealPath(fs, p, fl) == RealPath(fs', p, fl)
    ensures IsFile(fs, p, fl) <==> IsFile(fs', p, fl)
  {
    SameKeysSameSize(fs, fs');
    ResolveSameLinks(fs, fs', p, fl, |fs|);
  }

  /** Without a backup, a rewrite only changes file contents. */
  lemma RewriteKeepsLinks(fs: FileSystem, f: string, keep: string -> bool, denied: set<string>)
    ensures SameLinks(fs, RewriteFile(fs, f, keep, false, denied))
  {
  }

  /** Rewriting the same file a second time (without backup) changes nothing. */
  lemma RewriteFileIdempotent(fs: FileSystem, f: string, keep: string -> bool, denied: set<string>)
    ensures var once := RewriteFile(fs, f, keep, false, denied);
      RewriteFile(once, f, keep, false, denied) == once
  {
    var once := RewriteFile(fs, f, keep, false, denied);
    RewriteKeepsLinks(fs, f, keep, denied);
    RealPathSameLinks(fs, once, f, Posix);
    if f !in denied && IsFile(fs, f, Posix) {
      var q := RealPath(fs, f, Posix);
      FilterIdempotent(fs[q].lines, keep);
      var twice := RewriteFile(once, f, keep, false, denied);
      assert twice.Keys == once.Keys;
      assert twice[q] == once[q];
    }
  }

  /** `for f in files: if os.path.exists(f): try: rewrite f`. */
  function CleanFiles(fs: FileSystem, files: seq<string>, keep: string -> bool, backup: bool, denied: set<string>): FileSystem
    decreases |files|
  {
    if |files| == 0 then fs
    else CleanFiles(RewriteFile(fs, files[0], keep, backup, denied), files[1..], keep, backup, denied)
  }

  /**
   * The loop over shell or environment files: each one that is a regular
   * file is (optionally backed up and) rewritten with the lines it keeps.
   */
  method CleanFilesLoop(fs: FileSystem, files: seq<string>, kws: seq<string>, fold: bool, backup: bool, denied: set<string>)
    returns (fs': FileSystem)
    ensures fs' == CleanFiles(fs, files, KeepsLine(kws, fold), backup, denied)
  {
    fs' := fs;
    var i := 0;
    while i < |files|
      invariant 0 <= i <= |files|
      invariant CleanFiles(fs', files[i..], KeepsLine(kws, fold), backup, denied)
             == CleanFiles(fs, files, KeepsLine(kws, fold), backup, denied)
    {
      assert files[i..][1..] == files[i + 1..];
      var f := files[i];
      if Exists(fs', f, Posix) && f !in denied && IsFile(fs', f, Posix) {
        var q := RealPath(fs', f, Posix);
        if backup {
          fs' := fs'[BackupPath(f) := fs'[q]];
        }
        var node := fs'[q];
        var newLines := FilterLines(node.lines, kws, fold);
        fs' := fs'[q := File(node.executable, newLines)];
      }
      i := i + 1;
    }
  }

  /** A file whose lines are all kept. */
  predicate Clean(fs: FileSystem, f: string, keep: string -> bool) {
    var q := RealPath(fs, f, Posix);
    q in fs && fs[q].File? && forall i :: 0 <= i < |fs[q].lines| ==> keep(fs[q].lines[i])
  }

  /** Without backups, cleaning keeps every entry and link, and leaves every file it could rewrite with only kept lines. */
  lemma {:induction false} CleanFilesResult(fs: FileSystem, files: seq<string>, keep: string -> bool, denied: set<string>)
    ensures SameLinks(fs, CleanFiles(fs, files, keep, false, denied))
    ensures forall i :: 0 <= i < |files| && files[i] !in denied && IsFile(fs, files[i], Posix) ==>
      Clean(CleanFiles(fs, files, keep, false, denied), files[i], keep)
    decreases |files|
  {
    if |files| > 0 {
      var next := RewriteFile(fs, files[0], keep, false, denied);
      RewriteKeepsLinks(fs, files[0], keep, denied);
      CleanFilesResult(next, files[1..], keep, denied);
      var r := CleanFiles(fs, files, keep, false, denied);
      forall i | 0 <= i < |files| && files[i] !in denied && IsFile(fs, files[i], Posix)
        ensures Clean(r, files[i], keep)
      {
        RealPathSameLinks(fs, next, files[i], Posix);
        if i > 0 {
          assert files[1..][i - 1] == files[i];
        } else {
          CleanStays(next, files[1..], keep, denied, files[0]);
        }
      }
    }
  }

  /** A file with only kept lines stays that way through further rewrites. */
  lemma {:induction false} CleanStays(fs: FileSystem, files: seq<string>, keep: string -> bool, denied: set<string>, f: string)
    requires Clean(fs, f, keep)
    ensures Clean(CleanFiles(fs, files, keep, false, denied), f, keep)
    decreases |files|
  {
    if |files| > 0 {
      var next := RewriteFile(fs, files[0], keep, false, denied);
      RewriteKeepsLinks(fs, files[0], keep, denied);
      RealPathSameLinks(fs, next, f, Posix);
      var q := RealPath(fs, f, Posix);
      if files[0] !in denied && IsFile(fs, files[0], Posix) && RealPath(fs, files[0], Posix) == q {
        FilterAll(fs[q].lines, keep);
      }
      CleanStays(next, files[1..], keep, denied, f);
    }
  }

  // ---------------------------------------------------------------------
  // deleting installations

  /**
   * One deletion: with `files`, a regular file is unlinked and a directory
   * removed as a tree; without it, an existing path is removed as a tree.
   * Anything else is a no-op.
   */
  function RemoveStep(fs: FileSystem, p: string, fl: Flavour, denied: set<string>, files: bool): (r: FileSystem)
    ensures r.Keys <= fs.Keys
    ensures forall k :: k in r ==> r[k] == fs[k]
    ensures forall k :: k in fs && k !in r ==> Covers(k, p, fl)
    ensures !Exists(fs, p, fl) && !IsLink(fs, p, fl) ==> r == fs
    ensures files && p !in denied && IsFile(fs, p, fl) ==> Normpath(p, fl) !in r
    ensures p !in denied && Normpath(p, fl) in fs && fs[Normpath(p, fl)] == Dir ==> forall k :: k in r ==> !Covers(k, p, fl)
    ensures r != fs ==> p !in denied && (r == fs - {Normpath(p, fl)} || forall k :: k in r ==> !Covers(k, p, fl))
  {
    StatFacts(fs, p, fl);
    if files && IsFile(fs, p, fl) then RemoveEntry(fs, p, fl, denied)
    else if files && !IsDir(fs, p, fl) then fs
    else if !Exists(fs, p, fl) then fs
    else RemoveTree(fs, p, fl, denied)
  }

  /** Whether `k` is the normalised form of `p` or lies under it. */
  predicate Covers(k: string, p: string, fl: Flavour) {
    k == Normpath(p, fl) || Under(k, Normpath(p, fl), fl)
  }

  /**
   * Deleting `paths` in order, each failure caught: entries only disappear,
   * nothing that survives changes, and only entries at or under one of the
   * paths disappear.
   */
  function RemovePaths(fs: FileSystem, paths: seq<string>, fl: Flavour, denied: set<string>, files: bool): (r: FileSystem)
    ensures r.Keys <= fs.Keys
    ensures forall k :: k in r ==> r[k] == fs[k]
    ensures forall k :: k in fs && k !in r ==> exists i :: 0 <= i < |paths| && Covers(k, paths[i], fl)
    decreases |paths|
  {
    if |paths| == 0 then fs
    else
      var next := RemoveStep(fs, paths[0], fl, denied, files);
      var r := RemovePaths(next, paths[1..], fl, denied, files);
      assert forall k :: k in fs && k !in r && k in next ==> exists i :: 0 <= i < |paths[1..]| && Covers(k, paths[1..][i], fl);
      r
  }

  /**
   * A path whose deletion is not refused and that names a real directory is
   * gone afterwards together with everything under it, whatever else failed.
   */
  lemma {:induction false} RemovePathsRemoves(fs: FileSystem, paths: seq<string>, fl: Flavour, denied: set<string>, files: bool, i: nat)
    requires i < |paths| && paths[i] !in denied
    requires Normpath(paths[i], fl) in fs && fs[Normpath(paths[i], fl)] == Dir
    ensures forall k :: k in RemovePaths(fs, paths, fl, denied, files) ==> !Covers(k, paths[i], fl)
    decreases |paths|
  {
    var q := Normpath(paths[i], fl);
    var next := RemoveStep(fs, paths[0], fl, denied, files);
    if i == 0 {
    } else if q in next {
      assert paths[1..][i - 1] == paths[i];
      RemovePathsRemoves(next, paths[1..], fl, denied, files, i - 1);
    } else {
      // the first deletion took `q`, so it removed a tree holding `q`
      var q0 := Normpath(paths[0], fl);
      assert next != fs - {q0} || q == q0;
      if q == q0 {
        assert forall k :: k in next ==> !Covers(k, paths[0], fl);
      }
      assert forall k :: k in next ==> !Covers(k, paths[0], fl);
      forall k | k in next
        ensures !Covers(k, paths[i], fl)
      {
        if Under(k, q, fl) && Under(q, q0, fl) {
          UnderTransitive(k, q, q0, fl);
        }
      }
    }
  }

  /** With `files`, a regular file whose deletion is not refused is gone afterwards. */
  lemma {:induction false} RemovePathsRemovesFile(fs: FileSystem, paths: seq<string>, fl: Flavour, denied: set<string>, i: nat)
    requires i < |paths| && paths[i] !in denied
    requires Normpath(paths[i], fl) in fs && fs[Normpath(paths[i], fl)].File?
    ensures Normpath(paths[i], fl) !in RemovePaths(fs, paths, fl, denied, true)
    decreases |paths|
  {
    var q := Normpath(paths[i], fl);
    var next := RemoveStep(fs, paths[0], fl, denied, true);
    if i == 0 {
      StatFacts(fs, paths[0], fl);
    } else if q in next {
      assert paths[1..][i - 1] == paths[i];
      RemovePathsRemovesFile(next, paths[1..], fl, denied, i - 1);
    }
  }

  /** A loop over a fixed list of paths: each existing one is removed as a tree, failures are skipped. */
  method RemoveTrees(fs: FileSystem, paths: seq<string>, fl: Flavour, denied: set<string>) returns (fs': FileSystem)
    ensures fs' == RemovePaths(fs, paths, fl, denied, false)
  {
    fs' := fs;
    var i := 0;
    while i < |paths|
      invariant 0 <= i <= |paths|
      invariant RemovePaths(fs', paths[i..], fl, denied, false) == RemovePaths(fs, paths, fl, denied, false)
    {
      assert paths[i..][1..] == paths[i + 1..];
      if Exists(fs', paths[i], fl) {
        fs' := RemoveTree(fs', paths[i], fl, denied);
      }
      i := i + 1;
    }
  }

  /** The paths of the records the removal loop does not skip. */
  function TargetPaths(recs: seq<Record>, skip: Record -> bool): (r: seq<string>)
    ensures forall i :: 0 <= i < |recs| && !skip(recs[i]) ==> recs[i].path in r
    ensures forall p :: p in r ==> exists i :: 0 <= i < |recs| && !skip(recs[i]) && recs[i].path == p
  {
    if |recs| == 0 then []
    else
      var rest := TargetPaths(recs[1..], skip);
      assert forall i :: 1 <= i < |recs| ==> recs[i] == recs[1..][i - 1];
      if skip(recs[0]) then rest else [recs[0].path] + rest
  }

  /** An entry that the path of no deleted record covers survives the removal loop unchanged. */
  lemma SkippedSurvives(fs: FileSystem, recs: seq<Record>, skip: Record -> bool, fl: Flavour, denied: set<string>, files: bool, k: string)
    requires k in fs
    requires forall j :: 0 <= j < |recs| && !skip(recs[j]) ==> !Covers(k, recs[j].path, fl)
    ensures var r := RemovePaths(fs, TargetPaths(recs, skip), fl, denied, files);
      k in r && r[k] == fs[k]
  {
    var paths := TargetPaths(recs, skip);
    var r := RemovePaths(fs, paths, fl, denied, files);
    forall i | 0 <= i < |paths|
      ensures !Covers(k, paths[i], fl)
    {
      assert paths[i] in paths;
    }
  }

  /** In an inventory without repeated paths, a skipped record's path is never deleted by name. */
  lemma SkippedNotTargeted(recs: seq<Record>, skip: Record -> bool, i: nat)
    requires DistinctPaths(recs)
    requires i < |recs| && skip(recs[i])
    ensures recs[i].path !in TargetPaths(recs, skip)
  {
  }
}
