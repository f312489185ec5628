/**
 * The filesystem as the uninstallers see it: a finite map from normalised path
 * strings to nodes, and the `os.path` string functions they apply to paths
 * (`normpath`, `dirname`, `basename`, `join`, `realpath`), for the POSIX
 * separator `/` and the Windows separator `\`.
 */
module Paths {
  import opened Text
  import opened Wrappers

  datatype Flavour = Posix | Nt

  function Sep(fl: Flavour): (c: char)
    ensures c != '.'
  {
    if fl == Posix then '/' else '\\'
  }

  /** A directory entry: a regular file (with its execute bit and its text lines), a directory, or a symbolic link. */
  datatype Node = File(executable: bool, lines: seq<string>) | Dir | Link(target: string)

  type FileSystem = map<string, Node>

  // ---------------------------------------------------------------------
  // normpath

  /** The path components `normpath` keeps: neither empty nor ".". */
  function Clean(cs: seq<string>): (r: seq<string>)
    ensures forall k :: 0 <= k < |r| ==> r[k] != "" && r[k] != "." && r[k] in cs
  {
    if |cs| == 0 then []
    else if cs[0] == "" || cs[0] == "." then Clean(cs[1..])
    else [cs[0]] + Clean(cs[1..])
  }

  lemma {:induction false} CleanOfClean(cs: seq<string>)
    requires forall k :: 0 <= k < |cs| ==> cs[k] != "" && cs[k] != "."
    ensures Clean(cs) == cs
  {
    if |cs| > 0 {
      CleanOfClean(cs[1..]);
    }
  }

  lemma {:induction false} CleanAppend(cs: seq<string>, w: string)
    requires w != "" && w != "."
    ensures Clean(cs + [w]) == Clean(cs) + [w]
  {
    if |cs| == 0 {
      assert [] + [w] == [w];
    } else {
      assert (cs + [w])[1..] == cs[1..] + [w];
      CleanAppend(cs[1..], w);
    }
  }

  predicate Rooted(p: string, fl: Flavour) {
    |p| > 0 && p[0] == Sep(fl)
  }

  /**
   * `os.path.normpath`, simplified: empty and "." components are dropped,
   * repeated separators collapse, a leading separator is kept, and an empty
   * result is ".". ".." components are kept as they are.
   */
  function Normpath(p: string, fl: Flavour): string {
    var body := Join(Clean(Split(p, Sep(fl))), Sep(fl));
    if Rooted(p, fl) then [Sep(fl)] + body
    else if body == "" then "."
    else body
  }

  predicate IsNormal(p: string, fl: Flavour) {
    Normpath(p, fl) == p
  }

  lemma CleanSeparatorFree(cs: seq<string>, c: char)
    requires forall k :: 0 <= k < |cs| ==> c !in cs[k]
    ensures forall k :: 0 <= k < |Clean(cs)| ==> c !in Clean(cs)[k]
  {
  }

  /** Normalising twice is normalising once: every `normpath` result is normal. */
  lemma {:induction false} NormpathIdempotent(p: string, fl: Flavour)
    ensures IsNormal(Normpath(p, fl), fl)
  {
    var c := Sep(fl);
    var cs := Clean(Split(p, c));
    var body := Join(cs, c);
    var n := Normpath(p, fl);
    CleanSeparatorFree(Split(p, c), c);
    if Rooted(p, fl) {
      assert n == [] + [c] + body;
      SplitConcat([], body, c);
      assert Split("", c) == [""];
      if |cs| == 0 {
        assert Split(n, c) == [""] + [""];
        assert Clean(Split(n, c)) == [];
      } else {
        SplitJoin(cs, c);
        assert Split(n, c) == [""] + cs;
        CleanOfClean(cs);
        assert Clean(Split(n, c)) == cs;
      }
    } else if body == "" {
      assert n == ".";
      SplitNoSep(".", c);
      assert Clean(["."]) == [];
    } else {
      assert |cs| > 0;
      JoinNonEmpty(cs, c);
      SplitJoin(cs, c);
      CleanOfClean(cs);
    }
  }

  /** `normpath` never returns the empty string, and its result is absolute exactly when its input is. */
  lemma NormpathRooted(p: string, fl: Flavour)
    ensures Normpath(p, fl) != ""
    ensures Rooted(Normpath(p, fl), fl) <==> Rooted(p, fl)
  {
    var c := Sep(fl);
    var cs := Clean(Split(p, c));
    if !Rooted(p, fl) && Join(cs, c) != "" {
      assert |cs| > 0;
      CleanSeparatorFree(Split(p, c), c);
      assert c !in cs[0] && |cs[0]| > 0;
      JoinNonEmpty(cs, c);
      assert cs[0][0] in cs[0];
    }
  }

  // ---------------------------------------------------------------------
  // dirname, basename, join

  /** The index just after the last separator of `p`, or 0 when it has none. */
  function LastSepEnd(p: string, fl: Flavour): (i: nat)
    ensures i <= |p|
    ensures i > 0 ==> p[i - 1] == Sep(fl)
    ensures forall k :: i <= k < |p| ==> p[k] != Sep(fl)
  {
    if |p| == 0 then 0
    else if p[|p| - 1] == Sep(fl) then |p|
    else LastSepEnd(p[..|p| - 1], fl)
  }

  /** `s.rstrip(sep)`. */
  function TrimSeps(s: string, fl: Flavour): (r: string)
    ensures |r| <= |s| && r == s[..|r|]
    ensures forall k :: |r| <= k < |s| ==> s[k] == Sep(fl)
    ensures |r| > 0 ==> r[|r| - 1] != Sep(fl)
  {
    if |s| > 0 && s[|s| - 1] == Sep(fl) then TrimSeps(s[..|s| - 1], fl) else s
  }

  /** `os.path.basename`: what follows the last separator. */
  function Basename(p: string, fl: Flavour): (r: string)
    ensures Sep(fl) !in r
  {
    p[LastSepEnd(p, fl)..]
  }

  /** `os.path.dirname`: what precedes the last separator, trailing separators removed unless only separators remain. */
  function Dirname(p: string, fl: Flavour): string {
    var head := p[..LastSepEnd(p, fl)];
    var trimmed := TrimSeps(head, fl);
    if trimmed == "" then head else trimmed
  }

  /** `os.path.join(a, b)` for a relative component `b`. */
  function PathJoin(a: string, b: string, fl: Flavour): string {
    if a == "" || a[|a| - 1] == Sep(fl) then a + b else a + [Sep(fl)] + b
  }

  /**
   * `dirname` gives a prefix of the path and `basename` the longest suffix
   * holding no separator: what precedes it is empty or ends in a separator.
   */
  lemma DirnameBasename(p: string, fl: Flavour)
    ensures var d := Dirname(p, fl); |d| <= |p| && d == p[..|d|]
    ensures var b := Basename(p, fl); |b| <= |p| && b == p[|p| - |b|..]
    ensures var b := Basename(p, fl); |b| == |p| || p[|p| - |b| - 1] == Sep(fl)
  {
    var i := LastSepEnd(p, fl);
    var head := p[..i];
    var trimmed := TrimSeps(head, fl);
    assert trimmed == p[..|trimmed|];
  }

  /** `join` puts `a` first and `b` last, with at most one separator between them; a component joined to a directory is its base name. */
  lemma PathJoinParts(a: string, b: string, fl: Flavour)
    ensures var r := PathJoin(a, b, fl);
      && |a| + |b| <= |r| <= |a| + |b| + 1
      && r[..|a|] == a && r[|r| - |b|..] == b
    ensures |a| > 0 && a[|a| - 1] != Sep(fl) && Sep(fl) !in b ==>
      Dirname(PathJoin(a, b, fl), fl) == a && Basename(PathJoin(a, b, fl), fl) == b
  {
    if |a| > 0 && a[|a| - 1] != Sep(fl) && Sep(fl) !in b {
      DirnameOfChild(a, b, fl);
    }
  }

  lemma {:induction false} LastSepEndSuffix(s: string, w: string, fl: Flavour)
    requires Sep(fl) !in w
    ensures LastSepEnd(s + [Sep(fl)] + w, fl) == |s| + 1
  {
    var p := s + [Sep(fl)] + w;
    if |w| > 0 {
      assert p[..|p| - 1] == s + [Sep(fl)] + w[..|w| - 1];
      assert p[|p| - 1] == w[|w| - 1];
      LastSepEndSuffix(s, w[..|w| - 1], fl);
    }
  }

  lemma TrimSepsNoTrailing(s: string, fl: Flavour)
    requires |s| > 0 && s[|s| - 1] != Sep(fl)
    ensures TrimSeps(s + [Sep(fl)], fl) == s
  {
    assert (s + [Sep(fl)])[..|s|] == s;
  }

  /** Taking the parent of `s/w`, where `w` is one component and `s` has no trailing separator, gives `s` back. */
  lemma DirnameOfChild(s: string, w: string, fl: Flavour)
    requires Sep(fl) !in w
    requires |s| > 0 && s[|s| - 1] != Sep(fl)
    ensures Dirname(s + [Sep(fl)] + w, fl) == s
    ensures Basename(s + [Sep(fl)] + w, fl) == w
  {
    var p := s + [Sep(fl)] + w;
    LastSepEndSuffix(s, w, fl);
    assert p[..|s| + 1] == s + [Sep(fl)];
    TrimSepsNoTrailing(s, fl);
    assert p[|s| + 1..] == w;
  }

  /** A normal path other than "." and the root has at least one component. */
  lemma NormalHasComponents(x: string, fl: Flavour)
    requires IsNormal(x, fl) && x != "." && x != [Sep(fl)]
    ensures |Clean(Split(x, Sep(fl)))| > 0
    ensures Rooted(x, fl) ==> x == [Sep(fl)] + Join(Clean(Split(x, Sep(fl))), Sep(fl))
    ensures !Rooted(x, fl) ==> x == Join(Clean(Split(x, Sep(fl))), Sep(fl))
  {
  }

  /** A normal path with components does not end in a separator. */
  lemma NormalNoTrailingSep(x: string, fl: Flavour)
    requires IsNormal(x, fl) && x != "." && x != [Sep(fl)]
    ensures |x| > 0 && x[|x| - 1] != Sep(fl)
  {
    var c := Sep(fl);
    var cs := Clean(Split(x, c));
    NormalHasComponents(x, fl);
    CleanSeparatorFree(Split(x, c), c);
    assert cs[|cs| - 1] != "" && c !in cs[|cs| - 1];
    JoinLast(cs, c);
  }

  /** The components of `x/w` are those of `x` followed by `w`. */
  lemma ChildComponents(x: string, w: string, fl: Flavour)
    requires IsNormal(x, fl) && x != "." && x != [Sep(fl)]
    requires w != "" && w != "." && Sep(fl) !in w
    ensures var c := Sep(fl);
      Join(Clean(Split(x + [c] + w, c)), c) == Join(Clean(Split(x, c)), c) + [c] + w
  {
    var c := Sep(fl);
    var cs := Clean(Split(x, c));
    NormalHasComponents(x, fl);
    SplitConcat(x, w, c);
    SplitNoSep(w, c);
    CleanAppend(Split(x, c), w);
    JoinSnoc(cs, w, c);
  }

  /** Appending one component `w` to a normal path with components gives a normal path. */
  lemma NormalChild(x: string, w: string, fl: Flavour)
    requires IsNormal(x, fl) && x != "." && x != [Sep(fl)]
    requires w != "" && w != "." && Sep(fl) !in w
    ensures IsNormal(x + [Sep(fl)] + w, fl)
    ensures |x| > 0 && x[|x| - 1] != Sep(fl)
  {
    var c := Sep(fl);
    var cs := Clean(Split(x, c));
    NormalHasComponents(x, fl);
    NormalNoTrailingSep(x, fl);
    ChildComponents(x, w, fl);
    var y := x + [c] + w;
    var body := Join(Clean(Split(y, c)), c);
    assert body == Join(cs, c) + [c] + w;
    assert y[0] == x[0];
    if Rooted(x, fl) {
      RootedNormpath(y, fl);
      assert y == [c] + body;
    } else {
      RelativeNormpath(y, fl);
      assert y == body;
    }
  }

  /** `d/c0/c1/...` for components that are neither empty, `.` nor `..`. */
  predicate Plain(cs: seq<string>, fl: Flavour) {
    forall k :: 0 <= k < |cs| ==> cs[k] != "" && cs[k] != "." && cs[k] != ".." && Sep(fl) !in cs[k]
  }

  /** Appending plain components one by one to a normal path keeps it normal. */
  lemma {:induction false} NormalDescendant(x: string, cs: seq<string>, fl: Flavour)
    requires IsNormal(x, fl) && x != "." && x != [Sep(fl)]
    requires |cs| > 0 && Plain(cs, fl)
    ensures IsNormal(x + [Sep(fl)] + Join(cs, Sep(fl)), fl)
    decreases |cs|
  {
    var c := Sep(fl);
    if |cs| == 1 {
      NormalChild(x, cs[0], fl);
    } else {
      var init := cs[..|cs| - 1];
      NormalDescendant(x, init, fl);
      assert init + [cs[|cs| - 1]] == cs;
      JoinSnoc(init, cs[|cs| - 1], c);
      var y := x + [c] + Join(init, c);
      assert |y| > 1;
      NormalChild(y, cs[|cs| - 1], fl);
      assert y + [c] + cs[|cs| - 1] == x + [c] + Join(cs, c);
    }
  }

  /** The parent of a normal path is normal, except the "" of a single relative component. */
  lemma NormalParent(n: string, fl: Flavour)
    requires IsNormal(n, fl)
    ensures Dirname(n, fl) == "" || IsNormal(Dirname(n, fl), fl)
  {
    var c := Sep(fl);
    if n == "." {
      assert LastSepEnd(n, fl) == 0;
    } else if n == [c] {
      assert LastSepEnd(n, fl) == 1;
    } else {
      NormalHasComponents(n, fl);
      CleanSeparatorFree(Split(n, c), c);
      var cs := Clean(Split(n, c));
      if |cs| == 1 {
        NormalParentOne(n, cs[0], fl);
      } else {
        NormalParentMany(n, cs, fl);
      }
    }
  }

  /** `w` or `/w`: the parent is "" or the root. */
  lemma NormalParentOne(n: string, w: string, fl: Flavour)
    requires w != "" && Sep(fl) !in w
    requires n == w || n == [Sep(fl)] + w
    ensures Dirname(n, fl) == "" || IsNormal(Dirname(n, fl), fl)
  {
    var c := Sep(fl);
    if n == w {
      assert LastSepEnd(n, fl) == 0;
    } else {
      assert n == [] + [c] + w;
      LastSepEndSuffix([], w, fl);
      assert n[..1] == [c];
      assert Dirname(n, fl) == [c];
      RootIsNormal(fl);
    }
  }

  /** A path of two or more clean components: its parent is the path of all but the last. */
  lemma NormalParentMany(n: string, cs: seq<string>, fl: Flavour)
    requires |cs| > 1
    requires forall k :: 0 <= k < |cs| ==> cs[k] != "" && cs[k] != "." && Sep(fl) !in cs[k]
    requires n == [Sep(fl)] + Join(cs, Sep(fl)) || n == Join(cs, Sep(fl))
    ensures IsNormal(Dirname(n, fl), fl)
  {
    if n == Join(cs, Sep(fl)) {
      RelativeParent(cs, fl);
    } else {
      RootedParent(cs, fl);
    }
  }

  lemma RelativeParent(cs: seq<string>, fl: Flavour)
    requires |cs| > 1
    requires forall k :: 0 <= k < |cs| ==> cs[k] != "" && cs[k] != "." && Sep(fl) !in cs[k]
    ensures IsNormal(Dirname(Join(cs, Sep(fl)), fl), fl)
  {
    var init := cs[..|cs| - 1];
    assert forall k :: 0 <= k < |init| ==> init[k] == cs[k];
    JoinInit(cs, Sep(fl));
    NormalJoin(init, fl);
    ParentStep(Join(init, Sep(fl)), cs[|cs| - 1], fl);
  }

  lemma RootedParent(cs: seq<string>, fl: Flavour)
    requires |cs| > 1
    requires forall k :: 0 <= k < |cs| ==> cs[k] != "" && cs[k] != "." && Sep(fl) !in cs[k]
    ensures IsNormal(Dirname([Sep(fl)] + Join(cs, Sep(fl)), fl), fl)
  {
    var init := cs[..|cs| - 1];
    assert forall k :: 0 <= k < |init| ==> init[k] == cs[k];
    JoinInit(cs, Sep(fl));
    NormalRootedJoin(init, fl);
    RootedParentOf(Join(init, Sep(fl)), cs[|cs| - 1], fl);
  }

  lemma RootedParentOf(j: string, w: string, fl: Flavour)
    requires IsNormal([Sep(fl)] + j, fl) && Sep(fl) !in w
    requires |j| > 0 && j[|j| - 1] != Sep(fl)
    ensures IsNormal(Dirname([Sep(fl)] + (j + [Sep(fl)] + w), fl), fl)
  {
    var c := Sep(fl);
    assert [c] + (j + [c] + w) == ([c] + j) + [c] + w;
    assert ([c] + j)[|j|] == j[|j| - 1];
    ParentStep([c] + j, w, fl);
  }

  /** Splitting off the last of several components, whose join ends in no separator. */
  lemma JoinInit(cs: seq<string>, c: char)
    requires |cs| > 1
    requires forall k :: 0 <= k < |cs| ==> cs[k] != "" && c !in cs[k]
    ensures var j := Join(cs[..|cs| - 1], c);
      && Join(cs, c) == j + [c] + cs[|cs| - 1]
      && |j| > 0 && j[|j| - 1] != c
  {
    var init := cs[..|cs| - 1];
    assert init + [cs[|cs| - 1]] == cs;
    JoinSnoc(init, cs[|cs| - 1], c);
    JoinLast(init, c);
    assert init[|init| - 1] == cs[|cs| - 2];
    var l := init[|init| - 1];
    assert l[|l| - 1] in l;
  }

  lemma ParentStep(x: string, w: string, fl: Flavour)
    requires IsNormal(x, fl) && Sep(fl) !in w
    requires |x| > 0 && x[|x| - 1] != Sep(fl)
    ensures IsNormal(Dirname(x + [Sep(fl)] + w, fl), fl)
  {
    DirnameOfChild(x, w, fl);
  }

  lemma RootIsNormal(fl: Flavour)
    ensures IsNormal([Sep(fl)], fl)
  {
    var c := Sep(fl);
    SplitConcat([], [], c);
    assert [] + [c] + [] == [c];
    assert Split([], c) == [""];
  }

  /** Clean, separator-free components joined give a normal relative path. */
  lemma NormalJoin(cs: seq<string>, fl: Flavour)
    requires |cs| > 0
    requires forall k :: 0 <= k < |cs| ==> cs[k] != "" && cs[k] != "." && Sep(fl) !in cs[k]
    ensures IsNormal(Join(cs, Sep(fl)), fl)
  {
    var c := Sep(fl);
    SplitJoin(cs, c);
    CleanOfClean(cs);
    JoinNonEmpty(cs, c);
    assert cs[0][0] in cs[0];
  }

  /** The same components after a separator give a normal absolute path. */
  lemma NormalRootedJoin(cs: seq<string>, fl: Flavour)
    requires |cs| > 0
    requires forall k :: 0 <= k < |cs| ==> cs[k] != "" && cs[k] != "." && Sep(fl) !in cs[k]
    ensures IsNormal([Sep(fl)] + Join(cs, Sep(fl)), fl)
  {
    var c := Sep(fl);
    var j := Join(cs, c);
    SplitJoin(cs, c);
    CleanOfClean(cs);
    RootedSplit(j, c);
    CleanDropsEmpty(cs);
    RootedNormpath([c] + j, fl);
  }

  lemma RootedSplit(j: string, c: char)
    ensures Split([c] + j, c) == [""] + Split(j, c)
  {
    assert [c] + j == [] + [c] + j;
    SplitConcat([], j, c);
    assert Split([], c) == [""];
  }

  lemma CleanDropsEmpty(cs: seq<string>)
    ensures Clean([""] + cs) == Clean(cs)
  {
    assert ([""] + cs)[1..] == cs;
  }

  lemma RelativeNormpath(x: string, fl: Flavour)
    requires !Rooted(x, fl) && Join(Clean(Split(x, Sep(fl))), Sep(fl)) != ""
    ensures Normpath(x, fl) == Join(Clean(Split(x, Sep(fl))), Sep(fl))
  {
  }

  lemma RootedNormpath(x: string, fl: Flavour)
    requires Rooted(x, fl)
    ensures Normpath(x, fl) == [Sep(fl)] + Join(Clean(Split(x, Sep(fl))), Sep(fl))
  {
  }


  // ---------------------------------------------------------------------
  // links and lookups

  /**
   * The parent `realpath` steps to for a `..` component: the directory part,
   * or one more `..` when the path is empty or already ends in `..`.
   */
  function Up(d: string, fl: Flavour): string {
    if d == "" then ".."
    else if Basename(d, fl) == ".." then PathJoin(PathJoin(d, "..", fl), "..", fl)
    else Dirname(d, fl)
  }

  /** The components of a link's target applied one by one to the directory `d`: `..` steps up, `.` and empty ones are skipped. */
  function JoinTarget(d: string, cs: seq<string>, fl: Flavour): string
    decreases |cs|
  {
    if |cs| == 0 then d
    else if cs[0] == "" || cs[0] == "." then JoinTarget(d, cs[1..], fl)
    else if cs[0] == ".." then JoinTarget(Up(d, fl), cs[1..], fl)
    else JoinTarget(PathJoin(d, cs[0], fl), cs[1..], fl)
  }

  /** Where the link at the normalised path `q` with target `t` points: an absolute target from the root, a relative one from the link's own directory. */
  function LinkDestination(q: string, t: string, fl: Flavour): string {
    JoinTarget(if Rooted(t, fl) then [Sep(fl)] else Dirname(q, fl), Split(t, Sep(fl)), fl)
  }

  /** Follow symbolic links from `p` for at most `fuel` hops; the answer is normalised. */
  function Resolve(fs: FileSystem, p: string, fl: Flavour, fuel: nat): string
    decreases fuel
  {
    var q := Normpath(p, fl);
    if fuel > 0 && q in fs && fs[q].Link? then Resolve(fs, LinkDestination(q, fs[q].target, fl), fl, fuel - 1) else q
  }

  /** `os.path.realpath`: every link on the chain is followed (a chain longer than the number of entries is a cycle and stops). */
  function RealPath(fs: FileSystem, p: string, fl: Flavour): (r: string)
    ensures IsNormal(r, fl)
  {
    RealPathNormal(fs, p, fl, |fs|);
    Resolve(fs, p, fl, |fs|)
  }

  lemma {:induction false} RealPathNormal(fs: FileSystem, p: string, fl: Flavour, fuel: nat)
    ensures IsNormal(Resolve(fs, p, fl, fuel), fl)
    decreases fuel
  {
    var q := Normpath(p, fl);
    if fuel > 0 && q in fs && fs[q].Link? {
      RealPathNormal(fs, LinkDestination(q, fs[q].target, fl), fl, fuel - 1);
    } else {
      NormpathIdempotent(p, fl);
    }
  }

  /** `os.stat` (following links): the node the path finally names, if any. */
  function Stat(fs: FileSystem, p: string, fl: Flavour): Option<Node> {
    var q := RealPath(fs, p, fl);
    if q in fs && !fs[q].Link? then Some(fs[q]) else None
  }

  /** `os.path.exists`. */
  predicate Exists(fs: FileSystem, p: string, fl: Flavour) {
    Stat(fs, p, fl).Some?
  }

  /** `os.path.isfile`. */
  predicate IsFile(fs: FileSystem, p: string, fl: Flavour) {
    Stat(fs, p, fl).Some? && Stat(fs, p, fl).value.File?
  }

  /** `os.path.isfile(p) and os.access(p, os.X_OK)`. */
  predicate IsExecutableFile(fs: FileSystem, p: string, fl: Flavour) {
    IsFile(fs, p, fl) && Stat(fs, p, fl).value.executable
  }

  /** `os.path.isdir`. */
  predicate IsDir(fs: FileSystem, p: string, fl: Flavour) {
    Stat(fs, p, fl) == Some(Dir)
  }

  /** `os.path.islink` (does not follow the link). */
  predicate IsLink(fs: FileSystem, p: string, fl: Flavour) {
    Normpath(p, fl) in fs && fs[Normpath(p, fl)].Link?
  }

  /**
   * `stat` never reports a link; a file and a directory both exist and are
   * never the same entry; for a path that is not a link, `stat` reports its
   * own entry, and a path with no entry does not exist.
   */
  lemma StatFacts(fs: FileSystem, p: string, fl: Flavour)
    ensures Stat(fs, p, fl).Some? ==> !Stat(fs, p, fl).value.Link?
    ensures IsFile(fs, p, fl) ==> Exists(fs, p, fl)
    ensures IsDir(fs, p, fl) ==> Exists(fs, p, fl) && !IsFile(fs, p, fl)
    ensures !IsLink(fs, p, fl) ==>
      Stat(fs, p, fl) == (if Normpath(p, fl) in fs then Some(fs[Normpath(p, fl)]) else None)
  {
    if !IsLink(fs, p, fl) {
      ResolveNonLink(fs, p, fl, |fs|);
    }
  }

  lemma {:induction false} ResolveNonLink(fs: FileSystem, p: string, fl: Flavour, fuel: nat)
    requires !IsLink(fs, p, fl)
    ensures Resolve(fs, p, fl, fuel) == Normpath(p, fl)
  {
  }

  /** Applying plain components to a directory without a trailing separator appends them. */
  lemma {:induction false} JoinTargetPlain(d: string, cs: seq<string>, fl: Flavour)
    requires |d| > 0 && d[|d| - 1] != Sep(fl)
    requires |cs| > 0 && Plain(cs, fl)
    ensures JoinTarget(d, cs, fl) == d + [Sep(fl)] + Join(cs, Sep(fl))
    decreases |cs|
  {
    var c := Sep(fl);
    var d' := d + [c] + cs[0];
    assert PathJoin(d, cs[0], fl) == d';
    if |cs| > 1 {
      assert d'[|d'| - 1] == cs[0][|cs[0]| - 1];
      assert Plain(cs[1..], fl) by {
        forall k | 0 <= k < |cs[1..]|
          ensures cs[1..][k] != "" && cs[1..][k] != "." && cs[1..][k] != ".." && c !in cs[1..][k]
        {
          assert cs[1..][k] == cs[k + 1];
        }
      }
      JoinTargetPlain(d', cs[1..], fl);
    }
  }

  /** A link at a normal path whose destination is a normal path that is not a link resolves there in one hop. */
  lemma OneHop(fs: FileSystem, l: string, dest: string, fl: Flavour)
    requires IsNormal(l, fl) && l in fs && fs[l].Link?
    requires LinkDestination(l, fs[l].target, fl) == dest
    requires IsNormal(dest, fl) && !IsLink(fs, dest, fl)
    ensures RealPath(fs, l, fl) == dest
  {
    ResolveNonLink(fs, dest, fl, |fs| - 1);
  }

  /** The destination of a bare-name target `t` at `d/w` is the sibling `d/t`. */
  lemma SiblingDestination(d: string, w: string, t: string, fl: Flavour)
    requires |d| > 0 && d[|d| - 1] != Sep(fl)
    requires Sep(fl) !in w && t != "" && t != "." && t != ".." && Sep(fl) !in t
    ensures LinkDestination(d + [Sep(fl)] + w, t, fl) == d + [Sep(fl)] + t
  {
    var c := Sep(fl);
    DirnameOfChild(d, w, fl);
    SplitNoSep(t, c);
    assert t[0] != c;
    assert JoinTarget(d, [t], fl) == JoinTarget(d + [c] + t, [], fl);
  }

  /** A link `d/w` whose target is a bare name `t` leads to its sibling `d/t`, as `python3 -> python3.11` does. */
  lemma SiblingLink(fs: FileSystem, d: string, w: string, t: string, fl: Flavour)
    requires IsNormal(d, fl) && d != "." && d != [Sep(fl)]
    requires Plain([w, t], fl)
    requires d + [Sep(fl)] + w in fs && fs[d + [Sep(fl)] + w] == Link(t)
    requires !IsLink(fs, d + [Sep(fl)] + t, fl)
    ensures RealPath(fs, d + [Sep(fl)] + w, fl) == d + [Sep(fl)] + t
  {
    assert [w, t][0] == w && [w, t][1] == t;
    NormalChild(d, w, fl);
    NormalChild(d, t, fl);
    SiblingDestination(d, w, t, fl);
    OneHop(fs, d + [Sep(fl)] + w, d + [Sep(fl)] + t, fl);
  }

  /** Splitting `../c0/c1/...` gives `..` and then the components. */
  lemma SplitParentTarget(cs: seq<string>, fl: Flavour)
    requires |cs| > 0 && Plain(cs, fl)
    ensures Split(".." + [Sep(fl)] + Join(cs, Sep(fl)), Sep(fl)) == [".."] + cs
  {
    var c := Sep(fl);
    SplitConcat("..", Join(cs, c), c);
    SplitNoSep("..", c);
    SplitJoin(cs, c);
  }

  /** Going up from `e/x` gives `e` back. */
  lemma UpOfChild(e: string, x: string, fl: Flavour)
    requires |e| > 0 && e[|e| - 1] != Sep(fl)
    requires Sep(fl) !in x && x != ".."
    ensures Up(e + [Sep(fl)] + x, fl) == e
  {
    DirnameOfChild(e, x, fl);
  }

  /** The destination of `../c0/c1/...` at `e/x/w` is `e/c0/c1/...`. */
  lemma ParentDestination(e: string, x: string, w: string, cs: seq<string>, fl: Flavour)
    requires |e| > 0 && e[|e| - 1] != Sep(fl)
    requires x != "" && x != ".." && Sep(fl) !in x && Sep(fl) !in w
    requires |cs| > 0 && Plain(cs, fl)
    ensures LinkDestination(e + [Sep(fl)] + x + [Sep(fl)] + w, ".." + [Sep(fl)] + Join(cs, Sep(fl)), fl) == e + [Sep(fl)] + Join(cs, Sep(fl))
  {
    var c := Sep(fl);
    var d := e + [c] + x;
    var t := ".." + [c] + Join(cs, c);
    assert d[|d| - 1] == x[|x| - 1];
    DirnameOfChild(d, w, fl);
    UpOfChild(e, x, fl);
    SplitParentTarget(cs, fl);
    assert t[0] == '.';
    assert ([".."] + cs)[1..] == cs;
    assert LinkDestination(d + [c] + w, t, fl) == JoinTarget(e, cs, fl);
    JoinTargetPlain(e, cs, fl);
  }

  /**
   * A link `e/x/w` whose target is `../c0/c1/...` leads to `e/c0/c1/...`, as
   * Homebrew's `opt/<name> -> ../Cellar/<name>/<version>` does.
   */
  lemma ParentRelativeLink(fs: FileSystem, e: string, x: string, w: string, cs: seq<string>, fl: Flavour)
    requires IsNormal(e, fl) && e != "." && e != [Sep(fl)]
    requires Plain([x, w], fl) && |cs| > 0 && Plain(cs, fl)
    requires e + [Sep(fl)] + x + [Sep(fl)] + w in fs
    requires fs[e + [Sep(fl)] + x + [Sep(fl)] + w] == Link(".." + [Sep(fl)] + Join(cs, Sep(fl)))
    requires !IsLink(fs, e + [Sep(fl)] + Join(cs, Sep(fl)), fl)
    ensures RealPath(fs, e + [Sep(fl)] + x + [Sep(fl)] + w, fl) == e + [Sep(fl)] + Join(cs, Sep(fl))
  {
    var c := Sep(fl);
    var d := e + [c] + x;
    assert [x, w][0] == x && [x, w][1] == w;
    NormalChild(e, x, fl);
    assert |d| > 1;
    NormalChild(d, w, fl);
    ParentDestination(e, x, w, cs, fl);
    NormalDescendant(e, cs, fl);
    OneHop(fs, d + [c] + w, e + [c] + Join(cs, c), fl);
  }

  // ---------------------------------------------------------------------
  // deletion

  /** `k` lies strictly inside the directory `q`. */
  predicate Under(k: string, q: string, fl: Flavour) {
    0 < |q| < |k| && k[..|q|] == q && (k[|q|] == Sep(fl) || q[|q| - 1] == Sep(fl))
  }

  /** What lies under a directory lying under `q` lies under `q` too. */
  lemma UnderTransitive(k: string, q: string, q0: string, fl: Flavour)
    requires Under(k, q, fl) && Under(q, q0, fl)
    ensures Under(k, q0, fl)
  {
    assert k[..|q0|] == k[..|q|][..|q0|];
    assert k[|q0|] == k[..|q|][|q0|];
  }

  /**
   * `shutil.rmtree(p)` inside a try block: it succeeds only on a real directory
   * (not a link to one) whose deletion is not refused, and then removes the
   * directory and everything under it; on any failure nothing changes.
   */
  function RemoveTree(fs: FileSystem, p: string, fl: Flavour, denied: set<string>): (r: FileSystem)
    ensures r.Keys <= fs.Keys
    ensures forall k :: k in r ==> r[k] == fs[k]
    ensures !Exists(fs, p, fl) ==> r == fs
    ensures p !in denied && Normpath(p, fl) in fs && fs[Normpath(p, fl)] == Dir ==>
      forall k :: k in r ==> k != Normpath(p, fl) && !Under(k, Normpath(p, fl), fl)
    ensures !(p !in denied && Normpath(p, fl) in fs && fs[Normpath(p, fl)] == Dir) ==> r == fs
    ensures forall k :: k in fs && k !in r ==> k == Normpath(p, fl) || Under(k, Normpath(p, fl), fl)
  {
    var q := Normpath(p, fl);
    if p in denied || q !in fs || fs[q] != Dir then fs
    else
      assert RealPath(fs, p, fl) == q by { ResolveNonLink(fs, p, fl, |fs|); }
      map k | k in fs && k != q && !Under(k, q, fl) :: fs[k]
  }

  /** `os.remove(p)` inside a try block: the entry itself (a file, or a link) is unlinked unless refused. */
  function RemoveEntry(fs: FileSystem, p: string, fl: Flavour, denied: set<string>): (r: FileSystem)
    ensures r.Keys <= fs.Keys
    ensures forall k :: k in r ==> r[k] == fs[k]
    ensures p !in denied ==> Normpath(p, fl) !in r
    ensures forall k :: k in fs && k !in r ==> k == Normpath(p, fl)
  {
    if p in denied then fs else fs - {Normpath(p, fl)}
  }
}
