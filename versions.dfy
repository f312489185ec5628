/**
 * Version strings read from a runtime's own output: `python --version`
 * (stdout, else stderr, stripped) and `java -version` (the first dotted number
 * on the first stderr line, found with the pattern `["']?(\d+(?:\.\d+)+)[_"']?`).
 * A subprocess is represented by what it produced.
 */
module Versions {
  import opened Text
  import opened Wrappers

  /** What `subprocess.run` gave back: the captured streams, or the exception it raised (launch failure, timeout). */
  datatype ProcOutput = Completed(stdout: string, stderr: string) | Raised(message: string)

  const PythonVersionFailure: string := "版本获取失败: "
  const UnknownVersion: string := "未知版本"

  // ---------------------------------------------------------------------
  // Python

  /**
   * `_get_python_version`: the stripped stdout when it is not blank, else the
   * stripped stderr; an exception becomes a message starting with the failure
   * prefix rather than stopping discovery.
   */
  function PythonVersion(out: ProcOutput): (v: string)
    ensures out.Raised? ==> |v| >= |PythonVersionFailure| && v[..|PythonVersionFailure|] == PythonVersionFailure
    ensures out.Raised? ==> v[|PythonVersionFailure|..] == out.message
    ensures out.Completed? ==> (v == "" <==> AllSpace(out.stdout) && AllSpace(out.stderr))
  {
    match out
    case Raised(msg) => PythonVersionFailure + msg
    case Completed(o, e) => if Strip(o) != "" then Strip(o) else Strip(e)
  }

  /**
   * A completed `--version` run yields exactly the stripped stdout when stdout
   * is not blank, and exactly the stripped stderr otherwise.
   */
  lemma PythonVersionSource(out: ProcOutput)
    requires out.Completed?
    ensures !AllSpace(out.stdout) ==> PythonVersion(out) != "" && StrippedFrom(out.stdout, PythonVersion(out))
    ensures AllSpace(out.stdout) ==> StrippedFrom(out.stderr, PythonVersion(out))
  {
    StripContained(out.stdout);
    StripContained(out.stderr);
  }

  // ---------------------------------------------------------------------
  // Java

  predicate IsDigit(c: char) {
    '0' <= c <= '9'
  }

  /** The length of the run of digits that starts at `i`. */
  function DigitRun(s: string, i: nat): (n: nat)
    requires i <= |s|
    ensures i + n <= |s|
    ensures forall k :: i <= k < i + n ==> IsDigit(s[k])
    ensures i + n < |s| ==> !IsDigit(s[i + n])
    decreases |s| - i
  {
    if i < |s| && IsDigit(s[i]) then 1 + DigitRun(s, i + 1) else 0
  }

  /** `\d+(?:\.\d+)+` matches at `j`: a digit run followed by a dot and a digit. */
  predicate DottedAt(s: string, j: nat) {
    j < |s| && IsDigit(s[j]) &&
    var e := j + DigitRun(s, j);
    e + 1 < |s| && s[e] == '.' && IsDigit(s[e + 1])
  }

  /** From the end `e` of a digit run, take every further `.digits` group greedily. */
  function GroupEnd(s: string, e: nat): (r: nat)
    requires e <= |s|
    ensures e <= r <= |s|
    decreases |s| - e
  {
    if e + 1 < |s| && s[e] == '.' && IsDigit(s[e + 1]) then GroupEnd(s, e + 1 + DigitRun(s, e + 1)) else e
  }

  /** The first position at or after `i` where a dotted number starts. */
  function FirstDotted(s: string, i: nat): (r: Option<nat>)
    ensures r.Some? ==> i <= r.value && DottedAt(s, r.value) && forall k :: i <= k < r.value ==> !DottedAt(s, k)
    ensures r.None? ==> forall k :: i <= k ==> !DottedAt(s, k)
    decreases |s| - i
  {
    if i >= |s| then None
    else if DottedAt(s, i) then Some(i)
    else FirstDotted(s, i + 1)
  }

  /** A non-empty run of digits and single dots that starts and ends with a digit and holds at least one dot. */
  predicate IsDottedNumber(v: string) {
    |v| > 0 && IsDigit(v[0]) && IsDigit(v[|v| - 1]) && '.' in v &&
    forall k :: 0 <= k < |v| ==> IsDigit(v[k]) || (v[k] == '.' && k + 1 < |v| && IsDigit(v[k + 1]))
  }

  /** `s[a..e]` is digits and single dots, starting and ending with a digit. */
  predicate Shaped(s: string, a: nat, e: nat) {
    a < e <= |s| && IsDigit(s[a]) && IsDigit(s[e - 1]) &&
    forall k :: a <= k < e ==> IsDigit(s[k]) || (s[k] == '.' && k + 1 < e && IsDigit(s[k + 1]))
  }

  lemma {:induction false} GroupEndShaped(s: string, a: nat, e: nat)
    requires Shaped(s, a, e)
    requires e == |s| || !IsDigit(s[e])
    ensures Shaped(s, a, GroupEnd(s, e))
    ensures GroupEnd(s, e) == |s| || !IsDigit(s[GroupEnd(s, e)])
    ensures GroupEnd(s, e) > e ==> '.' in s[a..GroupEnd(s, e)]
    ensures GroupEnd(s, e) + 1 < |s| ==> !(s[GroupEnd(s, e)] == '.' && IsDigit(s[GroupEnd(s, e) + 1]))
    decreases |s| - e
  {
    if e + 1 < |s| && s[e] == '.' && IsDigit(s[e + 1]) {
      var e' := e + 1 + DigitRun(s, e + 1);
      assert Shaped(s, a, e');
      GroupEndShaped(s, a, e');
      assert s[a..GroupEnd(s, e)][e - a] == '.';
    }
  }

  /** Where the regular expression's group ends when the match starts at `j`. */
  function MatchEnd(s: string, j: nat): nat
    requires j <= |s|
  {
    GroupEnd(s, j + DigitRun(s, j))
  }

  /** The group matched at a dotted-number start is a whole dotted number: it cannot be extended by a digit or a `.digits` group. */
  lemma MatchFacts(s: string, j: nat)
    requires DottedAt(s, j)
    ensures j < MatchEnd(s, j) <= |s|
    ensures IsDottedNumber(s[j..MatchEnd(s, j)])
    ensures MatchEnd(s, j) == |s| || !IsDigit(s[MatchEnd(s, j)])
    ensures !(MatchEnd(s, j) + 1 < |s| && s[MatchEnd(s, j)] == '.' && IsDigit(s[MatchEnd(s, j) + 1]))
  {
    var e := j + DigitRun(s, j);
    assert Shaped(s, j, e);
    GroupEndShaped(s, j, e);
    var g := GroupEnd(s, e);
    assert g == GroupEnd(s, e + 1 + DigitRun(s, e + 1));
    assert e < g;
    ShapedIsDotted(s, j, g);
  }

  /** A shaped stretch with a dot in it is a dotted number. */
  lemma ShapedIsDotted(s: string, a: nat, g: nat)
    requires Shaped(s, a, g) && '.' in s[a..g]
    ensures IsDottedNumber(s[a..g])
  {
    var v := s[a..g];
    assert v[0] == s[a] && v[|v| - 1] == s[g - 1];
    forall k | 0 <= k < |v|
      ensures IsDigit(v[k]) || (v[k] == '.' && k + 1 < |v| && IsDigit(v[k + 1]))
    {
      assert v[k] == s[a + k];
      if k + 1 < |v| {
        assert v[k + 1] == s[a + k + 1];
      }
    }
  }

  /** The first dotted number in one line, or the unknown-version sentinel. */
  function VersionInLine(line: string): (v: string)
    ensures v == UnknownVersion <==> forall j :: !DottedAt(line, j)
    ensures v != UnknownVersion ==> IsDottedNumber(v)
  {
    UnknownVersionIsNotDotted();
    match FirstDotted(line, 0)
    case None => UnknownVersion
    case Some(j) =>
      MatchFacts(line, j);
      line[j..MatchEnd(line, j)]
  }

  /** `v` occurs at `j`, the first position where a dotted number starts, and is the whole digit run there. */
  predicate LeftmostMatch(line: string, v: string, j: nat) {
    && OccursAt(line, v, j) && DottedAt(line, j)
    && (forall k :: 0 <= k < j ==> !DottedAt(line, k))
    && (j + |v| == |line| || !IsDigit(line[j + |v|]))
  }

  /**
   * The version found is the leftmost match: it sits at the first position where
   * a dotted number starts, and it is the whole dotted number there.
   */
  lemma VersionInLineLeftmost(line: string)
    requires VersionInLine(line) != UnknownVersion
    ensures exists j: nat :: LeftmostMatch(line, VersionInLine(line), j)
  {
    var r := FirstDotted(line, 0);
    assert r.Some?;
    var j := r.value;
    MatchIsLeftmost(line, j);
    assert VersionInLine(line) == line[j..MatchEnd(line, j)];
  }

  lemma MatchIsLeftmost(line: string, j: nat)
    requires FirstDotted(line, 0) == Some(j)
    ensures j < MatchEnd(line, j) <= |line|
    ensures LeftmostMatch(line, line[j..MatchEnd(line, j)], j)
  {
    MatchBounds(line, j);
    var e := MatchEnd(line, j);
    var v := line[j..e];
    assert j + |v| == e;
    assert line[j..j + |v|] == v;
  }

  /** Where a match at a dotted-number start ends: after `j`, and not before a digit. */
  lemma MatchBounds(s: string, j: nat)
    requires DottedAt(s, j)
    ensures j < MatchEnd(s, j) <= |s|
    ensures MatchEnd(s, j) == |s| || !IsDigit(s[MatchEnd(s, j)])
  {
    MatchFacts(s, j);
  }

  lemma UnknownVersionIsNotDotted()
    ensures !IsDottedNumber(UnknownVersion)
  {
    assert !IsDigit(UnknownVersion[0]);
  }

  /** The first line of `s`, as `s.splitlines()[0]` gives it when `s` is not empty. */
  function FirstLine(s: string): string {
    s[..LineLength(s)]
  }

  /**
   * `_get_java_version`: the first dotted number on the first line of stderr;
   * the sentinel when there is none, when stderr is empty (the line lookup
   * raises) or when running the program raised.
   */
  function JavaVersion(out: ProcOutput): (v: string)
    ensures v == UnknownVersion || IsDottedNumber(v)
    ensures out.Raised? ==> v == UnknownVersion
    ensures out.Completed? && out.stderr == "" ==> v == UnknownVersion
    ensures out.Completed? && out.stderr != "" ==> v == VersionInLine(FirstLine(out.stderr))
  {
    match out
    case Raised(_) => UnknownVersion
    case Completed(_, e) =>
      var lines := SplitLines(e);
      if |lines| == 0 then UnknownVersion else VersionInLine(lines[0])
  }
}
