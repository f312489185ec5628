/**
 * Python string operations used by the uninstallers: `lower`, the `in`
 * substring test, `split(sep)`, `sep.join`, `strip()` and `splitlines()`.
 * `lower` is modelled on ASCII letters only.
 */
module Text {

  predicate IsAsciiUpper(c: char) {
    'A' <= c <= 'Z'
  }

  function LowerChar(c: char): (d: char)
    ensures !IsAsciiUpper(d)
    ensures !IsAsciiUpper(c) ==> d == c
  {
    if IsAsciiUpper(c) then (c as int + 32) as char else c
  }

  /** `s.lower()` on ASCII letters. */
  function Lower(s: string): (r: string)
    ensures |r| == |s|
    ensures forall i :: 0 <= i < |s| ==> r[i] == LowerChar(s[i])
  {
    seq(|s|, i requires 0 <= i < |s| => LowerChar(s[i]))
  }

  predicate HasUpper(s: string) {
    exists i :: 0 <= i < |s| && IsAsciiUpper(s[i])
  }

  /** `t` occurs in `s` starting at index `i`. */
  predicate OccursAt(s: string, t: string, i: nat) {
    i + |t| <= |s| && s[i..i + |t|] == t
  }

  /** Python's `t in s` for strings. */
  predicate Contains(s: string, t: string) {
    exists i: nat | i <= |s| :: OccursAt(s, t, i)
  }

  /** `any(kw in s for kw in kws)`. */
  predicate ContainsAny(s: string, kws: seq<string>) {
    exists k :: 0 <= k < |kws| && Contains(s, kws[k])
  }

  /** A string that contains `t` contains every piece of `t`. */
  lemma ContainsPiece(s: string, t: string, a: nat, b: nat)
    requires a <= b <= |t| && Contains(s, t)
    ensures Contains(s, t[a..b])
  {
    var i: nat :| i <= |s| && OccursAt(s, t, i);
    assert i + |t| <= |s| && s[i..i + |t|] == t;
    forall m | 0 <= m < b - a
      ensures s[i + a..i + b][m] == t[a..b][m]
    {
      assert t[a + m] == s[i..i + |t|][a + m];
    }
    assert OccursAt(s, t[a..b], i + a);
  }

  /** The longer install-type keywords contain the shorter ones that are tested before them. */
  lemma LongerKeywords(s: string)
    ensures Contains(s, "anaconda") ==> Contains(s, "conda")
    ensures Contains(s, ".virtualenvs") ==> Contains(s, "virtualenv")
  {
    if Contains(s, "anaconda") {
      ContainsPiece(s, "anaconda", 3, 8);
      assert "anaconda"[3..8] == "conda";
    }
    if Contains(s, ".virtualenvs") {
      ContainsPiece(s, ".virtualenvs", 1, 11);
      assert ".virtualenvs"[1..11] == "virtualenv";
    }
  }

  /** A lower-cased string never contains a needle that has an upper-case letter. */
  lemma {:induction false} LowerNeverContainsUpper(s: string, t: string)
    requires HasUpper(t)
    ensures !Contains(Lower(s), t)
  {
    var j :| 0 <= j < |t| && IsAsciiUpper(t[j]);
    forall i: nat | i <= |s| ensures !OccursAt(Lower(s), t, i) {
      if i + |t| <= |s| {
        assert Lower(s)[i..i + |t|][j] == Lower(s)[i + j];
      }
    }
  }

  /** Lower-casing twice is lower-casing once. */
  lemma LowerIdempotent(s: string)
    ensures Lower(Lower(s)) == Lower(s)
  {
  }

  /** A needle one of whose characters never occurs in `s` is not in `s`. */
  lemma {:induction false} MissingCharNotContained(s: string, t: string, j: nat)
    requires j < |t| && t[j] !in s
    ensures !Contains(s, t)
  {
    forall i: nat | i <= |s| ensures !OccursAt(s, t, i) {
      if i + |t| <= |s| {
        assert s[i..i + |t|][j] == s[i + j];
      }
    }
  }

  // ---------------------------------------------------------------------
  // split / join

  /** `s.split(c)`: the pieces between separators; "" splits into [""]. */
  function Split(s: string, c: char): (r: seq<string>)
    ensures |r| >= 1
    ensures forall k :: 0 <= k < |r| ==> c !in r[k]
  {
    if |s| == 0 then [""]
    else
      var rest := Split(s[1..], c);
      if s[0] == c then [""] + rest else [[s[0]] + rest[0]] + rest[1..]
  }

  /** `c.join(xs)`. */
  function Join(xs: seq<string>, c: char): string {
    if |xs| == 0 then ""
    else if |xs| == 1 then xs[0]
    else xs[0] + [c] + Join(xs[1..], c)
  }

  lemma {:induction false} SplitNoSep(a: string, c: char)
    requires c !in a
    ensures Split(a, c) == [a]
  {
    if |a| > 0 {
      SplitNoSep(a[1..], c);
      assert [a[0]] + a[1..] == a;
    }
  }

  /** Splitting distributes over a separator: the pieces of `a + c + b` are those of `a` then those of `b`. */
  lemma {:induction false} SplitConcat(a: string, b: string, c: char)
    ensures Split(a + [c] + b, c) == Split(a, c) + Split(b, c)
  {
    var s := a + [c] + b;
    if |a| == 0 {
      assert s[0] == c && s[1..] == b;
    } else {
      assert s[0] == a[0];
      assert s[1..] == a[1..] + [c] + b;
      SplitConcat(a[1..], b, c);
      var ra := Split(a[1..], c);
      var rb := Split(b, c);
      var rs := Split(s[1..], c);
      assert rs == ra + rb;
      if a[0] == c {
        assert Split(s, c) == [""] + rs;
        assert Split(a, c) == [""] + ra;
      } else {
        assert rs[0] == ra[0] && rs[1..] == ra[1..] + rb;
        assert Split(s, c) == [[a[0]] + ra[0]] + (ra[1..] + rb);
        assert Split(a, c) == [[a[0]] + ra[0]] + ra[1..];
      }
    }
  }

  lemma {:induction false} JoinNonEmpty(xs: seq<string>, c: char)
    requires |xs| > 0 && |xs[0]| > 0
    ensures |Join(xs, c)| > 0 && Join(xs, c)[0] == xs[0][0]
  {
  }

  lemma {:induction false} JoinSnoc(xs: seq<string>, w: string, c: char)
    requires |xs| > 0
    ensures Join(xs + [w], c) == Join(xs, c) + [c] + w
  {
    if |xs| == 1 {
      assert xs + [w] == [xs[0], w];
    } else {
      assert (xs + [w])[1..] == xs[1..] + [w];
      JoinSnoc(xs[1..], w, c);
    }
  }

  lemma {:induction false} JoinLast(xs: seq<string>, c: char)
    requires |xs| > 0 && |xs[|xs| - 1]| > 0
    ensures |Join(xs, c)| > 0 && Join(xs, c)[|Join(xs, c)| - 1] == xs[|xs| - 1][|xs[|xs| - 1]| - 1]
  {
    if |xs| > 1 {
      JoinLast(xs[1..], c);
    }
  }

  /** Joining pieces that hold no separator and splitting again gives the pieces back. */
  lemma {:induction false} SplitJoin(xs: seq<string>, c: char)
    requires |xs| > 0
    requires forall k :: 0 <= k < |xs| ==> c !in xs[k]
    ensures Split(Join(xs, c), c) == xs
  {
    if |xs| == 1 {
      SplitNoSep(xs[0], c);
    } else {
      SplitJoin(xs[1..], c);
      SplitConcat(xs[0], Join(xs[1..], c), c);
      SplitNoSep(xs[0], c);
      assert [xs[0]] + xs[1..] == xs;
    }
  }

  // ---------------------------------------------------------------------
  // strip

  /** The characters Python's `str.isspace()` accepts. */
  predicate IsSpace(c: char) {
    c == ' ' || c == '\t' || c == '\n' || c == '\r' || c == '\U{000B}' || c == '\U{000C}'
    || ('\U{001C}' <= c <= '\U{001F}') || c == '\U{0085}' || c == '\U{00A0}' || c == '\U{1680}'
    || ('\U{2000}' <= c <= '\U{200A}') || c == '\U{2028}' || c == '\U{2029}' || c == '\U{202F}'
    || c == '\U{205F}' || c == '\U{3000}'
  }

  predicate AllSpace(s: string) {
    forall i :: 0 <= i < |s| ==> IsSpace(s[i])
  }

  function LStrip(s: string): (r: string)
    ensures |r| <= |s| && r == s[|s| - |r|..]
    ensures AllSpace(s[..|s| - |r|])
    ensures |r| > 0 ==> !IsSpace(r[0])
  {
    if |s| > 0 && IsSpace(s[0]) then LStrip(s[1..]) else s
  }

  function RStrip(s: string): (r: string)
    ensures |r| <= |s| && r == s[..|r|]
    ensures AllSpace(s[|r|..])
    ensures |r| > 0 ==> !IsSpace(r[|r| - 1])
  {
    if |s| > 0 && IsSpace(s[|s| - 1]) then RStrip(s[..|s| - 1]) else s
  }

  /**
   * `s.strip()`: what is left of `s` after removing whitespace at both ends; it
   * starts and ends with a non-space, and is empty exactly when `s` is all
   * whitespace.
   */
  function Strip(s: string): (r: string)
    ensures |r| > 0 ==> !IsSpace(r[0]) && !IsSpace(r[|r| - 1])
    ensures r == "" <==> AllSpace(s)
  {
    var l := LStrip(s);
    assert s == s[..|s| - |l|] + l;
    RStrip(l)
  }

  /** `v` is `s` with its surrounding whitespace cut off: it sits in `s` between two all-space stretches and has none at its own ends. */
  predicate StrippedFrom(s: string, v: string) {
    && (exists a: nat | a <= |s| :: OccursAt(s, v, a) && AllSpace(s[..a]) && AllSpace(s[a + |v|..]))
    && (|v| > 0 ==> !IsSpace(v[0]) && !IsSpace(v[|v| - 1]))
  }

  /** The stripped string is the middle of `s`, with only whitespace cut from either side. */
  lemma StripContained(s: string)
    ensures StrippedFrom(s, Strip(s))
    ensures Contains(s, Strip(s))
  {
    var l := LStrip(s);
    var r := Strip(s);
    var a := |s| - |l|;
    assert s[a..] == l;
    assert s[a..a + |r|] == r;
    assert s[a + |r|..] == l[|r|..];
    assert OccursAt(s, r, a);
  }

  /** Only one string is `s` stripped, so `StrippedFrom` characterises `Strip`. */
  lemma StrippedFromUnique(s: string, v: string)
    requires StrippedFrom(s, v)
    ensures v == Strip(s)
  {
    var a: nat :| a <= |s| && OccursAt(s, v, a) && AllSpace(s[..a]) && AllSpace(s[a + |v|..]);
    if |v| == 0 {
      assert s == s[..a] + s[a..];
      assert forall i :: 0 <= i < |s| ==> IsSpace(s[i]) by {
        forall i | 0 <= i < |s| ensures IsSpace(s[i]) {
          if i < a { assert s[i] == s[..a][i]; } else { assert s[i] == s[a..][i - a]; }
        }
      }
    } else {
      assert s[a] == v[0];
      LStripSkips(s, a);
      var t := s[a..];
      assert t[..|v|] == v;
      assert t[|v|..] == s[a + |v|..];
      RStripSkips(t, |v|);
    }
  }

  /** `LStrip` removes exactly a leading run of whitespace that ends at a non-space. */
  lemma {:induction false} LStripSkips(s: string, a: nat)
    requires a < |s| && AllSpace(s[..a]) && !IsSpace(s[a])
    ensures LStrip(s) == s[a..]
    decreases a
  {
    if a > 0 {
      assert IsSpace(s[..a][0]);
      var u := s[1..][..a - 1];
      assert AllSpace(u) by {
        forall i | 0 <= i < a - 1 ensures IsSpace(u[i]) {
          assert u[i] == s[..a][i + 1];
        }
      }
      LStripSkips(s[1..], a - 1);
      assert s[1..][a - 1..] == s[a..];
    }
  }

  /** `RStrip` removes exactly a trailing run of whitespace that follows a non-space. */
  lemma {:induction false} RStripSkips(s: string, n: nat)
    requires 0 < n <= |s| && AllSpace(s[n..]) && !IsSpace(s[n - 1])
    ensures RStrip(s) == s[..n]
    decreases |s| - n
  {
    if n < |s| {
      var s' := s[..|s| - 1];
      assert IsSpace(s[n..][|s| - 1 - n]);
      assert s'[n..] == s[n..|s| - 1];
      assert AllSpace(s'[n..]) by {
        forall i | 0 <= i < |s'| - n ensures IsSpace(s'[n..][i]) {
          assert s'[n..][i] == s[n..][i];
        }
      }
      RStripSkips(s', n);
      assert s'[..n] == s[..n];
    }
  }

  // ---------------------------------------------------------------------
  // splitlines

  /** The line boundaries of Python's `str.splitlines()`. */
  predicate IsLineBreak(c: char) {
    c == '\n' || c == '\r' || c == '\U{000B}' || c == '\U{000C}' || c == '\U{001C}' || c == '\U{001D}'
    || c == '\U{001E}' || c == '\U{0085}' || c == '\U{2028}' || c == '\U{2029}'
  }

  /** Length of the first line of `s`: the index of its first line boundary, or `|s|`. */
  function LineLength(s: string): (n: nat)
    ensures n <= |s|
    ensures forall i :: 0 <= i < n ==> !IsLineBreak(s[i])
    ensures n < |s| ==> IsLineBreak(s[n])
  {
    if |s| == 0 || IsLineBreak(s[0]) then 0 else 1 + LineLength(s[1..])
  }

  /**
   * `s.splitlines()`: the lines of `s` without their terminators; "\r\n" is
   * one boundary and a final terminator does not open an empty last line.
   */
  function SplitLines(s: string): (r: seq<string>)
    ensures |r| == 0 <==> |s| == 0
    ensures |r| > 0 ==> r[0] == s[..LineLength(s)]
    ensures forall k :: 0 <= k < |r| ==> forall i :: 0 <= i < |r[k]| ==> !IsLineBreak(r[k][i])
    decreases |s|
  {
    if |s| == 0 then []
    else
      var n := LineLength(s);
      if n == |s| then [s]
      else
        var width := if s[n] == '\r' && n + 1 < |s| && s[n + 1] == '\n' then 2 else 1;
        [s[..n]] + SplitLines(s[n + width..])
  }
  /** A text written line by line with `\n` splits back into its lines, the last one non-empty. */
  lemma {:induction false} SplitLinesJoin(xs: seq<string>)
    requires |xs| > 0 && xs[|xs| - 1] != ""
    requires forall k :: 0 <= k < |xs| ==> forall i :: 0 <= i < |xs[k]| ==> !IsLineBreak(xs[k][i])
    ensures SplitLines(Join(xs, '\n')) == xs
    decreases |xs|
  {
    var s := Join(xs, '\n');
    var a := xs[0];
    if |xs| == 1 {
    } else {
      var b := Join(xs[1..], '\n');
      assert s == a + ['\n'] + b;
      var n := LineLength(s);
      assert s[|a|] == '\n';
      assert n == |a|;
      assert s[..n] == a && s[n + 1..] == b;
      SplitLinesJoin(xs[1..]);
      assert [a] + xs[1..] == xs;
    }
  }

}
