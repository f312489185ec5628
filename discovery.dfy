/**
 * The installation inventory every uninstaller keeps: a list of records, one
 * per installation path, grown by checking candidate paths one after another.
 * A candidate that proves valid is appended unless a record with the same
 * path is already there, so the first candidate for a path wins and the list
 * never holds two records with the same path.
 */
module Discovery {
  import opened Wrappers
  import opened Text
  import opened Paths
  import opened Versions
  import opened Lists

  /** One inventory entry; Java records carry no executable. */
  datatype Record = Record(path: string, version: string, installType: string, source: string, executable: Option<string>)

  /** A path to check, with the label of the scan that offered it. */
  datatype Candidate = Candidate(path: string, source: string)

  /** What a scan can observe: the filesystem, and what running a program gives back. */
  datatype Host = Host(fs: FileSystem, run: string -> ProcOutput)

  predicate HasPath(recs: seq<Record>, p: string) {
    exists i :: 0 <= i < |recs| && recs[i].path == p
  }

  predicate DistinctPaths(recs: seq<Record>) {
    forall i, j :: 0 <= i < j < |recs| ==> recs[i].path != recs[j].path
  }

  /**
   * Appending a validated candidate (`None` when the candidate was rejected):
   * the record goes at the end unless its path is already listed.
   */
  function InsertOpt(recs: seq<Record>, found: Option<Record>): (r: seq<Record>)
    ensures found.None? ==> r == recs
    ensures found.Some? && HasPath(recs, found.value.path) ==> r == recs
    ensures found.Some? && !HasPath(recs, found.value.path) ==> r == recs + [found.value]
    ensures found.Some? ==> HasPath(r, found.value.path)
    ensures DistinctPaths(recs) ==> DistinctPaths(r)
  {
    if found.Some? && !HasPath(recs, found.value.path) then
      assert r: (recs + [found.value])[|recs|] == found.value;
      recs + [found.value]
    else recs
  }

  /** The inventory after checking, in order, candidates whose validation outcomes are `found`. */
  function Discover(recs: seq<Record>, found: seq<Option<Record>>): (r: seq<Record>)
    ensures |recs| <= |r| <= |recs| + |found|
    ensures r[..|recs|] == recs
    ensures DistinctPaths(recs) ==> DistinctPaths(r)
  {
    if |found| == 0 then recs
    else InsertOpt(Discover(recs, found[..|found| - 1]), found[|found| - 1])
  }

  /** Checking one more candidate inserts its outcome into the inventory built so far. */
  lemma DiscoverSnoc(recs: seq<Record>, found: seq<Option<Record>>, i: nat)
    requires i < |found|
    ensures Discover(recs, found[..i + 1]) == InsertOpt(Discover(recs, found[..i]), found[i])
  {
    assert found[..i + 1][..i] == found[..i];
  }

  predicate Offers(found: seq<Option<Record>>, p: string) {
    exists i :: 0 <= i < |found| && found[i].Some? && found[i].value.path == p
  }

  /** A path is listed afterwards exactly when it was listed before or some valid candidate had it. */
  lemma {:induction false} DiscoverPaths(recs: seq<Record>, found: seq<Option<Record>>, p: string)
    ensures HasPath(Discover(recs, found), p) <==> HasPath(recs, p) || Offers(found, p)
  {
    if |found| > 0 {
      var init := found[..|found| - 1];
      DiscoverPaths(recs, init, p);
      InsertOptPath(Discover(recs, init), found[|found| - 1], p);
      OffersSnoc(found, p);
    }
  }

  /** After one insert a path is listed exactly when it was listed before or is the inserted record's. */
  lemma InsertOptPath(recs: seq<Record>, found: Option<Record>, p: string)
    ensures HasPath(InsertOpt(recs, found), p) <==> HasPath(recs, p) || (found.Some? && found.value.path == p)
  {
    if HasPath(recs, p) {
      var i :| 0 <= i < |recs| && recs[i].path == p;
      assert InsertOpt(recs, found)[i] == recs[i];
    }
  }

  /** A candidate list offers a path when its prefix does or its last outcome has it. */
  lemma OffersSnoc(found: seq<Option<Record>>, p: string)
    requires |found| > 0
    ensures Offers(found, p) <==> Offers(found[..|found| - 1], p) || (found[|found| - 1].Some? && found[|found| - 1].value.path == p)
  {
    var init := found[..|found| - 1];
    if Offers(init, p) {
      var i :| 0 <= i < |init| && init[i].Some? && init[i].value.path == p;
      assert found[i] == init[i];
    }
  }

  /** Every listed record was listed before or is the outcome of some candidate. */
  lemma {:induction false} DiscoverOrigin(recs: seq<Record>, found: seq<Option<Record>>, k: nat)
    requires k < |Discover(recs, found)|
    ensures k < |recs| || exists i :: 0 <= i < |found| && found[i] == Some(Discover(recs, found)[k])
  {
    if |found| > 0 {
      var init := found[..|found| - 1];
      var before := Discover(recs, init);
      if k < |before| {
        assert Discover(recs, found)[k] == before[k];
        DiscoverOrigin(recs, init, k);
        if k >= |recs| {
          var i :| 0 <= i < |init| && init[i] == Some(before[k]);
          assert found[i] == init[i];
        }
      }
    }
  }

  /** The first valid candidate for a path that was not yet listed is the record kept for it. */
  lemma {:induction false} DiscoverFirstWins(recs: seq<Record>, found: seq<Option<Record>>, i: nat)
    requires i < |found| && found[i].Some?
    requires !HasPath(recs, found[i].value.path)
    requires forall j :: 0 <= j < i && found[j].Some? ==> found[j].value.path != found[i].value.path
    ensures found[i].value in Discover(recs, found)
  {
    var init := found[..|found| - 1];
    if i == |found| - 1 {
      forall j | 0 <= j < |init| && init[j].Some? ensures init[j].value.path != found[i].value.path {
        assert init[j] == found[j];
      }
      DiscoverPaths(recs, init, found[i].value.path);
      assert Discover(recs, found) == Discover(recs, init) + [found[i].value];
    } else {
      assert init[i] == found[i];
      forall j | 0 <= j < i && init[j].Some? ensures init[j].value.path != init[i].value.path {
        assert init[j] == found[j];
      }
      DiscoverFirstWins(recs, init, i);
      var before := Discover(recs, init);
      var k :| 0 <= k < |before| && before[k] == found[i].value;
      assert Discover(recs, found)[k] == before[k];
    }
  }

  /** Candidates whose paths are all listed already change nothing. */
  lemma {:induction false} DiscoverSaturated(recs: seq<Record>, found: seq<Option<Record>>)
    requires forall i :: 0 <= i < |found| && found[i].Some? ==> HasPath(recs, found[i].value.path)
    ensures Discover(recs, found) == recs
  {
    if |found| > 0 {
      DiscoverSaturated(recs, found[..|found| - 1]);
    }
  }

  /** Scanning the same candidates again adds nothing. */
  lemma DiscoverIdempotent(recs: seq<Record>, found: seq<Option<Record>>)
    ensures Discover(Discover(recs, found), found) == Discover(recs, found)
  {
    var r := Discover(recs, found);
    forall i | 0 <= i < |found| && found[i].Some? ensures HasPath(r, found[i].value.path) {
      DiscoverPaths(recs, found, found[i].value.path);
    }
    DiscoverSaturated(r, found);
  }

  /** A scan from an empty inventory finds nothing exactly when every candidate is rejected. */
  lemma {:induction false} DiscoverEmpty(found: seq<Option<Record>>)
    ensures Discover([], found) == [] <==> forall i :: 0 <= i < |found| ==> found[i].None?
  {
    if |found| > 0 {
      var init := found[..|found| - 1];
      var last := found[|found| - 1];
      DiscoverEmpty(init);
      assert forall i :: 0 <= i < |init| ==> init[i] == found[i];
      if last.Some? {
        assert HasPath(Discover([], found), last.value.path);
      }
    }
  }

  // ---------------------------------------------------------------------
  // the duplicate checks

  /** `any(install['path'] == path for install in installations)`. */
  method FindPath(recs: seq<Record>, p: string) returns (present: bool)
    ensures present <==> HasPath(recs, p)
  {
    present := false;
    var i := 0;
    while i < |recs| && !present
      invariant 0 <= i <= |recs|
      invariant present <==> exists k :: 0 <= k < i && recs[k].path == p
    {
      present := recs[i].path == p;
      i := i + 1;
    }
  }

  predicate HasNormalisedPath(recs: seq<Record>, p: string, fl: Flavour) {
    exists i :: 0 <= i < |recs| && Normpath(recs[i].path, fl) == p
  }

  /** The loop of the Java path checks: is there a record whose normalised path is `p`? */
  method FindNormalisedPath(recs: seq<Record>, p: string, fl: Flavour) returns (present: bool)
    ensures present <==> HasNormalisedPath(recs, p, fl)
  {
    var i := 0;
    while i < |recs|
      invariant 0 <= i <= |recs|
      invariant forall k :: 0 <= k < i ==> Normpath(recs[k].path, fl) != p
    {
      if Normpath(recs[i].path, fl) == p {
        return true;
      }
      i := i + 1;
    }
    return false;
  }

  /** When every stored path is normal, comparing normalised paths is comparing paths. */
  lemma NormalisedLookup(recs: seq<Record>, p: string, fl: Flavour)
    requires forall i :: 0 <= i < |recs| ==> IsNormal(recs[i].path, fl)
    ensures HasNormalisedPath(recs, p, fl) <==> HasPath(recs, p)
  {
  }

  // ---------------------------------------------------------------------
  // candidate lists

  /** Label each path with the scan that offered it. */
  function Tagged(paths: seq<string>, source: string): (r: seq<Candidate>)
    ensures |r| == |paths|
    ensures forall i :: 0 <= i < |r| ==> r[i] == Candidate(paths[i], source)
    ensures forall c :: c in r <==> c.source == source && c.path in paths
  {
    seq(|paths|, i requires 0 <= i < |paths| => Candidate(paths[i], source))
  }

  /** The `os.path.exists` guard the standard-location scans apply to every glob match. */
  function Existing(fs: FileSystem, cands: seq<Candidate>, fl: Flavour): (r: seq<Candidate>)
    ensures forall i :: 0 <= i < |r| ==> r[i] in cands && Exists(fs, r[i].path, fl)
    ensures forall i :: 0 <= i < |cands| && Exists(fs, cands[i].path, fl) ==> cands[i] in r
    ensures forall c :: c in r <==> c in cands && Exists(fs, c.path, fl)
  {
    Filter(cands, (c: Candidate) => Exists(fs, c.path, fl))
  }

  /** A PATH entry a scan follows up: not empty, and its lower-case form contains a keyword. */
  function Mentions(kws: seq<string>): string -> bool {
    (s: string) => s != "" && ContainsAny(Lower(s), kws)
  }

  /** The PATH entries, split on `sep`, that name one of the keywords, in their PATH order. */
  function Mentioning(pathVar: string, sep: char, kws: seq<string>): (r: seq<string>)
    ensures forall i :: 0 <= i < |r| ==> r[i] != "" && ContainsAny(Lower(r[i]), kws) && sep !in r[i]
    ensures forall s :: s in r <==> s in Split(pathVar, sep) && s != "" && ContainsAny(Lower(s), kws)
  {
    Filter(Split(pathVar, sep), Mentions(kws))
  }
}
