/**
 * Release selection (core/src/github.rs): the visitor that folds the list of
 * releases a repository publishes into the last prerelease and the newest
 * published release.
 *
 * Timestamps are integers; `parse` stands for the timestamp parser and fails
 * with `None`. The deserialisation of each release from JSON is left out:
 * the fold receives the releases already read.
 */
module GitHub {
  import opened Wrappers

  datatype Asset = Asset(browserDownloadUrl: string, name: string)

  datatype Release = Release(
    tagName: string, id: int, assets: seq<Asset>,
    prerelease: bool, draft: bool, publishedAt: string)

  datatype LatestRelease = LatestRelease(
    latest: Option<Release>, prerelease: Option<Release>, latestNotRecent: Option<Release>)

  datatype Error = CannotParseDate

  /** What the fold keeps between releases: the latest candidate and the last prerelease. */
  datatype State = State(latest: Option<Release>, prerelease: Option<Release>)

  /** A release that may become `latest`: neither a prerelease nor a draft. */
  predicate Candidate(r: Release) {
    !r.prerelease && !r.draft
  }

  /** A candidate arriving while `latest` is held: it replaces `latest` only when strictly later; either date may fail to parse. */
  function Compare(parse: string -> Option<int>, latest: Release, value: Release): Result<Release, Error> {
    match parse(value.publishedAt)
    case None => Err(CannotParseDate)
    case Some(t) =>
      match parse(latest.publishedAt)
      case None => Err(CannotParseDate)
      case Some(u) => if t > u then Ok(value) else Ok(latest)
  }

  /** One iteration of the loop. */
  function Step(parse: string -> Option<int>, s: State, value: Release): Result<State, Error> {
    if value.prerelease then Ok(s.(prerelease := Some(value)))
    else if value.draft then Ok(s)
    else if s.latest.None? then Ok(s.(latest := Some(value)))
    else
      match Compare(parse, s.latest.value, value)
      case Err(e) => Err(e)
      case Ok(l) => Ok(s.(latest := Some(l)))
  }

  /** The state after the loop has consumed `rs`, or the error that stopped it. */
  function Fold(parse: string -> Option<int>, rs: seq<Release>): Result<State, Error>
    decreases |rs|
  {
    if rs == [] then Ok(State(None, None))
    else
      match Fold(parse, rs[..|rs| - 1])
      case Err(e) => Err(e)
      case Ok(s) => Step(parse, s, rs[|rs| - 1])
  }

  /** `visit_seq` of `deserialize_max`. */
  method VisitSeq(parse: string -> Option<int>, releases: seq<Release>) returns (r: Result<LatestRelease, Error>)
    ensures Fold(parse, releases).Err? ==> r == Err(Fold(parse, releases).error)
    ensures Fold(parse, releases).Ok? ==>
      var s := Fold(parse, releases).value;
      r == Ok(LatestRelease(s.latest, s.prerelease, s.latest))
  {
    var latest: Option<Release> := None;
    var prerelease: Option<Release> := None;
    var k := 0;
    while k < |releases|
      invariant 0 <= k <= |releases|
      invariant Fold(parse, releases[..k]) == Ok(State(latest, prerelease))
    {
      var value := releases[k];
      assert releases[..k + 1][..k] == releases[..k];
      if value.prerelease {
        prerelease := Some(value);
      } else if !value.draft {
        match latest {
          case None =>
            latest := Some(value);
          case Some(v) =>
            var publishedAt := parse(value.publishedAt);
            if publishedAt.None? {
              FoldErrSticky(parse, releases, k + 1);
              assert releases[..|releases|] == releases;
              return Err(CannotParseDate);
            }
            var currentPublishedAt := parse(v.publishedAt);
            if currentPublishedAt.None? {
              FoldErrSticky(parse, releases, k + 1);
              assert releases[..|releases|] == releases;
              return Err(CannotParseDate);
            }
            if publishedAt.value > currentPublishedAt.value {
              latest := Some(value);
            }
        }
      }
      k := k + 1;
    }
    assert releases[..k] == releases;
    return Ok(LatestRelease(latest, prerelease, latest));
  }

  /** Once the loop has failed it stays failed: the releases after the failure are not looked at. */
  lemma {:induction false} FoldErrSticky(parse: string -> Option<int>, rs: seq<Release>, k: nat)
    requires k <= |rs| && Fold(parse, rs[..k]).Err?
    ensures Fold(parse, rs).Err? && Fold(parse, rs).error == Fold(parse, rs[..k]).error
    decreases |rs| - k
  {
    if k < |rs| {
      assert rs[..k + 1][..k] == rs[..k];
      FoldErrSticky(parse, rs, k + 1);
    } else {
      assert rs[..k] == rs;
    }
  }

  /* ---------- What the fold computes ---------- */

  /** The number of candidates among `rs`. */
  function Candidates(rs: seq<Release>): nat {
    if rs == [] then 0
    else Candidates(rs[..|rs| - 1]) + (if Candidate(rs[|rs| - 1]) then 1 else 0)
  }

  /** Some candidate's date does not parse. */
  predicate SomeDateFails(parse: string -> Option<int>, rs: seq<Release>) {
    exists i :: 0 <= i < |rs| && Candidate(rs[i]) && parse(rs[i].publishedAt).None?
  }

  /** The index of the last prerelease, if any. */
  function LastPrerelease(rs: seq<Release>): (r: Option<nat>)
    ensures r.None? <==> forall i :: 0 <= i < |rs| ==> !rs[i].prerelease
    ensures r.Some? ==>
      r.value < |rs| && rs[r.value].prerelease && forall j :: r.value < j < |rs| ==> !rs[j].prerelease
    decreases |rs|
  {
    if rs == [] then None
    else if rs[|rs| - 1].prerelease then Some(|rs| - 1)
    else LastPrerelease(rs[..|rs| - 1])
  }

  /** An empty list of releases yields nothing at all. */
  lemma FoldEmpty(parse: string -> Option<int>)
    ensures Fold(parse, []) == Ok(State(None, None))
  {
  }

  /** A date fails among the releases and one more exactly when it fails among the first ones or for the new candidate. */
  lemma SomeDateFailsSnoc(parse: string -> Option<int>, rs: seq<Release>)
    requires rs != []
    ensures SomeDateFails(parse, rs) <==>
      SomeDateFails(parse, rs[..|rs| - 1])
      || (Candidate(rs[|rs| - 1]) && parse(rs[|rs| - 1].publishedAt).None?)
  {
    var init := rs[..|rs| - 1];
    assert forall i :: 0 <= i < |init| ==> init[i] == rs[i];
    if SomeDateFails(parse, rs) {
      var i :| 0 <= i < |rs| && Candidate(rs[i]) && parse(rs[i].publishedAt).None?;
      if i < |init| {
        assert Candidate(init[i]) && parse(init[i].publishedAt).None?;
      }
    }
  }

  /**
   * The fold fails exactly when there are at least two candidates and the
   * date of one of them does not parse: a date is parsed only for a
   * comparison, and the first candidate is compared only once a second one
   * arrives. The latest release kept is a candidate, and its date parses
   * exactly when every candidate's does.
   */
  lemma {:induction false} FoldFails(parse: string -> Option<int>, rs: seq<Release>)
    ensures Fold(parse, rs).Err? <==> Candidates(rs) >= 2 && SomeDateFails(parse, rs)
    ensures Fold(parse, rs).Ok? ==> (Fold(parse, rs).value.latest.Some? <==> Candidates(rs) >= 1)
    ensures Fold(parse, rs).Ok? && Fold(parse, rs).value.latest.Some? ==>
      var l := Fold(parse, rs).value.latest.value;
      Candidate(l) && (parse(l.publishedAt).Some? <==> !SomeDateFails(parse, rs))
    decreases |rs|
  {
    if rs != [] {
      var init := rs[..|rs| - 1];
      FoldFails(parse, init);
      SomeDateFailsSnoc(parse, rs);
      if Candidates(init) == 0 {
        NoCandidates(init);
      }
    }
  }

  /** The prerelease kept is the last one in the list, draft or not. */
  lemma {:induction false} FoldPrerelease(parse: string -> Option<int>, rs: seq<Release>)
    requires Fold(parse, rs).Ok?
    ensures Fold(parse, rs).value.prerelease ==
      match LastPrerelease(rs) case None => None case Some(i) => Some(rs[i])
    decreases |rs|
  {
    if rs != [] {
      var init := rs[..|rs| - 1];
      assert Fold(parse, init).Ok?;
      FoldPrerelease(parse, init);
    }
  }

  /**
   * The latest release kept is a candidate at some index `i` whose date is at
   * least that of every other candidate, and strictly later than that of
   * every candidate before it: the newest, the earliest of equals.
   */
  lemma {:induction false} FoldLatest(parse: string -> Option<int>, rs: seq<Release>) returns (i: nat)
    requires Fold(parse, rs).Ok? && Fold(parse, rs).value.latest.Some?
    ensures i < |rs| && Fold(parse, rs).value.latest == Some(rs[i]) && Candidate(rs[i])
    ensures forall j :: 0 <= j < |rs| && j != i && Candidate(rs[j]) ==>
      parse(rs[j].publishedAt).Some? && parse(rs[i].publishedAt).Some?
      && parse(rs[j].publishedAt).value <= parse(rs[i].publishedAt).value
      && (j < i ==> parse(rs[j].publishedAt).value < parse(rs[i].publishedAt).value)
    decreases |rs|
  {
    var init := rs[..|rs| - 1];
    var v := rs[|rs| - 1];
    assert forall j :: 0 <= j < |init| ==> init[j] == rs[j];
    var prev := Fold(parse, init);
    assert prev.Ok?;
    FoldFails(parse, init);
    FoldFails(parse, rs);
    if prev.value.latest.None? {
      // No candidate before: `v` itself is the only one.
      assert Candidates(init) == 0;
      NoCandidates(init);
      i := |rs| - 1;
    } else {
      var p := FoldLatest(parse, init);
      if !Candidate(v) {
        i := p;
      } else {
        assert Candidates(rs) >= 2;
        assert !SomeDateFails(parse, rs);
        assert parse(v.publishedAt).Some?;
        assert parse(rs[p].publishedAt).Some?;
        if parse(v.publishedAt).value > parse(rs[p].publishedAt).value {
          i := |rs| - 1;
        } else {
          i := p;
        }
      }
    }
  }

  /** With no candidate counted, no release is a candidate. */
  lemma {:induction false} NoCandidates(rs: seq<Release>)
    requires Candidates(rs) == 0
    ensures forall j :: 0 <= j < |rs| ==> !Candidate(rs[j])
    decreases |rs|
  {
    if rs != [] {
      var init := rs[..|rs| - 1];
      NoCandidates(init);
      assert forall j :: 0 <= j < |init| ==> init[j] == rs[j];
    }
  }
}
