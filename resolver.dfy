/** The version resolver `get_last_tag_by_version`: the first tag of the list that
    lies on the requested `MAJOR.MINOR` line. */
module Resolver {
  import opened Text
  import opened Outcomes
  import opened Tags

  /** The compiled pattern `^` + version + `\.\d+$`, with the version's dots
      escaped: the tag is the version, a dot and a non-empty digit run. */
  predicate MatchesVersion(version: string, tag: string) {
    |tag| > |version| + 1 &&
    tag[..|version|] == version && tag[|version|] == '.' &&
    IsDigits(tag[|version| + 1..])
  }

  /** The index of the first tag that matches, or |tags| when none does. */
  function FirstMatch(version: string, tags: seq<string>): (i: nat)
    ensures i <= |tags|
    ensures i < |tags| ==> MatchesVersion(version, tags[i])
    ensures forall k :: 0 <= k < i ==> !MatchesVersion(version, tags[k])
    decreases |tags|
  {
    if tags == [] then 0
    else if MatchesVersion(version, tags[0]) then 0
    else 1 + FirstMatch(version, tags[1..])
  }

  /** `next(filter(r.match, tags))`: the first matching tag in list order; an
      exhausted filter is the failure for this version. */
  function LastTagByVersion(version: string, tags: seq<string>): (r: Result<string>)
    ensures r.Ok? <==> exists t :: t in tags && MatchesVersion(version, t)
    ensures r.Ok? ==> MatchesVersion(version, r.value)
    ensures r.Ok? ==>
              exists i :: 0 <= i < |tags| && tags[i] == r.value &&
                          (forall k :: 0 <= k < i ==> !MatchesVersion(version, tags[k]))
    ensures r.Err? ==> r.error == VersionNotFound(version)
  {
    var i := FirstMatch(version, tags);
    if i < |tags| then Ok(tags[i]) else Err(VersionNotFound(version))
  }

  /** A matching tag is the version, a dot and its patch digits. */
  lemma MatchShape(version: string, tag: string)
    requires MatchesVersion(version, tag)
    ensures tag == version + "." + tag[|version| + 1..]
  {
  }

  /** The key of a version tag on a line: the numbers of the version's two fields,
      then the tag's own patch number. */
  lemma MatchKey(version: string, tag: string)
    requires MatchesVersion(version, tag) && IsVersionTag(tag)
    ensures |Split(version)| == 2
    ensures Key(tag) == Triple(Num(Split(version)[0]), Num(Split(version)[1]), Num(tag[|version| + 1..]))
  {
    var d := tag[|version| + 1..];
    MatchShape(version, tag);
    DigitsDotFree(d);
    SplitLastField(version, d);
    VersionTagFields(tag);
  }

  /** On a list sorted highest first, the tag the resolver picks has the highest
      version, and so the highest patch number, of every tag on the requested line. */
  lemma {:induction false} ResolvesToHighestPatch(version: string, tags: seq<string>, t: string)
    requires SortedDesc(tags) && forall u :: u in tags ==> IsVersionTag(u)
    requires t in tags && MatchesVersion(version, t)
    ensures LastTagByVersion(version, tags).Ok?
    ensures Le(Key(t), Key(LastTagByVersion(version, tags).value))
    ensures Key(t).patch <= Key(LastTagByVersion(version, tags).value).patch
  {
    var i := FirstMatch(version, tags);
    var r := tags[i];
    var k :| 0 <= k < |tags| && tags[k] == t;
    assert i <= k;
    MatchKey(version, t);
    MatchKey(version, r);
  }

  /** A full `MAJOR.MINOR.PATCH` request matches no version tag: a match would
      have four fields. */
  lemma FullVersionNeverMatches(version: string, tag: string)
    requires IsVersionTag(version) && IsVersionTag(tag)
    ensures !MatchesVersion(version, tag)
  {
    VersionTagFields(version);
    if MatchesVersion(version, tag) {
      MatchKey(version, tag);
    }
  }

  /** And so, on normalized tags, such a request always fails. */
  lemma FullVersionNotFound(version: string, tags: seq<string>)
    requires IsVersionTag(version) && forall u :: u in tags ==> IsVersionTag(u)
    ensures LastTagByVersion(version, tags) == Err(VersionNotFound(version))
  {
    forall u | u in tags
      ensures !MatchesVersion(version, u)
    {
      FullVersionNeverMatches(version, u);
    }
  }
}
