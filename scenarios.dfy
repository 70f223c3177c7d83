/** Concrete runs of the pipeline that follow from the contracts alone. */
module Scenarios {
  import opened Text
  import opened Outcomes
  import opened Tags
  import opened Resolver
  import opened Render
  import opened Compose

  /** The key compares numbers, not text: whatever the input, a normalized list
      puts `10.0.0` before `9.9.9`. */
  lemma TenSortsBeforeNine(s: seq<string>, i: int, j: int)
    requires SortedDesc(s)
    requires 0 <= i < |s| && 0 <= j < |s| && s[i] == "10.0.0" && s[j] == "9.9.9"
    ensures i < j
  {
    KeyOfTen();
    KeyOfNines();
  }

  lemma KeyOfTen()
    ensures Key("10.0.0") == Triple(10, 0, 0)
  {
    assert "10.0.0" == "10" + "." + "0" + "." + "0";
    KeyOfFields("10", "0", "0");
    assert Num("10") == 10 by {
      assert "10"[..1] == "1";
    }
  }

  lemma KeyOfNines()
    ensures Key("9.9.9") == Triple(9, 9, 9)
  {
    assert "9.9.9" == "9" + "." + "9" + "." + "9";
    KeyOfFields("9", "9", "9");
  }

  lemma KeyOfOneTwoThree()
    ensures Key("1.2.3") == Triple(1, 2, 3)
  {
    assert "1.2.3" == "1" + "." + "2" + "." + "3";
    KeyOfFields("1", "2", "3");
  }

  /** A list sorted highest first that holds three tags of strictly decreasing
      keys, once each, is those three in that order. */
  lemma SortedThree(s: seq<string>, a: string, b: string, c: string)
    requires SortedDesc(s) && multiset(s) == multiset{a, b, c}
    requires !Le(Key(a), Key(b)) && !Le(Key(b), Key(c)) && !Le(Key(a), Key(c))
    ensures s == [a, b, c]
  {
    assert |s| == |multiset(s)| == 3;
    assert a in multiset(s) && b in multiset(s) && c in multiset(s);
    var p :| 0 <= p < 3 && s[p] == a;
    var q :| 0 <= q < 3 && s[q] == b;
    var r :| 0 <= r < 3 && s[r] == c;
    assert p < q && q < r;
  }

  /** Request `7.6` against `7.6.10`, `7.6.2`, `7.5.0` resolves to `7.6.10`. */
  lemma ResolveFirstOnLine()
    ensures LastTagByVersion("7.6", ["7.6.10", "7.6.2", "7.5.0"]) == Ok("7.6.10")
  {
    assert MatchesVersion("7.6", "7.6.10") by {
      assert "7.6.10"[..3] == "7.6";
      assert "7.6.10"[4..] == "10";
    }
  }

  /** A version tag with its two dots at positions `i` and `j`. */
  lemma VersionTagAt(t: string, i: int, j: int)
    requires 0 < i < j < |t| && t[i] == '.' && t[j] == '.'
    requires IsDigits(t[..i]) && IsDigits(t[i + 1..j]) && IsDigits(t[j + 1..])
    ensures IsVersionTag(t)
  {
  }

  lemma TenIsVersionTag()
    ensures IsVersionTag("10.0.0")
  {
    VersionTagAt("10.0.0", 2, 4);
    assert "10.0.0"[..2] == "10" && "10.0.0"[3..4] == "0" && "10.0.0"[5..] == "0";
  }

  /** A word and a two-field version are not version tags. */
  lemma NotVersionTags()
    ensures !IsVersionTag("bad") && !IsVersionTag("1.2")
  {
  }

  /** Tags of every version shape: only the three full versions survive, highest
      first. */
  method NormalizeMixedTags() returns (r: Result<seq<string>>)
    ensures r == Ok(["10.0.0", "9.9.9", "1.2.3"])
  {
    var raw := ["1.2.3", "10.0.0", "9.9.9", "bad", "1.2"];
    ShortVersionTag(raw[0]);
    assert raw[0] in raw;
    r := NormalizeTags(raw);
    MixedNormalization(raw, r.value);
  }

  /** The only normalization of the mixed tags is the three full versions, highest
      first. */
  lemma MixedNormalization(raw: seq<string>, out: seq<string>)
    requires raw == ["1.2.3", "10.0.0", "9.9.9", "bad", "1.2"]
    requires IsNormalization(raw, out)
    ensures out == ["10.0.0", "9.9.9", "1.2.3"]
  {
    MixedValidTags(raw);
    assert multiset(ValidTags(raw)) == multiset{"10.0.0", "9.9.9", "1.2.3"};
    KeyOfTen();
    KeyOfNines();
    KeyOfOneTwoThree();
    SortedThree(out, "10.0.0", "9.9.9", "1.2.3");
  }

  /** The filter keeps the three full versions of the mixed tags, in input order. */
  lemma MixedValidTags(raw: seq<string>)
    requires raw == ["1.2.3", "10.0.0", "9.9.9", "bad", "1.2"]
    ensures ValidTags(raw) == ["1.2.3", "10.0.0", "9.9.9"]
  {
    ShortVersionTag("1.2.3");
    ShortVersionTag("9.9.9");
    TenIsVersionTag();
    NotVersionTags();
    FilterThreeOfFive("1.2.3", "10.0.0", "9.9.9", "bad", "1.2");
  }

  /** Five tags of which the first three are version tags filter to those three. */
  lemma FilterThreeOfFive(x1: string, x2: string, x3: string, x4: string, x5: string)
    requires IsVersionTag(x1) && IsVersionTag(x2) && IsVersionTag(x3)
    requires !IsVersionTag(x4) && !IsVersionTag(x5)
    ensures ValidTags([x1, x2, x3, x4, x5]) == [x1, x2, x3]
  {
    FiveParts(x1, x2, x3, x4, x5);
    ValidTagsSnoc([], x1);
    ValidTagsSnoc([] + [x1], x2);
    ValidTagsSnoc([x1] + [x2], x3);
    ValidTagsSnoc([x1] + [x2] + [x3], x4);
    ValidTagsSnoc([x1] + [x2] + [x3] + [x4], x5);
  }

  /** A literal of five elements, and of its first three, as a chain of appends. */
  lemma FiveParts<T>(x1: T, x2: T, x3: T, x4: T, x5: T)
    ensures [x1, x2, x3, x4, x5] == [x1] + [x2] + [x3] + [x4] + [x5]
    ensures [x1, x2, x3] == [x1] + [x2] + [x3]
    ensures [] + [x1] == [x1]
  {
  }

  /** No tag of the full-version shape: the normalizer fails. */
  method NormalizeNoVersionTags() returns (r: Result<seq<string>>)
    ensures r == Err(NoValidTagsFound)
  {
    assert !IsVersionTag("latest");
    assert !IsVersionTag("foo");
    assert !IsVersionTag("1.2");
    r := NormalizeTags(["latest", "foo", "1.2"]);
  }

  /** With no arguments the run fails before the tags matter. */
  method NoArguments(raw: seq<string>) returns (r: Result<Document>)
    ensures r == Err(NoVersionsPresented)
  {
    r := BuildDocument([], raw);
  }

  /** `t` is on the line of `version` when its first three characters are
      the version and the rest is a dot and a digit. */
  lemma OnLineAt(version: string, t: string)
    requires |version| == 3 && |t| == 5 && t[..3] == version && t[3] == '.' && IsDigit(t[4])
    ensures MatchesVersion(version, t)
  {
    assert t[4..] == [t[4]];
  }

  /** A one-digit `X.Y.Z` tag. */
  lemma ShortVersionTag(t: string)
    requires |t| == 5 && t[1] == '.' && t[3] == '.' && IsDigit(t[0]) && IsDigit(t[2]) && IsDigit(t[4])
    ensures IsVersionTag(t)
  {
    assert t[..1] == [t[0]] && t[2..3] == [t[2]] && t[4..] == [t[4]];
    VersionTagAt(t, 1, 3);
  }

  /** The line of `7.6` holds one of the two-version run's tags. */
  lemma LineOf76(raw: seq<string>)
    requires raw == ["7.6.2", "8.0.1", "6.8.0"]
    ensures Resolvable("7.6", raw)
    ensures forall u :: u in raw && MatchesVersion("7.6", u) ==> u == "7.6.2"
  {
    ShortVersionTag("7.6.2");
    OnLineAt("7.6", "7.6.2");
    assert raw[0] == "7.6.2";
    assert "8.0.1"[..3] == "8.0" && "6.8.0"[..3] == "6.8";
  }

  /** The line of `8.0` holds one of the two-version run's tags. */
  lemma LineOf80(raw: seq<string>)
    requires raw == ["7.6.2", "8.0.1", "6.8.0"]
    ensures Resolvable("8.0", raw)
    ensures forall u :: u in raw && MatchesVersion("8.0", u) ==> u == "8.0.1"
  {
    ShortVersionTag("8.0.1");
    OnLineAt("8.0", "8.0.1");
    assert raw[1] == "8.0.1";
    assert "7.6.2"[..3] == "7.6" && "6.8.0"[..3] == "6.8";
  }

  /** The two-version run asks for two distinct service names. */
  lemma NamesOfTwoVersions(args: seq<string>)
    requires args == ["7.6", "8.0"]
    ensures ServiceName(args[0]) == "es76" && ServiceName(args[1]) == "es80"
    ensures Names(args) == {"es76", "es80"}
    ensures LastWithName(args, 0) && LastWithName(args, 1)
  {
    StripDotsOfMajorMinor("7", "6");
    StripDotsOfMajorMinor("8", "0");
    assert ServiceName(args[0]) == "es76" && ServiceName(args[1]) == "es80";
    assert ServiceName(args[0]) in Names(args) && ServiceName(args[1]) in Names(args);
  }

  /** Versions `7.6` and `8.0` against tags `7.6.2`, `8.0.1`, `6.8.0`: two
      services, `es76` on `7.6.2` and `es80` on `8.0.1`. */
  method TwoVersions() returns (r: Result<Document>)
    ensures r.Ok?
    ensures r.value.services.Keys == {"es76", "es80"}
    ensures ImageTag(r.value.services["es76"]) == "7.6.2"
    ensures ImageTag(r.value.services["es80"]) == "8.0.1"
  {
    var args := ["7.6", "8.0"];
    var raw := ["7.6.2", "8.0.1", "6.8.0"];
    LineOf76(raw);
    LineOf80(raw);
    NamesOfTwoVersions(args);
    r := BuildDocument(args, raw);
  }
}
