/** The tag normalizer: keep the registry tags shaped `MAJOR.MINOR.PATCH` and sort
    them from the highest version to the lowest, comparing the three numbers. */
module Tags {
  import opened Text
  import opened Outcomes

  /** The regular expression `^\d+\.\d+\.\d+$`, read as written: three non-empty
      digit runs separated by two dots, nothing before or after. */
  predicate IsVersionTag(t: string) {
    exists i, j | 0 < i < j < |t| ::
      t[i] == '.' && t[j] == '.' &&
      IsDigits(t[..i]) && IsDigits(t[i + 1..j]) && IsDigits(t[j + 1..])
  }

  /** A version tag is exactly a string with three dot-separated fields that are
      all digit runs. */
  lemma VersionTagFields(t: string)
    ensures IsVersionTag(t) <==> HasVersionFields(t)
  {
    if IsVersionTag(t) {
      VersionTagHasFields(t);
    }
    if HasVersionFields(t) {
      FieldsMakeVersionTag(t);
    }
  }

  predicate HasVersionFields(t: string) {
    var f := Split(t);
    |f| == 3 && IsDigits(f[0]) && IsDigits(f[1]) && IsDigits(f[2])
  }

  lemma VersionTagHasFields(t: string)
    requires IsVersionTag(t)
    ensures HasVersionFields(t)
  {
    var i, j :| 0 < i < j < |t| && t[i] == '.' && t[j] == '.' &&
      IsDigits(t[..i]) && IsDigits(t[i + 1..j]) && IsDigits(t[j + 1..]);
    FieldsAt(t, i, j);
  }

  /** The fields of a string with dots at `i` and `j` and digit runs around them. */
  lemma FieldsAt(t: string, i: int, j: int)
    requires 0 < i < j < |t| && t[i] == '.' && t[j] == '.'
    requires IsDigits(t[..i]) && IsDigits(t[i + 1..j]) && IsDigits(t[j + 1..])
    ensures Split(t) == [t[..i], t[i + 1..j], t[j + 1..]]
  {
    var a, b, c := t[..i], t[i + 1..j], t[j + 1..];
    DigitsDotFree(a);
    DigitsDotFree(b);
    DigitsDotFree(c);
    ThreeParts(t, i, j);
    SplitThree(a, b, c);
  }

  /** A string cut at two dots is its three pieces joined by dots. */
  lemma ThreeParts(t: string, i: int, j: int)
    requires 0 < i < j < |t| && t[i] == '.' && t[j] == '.'
    ensures t == t[..i] + "." + t[i + 1..j] + "." + t[j + 1..]
  {
    assert t[..j] == t[..i] + "." + t[i + 1..j];
    assert t == t[..j] + "." + t[j + 1..];
  }

  lemma FieldsMakeVersionTag(t: string)
    requires HasVersionFields(t)
    ensures IsVersionTag(t)
  {
    var f := Split(t);
    JoinSplit(t);
    assert Join(f) == Join(f[..2]) + "." + f[2];
    assert Join(f[..2]) == Join(f[..1]) + "." + f[1];
    var i, j := |f[0]|, |f[0]| + 1 + |f[1]|;
    assert t == f[0] + "." + f[1] + "." + f[2];
    assert t[i] == '.' && t[j] == '.';
    assert t[..i] == f[0] && t[i + 1..j] == f[1] && t[j + 1..] == f[2];
  }

  /** The sort key `list(map(int, s.split('.')))` of a version tag. */
  datatype Triple = Triple(major: nat, minor: nat, patch: nat)

  /** The key of a tag. It is only ever taken of version tags, whose three fields
      all exist; the other cases give 0 so that the function is total. */
  function Key(t: string): Triple {
    var f := Split(t);
    Triple(Num(f[0]), if |f| > 1 then Num(f[1]) else 0, if |f| > 2 then Num(f[2]) else 0)
  }

  /** The key of three digit runs joined by dots is their three numbers. */
  lemma KeyOfFields(a: string, b: string, c: string)
    requires IsDigits(a) && IsDigits(b) && IsDigits(c)
    ensures Key(a + "." + b + "." + c) == Triple(Num(a), Num(b), Num(c))
  {
    DigitsDotFree(a);
    DigitsDotFree(b);
    DigitsDotFree(c);
    SplitThree(a, b, c);
    var f := Split(a + "." + b + "." + c);
    assert |f| == 3 && f[0] == a && f[1] == b && f[2] == c;
  }

  /** Python's comparison of two keys: lexicographic on (major, minor, patch). */
  predicate Le(x: Triple, y: Triple) {
    x.major < y.major ||
    (x.major == y.major && (x.minor < y.minor || (x.minor == y.minor && x.patch <= y.patch)))
  }

  /** Non-increasing by key: no later tag has a higher version than an earlier one. */
  predicate SortedDesc(s: seq<string>) {
    forall i, j :: 0 <= i < j < |s| ==> Le(Key(s[j]), Key(s[i]))
  }

  /** The tags that survive the filter loop, in input order. */
  function ValidTags(tags: seq<string>): (r: seq<string>)
    ensures forall t :: t in r <==> t in tags && IsVersionTag(t)
    decreases |tags|
  {
    if tags == [] then []
    else
      var last := tags[|tags| - 1];
      assert tags == tags[..|tags| - 1] + [last];
      ValidTags(tags[..|tags| - 1]) + (if IsVersionTag(last) then [last] else [])
  }

  /** The filter meets one more tag: it appends that tag when it is a version tag. */
  lemma ValidTagsSnoc(init: seq<string>, t: string)
    ensures ValidTags(init + [t]) == ValidTags(init) + (if IsVersionTag(t) then [t] else [])
  {
    assert (init + [t])[..|init|] == init;
  }

  /** The filter drops every other tag and keeps every version tag as many times
      as it occurs. */
  lemma {:induction false} ValidTagsCount(tags: seq<string>, t: string)
    ensures multiset(ValidTags(tags))[t] == if IsVersionTag(t) then multiset(tags)[t] else 0
    decreases |tags|
  {
    if tags != [] {
      var init, last := tags[..|tags| - 1], tags[|tags| - 1];
      assert tags == init + [last];
      ValidTagsCount(init, t);
    }
  }

  /** Non-increasing by the given key. */
  predicate SortedDescBy<T>(s: seq<T>, key: T -> Triple) {
    forall i, j :: 0 <= i < j < |s| ==> Le(key(s[j]), key(s[i]))
  }

  /** The in-place `list.sort(key=key, reverse=True)`, as an insertion sort. */
  method SortDescending<T>(a: array<T>, key: T -> Triple)
    modifies a
    ensures SortedDescBy(a[..], key)
    ensures multiset(a[..]) == old(multiset(a[..]))
  {
    for i := 0 to a.Length
      invariant forall p, q :: 0 <= p < q < i ==> Le(key(a[q]), key(a[p]))
      invariant multiset(a[..]) == old(multiset(a[..]))
    {
      InsertDescending(a, key, i);
    }
  }

  /** One step of the insertion sort: move `a[i]` left past every element of the
      sorted prefix `a[..i]` with a lower key. */
  method InsertDescending<T>(a: array<T>, key: T -> Triple, i: nat)
    requires i < a.Length
    requires forall p, q :: 0 <= p < q < i ==> Le(key(a[q]), key(a[p]))
    modifies a
    ensures forall p, q :: 0 <= p < q <= i ==> Le(key(a[q]), key(a[p]))
    ensures multiset(a[..]) == old(multiset(a[..]))
    ensures multiset(a[..i + 1]) == old(multiset(a[..i + 1]))
    ensures a[i + 1..] == old(a[i + 1..])
  {
    var j := i;
    while j > 0 && !Le(key(a[j]), key(a[j - 1]))
      invariant Inserting(a[..], key, i, j)
      invariant multiset(a[..i + 1]) == old(multiset(a[..i + 1]))
      invariant a[i + 1..] == old(a[i + 1..])
    {
      ghost var before := a[..];
      a[j - 1], a[j] := a[j], a[j - 1];
      SwapAdjacent(before, a[..], j, i + 1);
      InsertingStep(before, a[..], key, i, j);
      j := j - 1;
    }
    InsertingDone(a[..], key, i, j);
    assert a[..] == a[..i + 1] + a[i + 1..];
    assert old(a[..]) == old(a[..i + 1]) + old(a[i + 1..]);
  }

  /** The state of an insertion step: the element being inserted sits at `j`, the
      prefix up to `i` is sorted apart from it, and it is above everything to its
      right. */
  predicate Inserting<T>(s: seq<T>, key: T -> Triple, i: int, j: int) {
    && 0 <= j <= i < |s|
    && (forall p, q :: 0 <= p < q <= i && p != j && q != j ==> Le(key(s[q]), key(s[p])))
    && (forall q :: j < q <= i ==> Le(key(s[q]), key(s[j])))
  }

  /** Swapping the inserted element with a lower left neighbour moves it one place
      left. */
  lemma InsertingStep<T>(s: seq<T>, t: seq<T>, key: T -> Triple, i: int, j: int)
    requires Inserting(s, key, i, j) && j > 0 && !Le(key(s[j]), key(s[j - 1]))
    requires t == s[j - 1 := s[j]][j := s[j - 1]]
    ensures Inserting(t, key, i, j - 1)
  {
  }

  /** Once the inserted element is not above its left neighbour, the whole prefix
      up to `i` is sorted. */
  lemma InsertingDone<T>(s: seq<T>, key: T -> Triple, i: int, j: int)
    requires Inserting(s, key, i, j) && (j == 0 || Le(key(s[j]), key(s[j - 1])))
    ensures forall p, q :: 0 <= p < q <= i ==> Le(key(s[q]), key(s[p]))
  {
  }

  /** Swapping two neighbours below `n` keeps the first `n` elements as a multiset
      and leaves the rest alone. */
  lemma SwapAdjacent<T>(s: seq<T>, t: seq<T>, j: int, n: int)
    requires 0 < j < n <= |s| == |t|
    requires t == s[j - 1 := s[j]][j := s[j - 1]]
    ensures multiset(t[..n]) == multiset(s[..n])
    ensures t[n..] == s[n..]
  {
    assert s[..n] == s[..j - 1] + [s[j - 1], s[j]] + s[j + 1..n];
    assert t[..n] == s[..j - 1] + [s[j], s[j - 1]] + s[j + 1..n];
  }

  /** `normalize_remote_tags` once the raw tag list is fetched: the version tags of
      the input, highest first, or the "No valid tags found." failure. */
  method NormalizeTags(tags: seq<string>) returns (r: Result<seq<string>>)
    ensures r.Err? <==> forall t :: t in tags ==> !IsVersionTag(t)
    ensures r.Err? ==> r.error == NoValidTagsFound
    ensures r.Ok? ==> IsNormalization(tags, r.value)
  {
    var valid: seq<string> := [];
    for i := 0 to |tags|
      invariant valid == ValidTags(tags[..i])
    {
      assert tags[..i + 1][..i] == tags[..i];
      if IsVersionTag(tags[i]) {
        valid := valid + [tags[i]];
      }
    }
    assert tags[..|tags|] == tags;
    if |valid| > 0 {
      var a := new string[|valid|](k requires 0 <= k < |valid| => valid[k]);
      assert a[..] == valid;
      SortDescending(a, Key);
      assert SortedDesc(a[..]);
      forall t | t in a[..]
        ensures IsVersionTag(t)
      {
        assert t in multiset(a[..]);
        assert t in multiset(valid);
      }
      assert valid[0] in tags && IsVersionTag(valid[0]);
      r := Ok(a[..]);
    } else {
      assert valid == [];
      r := Err(NoValidTagsFound);
    }
  }

  /** What the normalizer promises of its output: only version tags, exactly the
      version tags of the input with their multiplicities, highest version first. */
  ghost predicate IsNormalization(tags: seq<string>, out: seq<string>) {
    && (forall t :: t in out ==> IsVersionTag(t))
    && multiset(out) == multiset(ValidTags(tags))
    && SortedDesc(out)
  }
}
