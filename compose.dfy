/** The module-level part of the script: refuse an empty argument list, normalize
    the registry's tags, then resolve and render every requested version in order,
    merging the entries into one `services` mapping of the compose document. */
module Compose {
  import opened Text
  import opened Outcomes
  import opened Tags
  import opened Resolver
  import opened Render

  /** The document's format-version field. */
  const ComposeVersion := "3.3"

  /** The compose document, as handed to the YAML serializer. */
  datatype Document = Document(version: string, services: map<string, Service>)

  /** The services the loop over the arguments builds: `services.update(...)` with
      each version's rendered entry in argument order, stopping at the first
      version that does not resolve. */
  function Services(args: seq<string>, tags: seq<string>): Result<map<string, Service>>
    decreases |args|
  {
    if args == [] then Ok(map[])
    else
      var prev := Services(args[..|args| - 1], tags);
      var version := args[|args| - 1];
      if prev.Err? then prev
      else
        var tag := LastTagByVersion(version, tags);
        if tag.Err? then Err(tag.error)
        else Ok(prev.value + ConfiguredService(version, tag.value))
  }

  /** The service names the arguments ask for. */
  function Names(args: seq<string>): set<string> {
    set i | 0 <= i < |args| :: ServiceName(args[i])
  }

  /** One more argument asks for one more name. */
  lemma NamesAppend(args: seq<string>, version: string)
    ensures Names(args + [version]) == Names(args) + {ServiceName(version)}
  {
    var ext := args + [version];
    assert forall k :: 0 <= k < |args| ==> ext[k] == args[k];
    assert ServiceName(ext[|args|]) in Names(ext);
  }

  /** No later argument renders to the same service name as argument `i`. */
  predicate LastWithName(args: seq<string>, i: int) {
    0 <= i < |args| && forall k :: i < k < |args| ==> ServiceName(args[k]) != ServiceName(args[i])
  }

  /** The fold succeeds exactly when every argument resolves. */
  lemma {:induction false} ServicesOkIff(args: seq<string>, tags: seq<string>)
    ensures Services(args, tags).Ok? <==>
      forall i :: 0 <= i < |args| ==> LastTagByVersion(args[i], tags).Ok?
    decreases |args|
  {
    if args != [] {
      var init := args[..|args| - 1];
      ServicesOkIff(init, tags);
      assert forall i :: 0 <= i < |init| ==> init[i] == args[i];
    }
  }

  /** When it fails, it fails with the first argument that does not resolve. */
  lemma {:induction false} ServicesFirstFailure(args: seq<string>, tags: seq<string>, i: int)
    requires 0 <= i < |args| && LastTagByVersion(args[i], tags).Err?
    requires forall k :: 0 <= k < i ==> LastTagByVersion(args[k], tags).Ok?
    ensures Services(args, tags) == Err(VersionNotFound(args[i]))
    decreases |args|
  {
    var init := args[..|args| - 1];
    assert forall k :: 0 <= k < |init| ==> init[k] == args[k];
    if i == |args| - 1 {
      ServicesOkIff(init, tags);
    } else {
      ServicesFirstFailure(init, tags, i);
    }
  }

  /** On success the services are keyed by exactly the requested names. */
  lemma {:induction false} ServicesKeys(args: seq<string>, tags: seq<string>)
    requires Services(args, tags).Ok?
    ensures Services(args, tags).value.Keys == Names(args)
    decreases |args|
  {
    if args != [] {
      var init, version := args[..|args| - 1], args[|args| - 1];
      var prev := Services(init, tags).value;
      var tag := LastTagByVersion(version, tags).value;
      assert Services(args, tags).value == prev + ConfiguredService(version, tag);
      assert (prev + ConfiguredService(version, tag)).Keys == prev.Keys + {ServiceName(version)};
      ServicesKeys(init, tags);
      assert args == init + [version];
      NamesAppend(init, version);
    }
  }

  /** On success the entry of a name is the one rendered for the last argument
      with that name: a later duplicate overwrites an earlier one. */
  lemma {:induction false} ServicesLastWins(args: seq<string>, tags: seq<string>, i: int)
    requires Services(args, tags).Ok? && LastWithName(args, i)
    ensures LastTagByVersion(args[i], tags).Ok?
    ensures ServiceName(args[i]) in Services(args, tags).value
    ensures var name := ServiceName(args[i]);
      Services(args, tags).value[name] ==
        ConfiguredService(args[i], LastTagByVersion(args[i], tags).value)[name]
    decreases |args|
  {
    var init := args[..|args| - 1];
    assert forall k :: 0 <= k < |init| ==> init[k] == args[k];
    if i < |args| - 1 {
      assert LastWithName(init, i);
      ServicesLastWins(init, tags, i);
      assert ServiceName(args[i]) != ServiceName(args[|args| - 1]);
    }
  }

  /** The loop at the end of the script, over the arguments and the normalized
      tags. */
  method AssembleServices(args: seq<string>, tags: seq<string>) returns (r: Result<map<string, Service>>)
    ensures r == Services(args, tags)
  {
    var services: map<string, Service> := map[];
    for i := 0 to |args|
      invariant Services(args[..i], tags) == Ok(services)
      invariant forall k :: 0 <= k < i ==> LastTagByVersion(args[k], tags).Ok?
    {
      var tag := LastTagByVersion(args[i], tags);
      if tag.Err? {
        ServicesFirstFailure(args, tags, i);
        return Err(tag.error);
      }
      assert args[..i + 1][..i] == args[..i];
      services := services + ConfiguredService(args[i], tag.value);
    }
    assert args[..|args|] == args;
    r := Ok(services);
  }

  /** Some version tag among the raw tags lies on the line of `version`. */
  predicate Resolvable(version: string, raw: seq<string>) {
    exists t :: t in raw && IsVersionTag(t) && MatchesVersion(version, t)
  }

  /** `t` is a raw version tag on the line of `version`, and no raw version tag on
      that line has a higher version. */
  predicate HighestOnLine(version: string, t: string, raw: seq<string>) {
    && t in raw && IsVersionTag(t) && MatchesVersion(version, t)
    && forall u :: u in raw && IsVersionTag(u) && MatchesVersion(version, u) ==> Le(Key(u), Key(t))
  }

  /** Resolving against the normalized tags means: a version resolves exactly when
      a raw version tag lies on its line, and then to the highest of them. */
  lemma NormalizedResolution(version: string, raw: seq<string>, tags: seq<string>)
    requires IsNormalization(raw, tags)
    ensures LastTagByVersion(version, tags).Ok? <==> Resolvable(version, raw)
    ensures LastTagByVersion(version, tags).Ok? ==>
      HighestOnLine(version, LastTagByVersion(version, tags).value, raw)
  {
    forall t
      ensures t in tags <==> t in raw && IsVersionTag(t)
    {
      assert t in tags <==> t in multiset(tags);
      assert t in ValidTags(raw) <==> t in multiset(ValidTags(raw));
    }
    var r := LastTagByVersion(version, tags);
    if r.Ok? {
      forall u | u in raw && IsVersionTag(u) && MatchesVersion(version, u)
        ensures Le(Key(u), Key(r.value))
      {
        ResolvesToHighestPatch(version, tags, u);
      }
    }
  }

  /** The whole script between reading the arguments and writing the file, with the
      registry's raw tag list given as an input. */
  method BuildDocument(args: seq<string>, raw: seq<string>) returns (r: Result<Document>)
    ensures |args| == 0 ==> r == Err(NoVersionsPresented)
    ensures |args| > 0 && (forall t :: t in raw ==> !IsVersionTag(t)) ==> r == Err(NoValidTagsFound)
    ensures r.Ok? <==> |args| > 0 && forall i :: 0 <= i < |args| ==> Resolvable(args[i], raw)
    ensures forall i :: 0 <= i < |args| && !Resolvable(args[i], raw) &&
                        (forall k :: 0 <= k < i ==> Resolvable(args[k], raw)) &&
                        (exists t :: t in raw && IsVersionTag(t)) ==>
                        r == Err(VersionNotFound(args[i]))
    ensures r.Ok? ==> r.value.version == "3.3" && r.value.services.Keys == Names(args)
    ensures r.Ok? ==>
              forall i :: LastWithName(args, i) ==>
                var s := r.value.services[ServiceName(args[i])];
                && HighestOnLine(args[i], ImageTag(s), raw)
                && s == ConfiguredService(args[i], ImageTag(s))[ServiceName(args[i])]
  {
    if |args| == 0 {
      return Err(NoVersionsPresented);
    }
    var normalized := NormalizeTags(raw);
    if normalized.Err? {
      assert !Resolvable(args[0], raw);
      return Err(normalized.error);
    }
    var tags := normalized.value;
    forall v
      ensures LastTagByVersion(v, tags).Ok? <==> Resolvable(v, raw)
      ensures LastTagByVersion(v, tags).Ok? ==> HighestOnLine(v, LastTagByVersion(v, tags).value, raw)
    {
      NormalizedResolution(v, raw, tags);
    }
    var services := AssembleServices(args, tags);
    ServicesOkIff(args, tags);
    if services.Err? {
      forall i | 0 <= i < |args| && !Resolvable(args[i], raw) &&
                 (forall k :: 0 <= k < i ==> Resolvable(args[k], raw))
        ensures services == Err(VersionNotFound(args[i]))
      {
        ServicesFirstFailure(args, tags, i);
      }
      return Err(services.error);
    }
    ServicesKeys(args, tags);
    forall i | LastWithName(args, i)
      ensures var s := services.value[ServiceName(args[i])];
        && HighestOnLine(args[i], ImageTag(s), raw)
        && s == ConfiguredService(args[i], ImageTag(s))[ServiceName(args[i])]
    {
      ServicesLastWins(args, tags, i);
      RenderedService(args[i], LastTagByVersion(args[i], tags).value);
    }
    r := Ok(Document(ComposeVersion, services.value));
  }
}
