# es-compose-generator, modelled in Dafny

`create-elastic-compose.py` writes a docker-compose file with one single-node
Elasticsearch service per requested `MAJOR.MINOR` version. Each service is pinned
to the newest patch release of that minor line that the registry publishes. The
script runs as a pipeline:

1. fetch the registry's tag list;
2. keep only the tags shaped `MAJOR.MINOR.PATCH` and sort them by version,
   highest first;
3. for each command-line version, take the first tag of that minor line;
4. render a service entry for it, and merge the entries into the `services`
   mapping of the document;
5. dump the document as YAML.

This project models steps 2 to 4 and the argument check that comes before them.
The Dafny modules follow the pipeline:

- `Outcomes` (outcomes.dfy): the script's fatal errors as values (`NoVersionsPresented`,
  `NoValidTagsFound`, `VersionNotFound(version)`) and a `Result` type.
- `Text` (text.dfy): the Python string operations the script uses.
  `Split` is `s.split('.')`, `StripDots` is `s.replace('.', '')`, `IsDigits` is
  the anchored `\d+`, and `Num` is `int(s)` for a string of ASCII digits. It also
  holds their algebra: joining the fields of any string with dots gives the
  string back; three dot-free strings joined by dots split back into those three;
  and splitting before a dot-free last field splits off exactly that field.
- `Tags` (tags.dfy): the normalizer. `IsVersionTag` is the regular expression
  `^\d+\.\d+\.\d+$` read as written. `Key` is the sort key
  `list(map(int, s.split('.')))` and `Le` is Python's comparison of two keys.
  `NormalizeTags` is the filter loop followed by an in-place sort of an
  array. The sort is an insertion sort that takes the key function as a
  parameter, as `list.sort(key=...)` does.
- `Resolver` (resolver.dfy): `get_last_tag_by_version`. `MatchesVersion` is the
  compiled pattern `^MAJOR\.MINOR\.\d+$`, and `LastTagByVersion` is
  `next(filter(...))`.
- `Render` (render.dfy): `get_configured_service`, with the `Service` record
  and the fixed strings of the source.
- `Compose` (compose.dfy): the module-level code. `Services` is the fold that
  the `for` loop with `.update` computes. `AssembleServices` is that loop.
  `BuildDocument` runs the argument check, the normalizer and the loop, and
  returns the whole document or the first error.
- `Scenarios` (scenarios.dfy): concrete runs that follow from the contracts.
  They cover numeric rather than textual ordering, a resolver pick, a mixed tag
  list, a list with no version tag, an empty argument list, and a two-version
  document.

The raw tag list is an input of `BuildDocument`, not a network call. A run with
no arguments gives `NoVersionsPresented` whatever that input holds. This is how
the model states that the tags are never consulted before the argument check.
A failure carries no document. So the model shows the all-or-nothing rule: the
file is written only after every version resolved.

Where the code and the intended behaviour part ways, the model follows the code.
Service names are meant to tell versions apart, but the code does not always do
so. `1.23` and `12.3` both render to `es123` on host port `92123`, so the later
one silently replaces the earlier one (`Render.NamesCollideAcrossMajorWidths`).
Names are guaranteed distinct for `MAJOR.MINOR` versions whose majors have the
same width (`Render.NameInjectiveOnSameMajorWidth`). A name collision is always also
a port collision (`Render.NameCollisionIsPortCollision`).

## Model

| member | source | states |
|---|---|---|
| `Text.Split` | create-elastic-compose.py:44 | `s.split('.')` always gives at least one field |
| `Text.JoinSplit` | create-elastic-compose.py:44 | joining the fields of a string with dots rebuilds the string: the split loses nothing |
| `Text.SplitLastField` | create-elastic-compose.py:44 | the fields of `a.d`, for a dot-free `d`, are the fields of `a` followed by `d` |
| `Text.SplitThree` | create-elastic-compose.py:44 | three dot-free strings joined by dots split back into exactly those three |
| `Text.StripDots` | create-elastic-compose.py:58 | `replace('.', '')` leaves no dot and never lengthens the string |
| `Text.StripDotsKeeps` | create-elastic-compose.py:58 | removing dots keeps exactly the characters that are not dots |
| `Tags.VersionTagFields` | create-elastic-compose.py:40-44 | a tag matches `^\d+\.\d+\.\d+$` exactly when its split has three fields, all digit runs; so every tag that reaches the sort has a key of three integers |
| `Tags.ValidTags` | create-elastic-compose.py:37-41 | the filter loop keeps a tag exactly when it is in the input and matches the pattern |
| `Tags.ValidTagsCount` | create-elastic-compose.py:37-41 | the filter keeps each matching tag as many times as it occurs and drops every other tag |
| `Tags.KeyOfFields` | create-elastic-compose.py:44 | the key of three digit runs joined by dots is their three decimal values, in order |
| `Tags.SortDescending` | create-elastic-compose.py:44 | the in-place sort with `reverse=True` leaves the array non-increasing by the key and a permutation of its old contents |
| `Tags.InsertDescending` | create-elastic-compose.py:44 | one insertion step extends the sorted prefix by one element, rearranges only that prefix (a permutation of the old prefix) and leaves the rest of the array unchanged |
| `Tags.NormalizeTags` | create-elastic-compose.py:37-48 | it fails with `NoValidTagsFound` exactly when no input tag matches; otherwise the output holds only matching tags, is a permutation of the input's matching tags, and is sorted highest version first by integer triple |
| `Resolver.FirstMatch` | create-elastic-compose.py:54 | the index of the first tag on the requested line, with no match before it, or the length of the list when none matches |
| `Resolver.LastTagByVersion` | create-elastic-compose.py:50-54 | it returns a tag exactly when some tag is the version, a dot and a digit run; the tag returned is the first such in list order; otherwise it fails with `VersionNotFound(version)` |
| `Resolver.MatchKey` | create-elastic-compose.py:51 | a version tag on the line of a version has that version's two numbers as major and minor, and its own digits as patch |
| `Resolver.ResolvesToHighestPatch` | create-elastic-compose.py:50-54 | on a list of version tags sorted highest first, the pick has the highest key, and so the highest patch, of all tags on the line |
| `Resolver.FullVersionNeverMatches` | create-elastic-compose.py:51 | a full `MAJOR.MINOR.PATCH` request matches no three-field version tag |
| `Resolver.FullVersionNotFound` | create-elastic-compose.py:50-54 | on normalized tags a full-version request always fails with `VersionNotFound` |
| `Render.ConfiguredService` | create-elastic-compose.py:57-60 | the rendered mapping has exactly one key, the service name of the version |
| `Render.RenderedService` | create-elastic-compose.py:57-84 | the key is `es` and the version without dots; the image is the fixed prefix followed by exactly the given tag; one port maps `92` and the dot-free version to 9200; five environment entries, the node and cluster names embedding the service name and the other three fixed; memlock soft and hard are -1; one volume under the dotted version |
| `Render.NameCollisionIsPortCollision` | create-elastic-compose.py:58-65 | two versions get the same service name exactly when they get the same host port |
| `Render.NameInjectiveOnSameMajorWidth` | create-elastic-compose.py:58 | for `MAJOR.MINOR` versions whose majors have equal width, equal names mean equal versions |
| `Render.NamesCollideAcrossMajorWidths` | create-elastic-compose.py:58-65 | `1.23` and `12.3` share the name `es123` and the host port `92123` |
| `Compose.ServicesOkIff` | create-elastic-compose.py:99-101 | the loop completes exactly when every argument resolves |
| `Compose.ServicesFirstFailure` | create-elastic-compose.py:99-100 | when it does not complete, the error names the first argument that does not resolve |
| `Compose.ServicesKeys` | create-elastic-compose.py:99-101 | on success the services are keyed by exactly the names of the arguments |
| `Compose.ServicesLastWins` | create-elastic-compose.py:99-101 | on success the entry for a name is the one rendered for the last argument with that name |
| `Compose.AssembleServices` | create-elastic-compose.py:99-101 | the loop with `.update` computes the fold `Services`: the merged mapping, or the first resolution failure |
| `Compose.NormalizedResolution` | create-elastic-compose.py:97-100 | against normalized tags, a version resolves exactly when a raw version tag lies on its line, and then it resolves to the highest of them |
| `Compose.BuildDocument` | create-elastic-compose.py:86-101 | no arguments gives `NoVersionsPresented` whatever the tags; no version tag gives `NoValidTagsFound`; it succeeds exactly when every argument has a tag on its line; otherwise the error names the first argument that has none; on success the version is 3.3, the keys are the names of the arguments, and each entry is rendered for the last argument with that name from a highest tag of its line |
| `Scenarios.TenSortsBeforeNine` | create-elastic-compose.py:44 | in a normalized list `10.0.0` comes before `9.9.9`: the order is numeric, not textual |
| `Scenarios.ResolveFirstOnLine` | create-elastic-compose.py:50-54 | `7.6` against `7.6.10`, `7.6.2`, `7.5.0` gives `7.6.10` |
| `Scenarios.NormalizeMixedTags` | create-elastic-compose.py:37-48 | from `1.2.3`, `10.0.0`, `9.9.9`, `bad`, `1.2`, the output is exactly `10.0.0`, `9.9.9`, `1.2.3`, in that order |
| `Scenarios.MixedNormalization` | create-elastic-compose.py:37-48 | every normalization of that mixed list is exactly `10.0.0`, `9.9.9`, `1.2.3` |
| `Scenarios.NormalizeNoVersionTags` | create-elastic-compose.py:43-46 | `latest`, `foo`, `1.2` give `NoValidTagsFound` |
| `Scenarios.NoArguments` | create-elastic-compose.py:94-95 | an empty argument list gives `NoVersionsPresented`, whatever the tags |
| `Scenarios.TwoVersions` | create-elastic-compose.py:86-101 | `7.6` and `8.0` against `7.6.2`, `8.0.1`, `6.8.0` give exactly the services `es76` on `7.6.2` and `es80` on `8.0.1` |

## Left out

- `get_api_token` and `get_tag_list` (create-elastic-compose.py:17-33) are HTTP
  requests and JSON decoding. The raw tag list is an input of `BuildDocument`
  and of `NormalizeTags`.
- `yaml.dump` and the file write (create-elastic-compose.py:104-105) are left out.
  The model ends with the in-memory `Document`. The key order of the dumped
  mapping is not modelled.
- The `sys.argv` handling (create-elastic-compose.py:91-92) and the interpreter
  version assert (line 13) are process plumbing. The arguments are a plain
  sequence of strings.
- Python's regular-expression engine is not modelled. `\d` stands for the ASCII
  digits only, not all Unicode decimal digits. A match must be exact, whereas
  Python's `$` also matches before a final newline.
- `Resolver.MatchesVersion`: the version is matched literally. The source
  escapes only its dots (create-elastic-compose.py:51), so other regex
  metacharacters in a version would act as regex syntax there. For versions
  made of digits and dots the two readings agree.
- `Tags.NormalizeTags`: it does not fix the order of tags whose keys are equal
  (such as `7.6.2` and `7.6.02`). Python's stable sort keeps their input order.
- `Compose.BuildDocument`: when several tags of a line share the highest key, it
  does not say which one is chosen. That choice follows from the stable sort
  above.
- `Tags.Key` gives 0 for missing fields of a string that is not a version tag.
  For such a string Python's key would be a shorter list, or `int` would raise
  on a field that is not digits. Only tags that pass the filter are ever sorted.
- Exceptions become `Err` values. Stack traces and the process exit status are
  not modelled.
- The version that `VersionNotFound` carries is bookkeeping of the model.
  The exhausted `next` at create-elastic-compose.py:54 raises a bare
  `StopIteration` that names no version. The error stands for the loop
  stopping at the first argument that does not resolve.
