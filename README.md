# byond-builds mirror, modelled in Dafny

The script `scripts/download_byond_builds.py` mirrors BYOND installers. For
each configured version (`515`, then `516`) it lists the version's download
page. It keeps the anchor texts that name a `<version>.<build>_byond.exe`
installer. It then downloads every listed name that is not already in the
version's directory under `public/`. This project models the two parts of
that script that hold logic:

- `build_names.dfy` (module `BuildNames`): the build-name test of
  `get_available_builds`. The regular expression is a ghost predicate
  (`ContainsBuildName`) and an executable scanner (`MatchesBuildName`) is
  proved equivalent to it. The anchor loop (`CollectBuildNames`) is proved
  to return exactly the filter `Kept`.
- `text.dfy` (module `PyText`): Python's `str.strip()`, which the anchor
  loop applies to every anchor text.
- `mirror.dfy` (module `Mirror`): `get_available_builds` with its error
  paths, and the per-version skip-and-download loop of `download_builds`.
  The network is a class `Remote` whose two methods give arbitrary answers
  and log every call. So every property holds however the server answers,
  including when every download fails.
- `wrappers.dfy`: the `Option` type (`None` for Python's `None`).

The inputs the script reads from outside are parameters:

- the anchors of a page are a `seq<Anchor>` (an optional `href` and a text);
- a failed fetch or parse is a `None` page;
- the existing files are a map from version to the set of names present.

A run's downloads are compared with `RunPlan`, a function of the listing
fetches (each one's URL and result) and the snapshots only. The outcome of
a download is not one of its inputs, so in the model no download outcome
changes which downloads follow it (for the one way the script can differ,
see `Mirror.DownloadEach` under "Left out").

Some behaviour of the script worth knowing:

- Kept names contain `<version>.<digits>_byond.exe`. Nothing has to follow
  it, so `…_byond.exe.zip` is kept too. No other installer name (such as
  `_byond.zip`) is looked for.
- The listing is a list in page order, with duplicates kept; it is not a
  set. A name listed twice and not present is downloaded twice, because the
  snapshot is taken once per version and never refreshed.
- The version test is a substring search, so `1515.1_byond.exe` also passes
  for version `515` (`BuildNames.LongerVersionAccepted`).

## Model

| member | source | states |
|---|---|---|
| `PyText.Strip` | scripts/download_byond_builds.py:46 | the result is `s` with a whitespace-only prefix and suffix cut off, and it neither starts nor ends with whitespace (Python's `isspace` set); it is empty exactly when `s` is all whitespace |
| `PyText.IsSpace` | scripts/download_byond_builds.py:46 | definition, no contract: the 29 code points for which Python's `str.isspace()` holds (tab to carriage return, the four separators `\x1c`-`\x1f`, space, `\x85`, `\xa0`, U+1680, U+2000-U+200A, U+2028, U+2029, U+202F, U+205F, U+3000); `Strip` and its lemmas state what is removed |
| `PyText.StripUnique` | scripts/download_byond_builds.py:46 | any cut of `s` into whitespace, a core not starting or ending with whitespace, and whitespace gives the core `Strip(s)` |
| `PyText.StripIdempotent` | scripts/download_byond_builds.py:46 | stripping a stripped text changes nothing |
| `BuildNames.MatchesBuildName` | scripts/download_byond_builds.py:47 | true exactly when some `i < j` exist with `version + "."` at `i`, one or more digits up to `j`, and `_byond.exe` at `j` (the `re.search` of the pattern) |
| `BuildNames.MatchesAt` | scripts/download_byond_builds.py:47 | true exactly when the pattern matches starting at position `i`; the digit run must end right where `_byond.exe` starts |
| `BuildNames.DigitRunEndIs` | scripts/download_byond_builds.py:47 | a run of digits ended by a non-digit is the whole `\d+` the pattern can take, so no other split of the digits can match |
| `BuildNames.Keeps` | scripts/download_byond_builds.py:45-47 | definition, no contract: an anchor is kept when its `href` is present and non-empty (truthy) and its stripped text passes `MatchesBuildName`; `KeptMembers` states the resulting membership |
| `BuildNames.Kept` | scripts/download_byond_builds.py:41-50 | definition, no contract: the stripped texts of the kept anchors, in page order; its properties are `KeptAppend`, `KeptMembers`, `KeptLength` and `KeptNone`, and `CollectBuildNames` is proved to compute it |
| `BuildNames.CollectBuildNames` | scripts/download_byond_builds.py:41-50 | the anchor loop returns `Kept(version, anchors)`, and every name it returns contains a build name of the version |
| `BuildNames.KeptAppend` | scripts/download_byond_builds.py:44-48 | the collected names of two consecutive runs of anchors are those of the first, then those of the second: page order is kept and nothing is reordered |
| `BuildNames.KeptMembers` | scripts/download_byond_builds.py:44-48 | a name is collected if and only if some anchor has a non-empty `href`, has that name as stripped text, and the name contains a build name |
| `BuildNames.KeptLength` | scripts/download_byond_builds.py:44-48 | there are never more names than anchors |
| `BuildNames.KeptNone` | scripts/download_byond_builds.py:41-50 | a page without qualifying anchors yields the empty list |
| `BuildNames.NoBuildNumberRejected` | scripts/download_byond_builds.py:47 | `515._byond.exe` is refused: at least one digit must follow the dot |
| `BuildNames.BuildNameAnywhere` | scripts/download_byond_builds.py:47 | any text holding `version.<digits>_byond.exe`, whatever comes before and after it, is accepted |
| `BuildNames.SurroundedNameAccepted` | scripts/download_byond_builds.py:47 | `BYOND 515.1647_byond.exe (latest)` is accepted for version 515 |
| `BuildNames.LongerVersionAccepted` | scripts/download_byond_builds.py:47 | `1515.1647_byond.exe.bak` is accepted for version 515, since the match is not anchored |
| `BuildNames.OtherVersionRejected` | scripts/download_byond_builds.py:47 | `516.1647_byond.exe` is refused for version 515 |
| `Mirror.GetAvailableBuilds` | scripts/download_byond_builds.py:29-53 | an unknown version returns `[]` and fetches nothing; a known one fetches exactly its base URL once and returns `[]` if the fetch failed, otherwise the names `Kept` from the page |
| `Mirror.Remote.FetchPage` | scripts/download_byond_builds.py:37-40 | any page or failure may come back; the fetch is logged with its URL, its result and the number of downloads attempted before it |
| `Mirror.Remote.DownloadFile` | scripts/download_byond_builds.py:55-73 | any outcome may come back; the call is logged with its URL, target and outcome |
| `Mirror.BaseUrlOf` | scripts/download_byond_builds.py:31-32 | the base URL is non-empty exactly for the versions `BASE_URLS` configures, so `if not url` rejects exactly the unknown versions |
| `Mirror.DownloadVersion` | scripts/download_byond_builds.py:81-108 | one listing fetch, of the version's base URL, then downloads whose (URL, target) sequence is `PlanOf` that fetch: the pending names of its listing against the version's snapshot, each from the fetched URL into the version's directory, whatever each download reported |
| `Mirror.DownloadEach` | scripts/download_byond_builds.py:80-108 | for any list of configured versions: one listing fetch per version, in list order and of that version's base URL; version `k`'s fetch comes after exactly the downloads of the versions before it; and the downloads' (URL, target) sequence is `RunPlan` of the fetches and snapshots, whatever the outcomes |
| `Mirror.DownloadBuilds` | scripts/download_byond_builds.py:75-108 | the same for the configured versions in the order `515`, `516`: `516`'s listing fetch comes after every `515` download |
| `Mirror.RunPlanPrefix` | scripts/download_byond_builds.py:80-108 | the downloads of the versions before `k` are a prefix of those of the versions before `m` (`k <= m`), so with the fetch positions of `DownloadEach` every download of version `k` comes after its listing fetch and before version `k + 1`'s |
| `Mirror.VersionsConfigured` | scripts/download_byond_builds.py:21-24 | iterating over `BASE_URLS` visits exactly its keys, each once, and every visited version has a base URL |
| `Mirror.RunPlanOrder` | scripts/download_byond_builds.py:80-82 | a run's downloads are those of `515` (its own page, snapshot and directory) followed by those of `516` |
| `Mirror.JoinPathShape` | scripts/download_byond_builds.py:97 | a target ends with the file name; for a relative name it is exactly `dir`, one `/` and the name, and no longer; for an absolute name it is the name itself; for an empty name it is `dir` |
| `Mirror.AbsoluteNameLeavesVersionDir` | scripts/download_byond_builds.py:97 | a listed name `/tmp/515.1647_byond.exe` is written to that absolute path, outside `public/515`; a plain name goes to `public/515/<name>` |
| `Mirror.JoinPath` | scripts/download_byond_builds.py:97 | definition, no contract: `pathlib`'s `dir / name` on POSIX, where an absolute name replaces the directory and an empty name leaves it unchanged; `JoinPathShape` states the shape of the result |
| `Mirror.Pending` | scripts/download_byond_builds.py:91-94 | definition, no contract: the listed names not in the snapshot, in listing order, duplicates kept; `PendingMembers`, `PendingCount` and `UpToDateDownloadsNothing` state its properties |
| `Mirror.RequestFor` | scripts/download_byond_builds.py:96-97 | definition, no contract: the download of a name is from `base + name` into `JoinPath(dir, name)`; `RequestForInjective` and `JoinPathShape` state its properties |
| `Mirror.PendingMembers` | scripts/download_byond_builds.py:91-94 | a name is pending if and only if it is listed and not in the snapshot |
| `Mirror.PendingCount` | scripts/download_byond_builds.py:85-94 | a listed name outside the snapshot is pending once per occurrence in the listing; a name in the snapshot never is |
| `Mirror.RequestForInjective` | scripts/download_byond_builds.py:96 | two names whose download URLs from the same base coincide are the same name |
| `Mirror.RequestCount` | scripts/download_byond_builds.py:96-100 | the downloads for a list of names contain each name's (URL, target) exactly as often as the name occurs |
| `Mirror.VersionPlanCount` | scripts/download_byond_builds.py:85-100 | per version listed at `base`, the download of `base + name` into `JoinPath(dir, name)` (pathlib's `dir / name`) happens once per occurrence of a listed name outside the snapshot, and never for a name in the snapshot |
| `Mirror.VersionPlanShape` | scripts/download_byond_builds.py:91-100 | every download is `base + name` into `JoinPath(dir, name)` (pathlib's `dir / name`) for a listed name outside the snapshot |
| `Mirror.UpToDateDownloadsNothing` | scripts/download_byond_builds.py:91-94 | when every listed name is already present, nothing is downloaded |
| `Mirror.RunPlanNeverExisting` | scripts/download_byond_builds.py:80-100 | over a whole run, every download is for a name its version's page listed and that version's snapshot did not hold, from that page's URL into that version's directory |

## Left out

- HTTP (`requests.get`, `raise_for_status`) and HTML parsing (BeautifulSoup):
  a page is given as its anchors, or as `None` for any failure. How
  BeautifulSoup builds `link.text` and reads `href` is not part of this model.
- `download_file` internals: streaming the body, `os.makedirs` and writing the
  file. It is an oracle returning any `bool`. A partly written file left
  behind by a failed download is not modelled.
- Directory creation and `glob("*")`: the existing names of each version are
  an input, taken once per version as the script does.
- `Mirror.DownloadEach`: `existing[v]` stands for the contents of `v`'s
  directory at the start of `v`'s turn, and all of `existing` is given before
  the run. A download made for an earlier version can add to a later
  version's directory through an absolute name or a name holding `..` (for
  example `../516/515.1_byond.exe516.1_byond.exe`, which passes the `515`
  filter and whose base name passes the `516` filter). The script's `glob`
  would then see that file and skip it. The model does not connect the two:
  it takes the later snapshot as an input and does not derive it from the
  earlier downloads.
- Logging, `time.sleep(1)` between downloads and the `__main__` block: they
  have no effect on what is fetched or downloaded.
- `FILE_PATTERN` (line 27): it is defined but never used by the script.
- `BuildNames.IsDigit`: only `0`-`9`. Python's `\d` on `str` also matches
  the other Unicode decimal digits, so texts with such digits are refused by
  the model but accepted by the script.
- `Mirror.JoinPath`: does not model `pathlib`'s removal of repeated `/` and
  of `.` components, nor a trailing `/` in the name. Like `pathlib`, it keeps
  `..` components as they are.
- The version string goes into the regular expression without escaping. The
  model treats it as literal text. This is the same for the only versions that
  reach the search, `515` and `516`, which have no special characters.
- An exception raised inside the anchor loop would also give `[]`. Nothing
  in the modelled loop can raise, so only fetch and parse failures take that
  path.
- The index page generation and the browser-driven downloader are not part
  of this script, and so not of this model.
