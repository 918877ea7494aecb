/**
 * The mirroring run of `download_builds`: for each configured version, the
 * names already present are snapshotted once, the version's page is listed,
 * and every listed name not in the snapshot is handed to the downloader.
 *
 * The network is the class `Remote`: fetching a page and downloading a file
 * may give any answer, and each call is logged, so every property below holds
 * whatever the server does.
 */
module Mirror {
  import opened Wrappers
  import opened BuildNames

  /** `BASE_URLS`: the download page of each version. */
  const BaseUrls: map<string, string> := map[
    "515" := "https://www.byond.com/download/build/515/",
    "516" := "https://www.byond.com/download/build/516/"
  ]

  /** `BASE_URLS.get(version)`, with the empty string for a version that has no entry. */
  function BaseUrlOf(version: string): (url: string)
    ensures url != "" <==> version in BaseUrls
  {
    if version in BaseUrls then BaseUrls[version] else ""
  }

  /** The order in which iterating over `BASE_URLS` visits its keys (insertion order). */
  const Versions: seq<string> := ["515", "516"]

  const OutputDir: string := "public"

  /**
   * `for version in BASE_URLS` visits exactly the configured versions, each
   * once, and every one of them has a base URL.
   */
  lemma VersionsConfigured()
    ensures forall k :: 0 <= k < |Versions| ==> BaseUrlOf(Versions[k]) != ""
    ensures (set k | 0 <= k < |Versions| :: Versions[k]) == BaseUrls.Keys
    ensures forall i, j :: 0 <= i < j < |Versions| ==> Versions[i] != Versions[j]
  {
    var visited := set k | 0 <= k < |Versions| :: Versions[k];
    assert Versions[0] == "515" && Versions[1] == "516";
    assert visited == {"515", "516"};
    assert BaseUrls.Keys == {"515", "516"};
  }

  /**
   * `pathlib`'s `dir / name` on POSIX: an absolute `name` replaces `dir`, an
   * empty one leaves it as it is, otherwise the two are joined with one separator.
   */
  function JoinPath(dir: string, name: string): string
  {
    if name == [] then dir
    else if name[0] == '/' then name
    else dir + "/" + name
  }

  /**
   * The joined path always ends with the name. A relative name gives exactly
   * `dir`, one separator and the name; an absolute name gives the name itself;
   * an empty name gives `dir`.
   */
  lemma JoinPathShape(dir: string, name: string)
    ensures var p := JoinPath(dir, name);
      && |name| <= |p| && p[|p| - |name|..] == name
      && (name == [] ==> p == dir)
      && (name != [] && name[0] == '/' ==> p == name)
      && (name != [] && name[0] != '/' ==>
            |p| == |dir| + 1 + |name| && p[..|dir| + 1] == dir + "/" && p[|dir| + 1..] == name)
  {
  }

  /** `output_dir / version`. */
  function VersionDir(version: string): string
  {
    JoinPath(OutputDir, version)
  }

  /** One call of the downloader: where from and where to. */
  datatype Request = Request(url: string, target: string)

  /** A call of the downloader together with what it reported. */
  datatype Attempt = Attempt(request: Request, ok: bool)

  /**
   * A request for a page; `None` stands for any failure while fetching or
   * parsing it. `after` is the number of downloads attempted before it, which
   * places the fetch among the downloads.
   */
  datatype PageFetch = PageFetch(url: string, page: Option<seq<Anchor>>, after: nat)

  /** The remote server as seen by the script, with a log of every call made to it. */
  class Remote {
    var fetches: seq<PageFetch>
    var attempts: seq<Attempt>

    constructor ()
      ensures fetches == [] && attempts == []
    {
      fetches := [];
      attempts := [];
    }

    /** `requests.get` plus HTML parsing: the page's anchors, or `None` when anything fails. */
    method FetchPage(url: string) returns (page: Option<seq<Anchor>>)
      modifies this
      ensures fetches == old(fetches) + [PageFetch(url, page, |attempts|)]
      ensures attempts == old(attempts)
    {
      page := *;
      fetches := fetches + [PageFetch(url, page, |attempts|)];
    }

    /** `download_file`: reports whether the file arrived; the answer is arbitrary. */
    method DownloadFile(url: string, target: string) returns (ok: bool)
      modifies this
      ensures attempts == old(attempts) + [Attempt(Request(url, target), ok)]
      ensures fetches == old(fetches)
    {
      ok := *;
      attempts := attempts + [Attempt(Request(url, target), ok)];
    }
  }

  /** The build names a fetch result yields: none when the fetch failed. */
  function Listing(version: string, page: Option<seq<Anchor>>): seq<string>
  {
    match page
    case None => []
    case Some(anchors) => Kept(version, anchors)
  }

  /** `get_available_builds`. */
  method GetAvailableBuilds(version: string, remote: Remote) returns (files: seq<string>)
    modifies remote
    ensures remote.attempts == old(remote.attempts)
    ensures version !in BaseUrls ==> files == [] && remote.fetches == old(remote.fetches)
    ensures version in BaseUrls ==>
      && |remote.fetches| == |old(remote.fetches)| + 1
      && remote.fetches == old(remote.fetches) + [PageFetch(BaseUrlOf(version), remote.fetches[|old(remote.fetches)|].page, |remote.attempts|)]
      && files == Listing(version, remote.fetches[|old(remote.fetches)|].page)
  {
    var url := BaseUrlOf(version);
    if url == "" {
      return [];
    }
    var page := remote.FetchPage(url);
    match page {
      case None =>
        files := [];
      case Some(anchors) =>
        files := CollectBuildNames(version, anchors);
    }
  }

  /** The names of `builds` that are not in the snapshot, in listing order, duplicates kept. */
  function Pending(builds: seq<string>, existing: set<string>): seq<string>
  {
    if builds == [] then []
    else
      var last := builds[|builds| - 1];
      Pending(builds[..|builds| - 1], existing) + (if last in existing then [] else [last])
  }

  /** The downloader call for `name`: from the page at `base`, into directory `dir`. */
  function RequestFor(base: string, dir: string, name: string): Request
  {
    Request(base + name, JoinPath(dir, name))
  }

  /** The downloader calls for `names`, one per name, in order. */
  function RequestsFor(base: string, dir: string, names: seq<string>): seq<Request>
  {
    if names == [] then []
    else RequestsFor(base, dir, names[..|names| - 1]) + [RequestFor(base, dir, names[|names| - 1])]
  }

  /** The downloader calls for a version listed at `base`: one per pending name, in order. */
  function VersionPlan(base: string, version: string, builds: seq<string>, existing: set<string>): seq<Request>
  {
    RequestsFor(base, VersionDir(version), Pending(builds, existing))
  }

  /** The names already present in a version's directory; a directory not yet created holds none. */
  function Snapshot(existing: map<string, set<string>>, version: string): set<string>
  {
    if version in existing then existing[version] else {}
  }

  /** The downloader calls for version `v` of a run whose listing fetch was `f`. */
  function PlanOf(existing: map<string, set<string>>, v: string, f: PageFetch): seq<Request>
  {
    VersionPlan(f.url, v, Listing(v, f.page), Snapshot(existing, v))
  }

  /** The downloader calls of a whole run, given what each version's page fetch returned. */
  function RunPlan(versions: seq<string>, fetched: seq<PageFetch>, existing: map<string, set<string>>): seq<Request>
    requires |versions| == |fetched|
  {
    if versions == [] then []
    else
      var n := |versions| - 1;
      RunPlan(versions[..n], fetched[..n], existing) + PlanOf(existing, versions[n], fetched[n])
  }

  /** The requests of a log of attempts, outcomes dropped. */
  function Requests(attempts: seq<Attempt>): seq<Request>
  {
    seq(|attempts|, k requires 0 <= k < |attempts| => attempts[k].request)
  }

  /**
   * The body of `download_builds` for one version: list the version's page,
   * then download every listed name outside the version's snapshot in
   * `existing`, whatever the downloader reports. `fetch` is the listing
   * fetch made and `attempted` the downloads, in order.
   */
  method DownloadVersion(remote: Remote, version: string, existing: map<string, set<string>>)
    returns (ghost fetch: PageFetch, ghost attempted: seq<Attempt>)
    requires BaseUrlOf(version) != ""
    modifies remote
    ensures remote.fetches == old(remote.fetches) + [fetch]
    ensures fetch.url == BaseUrlOf(version)
    ensures fetch.after == |old(remote.attempts)|
    ensures remote.attempts == old(remote.attempts) + attempted
    ensures Requests(attempted) == PlanOf(existing, version, fetch)
  {
    var existingFiles := Snapshot(existing, version);
    var builds := GetAvailableBuilds(version, remote);
    fetch := remote.fetches[|old(remote.fetches)|];
    attempted := [];
    for m := 0 to |builds|
      invariant remote.fetches == old(remote.fetches) + [fetch]
      invariant remote.attempts == old(remote.attempts) + attempted
      invariant Requests(attempted) == VersionPlan(fetch.url, version, builds[..m], existingFiles)
    {
      var fileName := builds[m];
      VersionPlanStep(fetch.url, version, builds, m, existingFiles);
      if fileName in existingFiles {
        continue;
      }
      var url := BaseUrlOf(version) + fileName;
      var targetPath := JoinPath(VersionDir(version), fileName);
      var success := remote.DownloadFile(url, targetPath);
      var attempt := Attempt(Request(url, targetPath), success);
      RequestsSnoc(attempted, attempt);
      AppendAssoc(old(remote.attempts), attempted, [attempt]);
      attempted := attempted + [attempt];
    }
    assert builds[..|builds|] == builds;
  }

  /**
   * The loop of `download_builds` over `versions`: each version listed once
   * and its pending names downloaded. `fetched` are the listing fetches made
   * and `attempted` the downloads, in order.
   */
  method DownloadEach(remote: Remote, versions: seq<string>, existing: map<string, set<string>>)
    returns (ghost fetched: seq<PageFetch>, ghost attempted: seq<Attempt>)
    requires forall k :: 0 <= k < |versions| ==> BaseUrlOf(versions[k]) != ""
    modifies remote
    ensures remote.fetches == old(remote.fetches) + fetched
    ensures remote.attempts == old(remote.attempts) + attempted
    ensures |fetched| == |versions|
    ensures forall k :: 0 <= k < |versions| ==> fetched[k].url == BaseUrlOf(versions[k])
    ensures forall k :: 0 <= k < |versions| ==>
      fetched[k].after == |old(remote.attempts)| + |RunPlan(versions[..k], fetched[..k], existing)|
    ensures Requests(attempted) == RunPlan(versions, fetched, existing)
  {
    fetched, attempted := [], [];
    ghost var start := |remote.attempts|;
    for n := 0 to |versions|
      invariant remote.fetches == old(remote.fetches) + fetched
      invariant remote.attempts == old(remote.attempts) + attempted
      invariant |fetched| == n
      invariant forall k :: 0 <= k < n ==> fetched[k].url == BaseUrlOf(versions[k])
      invariant forall k :: 0 <= k < n ==>
        fetched[k].after == start + |RunPlan(versions[..k], fetched[..k], existing)|
      invariant Requests(attempted) == RunPlan(versions[..n], fetched, existing)
    {
      var version := versions[n];
      var fetch, more := DownloadVersion(remote, version, existing);
      RequestsAppend(attempted, more);
      RunPlanStep(versions, fetched, existing, fetch);
      FetchedFromStep(versions, fetched, fetch);
      assert fetch.after == start + |Requests(attempted)|;
      FetchOrderStep(versions, fetched, existing, fetch, start);
      AppendAssoc(old(remote.fetches), fetched, [fetch]);
      AppendAssoc(old(remote.attempts), attempted, more);
      fetched, attempted := fetched + [fetch], attempted + more;
    }
    assert versions[..|versions|] == versions;
  }

  /** `download_builds`: every configured version, in the order of `Versions`. */
  method DownloadBuilds(remote: Remote, existing: map<string, set<string>>)
    returns (ghost fetched: seq<PageFetch>, ghost attempted: seq<Attempt>)
    modifies remote
    ensures remote.fetches == old(remote.fetches) + fetched
    ensures remote.attempts == old(remote.attempts) + attempted
    ensures |fetched| == |Versions|
    ensures forall k :: 0 <= k < |Versions| ==> fetched[k].url == BaseUrlOf(Versions[k])
    ensures forall k :: 0 <= k < |Versions| ==>
      fetched[k].after == |old(remote.attempts)| + |RunPlan(Versions[..k], fetched[..k], existing)|
    ensures Requests(attempted) == RunPlan(Versions, fetched, existing)
  {
    VersionsConfigured();
    fetched, attempted := DownloadEach(remote, Versions, existing);
  }

  lemma RunPlanStep(versions: seq<string>, fetched: seq<PageFetch>, existing: map<string, set<string>>, fetch: PageFetch)
    requires |fetched| < |versions|
    ensures RunPlan(versions[..|fetched| + 1], fetched + [fetch], existing)
         == RunPlan(versions[..|fetched|], fetched, existing) + PlanOf(existing, versions[|fetched|], fetch)
  {
    var n := |fetched|;
    assert versions[..n + 1][..n] == versions[..n];
    assert (fetched + [fetch])[..n] == fetched;
  }

  lemma FetchedFromStep(versions: seq<string>, fetched: seq<PageFetch>, fetch: PageFetch)
    requires |fetched| < |versions|
    requires forall k :: 0 <= k < |fetched| ==> fetched[k].url == BaseUrlOf(versions[k])
    requires fetch.url == BaseUrlOf(versions[|fetched|])
    ensures forall k :: 0 <= k < |fetched| + 1 ==> (fetched + [fetch])[k].url == BaseUrlOf(versions[k])
  {
  }

  lemma FetchOrderStep(versions: seq<string>, fetched: seq<PageFetch>, existing: map<string, set<string>>, fetch: PageFetch, start: nat)
    requires |fetched| < |versions|
    requires forall k :: 0 <= k < |fetched| ==>
      fetched[k].after == start + |RunPlan(versions[..k], fetched[..k], existing)|
    requires fetch.after == start + |RunPlan(versions[..|fetched|], fetched, existing)|
    ensures forall k :: 0 <= k < |fetched| + 1 ==>
      (fetched + [fetch])[k].after == start + |RunPlan(versions[..k], (fetched + [fetch])[..k], existing)|
  {
    var n := |fetched|;
    forall k | 0 <= k < n + 1
      ensures (fetched + [fetch])[k].after == start + |RunPlan(versions[..k], (fetched + [fetch])[..k], existing)|
    {
      if k < n {
        assert (fetched + [fetch])[..k] == fetched[..k];
      } else {
        assert (fetched + [fetch])[..k] == fetched;
      }
    }
  }

  lemma PrefixOfAppend<T>(a: seq<T>, b: seq<T>, c: seq<T>)
    requires a <= b
    ensures a <= b + c
  {
    assert forall i :: 0 <= i < |a| ==> (b + c)[i] == b[i];
  }

  lemma AppendAssoc<T>(a: seq<T>, b: seq<T>, c: seq<T>)
    ensures a + (b + c) == (a + b) + c
  {
  }

  lemma RequestsAppend(xs: seq<Attempt>, ys: seq<Attempt>)
    ensures Requests(xs + ys) == Requests(xs) + Requests(ys)
  {
  }

  lemma RequestsSnoc(xs: seq<Attempt>, x: Attempt)
    ensures Requests(xs + [x]) == Requests(xs) + [x.request]
  {
  }

  lemma VersionPlanStep(base: string, version: string, builds: seq<string>, m: nat, existing: set<string>)
    requires m < |builds|
    ensures VersionPlan(base, version, builds[..m + 1], existing)
         == VersionPlan(base, version, builds[..m], existing)
            + (if builds[m] in existing then [] else [RequestFor(base, VersionDir(version), builds[m])])
  {
    assert builds[..m + 1] == builds[..m] + [builds[m]];
    PendingSnoc(builds[..m], existing, builds[m]);
    var pending := Pending(builds[..m], existing);
    if builds[m] in existing {
      assert pending + [] == pending;
    } else {
      RequestsForSnoc(base, VersionDir(version), pending, builds[m]);
    }
  }

  lemma PendingSnoc(builds: seq<string>, existing: set<string>, name: string)
    ensures Pending(builds + [name], existing) == Pending(builds, existing) + (if name in existing then [] else [name])
  {
    assert (builds + [name])[..|builds|] == builds;
  }

  lemma RequestsForSnoc(base: string, dir: string, names: seq<string>, name: string)
    ensures RequestsFor(base, dir, names + [name]) == RequestsFor(base, dir, names) + [RequestFor(base, dir, name)]
  {
    assert (names + [name])[..|names|] == names;
  }

  /** A name is pending exactly when it is listed and not in the snapshot. */
  lemma {:induction false} PendingMembers(builds: seq<string>, existing: set<string>)
    ensures forall name :: name in Pending(builds, existing) <==> name in builds && name !in existing
    decreases |builds|
  {
    if builds != [] {
      var init := builds[..|builds| - 1];
      PendingMembers(init, existing);
      assert builds == init + [builds[|builds| - 1]];
    }
  }

  /**
   * A listed name outside the snapshot is pending once per occurrence in the
   * listing (the snapshot is not updated, so duplicates stay); a name in the
   * snapshot never is.
   */
  lemma {:induction false} PendingCount(builds: seq<string>, existing: set<string>, name: string)
    ensures multiset(Pending(builds, existing))[name] == if name in existing then 0 else multiset(builds)[name]
    decreases |builds|
  {
    if builds != [] {
      var init := builds[..|builds| - 1];
      PendingCount(init, existing, name);
      assert builds == init + [builds[|builds| - 1]];
    }
  }

  /** Different names give different download URLs. */
  lemma RequestForInjective(base: string, dir: string, a: string, b: string)
    requires RequestFor(base, dir, a).url == RequestFor(base, dir, b).url
    ensures a == b
  {
    assert a == (base + a)[|base|..];
    assert b == (base + b)[|base|..];
  }

  /** The requests for a sequence of names hold each name's request as often as the name occurs. */
  lemma {:induction false} RequestCount(base: string, dir: string, names: seq<string>, name: string)
    ensures multiset(RequestsFor(base, dir, names))[RequestFor(base, dir, name)] == multiset(names)[name]
    decreases |names|
  {
    if names != [] {
      var init, last := names[..|names| - 1], names[|names| - 1];
      RequestCount(base, dir, init, name);
      assert names == init + [last];
      assert multiset(names) == multiset(init) + multiset{last};
      assert multiset(RequestsFor(base, dir, names))
          == multiset(RequestsFor(base, dir, init)) + multiset{RequestFor(base, dir, last)};
      if RequestFor(base, dir, last) == RequestFor(base, dir, name) {
        RequestForInjective(base, dir, last, name);
      }
    }
  }

  /** Every request for a sequence of names is the request for one of those names. */
  lemma {:induction false} RequestsForMembers(base: string, dir: string, names: seq<string>)
    ensures forall r :: r in RequestsFor(base, dir, names) ==> exists name :: name in names && r == RequestFor(base, dir, name)
    decreases |names|
  {
    if names != [] {
      var init := names[..|names| - 1];
      RequestsForMembers(base, dir, init);
      assert names == init + [names[|names| - 1]];
    }
  }

  /**
   * For one version, the downloader is called once per occurrence of each
   * listed name outside the snapshot, with `base + name` and `dir/name`, and
   * never for a name in the snapshot.
   */
  lemma VersionPlanCount(base: string, version: string, builds: seq<string>, existing: set<string>, name: string)
    ensures multiset(VersionPlan(base, version, builds, existing))[RequestFor(base, VersionDir(version), name)]
         == if name in existing then 0 else multiset(builds)[name]
  {
    RequestCount(base, VersionDir(version), Pending(builds, existing), name);
    PendingCount(builds, existing, name);
  }

  /** Every call the plan makes is for a listed name outside the snapshot, with its URL and target. */
  lemma VersionPlanShape(base: string, version: string, builds: seq<string>, existing: set<string>)
    ensures forall r :: r in VersionPlan(base, version, builds, existing) ==>
      exists name :: name in builds && name !in existing && r == RequestFor(base, VersionDir(version), name)
  {
    PendingMembers(builds, existing);
    RequestsForMembers(base, VersionDir(version), Pending(builds, existing));
  }

  /** When everything listed is already present, nothing is downloaded. */
  lemma {:induction false} UpToDateDownloadsNothing(base: string, version: string, builds: seq<string>, existing: set<string>)
    requires forall name :: name in builds ==> name in existing
    ensures VersionPlan(base, version, builds, existing) == []
  {
    NothingPending(builds, existing);
  }

  lemma {:induction false} NothingPending(builds: seq<string>, existing: set<string>)
    requires forall name :: name in builds ==> name in existing
    ensures Pending(builds, existing) == []
    decreases |builds|
  {
    if builds != [] {
      NothingPending(builds[..|builds| - 1], existing);
      assert builds[|builds| - 1] in builds;
    }
  }

  /**
   * Over a whole run, every download is for a name the version's page listed
   * and that was not in that version's snapshot.
   */
  lemma {:induction false} RunPlanNeverExisting(versions: seq<string>, fetched: seq<PageFetch>, existing: map<string, set<string>>)
    requires |versions| == |fetched|
    ensures forall r :: r in RunPlan(versions, fetched, existing) ==>
      exists k, name :: (0 <= k < |versions| && name in Listing(versions[k], fetched[k].page)
        && name !in Snapshot(existing, versions[k]) && r == RequestFor(fetched[k].url, VersionDir(versions[k]), name))
    decreases |versions|
  {
    if versions != [] {
      var n := |versions| - 1;
      RunPlanNeverExisting(versions[..n], fetched[..n], existing);
      var v := versions[n];
      VersionPlanShape(fetched[n].url, v, Listing(v, fetched[n].page), Snapshot(existing, v));
      forall r | r in RunPlan(versions, fetched, existing)
        ensures exists k, name :: (0 <= k < |versions| && name in Listing(versions[k], fetched[k].page)
          && name !in Snapshot(existing, versions[k]) && r == RequestFor(fetched[k].url, VersionDir(versions[k]), name))
      {
        if r in RunPlan(versions[..n], fetched[..n], existing) {
          var k, name :| 0 <= k < n && name in Listing(versions[..n][k], fetched[..n][k].page)
            && name !in Snapshot(existing, versions[..n][k]) && r == RequestFor(fetched[..n][k].url, VersionDir(versions[..n][k]), name);
          assert versions[..n][k] == versions[k] && fetched[..n][k] == fetched[k];
        } else {
          var name :| name in Listing(v, fetched[n].page) && name !in Snapshot(existing, v) && r == RequestFor(fetched[n].url, VersionDir(v), name);
          assert 0 <= n < |versions|;
        }
      }
    }
  }

  /**
   * The downloads of the versions before `k` are a prefix of those of the
   * versions before `m`, for `k <= m`; with `m == |versions|`, of the run's
   * downloads. With the `after` positions of `DownloadEach`, the downloads
   * made before version `k`'s listing fetch are exactly those of the earlier
   * versions, and all of version `k`'s come after it.
   */
  lemma {:induction false} RunPlanPrefix(versions: seq<string>, fetched: seq<PageFetch>, existing: map<string, set<string>>, k: nat, m: nat)
    requires |versions| == |fetched| && k <= m <= |versions|
    ensures RunPlan(versions[..k], fetched[..k], existing) <= RunPlan(versions[..m], fetched[..m], existing)
    decreases m
  {
    if k < m {
      RunPlanPrefix(versions, fetched, existing, k, m - 1);
      RunPlanUnfold(versions, fetched, existing, m - 1);
      PrefixOfAppend(RunPlan(versions[..k], fetched[..k], existing),
                     RunPlan(versions[..m - 1], fetched[..m - 1], existing),
                     PlanOf(existing, versions[m - 1], fetched[m - 1]));
    }
  }

  lemma RunPlanUnfold(versions: seq<string>, fetched: seq<PageFetch>, existing: map<string, set<string>>, m: nat)
    requires |versions| == |fetched| && m < |versions|
    ensures RunPlan(versions[..m + 1], fetched[..m + 1], existing)
         == RunPlan(versions[..m], fetched[..m], existing) + PlanOf(existing, versions[m], fetched[m])
  {
    assert versions[..m + 1][..m] == versions[..m];
    assert fetched[..m + 1][..m] == fetched[..m];
  }

  /** A run handles `515` first and then `516`, each against its own page, snapshot and directory. */
  lemma RunPlanOrder(fetched: seq<PageFetch>, existing: map<string, set<string>>)
    requires |fetched| == |Versions|
    ensures RunPlan(Versions, fetched, existing)
         == VersionPlan(fetched[0].url, "515", Listing("515", fetched[0].page), Snapshot(existing, "515"))
            + VersionPlan(fetched[1].url, "516", Listing("516", fetched[1].page), Snapshot(existing, "516"))
  {
    assert Versions[..1] == ["515"] && Versions[..1][..0] == [];
    assert RunPlan(Versions[..1], fetched[..1], existing)
        == VersionPlan(fetched[0].url, "515", Listing("515", fetched[0].page), Snapshot(existing, "515"));
  }

  /** A name that is an absolute path is written there, outside the version's directory. */
  lemma AbsoluteNameLeavesVersionDir()
    ensures RequestFor(BaseUrlOf("515"), VersionDir("515"), "/tmp/515.1647_byond.exe").target == "/tmp/515.1647_byond.exe"
    ensures RequestFor(BaseUrlOf("515"), VersionDir("515"), "515.1647_byond.exe").target == "public/515/515.1647_byond.exe"
  {
  }
}
