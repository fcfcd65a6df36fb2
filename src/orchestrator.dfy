/** The top-level policy: which kubectl version to use, and making sure a
    binary compatible with it is at hand. The catalog, the API server, the
    upstream mirror and the downloader are collaborators whose answers are
    fields of the Versioner; the calls it makes to them are logged in fields. */
module Orchestrator {
  import opened Wrappers
  import opened Semver
  import opened OsExec
  import opened Common
  import opened Kubectl
  import opened Resolver
  import Finder

  /** The environment variable that marks a version resolution in progress. */
  const PreventRecursiveInvocationEnvName := "KUBERLR_RESOLVING_VERSION"

  const DownloadsDisabledMessage := "the right kubectl is missing, binary downloads from kubernetes' upstream mirror are disabled"

  const DownloadFailedContext := "failed to download compatible kubectl"

  /** How querying the API server can fail: only the log line differs. */
  datatype ApiFailure = Timeout | Unreachable(message: string) | Rejected(message: string)

  datatype ApiAnswer = ApiVersion(version: Version) | ApiFailed(failure: ApiFailure)

  // ---------------------------------------------------------------------------
  // Which version to use
  // ---------------------------------------------------------------------------

  /** The newest catalogued version, else the upstream stable version. */
  function MostRecentOrUpstream(catalog: seq<KubectlBinary>, upstream: Result<Version, Error>): (r: Result<Version, Error>)
    ensures catalog == [] ==> r == upstream
    ensures catalog != [] ==> exists b :: b in catalog && r == Success(b.version)
  {
    match MostRecentKubectlAvailable(catalog)
    case Success(kubectl) =>
      assert catalog[0] in catalog;
      Success(kubectl.version)
    case Failure(_) => upstream
  }

  /** The answer of a version resolution and which collaborators it asked. */
  datatype VersionDecision = VersionDecision(result: Result<Version, Error>, queriedApi: bool, queriedUpstream: bool)

  /** The version resolution, from the guard's presence, the outcome of setting
      it, and the collaborators' answers. */
  function VersionToUse(guardSet: bool, setenvError: Option<string>, api: ApiAnswer,
                        catalog: seq<KubectlBinary>, upstream: Result<Version, Error>): (r: VersionDecision)
    ensures r.queriedApi <==> !guardSet && setenvError.None?
    ensures r.queriedUpstream ==> catalog == [] && r.result == upstream
  {
    if guardSet then VersionDecision(MostRecentOrUpstream(catalog, upstream), false, catalog == [])
    else if setenvError.Some? then
      VersionDecision(Failure(Wrapped("failed to set environment variable " + PreventRecursiveInvocationEnvName,
                                      Other(setenvError.value))), false, false)
    else
      match api
      case ApiVersion(v) => VersionDecision(Success(v), true, false)
      case ApiFailed(_) => VersionDecision(MostRecentOrUpstream(catalog, upstream), true, catalog == [])
  }

  /** The fallback answers the newest catalogued version without asking
      upstream when the catalog is not empty, and upstream's answer otherwise. */
  lemma MostRecentOrUpstreamIsNewest(catalog: seq<KubectlBinary>, upstream: Result<Version, Error>)
    requires Sorted(catalog, true)
    ensures catalog != [] ==> MostRecentOrUpstream(catalog, upstream).Success?
    ensures catalog != [] ==> exists b :: b in catalog && b.version == MostRecentOrUpstream(catalog, upstream).value
    ensures catalog != [] ==> forall b :: b in catalog ==> LessEq(b.version, MostRecentOrUpstream(catalog, upstream).value)
    ensures catalog == [] ==> MostRecentOrUpstream(catalog, upstream) == upstream
  {
    if catalog != [] {
      assert catalog[0] in catalog;
    }
  }

  /** With the guard present, the API server is never asked and the fallback
      answers. */
  lemma GuardSkipsApi(setenvError: Option<string>, api: ApiAnswer, catalog: seq<KubectlBinary>, upstream: Result<Version, Error>)
    ensures var d := VersionToUse(true, setenvError, api, catalog, upstream);
            !d.queriedApi && d.result == MostRecentOrUpstream(catalog, upstream)
            && (d.queriedUpstream <==> catalog == [])
  {
  }

  /** Without the guard, a version the API server gives is used unchanged and
      nothing else is asked. */
  lemma ApiVersionUsed(v: Version, catalog: seq<KubectlBinary>, upstream: Result<Version, Error>)
    ensures VersionToUse(false, None, ApiVersion(v), catalog, upstream) == VersionDecision(Success(v), true, false)
  {
  }

  /** Every kind of API failure, a timeout or any other, leads to the same answer. */
  lemma ApiFailuresAlike(guardSet: bool, setenvError: Option<string>, f: ApiFailure, g: ApiFailure,
                         catalog: seq<KubectlBinary>, upstream: Result<Version, Error>)
    ensures VersionToUse(guardSet, setenvError, ApiFailed(f), catalog, upstream)
         == VersionToUse(guardSet, setenvError, ApiFailed(g), catalog, upstream)
  {
  }

  /** Without the guard, a failed API query falls back exactly like a guarded
      resolution, apart from having asked the API server. */
  lemma ApiFailureFallsBack(f: ApiFailure, api: ApiAnswer, catalog: seq<KubectlBinary>, upstream: Result<Version, Error>)
    ensures VersionToUse(false, None, ApiFailed(f), catalog, upstream).result
         == VersionToUse(true, None, api, catalog, upstream).result
  {
  }

  // ---------------------------------------------------------------------------
  // Ensuring a compatible binary
  // ---------------------------------------------------------------------------

  /** Where a release is downloaded to: the download directory joined with the
      local name of the release. */
  function DownloadPath(localDownloadDir: string, p: Platform, v: Version): (r: string)
    ensures EndsWith(r, BuildKubectlNameForLocalBin(p, v))
  {
    Finder.Join(localDownloadDir, BuildKubectlNameForLocalBin(p, v))
  }

  /** The path to use, or the error, and whether the downloader was called. */
  datatype EnsureDecision = EnsureDecision(result: Result<string, Error>, downloaded: bool)

  /** The binary to run for the requested version: a compatible catalogued
      one; else a download, if allowed; else, when configured, the newest
      catalogued one. */
  function EnsureCompatible(catalog: seq<KubectlBinary>, version: Version, allowDownload: bool,
                            useLatestIfNoCompatible: bool, downloadError: Option<Error>,
                            localDownloadDir: string, p: Platform): (r: EnsureDecision)
    ensures r.downloaded ==> allowDownload
    ensures r.result.Failure? ==> !(useLatestIfNoCompatible && |catalog| > 0)
  {
    match FirstCompatible(version, catalog)
    case Success(kubectl) => EnsureDecision(Success(kubectl.path), false)
    case Failure(_) =>
      if !allowDownload then
        if useLatestIfNoCompatible && |catalog| > 0 then EnsureDecision(Success(catalog[0].path), false)
        else EnsureDecision(Failure(Other(DownloadsDisabledMessage)), false)
      else if downloadError.None? then EnsureDecision(Success(DownloadPath(localDownloadDir, p, version)), true)
      else if useLatestIfNoCompatible && |catalog| > 0 then EnsureDecision(Success(catalog[0].path), true)
      else EnsureDecision(Failure(Wrapped(DownloadFailedContext, downloadError.value)), true)
  }

  /** A compatible catalogued binary is used, the newest such when the catalog
      is sorted newest first, and nothing is downloaded. */
  lemma EnsurePrefersCatalog(catalog: seq<KubectlBinary>, version: Version, allowDownload: bool,
                             useLatestIfNoCompatible: bool, downloadError: Option<Error>,
                             localDownloadDir: string, p: Platform)
    requires exists b :: b in catalog && Compatible(version, b.version)
    ensures var d := EnsureCompatible(catalog, version, allowDownload, useLatestIfNoCompatible, downloadError, localDownloadDir, p);
            && !d.downloaded && d.result.Success?
            && exists b :: (b in catalog && Compatible(version, b.version) && d.result.value == b.path
                            && (Sorted(catalog, true) ==> forall c :: c in catalog && Compatible(version, c.version) ==> LessEq(c.version, b.version)))
  {
    FirstCompatibleIsFirstMatch(version, catalog);
    var k := FirstCompatible(version, catalog).value;
    if Sorted(catalog, true) {
      FirstCompatibleIsNewest(version, catalog);
    }
    assert k in catalog;
  }

  /** The downloader is called exactly when nothing compatible is catalogued
      and downloads are allowed. */
  lemma EnsureDownloadsOnlyWhenNeeded(catalog: seq<KubectlBinary>, version: Version, allowDownload: bool,
                                      useLatestIfNoCompatible: bool, downloadError: Option<Error>,
                                      localDownloadDir: string, p: Platform)
    ensures EnsureCompatible(catalog, version, allowDownload, useLatestIfNoCompatible, downloadError, localDownloadDir, p).downloaded
        <==> allowDownload && !exists b :: b in catalog && Compatible(version, b.version)
  {
    FirstCompatibleIsFirstMatch(version, catalog);
  }

  /** Every path handed back is a catalogued binary's, or the download
      destination after a successful download. */
  lemma EnsureInventsNoPath(catalog: seq<KubectlBinary>, version: Version, allowDownload: bool,
                            useLatestIfNoCompatible: bool, downloadError: Option<Error>,
                            localDownloadDir: string, p: Platform)
    ensures var d := EnsureCompatible(catalog, version, allowDownload, useLatestIfNoCompatible, downloadError, localDownloadDir, p);
            d.result.Success? ==>
              (exists b :: b in catalog && b.path == d.result.value)
              || (d.downloaded && downloadError.None? && d.result.value == DownloadPath(localDownloadDir, p, version))
  {
    FirstCompatibleIsFirstMatch(version, catalog);
    if catalog != [] {
      assert catalog[0] in catalog;
    }
  }

  /** When nothing compatible is catalogued and downloads are allowed, a
      successful download is used: the path handed back is the download
      destination, whatever the fallback setting and the catalog hold. */
  lemma EnsureUsesDownload(catalog: seq<KubectlBinary>, version: Version, useLatestIfNoCompatible: bool,
                           localDownloadDir: string, p: Platform)
    requires !exists b :: b in catalog && Compatible(version, b.version)
    ensures EnsureCompatible(catalog, version, true, useLatestIfNoCompatible, None, localDownloadDir, p)
         == EnsureDecision(Success(DownloadPath(localDownloadDir, p, version)), true)
  {
    FirstCompatibleIsFirstMatch(version, catalog);
  }

  /** When nothing compatible is catalogued and no download succeeded (none
      was allowed, or it failed), the configured fallback hands back the path
      of a binary of the newest catalogued version. */
  lemma EnsureFallsBackToNewest(catalog: seq<KubectlBinary>, version: Version, allowDownload: bool,
                                downloadError: Option<Error>, localDownloadDir: string, p: Platform)
    requires Sorted(catalog, true) && |catalog| > 0
    requires !exists b :: b in catalog && Compatible(version, b.version)
    requires !allowDownload || downloadError.Some?
    ensures var d := EnsureCompatible(catalog, version, allowDownload, true, downloadError, localDownloadDir, p);
            && d.downloaded == allowDownload
            && exists b :: b in catalog && d.result == Success(b.path)
                           && forall c :: c in catalog ==> LessEq(c.version, b.version)
  {
    FirstCompatibleIsFirstMatch(version, catalog);
    var b := catalog[0];
    assert b in catalog;
    forall c | c in catalog
      ensures LessEq(c.version, b.version)
    {
      var j :| 0 <= j < |catalog| && catalog[j] == c;
      if j > 0 {
        assert InOrder(catalog[0].version, catalog[j].version, true);
      }
    }
  }

  /** The resolution fails exactly when nothing compatible is catalogued, no
      download succeeded, and the newest binary may not or cannot stand in;
      the error says why. */
  lemma EnsureFailsOnlyWithoutFallback(catalog: seq<KubectlBinary>, version: Version, allowDownload: bool,
                                       useLatestIfNoCompatible: bool, downloadError: Option<Error>,
                                       localDownloadDir: string, p: Platform)
    ensures var d := EnsureCompatible(catalog, version, allowDownload, useLatestIfNoCompatible, downloadError, localDownloadDir, p);
            d.result.Failure? <==>
              && !(exists b :: b in catalog && Compatible(version, b.version))
              && (allowDownload ==> downloadError.Some?)
              && !(useLatestIfNoCompatible && |catalog| > 0)
    ensures var d := EnsureCompatible(catalog, version, allowDownload, useLatestIfNoCompatible, downloadError, localDownloadDir, p);
            d.result.Failure? ==>
              d.result.error == (if allowDownload then Wrapped(DownloadFailedContext, downloadError.value)
                                 else Other(DownloadsDisabledMessage))
  {
    FirstCompatibleIsFirstMatch(version, catalog);
  }

  // ---------------------------------------------------------------------------
  // The Versioner
  // ---------------------------------------------------------------------------

  class Versioner {
    /** Whether the guard environment variable is present. */
    var guardSet: bool
    /** The error setting the guard fails with, if it does. */
    var setenvError: Option<string>
    /** What the catalog lists, newest first. */
    var catalog: seq<KubectlBinary>
    var apiAnswer: ApiAnswer
    var upstreamAnswer: Result<Version, Error>
    /** The error the downloader fails with, if it does. */
    var downloadError: Option<Error>

    /** Each API query: its timeout and whether the guard was present during it. */
    var apiQueries: seq<(int, bool)>
    var upstreamQueries: nat
    /** Each download requested: the release and its destination. */
    var downloads: seq<(Version, string)>

    constructor (guardSet: bool, setenvError: Option<string>, catalog: seq<KubectlBinary>, apiAnswer: ApiAnswer,
                 upstreamAnswer: Result<Version, Error>, downloadError: Option<Error>)
      ensures this.guardSet == guardSet && this.setenvError == setenvError && this.catalog == catalog
      ensures this.apiAnswer == apiAnswer && this.upstreamAnswer == upstreamAnswer && this.downloadError == downloadError
      ensures apiQueries == [] && upstreamQueries == 0 && downloads == []
    {
      this.guardSet := guardSet;
      this.setenvError := setenvError;
      this.catalog := catalog;
      this.apiAnswer := apiAnswer;
      this.upstreamAnswer := upstreamAnswer;
      this.downloadError := downloadError;
      apiQueries := [];
      upstreamQueries := 0;
      downloads := [];
    }

    /** The newest catalogued version, asking upstream only when there is none. */
    method MostRecentKubectlVersionAvailableOrLatestFromUpstream() returns (r: Result<Version, Error>)
      modifies this`upstreamQueries
      ensures r == MostRecentOrUpstream(catalog, upstreamAnswer)
      ensures upstreamQueries == old(upstreamQueries) + (if catalog == [] then 1 else 0)
    {
      var bins := catalog;
      var kubectl := MostRecentKubectlAvailable(bins);
      if kubectl.Success? {
        return Success(kubectl.value.version);
      }
      upstreamQueries := upstreamQueries + 1;
      r := upstreamAnswer;
    }

    /** The version of kubectl to use. Sets the guard around the API query and
        removes it afterwards; when the guard is already present the API server
        is not asked. */
    method KubectlVersionToUse(timeout: int) returns (r: Result<Version, Error>)
      modifies this`guardSet, this`apiQueries, this`upstreamQueries
      ensures guardSet == old(guardSet)
      ensures var d := VersionToUse(old(guardSet), setenvError, apiAnswer, catalog, upstreamAnswer);
              && r == d.result
              && apiQueries == old(apiQueries) + (if d.queriedApi then [(timeout, true)] else [])
              && upstreamQueries == old(upstreamQueries) + (if d.queriedUpstream then 1 else 0)
    {
      if guardSet {
        r := MostRecentKubectlVersionAvailableOrLatestFromUpstream();
        return;
      }
      if setenvError.Some? {
        return Failure(Wrapped("failed to set environment variable " + PreventRecursiveInvocationEnvName,
                               Other(setenvError.value)));
      }
      guardSet := true;
      apiQueries := apiQueries + [(timeout, guardSet)];
      var answer := apiAnswer;
      if answer.ApiFailed? {
        r := MostRecentKubectlVersionAvailableOrLatestFromUpstream();
      } else {
        r := Success(answer.version);
      }
      guardSet := false;
    }

    /** The path of a kubectl binary compatible with the requested version,
        downloading it to the local download directory when needed and allowed. */
    method EnsureCompatibleKubectlAvailable(version: Version, allowDownload: bool, useLatestIfNoCompatible: bool,
                                            localDownloadDir: string, p: Platform) returns (r: Result<string, Error>)
      modifies this`downloads
      ensures var d := EnsureCompatible(catalog, version, allowDownload, useLatestIfNoCompatible, downloadError, localDownloadDir, p);
              && r == d.result
              && downloads == old(downloads) + (if d.downloaded then [(version, DownloadPath(localDownloadDir, p, version))] else [])
    {
      var bins := catalog;
      var kubectl := FindCompatibleKubectl(version, bins);
      if kubectl.Success? {
        return Success(kubectl.value.path);
      }
      if !allowDownload {
        if useLatestIfNoCompatible {
          var all := catalog;
          if |all| > 0 {
            return Success(all[0].path);
          }
        }
        return Failure(Other(DownloadsDisabledMessage));
      }
      var filename := DownloadPath(localDownloadDir, p, version);
      downloads := downloads + [(version, filename)];
      var err := downloadError;
      if err.Some? {
        if useLatestIfNoCompatible {
          var all := catalog;
          if |all| > 0 {
            return Success(all[0].path);
          }
        }
        return Failure(Wrapped(DownloadFailedContext, err.value));
      }
      return Success(filename);
    }
  }

  // ---------------------------------------------------------------------------
  // The orchestrator's test scenarios
  // ---------------------------------------------------------------------------

  /** Catalog {1.4.0, 1.2.0} and an API timeout: 1.4.0, upstream not asked;
      an empty catalog and an API timeout: upstream's 1.4.0. */
  lemma TimeoutScenarios()
    ensures VersionToUse(false, None, ApiFailed(Timeout), [Bin(Version(1, 4, 0)), Bin(Version(1, 2, 0))], Failure(Other("not asked")))
         == VersionDecision(Success(Version(1, 4, 0)), true, false)
    ensures VersionToUse(false, None, ApiFailed(Timeout), [], Success(Version(1, 4, 0)))
         == VersionDecision(Success(Version(1, 4, 0)), true, true)
  {
  }

  /** Requested 1.9.0 with nothing catalogued: a download.
      Requested 1.30.2 with {1.29.0, 1.26.0}: the 1.29.0 binary, no download.
      Requested 2.4.0 with {1.3.0, 1.2.0, 1.1.0}: a download when allowed,
      the downloads-disabled error otherwise. */
  lemma EnsureScenarios(dir: string, p: Platform)
    ensures EnsureCompatible([], Version(1, 9, 0), true, false, None, dir, p)
         == EnsureDecision(Success(DownloadPath(dir, p, Version(1, 9, 0))), true)
    ensures EnsureCompatible([Bin(Version(1, 29, 0)), Bin(Version(1, 26, 0))], Version(1, 30, 2), true, false, None, dir, p)
         == EnsureDecision(Success(Bin(Version(1, 29, 0)).path), false)
    ensures EnsureCompatible([Bin(Version(1, 3, 0)), Bin(Version(1, 2, 0)), Bin(Version(1, 1, 0))], Version(2, 4, 0), true, false, None, dir, p)
         == EnsureDecision(Success(DownloadPath(dir, p, Version(2, 4, 0))), true)
    ensures EnsureCompatible([Bin(Version(1, 3, 0)), Bin(Version(1, 2, 0)), Bin(Version(1, 1, 0))], Version(2, 4, 0), false, false, None, dir, p)
         == EnsureDecision(Failure(Other(DownloadsDisabledMessage)), false)
  {
    var c := [Bin(Version(1, 3, 0)), Bin(Version(1, 2, 0)), Bin(Version(1, 1, 0))];
    assert c[1..] == [Bin(Version(1, 2, 0)), Bin(Version(1, 1, 0))];
    assert c[1..][1..] == [Bin(Version(1, 1, 0))];
    assert c[1..][1..][1..] == [];
  }
}
