# kuberlr version resolution, modelled in Dafny

kuberlr is a kubectl wrapper. It works out which kubectl release fits the
Kubernetes API server it talks to, looks for a compatible binary among the
binaries it downloaded before and those installed system-wide, downloads one
from the upstream mirror when none is at hand, and then runs it.

This project models the core of that decision:

- the file-naming schemes for downloaded and system binaries, and how a
  version is read back from a file name;
- the catalogue of binaries found in the two directories, and its in-place
  sort by version;
- the compatibility window (same major version, minor version from one below
  to one above the requested one);
- the Versioner's policy:
  - the guard against recursive invocation;
  - the fallbacks when the API server cannot be reached;
  - when a download happens and which path is handed back;
- the downloader:
  - which checksum algorithm a release uses;
  - the download URL;
  - the gate that keeps a binary whose checksum does not match from being installed;
  - the retry loop, which retries only on a checksum mismatch and returns the
    error of the first attempt.

Files, under `src/`, one module each:

| file | module | models |
|---|---|---|
| wrappers.dfy | Wrappers | Option and Result |
| semver.dfy | Semver | a version as major.minor.patch and its precedence |
| osexec.dfy | OsExec | the binary extension and TrimExt for Unix and Windows builds |
| fmt.dfy | Fmt | decimal rendering and a `%d`-style scanner |
| common.dfy | Common | the error values, the SHA mismatch error, and the naming schemes |
| kubectl.dfy | Kubectl | KubectlBinary and SortKubectlByVersion |
| resolver.dfy | Resolver | the compatibility bounds, and the choice of a binary from a sorted list |
| finder.dfy | Finder | version inference from names, directory scans, and the KubectlFinder class |
| downloader.dfy | Downloader | the hashing choice, URLs, the checksum gate, and the retry loop |
| orchestrator.dfy | Orchestrator | the Versioner class: which version to use, and ensuring a binary |

The file system is a map from directory path to a listing. Every other
collaborator becomes an outcome passed as a parameter or held in a field:
- the API server;
- the upstream stable-version query;
- the mirror setting;
- the HTTP transfers;
- the environment.

The calls the Versioner makes to these collaborators are recorded in log
fields, so contracts can say which collaborators were asked.

## Model

| member | source | states |
|---|---|---|
| Semver.LessEqTotalOrder | internal/finder/kubectl.go:21-28 | version precedence, which the sort and every bound relies on, is a total order: total, antisymmetric and transitive, with the strict order being the non-equal part |
| OsExec.Ext | internal/osexec/ext_unix.go:7 | binaries have no extension on Unix and ".exe" on Windows |
| OsExec.TrimExt | internal/osexec/ext_windows.go:11-13 | a name ending in the extension loses exactly that suffix, and any other name is returned unchanged |
| OsExec.TrimExtOfExt | internal/osexec/ext_windows.go:11-13 | appending the extension and trimming it gives back the original name on both platforms |
| OsExec.UnixTrimExtIdentity | internal/osexec/ext_unix.go:11-13 | on Unix, TrimExt returns the name unaltered, so applying it twice is the same as once |
| OsExec.WindowsTrimsOnce | internal/osexec/ext_windows.go:11-13 | on Windows, only one ".exe" suffix is removed, and a name without one is kept |
| Fmt.Decimal | internal/common/naming.go:21-23 | the `%d` rendering of a number is a non-empty digit string, without a leading zero unless it is "0"; a single digit exactly for values below ten |
| Fmt.FormatTwo | internal/common/naming.go:27-29 | the `%d.%d` rendering has at least three characters and starts and ends with a digit, so a following non-digit ends the scan (the round trip is `Fmt.ScanFormatTwo`) |
| Fmt.FormatThree | internal/common/naming.go:21-23 | the `%d.%d.%d` rendering has at least five characters and starts and ends with a digit (the round trip is `Fmt.ScanFormatThree`) |
| Fmt.DecimalValue | internal/common/naming.go:21-23 | reading back the digits of a rendered number gives the number |
| Fmt.DecimalInjective | internal/common/naming.go:21-23 | two numbers render to the same text exactly when they are equal |
| Fmt.DigitRunLength | internal/finder/kubectl_finder.go:109-115 | the run a `%d` verb consumes is the longest all-digit prefix |
| Fmt.ScanUint | internal/finder/kubectl_finder.go:109-115 | a `%d` verb succeeds exactly when the input starts with a digit, and what it leaves is a proper suffix that does not start with a digit |
| Fmt.ScanLiteral | internal/finder/kubectl_finder.go:109-115 | the literal part of a format matches exactly when it is a prefix of the input, and leaves the rest |
| Fmt.ScanTwo | internal/finder/kubectl_finder.go:129-133 | a `%d.%d` scan succeeds only on input starting with a digit; it leaves a proper suffix of the input that does not start with a digit |
| Fmt.ScanThree | internal/finder/kubectl_finder.go:109-115 | a `%d.%d.%d` scan succeeds only on input starting with a digit; it leaves a proper suffix of the input that does not start with a digit |
| Fmt.ScanDigits | internal/finder/kubectl_finder.go:109-115 | a `%d` verb on a digit run followed by a non-digit yields the run's value and the rest |
| Fmt.ScanUintParts | internal/finder/kubectl_finder.go:109-115 | every successful `%d` scan splits its input into a maximal digit run and a rest, with the value of that run |
| Fmt.ScanTwoParts | internal/finder/kubectl_finder.go:129-133 | every successful `%d.%d` scan splits its input into two digit runs around a dot and a rest |
| Fmt.ScanThreeParts | internal/finder/kubectl_finder.go:109-115 | every successful `%d.%d.%d` scan splits its input into three digit runs separated by dots and a rest |
| Fmt.ScanFormatTwo | internal/common/naming.go:27-29 | scanning `%d.%d` over a rendered pair gives the pair back |
| Fmt.ScanFormatThree | internal/common/naming.go:21-23 | scanning `%d.%d.%d` over a rendered triple gives the triple back |
| Fmt.ScanThreeOfTwo | internal/finder/kubectl_finder.go:109-115 | a rendered pair, alone or followed by a dot that no digit follows, does not match `%d.%d.%d` |
| Fmt.DigitRunPrefix | internal/finder/kubectl_finder.go:109-115 | a digit run followed by a non-digit is consumed exactly |
| Common.ErrorText | internal/common/sha_mismatch_error.go:18-20 | the text of a SHA mismatch error starts "SHA mismatch for URL " and the URL; a wrapped error's text starts with its context |
| Common.ShaMismatchMarker | internal/common/sha_mismatch_error.go:23-25 | the mismatch marker method answers true |
| Common.IsShaMismatch | internal/common/sha_mismatch_error.go:29-32 | an error is recognised as a SHA mismatch exactly when it is a ShaMismatch value itself |
| Common.ShaMismatchExample | internal/common/sha_error_test.go:8-16 | the mismatch error built in the unit test is recognised, and its text is the one the test expects |
| Common.WrappedShaMismatchNotRecognised | internal/common/sha_mismatch_error.go:29-32 | a mismatch wrapped with context, and a not-found error, are not recognised as mismatches |
| Common.ShaMismatchTextEnds | internal/common/sha_mismatch_error.go:18-20 | the text of a mismatch error ends with the actual checksum in quotes |
| Common.BuildKubectlNameForLocalBin | internal/common/naming.go:21-23 | a downloaded binary's name starts with "kubectl" and ends with the platform's extension |
| Common.BuildKubectlNameForSystemBin | internal/common/naming.go:27-29 | a system binary's name starts with "kubectl" and ends with the platform's extension |
| Common.SystemNameIgnoresOnlyPatch | internal/common/naming.go:27-29 | two versions give the same system name exactly when they share major and minor |
| Common.LocalNameInjective | internal/common/naming.go:21-23 | two versions give the same local name exactly when they are equal |
| Kubectl.InOrderFacts | internal/finder/kubectl.go:21-28 | the order the sort uses, ascending or descending, is transitive and total |
| Kubectl.SortKubectlByVersion | internal/finder/kubectl.go:21-28 | after the in-place sort, the array is in ascending order of version, or descending when reverse is set, and holds the same binaries as before |
| Kubectl.InsertAt | internal/finder/kubectl.go:21-28 | one insertion step extends the sorted prefix by one element and keeps the array's contents |
| Kubectl.SwapStep | internal/finder/kubectl.go:21-28 | swapping an element with a predecessor that it must precede keeps everything else sorted and moves the out-of-place element one step left |
| Kubectl.InsertDone | internal/finder/kubectl.go:21-28 | once the moving element no longer precedes its left neighbour, the prefix up to it is sorted |
| Kubectl.Versions | internal/finder/kubectl.go:21-28 | the version list has one entry per binary, holding that binary's version |
| Kubectl.VersionsMultiset | internal/finder/kubectl.go:21-28 | two lists that hold the same binaries hold the same versions |
| Kubectl.SortedVersionsUnique | internal/finder/kubectl.go:21-28 | two sorted lists of the same versions are equal |
| Kubectl.SortedPermutationsAgreeOnVersions | internal/finder/kubectl.go:21-28 | any two sorted rearrangements of the same binaries list the same versions in the same order: the result is fixed up to the order of equal versions |
| Kubectl.SortedUniqueWhenVersionsDistinct | internal/finder/kubectl.go:21-28 | when no two binaries share a version, the sorted rearrangement is unique |
| Kubectl.SortAscendingScenario | internal/finder/kubectl_test.go:9-35 | sorting {2.0.3, 1.0.0, 2.0.0} ascending gives b1, b2, b3 |
| Kubectl.SortDescendingScenario | internal/finder/kubectl_test.go:37-63 | sorting {2.0.3, 1.0.0, 2.0.0} descending gives b3, b2, b1 |
| Resolver.LowerBoundVersion | internal/finder/versioner.go:185-194 | the lower bound keeps the major version, sets the patch to 0, and lowers the minor by one unless it is 0; it never exceeds the requested version |
| Resolver.UpperBoundVersion | internal/finder/versioner.go:196-203 | the upper bound keeps the major version, adds two to the minor, sets the patch to 0, and lies strictly above the requested version (versions are unbounded here, see Left out) |
| Resolver.CompatibleIff | internal/finder/versioner.go:156-166 | a candidate is inside the window exactly when it has the same major version and a minor version from one below the requested one (0 at least) to one above it; any patch is accepted |
| Resolver.Compatible | internal/finder/versioner.go:151-172 | a compatible candidate has the requested major version and a minor at most one above the request |
| Resolver.FirstCompatible | internal/finder/versioner.go:151-172 | what the search finds is a listed binary compatible with the request; its failure is the not-found error |
| Resolver.FirstCompatibleIsFirstMatch | internal/finder/versioner.go:151-172 | the search succeeds exactly when some binary is compatible; it then returns the first compatible binary of the list; otherwise it fails with the not-found error, also on an empty list |
| Resolver.FirstCompatibleIsNewest | internal/finder/versioner.go:148-172 | on a list sorted newest first, the binary found has the highest version among the compatible ones |
| Resolver.FindCompatibleKubectl | internal/finder/versioner.go:151-172 | the loop over the list returns the first-match search's answer |
| Resolver.MostRecentKubectlAvailable | internal/finder/versioner.go:177-183 | it succeeds exactly on a non-empty list, returning its head, which is the newest when the list is sorted newest first; an empty list gives the not-found error |
| Resolver.FindCompatibleExamples | internal/finder/versioner_test.go:245-328 | the five cases of the compatibility test: lower-bound match, upper-bound match, most recent match, no binaries, no compatible binary |
| Finder.InferLocalKubectlVersion | internal/finder/kubectl_finder.go:107-125 | a version read from a local name comes from a name starting with "kubectl"; a failure is "Not parsable" |
| Finder.InferSystemKubectlVersion | internal/finder/kubectl_finder.go:127-144 | a version read from a system name comes from a name starting with "kubectl" and has patch 0; a failure is "Not parsable" |
| Finder.InferLocalAcceptsScheme | internal/finder/kubectl_finder.go:107-125 | a name "kubectl" + three digit runs separated by dots, followed by anything not starting with a digit, yields those three numbers |
| Finder.InferLocalOnlyOnScheme | internal/finder/kubectl_finder.go:107-125 | conversely, every name the local parser accepts has that shape, and the version is the value of its digit runs |
| Finder.InferSystemAcceptsScheme | internal/finder/kubectl_finder.go:127-144 | a name "kubectl" + two digit runs around a dot, followed by anything not starting with a digit, yields major.minor.0 |
| Finder.InferSystemOnlyOnScheme | internal/finder/kubectl_finder.go:127-144 | conversely, every name the system parser accepts has that shape |
| Finder.LocalNameAlsoSystemName | internal/finder/kubectl_finder.go:107-144 | every local name also parses under the system scheme, to the same major and minor with patch 0, which is why the local scheme is tried first |
| Finder.LocalNameRoundTrip | internal/finder/kubectl_finder.go:107-125 | reading back the name a release is downloaded under gives that release |
| Finder.SystemNameRoundTrip | internal/finder/kubectl_finder.go:127-144 | reading back a system name gives major.minor.0, and the local parser rejects it |
| Finder.Join | internal/finder/kubectl_finder.go:170 | the joined path ends with the file name |
| Finder.CatalogAppend | internal/finder/kubectl_finder.go:157-174 | scanning a listing is done entry by entry: the catalogue of two listings in a row is the catalogue of the first followed by that of the second |
| Finder.InferVersion | internal/finder/kubectl_finder.go:157-174 | an entry name with a version starts with "kubectl" |
| Finder.InferVersionLocalFirst | internal/finder/kubectl_finder.go:157-174 | an entry name has a version exactly when the local or the system scheme parses it; the local reading wins, and the system reading is used only when the local scheme fails |
| Finder.CatalogEntry | internal/finder/kubectl_finder.go:157-174 | an entry yields at most one binary |
| Finder.CatalogEntryOf | internal/finder/kubectl_finder.go:157-174 | an entry whose name has a version yields exactly one binary, with the directory joined to the name as its path and that version |
| Finder.Catalog | internal/finder/kubectl_finder.go:157-174 | a directory yields at most one binary per entry |
| Finder.CatalogMember | internal/finder/kubectl_finder.go:157-174 | each catalogued binary comes from an entry of the listing, with the joined path and the version read from the entry's name |
| Finder.CatalogOfBuiltNames | internal/finder/kubectl_finder.go:157-174 | a local name yields its release, a system name yields major.minor.0, and a bare "kubectl" is skipped |
| Finder.FindKubectlBinaries | internal/finder/kubectl_finder.go:146-177 | the directory scan returns the catalogue of the listing, an empty list when the directory does not exist, and the read error otherwise |
| Finder.KubectlFinder.constructor | internal/finder/kubectl_finder.go:22-34 | empty arguments are replaced by the local download directory and the system path |
| Finder.KubectlFinder.SystemKubectlBinaries | internal/finder/kubectl_finder.go:38-40 | the system directory's binaries, or its read error, in which case nothing is found there |
| Finder.KubectlFinder.LocalKubectlBinaries | internal/finder/kubectl_finder.go:44-46 | the local directory's binaries, or its read error, in which case nothing is found there |
| Finder.KubectlFinder.AllKubectlBinaries | internal/finder/kubectl_finder.go:50-66 | exactly the binaries of both directories (a directory that cannot be read contributes none), sorted by version in the requested direction |
| Finder.KubectlFinder.FindCompatibleKubectl | internal/finder/kubectl_finder.go:70-92 | over both directories, it succeeds exactly when some binary is compatible, and then returns a compatible binary of the highest version; otherwise the not-found error |
| Finder.KubectlFinder.MostRecentKubectlAvailable | internal/finder/kubectl_finder.go:97-105 | it succeeds exactly when some binary exists, and then returns one of the highest version; otherwise the not-found error |
| Finder.InferVersionOfBuiltNames | internal/finder/kubectl_finder.go:157-174 | the version inferred for a built local name is its release, and for a system name is major.minor.0 |
| Finder.FoundOne | internal/finder/kubectl_finder.go:146-177 | a directory listing one parsable entry catalogues one binary |
| Finder.FoundTwo | internal/finder/kubectl_finder.go:146-177 | a directory listing two parsable entries catalogues both, in listing order |
| Finder.DescendingPair | internal/finder/kubectl.go:21-28 | two binaries of different versions, sorted newest first, stand newer then older |
| Finder.NewestOfThree | internal/finder/kubectl_finder.go:70-92 | among three binaries, a compatible one that every other compatible one is strictly older than is the answer |
| Finder.OneAndTwoListing | internal/finder/kubectl_finder.go:50-66 | the local binary comes first in the merged catalogue, then the two system binaries |
| Finder.TwoAndOneListing | internal/finder/kubectl_finder.go:50-66 | the two local binaries come first in the merged catalogue, then the system binary |
| Finder.AllBinariesScenario | internal/finder/kubectl_finder_test.go:50-92 | local 1.4.2 and system kubectl2.1 give [system 2.1.0, local 1.4.2], newest first |
| Finder.CompatibleInsideSystemScenario | internal/finder/kubectl_finder_test.go:173-248 | requested 1.5.13 with local 1.1.3 and system kubectl1.4 and kubectl2.1 picks the system 1.4.0 |
| Finder.NewestAcrossDirectoriesScenario | internal/finder/kubectl_finder_test.go:173-248 | requested 1.4.0 with local 1.4.2 and 2.1.3 and system kubectl1.5 picks the system 1.5.0 |
| Downloader.NewHashing | internal/downloader/hashing.go:23-44 | the checksum suffix is ".sha512" exactly from 1.12.0 on and ".sha1" exactly below it |
| Downloader.NewHashingMonotone | internal/downloader/hashing.go:23-44 | once a release uses SHA-512, every later release does too |
| Downloader.NewHashingExamples | internal/downloader/hashing_test.go:12-59 | 1.11.0 uses SHA-1, 1.12.0 uses SHA-512 |
| Downloader.UseSha512 | internal/downloader/download.go:86-90 | the retry loop asks for SHA-512 exactly when the release is not below 1.12.0 |
| Downloader.ChecksumURL | internal/downloader/download.go:149-152 | the checksum URL extends the binary's URL |
| Downloader.ChecksumURLAgreesWithHashing | internal/downloader/download.go:149-152 | the checksum URL the download builds has the suffix the hashing choice names |
| Downloader.KubectlDownloadURL | internal/downloader/download.go:125-146 | the URL fails exactly when the mirror setting cannot be read, with that error, and otherwise starts with the mirror and "/release/v" |
| Downloader.DownloadURLNamesVersion | internal/downloader/download.go:125-146 | the URL is the mirror, "/release/v", the version as major.minor.patch, then "/bin/", OS, architecture and "kubectl" with the platform extension |
| Downloader.TrimTrailingNewlines | internal/downloader/download.go:157 | the trimmed checksum is a prefix of the fetched text, not ending in a newline, and what was cut is only newlines |
| Downloader.TrimTrailingNewlinesExamples | internal/downloader/download.go:157 | trailing newlines go and inner newlines stay |
| Downloader.TrimTrailingNewlinesIdempotent | internal/downloader/download.go:157 | trimming twice is trimming once |
| Downloader.Download | internal/downloader/download.go:148-243 | the destination is written only after both fetches succeeded and the trimmed checksum equals the digest; a download without error has written the destination |
| Downloader.DownloadMismatchIff | internal/downloader/download.go:221-224 | a download ends in a mismatch error exactly when both fetches succeeded and the checksum differs; the error then carries the URL, the expected checksum and the actual one |
| Downloader.DownloadGateExamples | internal/downloader/download.go:157-224 | a published checksum with a trailing newline matches its digest; the comparison is exact, so an upper-case digest does not match |
| Downloader.StepOf | internal/downloader/download.go:93-107 | an attempt stops at its URL exactly when the mirror setting cannot be read, stops at its directory exactly when the URL was built and the directory cannot be made, and otherwise runs the download |
| Downloader.RunAttempt | internal/downloader/download.go:93-107 | one pass of the loop body (URL, destination directory, download) comes to the step the retry specification reads for that attempt |
| Downloader.GetKubectlBinary | internal/downloader/download.go:81-123 | the loop returns the retry specification's error and makes its sleeps |
| Downloader.RetryFrom | internal/downloader/download.go:92-122 | from attempt iter on, the loop ends at an attempt no earlier than iter and no later than the third |
| Downloader.Retry | internal/downloader/download.go:81-123 | the whole loop makes one to three attempts |
| Downloader.RetryBounds | internal/downloader/download.go:92-121 | from any attempt on, the loop makes no more than three attempts; it sleeps exactly once after each attempt it retries and once more when its last attempt was a mismatch, attempt k's sleep being k times ten seconds |
| Downloader.RetryIsBounded | internal/downloader/download.go:83-121 | between one and three attempts; exactly one sleep after each attempt but the last, plus one when the last was a mismatch; sleeps of 10, 20, 30 seconds in turn |
| Downloader.RetryOnlyOnMismatch | internal/downloader/download.go:92-121 | every attempt before the last one failed its download with a checksum mismatch, and conversely a mismatch on attempt 1 or 2 always leads to the next attempt; the loop succeeds exactly when its last attempt downloaded without error |
| Downloader.RetryKeepsFirstError | internal/downloader/download.go:111-122 | after attempt 1, the loop ends with attempt 1's error, with success, or with a URL or directory error of the attempt it stopped at |
| Downloader.RetryStopsWithSetupError | internal/downloader/download.go:93-105 | an attempt that fails to build its URL or to make its directory ends the loop with that failure's own error, never with attempt 1's |
| Downloader.RetryReturnsFirstError | internal/downloader/download.go:81-123 | when the URL and directory steps succeed, a failed loop returns attempt 1's error |
| Downloader.RetryScenarioMismatchThenSuccess | internal/downloader/download.go:92-121 | two mismatches then a good download: success after three attempts, having slept 10 and 20 seconds |
| Downloader.RetryScenarioOtherErrorAborts | internal/downloader/download.go:92-121 | an error other than a mismatch on attempt 1 stops the loop at once, without sleeping |
| Downloader.RetryScenarioThreeMismatches | internal/downloader/download.go:92-122 | three mismatches use up the attempts, sleep 10, 20 and 30 seconds, and return attempt 1's mismatch |
| Orchestrator.MostRecentOrUpstream | internal/finder/versioner.go:91-99 | with binaries catalogued, the answer is a catalogued binary's version; with none, it is upstream's answer |
| Orchestrator.VersionToUse | internal/finder/versioner.go:54-86 | the API server is asked exactly when the guard is absent and setting it succeeded; upstream is asked only with an empty catalogue, and then its answer is the result |
| Orchestrator.MostRecentOrUpstreamIsNewest | internal/finder/versioner.go:91-99 | with binaries catalogued, the fallback answers the highest catalogued version; with none, it answers upstream's stable version |
| Orchestrator.GuardSkipsApi | internal/finder/versioner.go:63-67 | with the guard variable present, the API server is not asked, the fallback answers, and upstream is asked only if the catalogue is empty |
| Orchestrator.ApiVersionUsed | internal/finder/versioner.go:74-85 | without the guard, the API server's version is used as is, and upstream is not asked |
| Orchestrator.ApiFailuresAlike | internal/finder/versioner.go:75-84 | a timeout and any other API failure lead to the same answer |
| Orchestrator.ApiFailureFallsBack | internal/finder/versioner.go:75-84 | after a failed API query, the answer is the one a guarded resolution gives |
| Orchestrator.EnsurePrefersCatalog | internal/finder/versioner.go:105-109 | when a compatible binary is catalogued, its path is returned (the newest such on a newest-first catalogue) and nothing is downloaded |
| Orchestrator.EnsureDownloadsOnlyWhenNeeded | internal/finder/versioner.go:104-141 | the downloader is called exactly when no compatible binary is catalogued and downloads are allowed |
| Orchestrator.DownloadPath | internal/finder/versioner.go:124-126 | the download destination ends with the release's local binary name |
| Orchestrator.EnsureCompatible | internal/finder/versioner.go:104-141 | the downloader is called only when downloads are allowed; no failure is reported while the newest binary may and can stand in |
| Orchestrator.EnsureInventsNoPath | internal/finder/versioner.go:104-141 | every returned path is a catalogued binary's, or the download destination after a successful download |
| Orchestrator.EnsureUsesDownload | internal/finder/versioner.go:124-140 | with nothing compatible catalogued and downloads allowed, a successful download's destination is returned, whatever useLatestIfNoCompatible and the catalog hold, and the downloader is called |
| Orchestrator.EnsureFallsBackToNewest | internal/finder/versioner.go:111-136 | with nothing compatible catalogued, downloads disallowed or failed, and the fallback enabled, the result is the path of a binary of the highest catalogued version; the downloader was called exactly when downloads are allowed |
| Orchestrator.EnsureFailsOnlyWithoutFallback | internal/finder/versioner.go:104-141 | it fails exactly when nothing compatible is catalogued, the download was not allowed or failed, and the newest binary may not or cannot stand in; the error is the downloads-disabled message or the wrapped download error |
| Orchestrator.Versioner.constructor | internal/finder/versioner.go:40-47 | a Versioner starts with the given collaborators' answers and empty call logs |
| Orchestrator.Versioner.MostRecentKubectlVersionAvailableOrLatestFromUpstream | internal/finder/versioner.go:91-99 | answers as the fallback specification does, and asks upstream once exactly when the catalogue is empty |
| Orchestrator.Versioner.KubectlVersionToUse | internal/finder/versioner.go:54-86 | answers as the resolution specification does; the API server is asked once, with the timeout and the guard set, exactly when the specification asks it; the guard is as before afterwards |
| Orchestrator.Versioner.EnsureCompatibleKubectlAvailable | internal/finder/versioner.go:104-141 | answers as the specification does, and records one download of the requested release to the local download path exactly when the specification downloads |
| Orchestrator.TimeoutScenarios | internal/finder/versioner_test.go:112-171 | an API timeout with {1.4.0, 1.2.0} catalogued gives 1.4.0 without asking upstream; with none, upstream's 1.4.0 |
| Orchestrator.EnsureScenarios | internal/finder/versioner_test.go:29-110 | 1.9.0 with nothing catalogued downloads; 1.30.2 with {1.29.0, 1.26.0} uses 1.29.0 and does not download; 2.4.0 with {1.3.0, 1.2.0, 1.1.0} downloads, or fails when downloads are disabled |

## Notes on the source

- The checksum comparison is exact and case-sensitive: the strings are
  compared with `!=` (download.go:222). `Downloader.DownloadGateExamples`
  shows an upper-case digest rejected.
- The scan parses the raw entry name and does not call TrimExt
  (kubectl_finder.go:146-177). The scanner stops at the first non-digit, so
  "kubectl1.2.3.exe" still parses.
- sort.Slice is not stable (kubectl.go:21-28), so
  `Kubectl.SortKubectlByVersion` promises nothing about the order of equal
  versions.

## Left out

- I/O is not modelled:
  - HTTP, the temporary file, the progress bar and file modes;
  - the hashing itself: a digest is an opaque string;
  - the environment variable calls, beyond a boolean field;
  - logging and stderr messages.
- The sleeps are a list of seconds; no clock is involved.
- Finder.FindKubectlBinaries: ioutil.ReadDir returns entries sorted by name. The model takes the listing in the order the file system map gives it.
- Finder.Join: does not model filepath.Join's cleaning of ".", "..", repeated or trailing separators, or the Windows separator.
- Finder.InferLocalKubectlVersion and Finder.InferSystemKubectlVersion model fmt.Sscanf's `%d` as an unsigned digit run. Signs, leading spaces and integer overflow are not modelled.
- Resolver.UpperBoundVersion: the source's version fields are uint64 and versioner.go:199 adds 2 to the minor, which wraps for minors of 2^64-2 and above and empties the window there; versions are unbounded here, so the model's window is never empty.
- Semver.Version carries only major, minor and patch. Pre-release and build metadata, and their precedence, are not modelled.
- semver.ParseRange is called on constant or well-formed ranges, and its error branches (versioner.go:160-163, hashing.go:29-31, download.go:89-90) are taken to be unreachable.
- url.Parse can fail at download.go:129-145, and url.Parse(...).String() can re-escape the formatted path. Neither the failure nor that normalisation is modelled; only the mirror-setting error is, and the URL is the formatted string.
- internal/common/filesystem.go's SystemPath and LocalDownloadDir are not part of this model. They are parameters.
- The mirror URL comes from internal/config, which is not part of this model. Each attempt carries its own outcome for reading the setting.
- Downloader.UpstreamStableVersion and getContentsOfURL are not modelled, because they are HTTP fetches followed by semver.ParseTolerant. The upstream answer is a field of the Versioner.
- isUnreachable only changes which log line is written, so API failures are one datatype whose kinds lead to the same decision.
- Orchestrator.Versioner: the catalogue is a field standing for what KubectlFinder.AllKubectlBinaries(true) returns. Finder proves that this list is sorted newest first. The catalogue is taken to be the same at each of the Versioner's calls, and does not model the file system changing between them.
- Downloader.GetKubectlBinary takes one outcome per attempt (three in all). It is modelled as written: it sleeps after a third mismatch too, and retries the same release and URL.
- kuberlr's command line, the exec of the chosen binary, configuration loading, and the older internal/versioner and internal/kubectl_versioner packages are outside the core.
