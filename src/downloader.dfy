/** Fetching a kubectl release from the mirror: the checksum scheme, the URLs,
    the checksum gate in front of the install, and the bounded retry loop.
    The network, the temporary file, the digest computation and the install
    steps are replaced by their outcomes, given as parameters. */
module Downloader {
  import opened Wrappers
  import opened Semver
  import opened OsExec
  import opened Fmt
  import opened Common

  const MaxNumTries: nat := 3
  /** Seconds slept after failed attempt k, multiplied by k. */
  const TimeToSleepOnRetryPerIter: nat := 10

  /** The first release whose checksum is published as SHA-512. */
  const Sha512Since := Version(1, 12, 0)

  // ---------------------------------------------------------------------------
  // Checksum scheme
  // ---------------------------------------------------------------------------

  /** The checksum scheme of a release: the suffix of its checksum file (the
      hasher itself is not part of this model). */
  datatype Hashing = Hashing(suffix: string)

  /** SHA-512 for releases from 1.12.0 on, SHA-1 before. The range ">=1.12.0"
      is a constant that always parses, so there is no error case. */
  function NewHashing(v: Version): (r: Result<Hashing, Error>)
    ensures r.Success?
    ensures r.value.suffix == ".sha512" <==> LessEq(Sha512Since, v)
    ensures r.value.suffix == ".sha1" <==> Less(v, Sha512Since)
  {
    LessEqTotalOrder(v, Sha512Since, v);
    if LessEq(Sha512Since, v) then Success(Hashing(".sha512")) else Success(Hashing(".sha1"))
  }

  /** Once a release uses SHA-512, every later release does too. */
  lemma NewHashingMonotone(v: Version, w: Version)
    requires LessEq(v, w) && NewHashing(v).value.suffix == ".sha512"
    ensures NewHashing(w).value.suffix == ".sha512"
  {
    LessEqTotalOrder(Sha512Since, v, w);
  }

  lemma NewHashingExamples()
    ensures NewHashing(Version(1, 11, 0)).value.suffix == ".sha1"
    ensures NewHashing(Version(1, 12, 0)).value.suffix == ".sha512"
    ensures NewHashing(Version(1, 12, 0)).value.suffix != NewHashing(Version(1, 11, 0)).value.suffix
  {
  }

  /** The retry loop's choice of scheme. */
  function UseSha512(v: Version): (r: bool)
    ensures r <==> !Less(v, Sha512Since)
  {
    LessEqTotalOrder(v, Sha512Since, v);
    LessEq(Sha512Since, v)
  }

  /** Where the checksum of a binary is published. */
  function ChecksumURL(url: string, useSha512: bool): (r: string)
    ensures url <= r
  {
    if useSha512 then url + ".sha512" else url + ".sha1"
  }

  /** The retry loop and NewHashing agree on the checksum file of every release. */
  lemma ChecksumURLAgreesWithHashing(url: string, v: Version)
    ensures ChecksumURL(url, UseSha512(v)) == url + NewHashing(v).value.suffix
  {
    LessEqTotalOrder(v, Sha512Since, v);
  }

  // ---------------------------------------------------------------------------
  // Binary URL
  // ---------------------------------------------------------------------------

  /** The operating system, architecture and executable extension of the host. */
  datatype Host = Host(goos: string, goarch: string, platform: Platform)

  /** The path of a binary below the release directory. */
  function BinPath(host: Host): string
  {
    "/bin/" + host.goos + "/" + host.goarch + "/kubectl" + Ext(host.platform)
  }

  /** The URL of a release binary on the mirror; an error reading the mirror
      setting is returned as is. */
  function KubectlDownloadURL(mirror: Result<string, Error>, host: Host, v: Version): (r: Result<string, Error>)
    ensures r.Failure? <==> mirror.Failure?
    ensures r.Failure? ==> r.error == mirror.error
    ensures r.Success? ==> mirror.value + "/release/v" <= r.value
  {
    var base :- mirror;
    Success(base + "/release/v" + (FormatThree(v.major, v.minor, v.patch) + BinPath(host)))
  }

  /** The URL names exactly the requested release: after the fixed prefix,
      "%d.%d.%d" reads back the version, followed by the binary's path. */
  lemma DownloadURLNamesVersion(base: string, host: Host, v: Version)
    ensures var url := KubectlDownloadURL(Success(base), host, v).value;
            var prefix := base + "/release/v";
            prefix <= url && ScanThree(url[|prefix|..]) == Some((v.major, v.minor, v.patch, BinPath(host)))
  {
    var prefix := base + "/release/v";
    var rest := FormatThree(v.major, v.minor, v.patch) + BinPath(host);
    assert KubectlDownloadURL(Success(base), host, v).value == prefix + rest;
    assert (prefix + rest)[|prefix|..] == rest;
    assert BinPath(host)[0] == '/';
    ScanFormatThree(v.major, v.minor, v.patch, BinPath(host));
  }

  // ---------------------------------------------------------------------------
  // One download
  // ---------------------------------------------------------------------------

  /** strings.TrimRight(s, "\n"): s without its trailing newlines. */
  function TrimTrailingNewlines(s: string): (r: string)
    ensures r <= s
    ensures r == [] || r[|r| - 1] != '\n'
    ensures forall i :: |r| <= i < |s| ==> s[i] == '\n'
  {
    if s != [] && s[|s| - 1] == '\n' then TrimTrailingNewlines(s[..|s| - 1]) else s
  }

  lemma TrimTrailingNewlinesExamples()
    ensures TrimTrailingNewlines("ab\n\n") == "ab"
    ensures TrimTrailingNewlines("a\nb") == "a\nb"
  {
    assert "ab\n\n"[..3] == "ab\n";
    assert "ab\n"[..2] == "ab";
  }

  /** Trimming twice trims nothing more. */
  lemma TrimTrailingNewlinesIdempotent(s: string)
    ensures TrimTrailingNewlines(TrimTrailingNewlines(s)) == TrimTrailingNewlines(s)
  {
  }

  /** What fetching the binary into a temporary file gave: the hex digest of
      the bytes received, or the step that failed. */
  datatype Transfer =
    | Transferred(digest: string)
    | RequestFailed(cause: Error)
    | BadStatus(status: string)
    | TempFileFailed(tempDir: string, cause: Error)
    | CopyFailed(tempName: string, cause: Error)

  /** What moving the temporary file to the destination gave: a rename and
      then a chmod, or, when the rename failed, a read of the temporary file
      and a write of the destination. Every error os.Rename returns is an
      *os.LinkError, so any failed rename takes the copy path. */
  datatype Install =
    | Renamed(chmodError: Option<string>)
    | CopiedAfterRenameError(tempName: string, readError: Option<string>, writeError: Option<string>)

  /** The error a download ended with, if any, and whether the destination
      was touched: renamed onto, or opened for writing (a write that then
      failed may have left it partly written or empty). */
  datatype DownloadResult = DownloadResult(err: Option<Error>, destinationTouched: bool)

  /** The texts download.go wraps its errors with. */
  const ChecksumFetchText := "error while trying to get contents of "
  const RequestText := "error while issuing GET request against "
  const TempFileText := "error trying to create temporary file in "
  const CopyText := "error while downloading text of "
  const ReadTempText := "error reading temporary file "
  const IntoFileText := " into file "

  /** The error text of an HTTP status other than 200. */
  function StatusText(url: string, status: string): string
  {
    "GET " + url + " returned http status " + status
  }

  /** One download of url to the destination, gated on the published checksum. */
  function Download(url: string, useSha512: bool, checksum: Result<string, Error>, transfer: Transfer, install: Install): (r: DownloadResult)
    ensures r.destinationTouched ==> checksum.Success? && transfer.Transferred?
                                     && TrimTrailingNewlines(checksum.value) == transfer.digest
    ensures r.err.None? ==> r.destinationTouched
  {
    var shaURL := ChecksumURL(url, useSha512);
    if checksum.Failure? then
      DownloadResult(Some(Wrapped(ChecksumFetchText + shaURL, checksum.error)), false)
    else
      var expected := TrimTrailingNewlines(checksum.value);
      match transfer
      case RequestFailed(e) =>
        DownloadResult(Some(Wrapped(RequestText + url, e)), false)
      case BadStatus(status) =>
        DownloadResult(Some(Other(StatusText(url, status))), false)
      case TempFileFailed(dir, e) =>
        DownloadResult(Some(Wrapped(TempFileText + dir, e)), false)
      case CopyFailed(tmp, e) =>
        DownloadResult(Some(Wrapped(CopyText + url + IntoFileText + tmp, e)), false)
      case Transferred(actual) =>
        if expected != actual then
          DownloadResult(Some(ShaMismatch(url, expected, actual)), false)
        else
          match install
          case Renamed(chmodError) =>
            DownloadResult(if chmodError.Some? then Some(Other(chmodError.value)) else None, true)
          case CopiedAfterRenameError(tmp, readError, writeError) =>
            if readError.Some? then
              DownloadResult(Some(Wrapped(ReadTempText + tmp, Other(readError.value))), false)
            else
              DownloadResult(if writeError.Some? then Some(Other(writeError.value)) else None, true)
  }

  /** A download ends in a checksum-mismatch error exactly when both fetches
      succeeded and the trimmed published checksum differs from the digest,
      and then the error carries the URL and both strings. */
  lemma DownloadMismatchIff(url: string, useSha512: bool, checksum: Result<string, Error>, transfer: Transfer, install: Install)
    ensures var r := Download(url, useSha512, checksum, transfer, install);
            (r.err.Some? && IsShaMismatch(r.err.value))
            <==> (checksum.Success? && transfer.Transferred? && TrimTrailingNewlines(checksum.value) != transfer.digest)
    ensures var r := Download(url, useSha512, checksum, transfer, install);
            checksum.Success? && transfer.Transferred? && TrimTrailingNewlines(checksum.value) != transfer.digest
            ==> r == DownloadResult(Some(ShaMismatch(url, TrimTrailingNewlines(checksum.value), transfer.digest)), false)
  {
  }

  /** A published checksum with a trailing newline matches its digest; the
      comparison is exact, so a digest in upper case does not. */
  lemma DownloadGateExamples(url: string, install: Install)
    ensures Download(url, true, Success("ab12\n"), Transferred("ab12"), install).err
         != Some(ShaMismatch(url, "ab12", "ab12"))
    ensures Download(url, true, Success("ab12\n"), Transferred("AB12"), install)
         == DownloadResult(Some(ShaMismatch(url, "ab12", "AB12")), false)
  {
    assert "ab12\n"[..4] == "ab12";
    assert "ab12" != "AB12" by { assert "ab12"[0] != "AB12"[0]; }
  }

  // ---------------------------------------------------------------------------
  // The retry loop
  // ---------------------------------------------------------------------------

  /** Everything one attempt of the loop observes: the mirror setting, the
      check (and creation) of the destination's directory, and the download's
      steps. */
  datatype Attempt = Attempt(
    mirror: Result<string, Error>,
    destinationDir: Option<Error>,
    checksum: Result<string, Error>,
    transfer: Transfer,
    install: Install)

  /** The result of the loop: its error, how many attempts it started, and
      the seconds it slept, in order. */
  datatype GetOutcome = GetOutcome(err: Option<Error>, tries: nat, sleeps: seq<nat>)

  /** What one attempt came to: its URL could not be built, its directory
      could not be made, or its download ran and ended with err. */
  datatype Step = UrlFailed(error: Error) | DirFailed(error: Error) | Downloaded(err: Option<Error>)

  /** An attempt whose download failed its checksum: the one the loop retries. */
  predicate IsMismatch(s: Step)
  {
    s.Downloaded? && s.err.Some? && IsShaMismatch(s.err.value)
  }

  /** One attempt of the loop: the URL, the destination's directory, then
      the download with the hashing the release calls for. */
  function StepOf(host: Host, v: Version, a: Attempt): (r: Step)
    ensures r.UrlFailed? <==> a.mirror.Failure?
    ensures r.DirFailed? <==> a.mirror.Success? && a.destinationDir.Some?
  {
    match KubectlDownloadURL(a.mirror, host, v)
    case Failure(e) => UrlFailed(e)
    case Success(url) =>
      if a.destinationDir.Some? then DirFailed(a.destinationDir.value)
      else Downloaded(Download(url, UseSha512(v), a.checksum, a.transfer, a.install).err)
  }

  /** An attempt whose URL was built and whose directory exists comes to
      what its download gives. */
  lemma StepOfDownload(host: Host, v: Version, a: Attempt, url: string)
    requires KubectlDownloadURL(a.mirror, host, v) == Success(url) && a.destinationDir.None?
    ensures StepOf(host, v, a) == Downloaded(Download(url, UseSha512(v), a.checksum, a.transfer, a.install).err)
  {
  }

  /** The steps the attempts come to, in order. */
  function Steps(host: Host, v: Version, attempts: seq<Attempt>): (r: seq<Step>)
    ensures |r| == |attempts|
    ensures forall i :: 0 <= i < |attempts| ==> r[i] == StepOf(host, v, attempts[i])
  {
    seq(|attempts|, i requires 0 <= i < |attempts| => StepOf(host, v, attempts[i]))
  }

  /** The loop from attempt iter on, firstErr holding attempt 1's error. */
  function RetryFrom(steps: seq<Step>, iter: nat, firstErr: Option<Error>): (r: GetOutcome)
    requires |steps| == MaxNumTries && 1 <= iter <= MaxNumTries + 1
    ensures r.tries <= MaxNumTries
    ensures iter <= MaxNumTries ==> iter <= r.tries
    decreases MaxNumTries + 1 - iter
  {
    if iter > MaxNumTries then GetOutcome(firstErr, MaxNumTries, [])
    else
      match steps[iter - 1]
      case UrlFailed(e) => GetOutcome(Some(e), iter, [])
      case DirFailed(e) => GetOutcome(Some(e), iter, [])
      case Downloaded(err) =>
        if err.None? then GetOutcome(None, iter, [])
        else
          var first := if iter == 1 then err else firstErr;
          if IsShaMismatch(err.value) then
            var rest := RetryFrom(steps, iter + 1, first);
            rest.(sleeps := [iter * TimeToSleepOnRetryPerIter] + rest.sleeps)
          else GetOutcome(first, iter, [])
  }

  /** The whole loop. */
  function Retry(host: Host, v: Version, attempts: seq<Attempt>): (r: GetOutcome)
    requires |attempts| == MaxNumTries
    ensures 1 <= r.tries <= MaxNumTries
  {
    RetryFrom(Steps(host, v, attempts), 1, None)
  }

  /** The loop's state before attempt iter: what remains of the loop, run
      from there with firstErr, ends as the whole loop does, after the sleeps
      taken so far. */
  ghost predicate Carries(steps: seq<Step>, iter: nat, firstErr: Option<Error>, sleeps: seq<nat>)
  {
    && |steps| == MaxNumTries && 1 <= iter <= MaxNumTries + 1
    && RetryFrom(steps, 1, None).err == RetryFrom(steps, iter, firstErr).err
    && RetryFrom(steps, 1, None).sleeps == sleeps + RetryFrom(steps, iter, firstErr).sleeps
  }

  /** An attempt that ends the loop leaves it with its own outcome. */
  lemma CarriesStop(steps: seq<Step>, iter: nat, firstErr: Option<Error>, sleeps: seq<nat>, err: Option<Error>)
    requires Carries(steps, iter, firstErr, sleeps)
    requires RetryFrom(steps, iter, firstErr).err == err
    requires RetryFrom(steps, iter, firstErr).sleeps == []
    ensures err == RetryFrom(steps, 1, None).err && sleeps == RetryFrom(steps, 1, None).sleeps
  {
    assert sleeps + [] == sleeps;
  }

  /** A checksum mismatch moves the loop to the next attempt after a sleep. */
  lemma CarriesMismatch(steps: seq<Step>, iter: nat, carried: Option<Error>, firstErr: Option<Error>, sleeps: seq<nat>)
    requires Carries(steps, iter, carried, sleeps) && iter <= MaxNumTries
    requires steps[iter - 1].Downloaded? && steps[iter - 1].err.Some? && IsShaMismatch(steps[iter - 1].err.value)
    requires firstErr == if iter == 1 then steps[iter - 1].err else carried
    ensures Carries(steps, iter + 1, firstErr, sleeps + [iter * TimeToSleepOnRetryPerIter])
  {
    var rest := RetryFrom(steps, iter + 1, firstErr);
    assert RetryFrom(steps, iter, carried) == rest.(sleeps := [iter * TimeToSleepOnRetryPerIter] + rest.sleeps);
    assert sleeps + ([iter * TimeToSleepOnRetryPerIter] + rest.sleeps)
        == (sleeps + [iter * TimeToSleepOnRetryPerIter]) + rest.sleeps;
  }

  /** One attempt of the loop: build the URL, check the destination's
      directory, then download with the hashing the release calls for. */
  method RunAttempt(host: Host, v: Version, useSha512: bool, a: Attempt) returns (step: Step)
    requires useSha512 == UseSha512(v)
    ensures step == StepOf(host, v, a)
  {
    var downloadURL := KubectlDownloadURL(a.mirror, host, v);
    if downloadURL.Failure? {
      return UrlFailed(downloadURL.error);
    }
    if a.destinationDir.Some? {
      return DirFailed(a.destinationDir.value);
    }
    var d := Download(downloadURL.value, useSha512, a.checksum, a.transfer, a.install);
    StepOfDownload(host, v, a, downloadURL.value);
    return Downloaded(d.err);
  }

  /** Downloads release v, retrying up to MaxNumTries times while the
      download fails its checksum, and sleeping between attempts; the sleeps
      are returned instead of taken. */
  method GetKubectlBinary(host: Host, v: Version, attempts: seq<Attempt>) returns (err: Option<Error>, sleeps: seq<nat>)
    requires |attempts| == MaxNumTries
    ensures err == Retry(host, v, attempts).err
    ensures sleeps == Retry(host, v, attempts).sleeps
  {
    ghost var steps := Steps(host, v, attempts);
    var firstErr: Option<Error> := None;
    var useSha512 := UseSha512(v);
    sleeps := [];
    var iter := 1;
    while iter <= MaxNumTries
      invariant Carries(steps, iter, firstErr, sleeps)
      decreases MaxNumTries + 1 - iter
    {
      var step := RunAttempt(host, v, useSha512, attempts[iter - 1]);
      assert steps[iter - 1] == step;
      match step
      case UrlFailed(e) =>
        CarriesStop(steps, iter, firstErr, sleeps, Some(e));
        return Some(e), sleeps;
      case DirFailed(e) =>
        CarriesStop(steps, iter, firstErr, sleeps, Some(e));
        return Some(e), sleeps;
      case Downloaded(downloadErr) =>
        if downloadErr.None? {
          CarriesStop(steps, iter, firstErr, sleeps, None);
          return None, sleeps;
        }
        ghost var carried := firstErr;
        if iter == 1 {
          firstErr := downloadErr;
        }
        if IsShaMismatch(downloadErr.value) {
          CarriesMismatch(steps, iter, carried, firstErr, sleeps);
          sleeps := sleeps + [iter * TimeToSleepOnRetryPerIter];
          iter := iter + 1;
        } else {
          CarriesStop(steps, iter, carried, sleeps, firstErr);
          break;
        }
    }
    if iter > MaxNumTries {
      CarriesStop(steps, iter, firstErr, sleeps, firstErr);
    }
    err := firstErr;
  }

  // ---------------------------------------------------------------------------
  // Properties of the loop
  // ---------------------------------------------------------------------------

  /** From attempt iter on, the loop starts no more than MaxNumTries
      attempts; it sleeps once after every attempt it retries, and once more
      when the last attempt it started was a mismatch too (the third one),
      attempt k's sleep being k times ten seconds. */
  lemma {:induction false} RetryBounds(steps: seq<Step>, iter: nat, firstErr: Option<Error>)
    requires |steps| == MaxNumTries && 1 <= iter <= MaxNumTries + 1
    ensures var o := RetryFrom(steps, iter, firstErr);
            && (iter <= MaxNumTries ==> iter <= o.tries)
            && o.tries <= MaxNumTries
            && |o.sleeps| <= o.tries + 1 - iter
            && (iter <= MaxNumTries ==>
                  |o.sleeps| == o.tries - iter + (if IsMismatch(steps[o.tries - 1]) then 1 else 0))
            && forall k :: 0 <= k < |o.sleeps| ==> o.sleeps[k] == (iter + k) * TimeToSleepOnRetryPerIter
    decreases MaxNumTries + 1 - iter
  {
    if iter <= MaxNumTries && IsMismatch(steps[iter - 1]) {
      RetryBounds(steps, iter + 1, if iter == 1 then steps[iter - 1].err else firstErr);
    }
  }

  /** Between one and MaxNumTries attempts; one sleep after each attempt but
      the last, and one after the last when it was a mismatch; the sleeps are
      10, 20, 30 seconds in turn. */
  lemma RetryIsBounded(host: Host, v: Version, attempts: seq<Attempt>)
    requires |attempts| == MaxNumTries
    ensures 1 <= Retry(host, v, attempts).tries <= MaxNumTries
    ensures |Retry(host, v, attempts).sleeps| <= Retry(host, v, attempts).tries
    ensures var o := Retry(host, v, attempts);
            |o.sleeps| == o.tries - 1 + (if IsMismatch(StepOf(host, v, attempts[o.tries - 1])) then 1 else 0)
    ensures forall k :: 0 <= k < |Retry(host, v, attempts).sleeps| ==>
              Retry(host, v, attempts).sleeps[k] == (k + 1) * TimeToSleepOnRetryPerIter
  {
    var steps := Steps(host, v, attempts);
    RetryBounds(steps, 1, None);
    var o := RetryFrom(steps, 1, None);
    assert steps[o.tries - 1] == StepOf(host, v, attempts[o.tries - 1]);
  }

  /** Every attempt started before the last one downloaded and failed with a
      checksum mismatch: nothing else is retried. Conversely a mismatch on an
      attempt before the last allowed one is always retried. The loop
      succeeds exactly when its last attempt downloaded without error. */
  lemma {:induction false} RetryOnlyOnMismatch(steps: seq<Step>, iter: nat, firstErr: Option<Error>)
    requires |steps| == MaxNumTries && 1 <= iter <= MaxNumTries
    requires iter == 1 <==> firstErr.None?
    ensures var o := RetryFrom(steps, iter, firstErr);
            iter <= o.tries <= MaxNumTries
            && (forall k :: iter - 1 <= k < o.tries - 1 ==>
                 steps[k].Downloaded? && steps[k].err.Some? && IsShaMismatch(steps[k].err.value))
            && (o.tries < MaxNumTries ==> !IsMismatch(steps[o.tries - 1]))
            && (o.err.None? <==> steps[o.tries - 1] == Downloaded(None))
    decreases MaxNumTries + 1 - iter
  {
    var s := steps[iter - 1];
    if s.Downloaded? && s.err.Some? && IsShaMismatch(s.err.value) && iter < MaxNumTries {
      RetryOnlyOnMismatch(steps, iter + 1, if iter == 1 then s.err else firstErr);
    }
  }

  /** From the second attempt on, the loop ends with the error it carries from
      attempt 1, with success, or with the URL or directory error of the
      attempt it stopped at. */
  lemma {:induction false} RetryKeepsFirstError(steps: seq<Step>, iter: nat, firstErr: Option<Error>)
    requires |steps| == MaxNumTries && 2 <= iter <= MaxNumTries + 1 && firstErr.Some?
    ensures var o := RetryFrom(steps, iter, firstErr);
            || o.err == firstErr
            || o.err.None?
            || (1 <= o.tries <= MaxNumTries && !steps[o.tries - 1].Downloaded?
                && o.err == Some(steps[o.tries - 1].error))
    decreases MaxNumTries + 1 - iter
  {
    if iter <= MaxNumTries {
      RetryKeepsFirstError(steps, iter + 1, firstErr);
    }
  }

  /** An attempt that stops at building its URL or making its directory ends
      the loop with that failure's own error, whatever attempt 1 left in
      firstErr. */
  lemma {:induction false} RetryStopsWithSetupError(steps: seq<Step>, iter: nat, firstErr: Option<Error>)
    requires |steps| == MaxNumTries && 1 <= iter <= MaxNumTries
    ensures var o := RetryFrom(steps, iter, firstErr);
            1 <= o.tries <= MaxNumTries
            && (!steps[o.tries - 1].Downloaded? ==> o.err == Some(steps[o.tries - 1].error))
    decreases MaxNumTries + 1 - iter
  {
    if iter < MaxNumTries && IsMismatch(steps[iter - 1]) {
      RetryStopsWithSetupError(steps, iter + 1, if iter == 1 then steps[iter - 1].err else firstErr);
    }
  }

  /** When every attempt gets as far as its download, a failed loop returns
      the error of attempt 1, not that of the last attempt. */
  lemma RetryReturnsFirstError(steps: seq<Step>)
    requires |steps| == MaxNumTries
    requires forall k :: 0 <= k < MaxNumTries ==> steps[k].Downloaded?
    ensures RetryFrom(steps, 1, None).err.Some? ==> RetryFrom(steps, 1, None).err == steps[0].err
  {
    if steps[0].err.Some? && IsShaMismatch(steps[0].err.value) {
      RetryKeepsFirstError(steps, 2, steps[0].err);
      RetryBounds(steps, 2, steps[0].err);
    }
  }

  /** Mismatches on attempts 1 and 2 and a good download on attempt 3 succeed
      after three attempts and sleeps of 10 and 20 seconds. */
  lemma RetryScenarioMismatchThenSuccess(url: string, expected: string, actual: string)
    ensures var mismatch := Downloaded(Some(ShaMismatch(url, expected, actual)));
            RetryFrom([mismatch, mismatch, Downloaded(None)], 1, None) == GetOutcome(None, 3, [10, 20])
  {
  }

  /** An error other than a mismatch on attempt 1 ends the loop after that
      attempt, without sleeping, with that error. */
  lemma RetryScenarioOtherErrorAborts(e: Error, later: seq<Step>)
    requires !e.ShaMismatch? && |later| == MaxNumTries - 1
    ensures RetryFrom([Downloaded(Some(e))] + later, 1, None) == GetOutcome(Some(e), 1, [])
  {
  }

  /** Three mismatches use up the attempts, sleeping after each, and return
      the first one's error. */
  lemma RetryScenarioThreeMismatches(url: string, e1: string, e2: string, e3: string, actual: string)
    ensures RetryFrom([Downloaded(Some(ShaMismatch(url, e1, actual))), Downloaded(Some(ShaMismatch(url, e2, actual))),
                       Downloaded(Some(ShaMismatch(url, e3, actual)))], 1, None)
         == GetOutcome(Some(ShaMismatch(url, e1, actual)), 3, [10, 20, 30])
  {
  }
}
