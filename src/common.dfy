/** Names and errors shared by the finder and the downloader: the kubectl
    filename schemes and the error values the engine produces. */
module Common {
  import opened Semver
  import opened OsExec
  import opened Fmt

  // ---------------------------------------------------------------------------
  // Errors
  // ---------------------------------------------------------------------------

  /** The errors the core produces or passes along. Errors coming from I/O,
      HTTP or configuration are carried as opaque failures. */
  datatype Error =
    | NoVersionFound
    | ShaMismatch(url: string, shaExpected: string, shaActual: string)
    | Wrapped(context: string, inner: Error)
    | Other(message: string)

  /** The human description of an error; a wrapped error reads like
      fmt.Errorf("<context>: %w", inner). */
  function ErrorText(e: Error): (r: string)
    ensures e.ShaMismatch? ==> "SHA mismatch for URL " + e.url <= r
    ensures e.Wrapped? ==> e.context + ": " <= r
  {
    match e
    case NoVersionFound => "No local kubectl binaries available"
    case ShaMismatch(url, expected, actual) =>
      "SHA mismatch for URL " + url + ": expected '" + expected + "', got '" + actual + "'"
    case Wrapped(context, inner) => context + ": " + ErrorText(inner)
    case Other(message) => message
  }

  /** The ShaMismatch marker method: only checksum-mismatch errors have it,
      and it always answers true. */
  function ShaMismatchMarker(e: Error): (r: bool)
    requires e.ShaMismatch?
    ensures r
  {
    true
  }

  /** A direct type test for the marker: a wrapped checksum mismatch is not
      unwrapped, so it does not count. */
  function IsShaMismatch(e: Error): (r: bool)
    ensures r <==> e.ShaMismatch?
  {
    e.ShaMismatch? && ShaMismatchMarker(e)
  }

  /** The unit-test example: the mismatch is recognised and its text carries
      the URL and both digests. */
  lemma ShaMismatchExample()
    ensures IsShaMismatch(ShaMismatch("http://example.com/resource-1.2.3", "abc", "def"))
    ensures ErrorText(ShaMismatch("http://example.com/resource-1.2.3", "abc", "def"))
         == "SHA mismatch for URL http://example.com/resource-1.2.3: expected 'abc', got 'def'"
  {
    ExampleTextHead();
    ExampleTextTail();
  }

  /** A proof step of ShaMismatchExample only: the literal concatenation of
      the example's text up to the expected digest. It states nothing about
      the model by itself. */
  lemma ExampleTextHead()
    ensures "SHA mismatch for URL " + "http://example.com/resource-1.2.3" + ": expected '" + "abc"
         == "SHA mismatch for URL http://example.com/resource-1.2.3: expected 'abc"
  {
    assert "SHA mismatch for URL " + "http://example.com/resource-1.2.3" == "SHA mismatch for URL http://example.com/resource-1.2.3";
    assert "SHA mismatch for URL http://example.com/resource-1.2.3" + ": expected '" == "SHA mismatch for URL http://example.com/resource-1.2.3: expected '";
    assert "SHA mismatch for URL http://example.com/resource-1.2.3: expected '" + "abc" == "SHA mismatch for URL http://example.com/resource-1.2.3: expected 'abc";
  }

  /** A proof step of ShaMismatchExample only: the literal concatenation of
      the rest of the example's text. It states nothing about the model by
      itself. */
  lemma ExampleTextTail()
    ensures "SHA mismatch for URL http://example.com/resource-1.2.3: expected 'abc" + "', got '" + "def" + "'"
         == "SHA mismatch for URL http://example.com/resource-1.2.3: expected 'abc', got 'def'"
  {
    assert "SHA mismatch for URL http://example.com/resource-1.2.3: expected 'abc" + "', got '" == "SHA mismatch for URL http://example.com/resource-1.2.3: expected 'abc', got '";
    assert "SHA mismatch for URL http://example.com/resource-1.2.3: expected 'abc', got '" + "def" == "SHA mismatch for URL http://example.com/resource-1.2.3: expected 'abc', got 'def";
    assert "SHA mismatch for URL http://example.com/resource-1.2.3: expected 'abc', got 'def" + "'" == "SHA mismatch for URL http://example.com/resource-1.2.3: expected 'abc', got 'def'";
  }

  /** Any error without the marker is not a mismatch, a wrapped mismatch included. */
  lemma WrappedShaMismatchNotRecognised(context: string, url: string, expected: string, actual: string)
    ensures !IsShaMismatch(Wrapped(context, ShaMismatch(url, expected, actual)))
    ensures !IsShaMismatch(NoVersionFound)
  {
  }

  /** The mismatch text ends with the computed digest between quotes. */
  lemma ShaMismatchTextEnds(url: string, expected: string, actual: string)
    ensures EndsWith(ErrorText(ShaMismatch(url, expected, actual)), "', got '" + actual + "'")
  {
    var t := ErrorText(ShaMismatch(url, expected, actual));
    var head := "SHA mismatch for URL " + url + ": expected '" + expected;
    assert t == head + ("', got '" + actual + "'");
  }

  // ---------------------------------------------------------------------------
  // Naming schemes
  // ---------------------------------------------------------------------------

  /** The literal that starts both naming schemes. */
  const KubectlPrefix := "kubectl"

  /** Name of a binary downloaded by the tool: "kubectl%d.%d.%d" plus the
      executable extension. */
  function BuildKubectlNameForLocalBin(p: Platform, v: Version): (r: string)
    ensures KubectlPrefix <= r
    ensures EndsWith(r, Ext(p))
  {
    var r := KubectlPrefix + FormatThree(v.major, v.minor, v.patch) + Ext(p);
    assert r[|r| - |Ext(p)|..] == Ext(p);
    r
  }

  /** Name of a system-wide binary: "kubectl%d.%d" plus the executable
      extension; the patch number is not part of it. */
  function BuildKubectlNameForSystemBin(p: Platform, v: Version): (r: string)
    ensures KubectlPrefix <= r
    ensures EndsWith(r, Ext(p))
  {
    var r := KubectlPrefix + FormatTwo(v.major, v.minor) + Ext(p);
    assert r[|r| - |Ext(p)|..] == Ext(p);
    r
  }

  /** A system name is the prefix followed by the rest of it. */
  lemma SystemNameParts(p: Platform, v: Version)
    ensures BuildKubectlNameForSystemBin(p, v) == KubectlPrefix + (FormatTwo(v.major, v.minor) + Ext(p))
  {
  }

  /** A local name is the prefix followed by the rest of it. */
  lemma LocalNameParts(p: Platform, v: Version)
    ensures BuildKubectlNameForLocalBin(p, v) == KubectlPrefix + (FormatThree(v.major, v.minor, v.patch) + Ext(p))
  {
  }

  lemma PrefixCancel(prefix: string, x: string, y: string)
    requires prefix + x == prefix + y
    ensures x == y
  {
    assert x == (prefix + x)[|prefix|..];
    assert y == (prefix + y)[|prefix|..];
  }

  /** Two versions share a system name exactly when they share major and minor. */
  lemma SystemNameIgnoresOnlyPatch(p: Platform, v: Version, w: Version)
    ensures BuildKubectlNameForSystemBin(p, v) == BuildKubectlNameForSystemBin(p, w)
        <==> v.major == w.major && v.minor == w.minor
  {
    if BuildKubectlNameForSystemBin(p, v) == BuildKubectlNameForSystemBin(p, w) {
      SystemNameParts(p, v);
      SystemNameParts(p, w);
      PrefixCancel(KubectlPrefix, FormatTwo(v.major, v.minor) + Ext(p), FormatTwo(w.major, w.minor) + Ext(p));
      FormatTwoInjective(v.major, v.minor, w.major, w.minor, Ext(p));
    }
  }

  /** Local names are distinct for distinct versions. */
  lemma LocalNameInjective(p: Platform, v: Version, w: Version)
    ensures BuildKubectlNameForLocalBin(p, v) == BuildKubectlNameForLocalBin(p, w) <==> v == w
  {
    if BuildKubectlNameForLocalBin(p, v) == BuildKubectlNameForLocalBin(p, w) {
      LocalNameParts(p, v);
      LocalNameParts(p, w);
      PrefixCancel(KubectlPrefix, FormatThree(v.major, v.minor, v.patch) + Ext(p), FormatThree(w.major, w.minor, w.patch) + Ext(p));
      FormatThreeInjective(v.major, v.minor, v.patch, w.major, w.minor, w.patch, Ext(p));
    }
  }
}
