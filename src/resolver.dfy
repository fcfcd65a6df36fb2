/** The compatibility rule: which installed kubectl may talk to a server of a
    given version, and the search for one in a catalog. */
module Resolver {
  import opened Wrappers
  import opened Semver
  import opened Common
  import opened Kubectl
  import Fmt

  /** One minor version below the request (never below minor 0), patch 0. */
  function LowerBoundVersion(v: Version): (r: Version)
    ensures r.major == v.major && r.patch == 0
    ensures v.minor > 0 ==> r.minor + 1 == v.minor
    ensures v.minor == 0 ==> r.minor == 0
    ensures LessEq(r, v)
  {
    Version(v.major, if v.minor > 0 then v.minor - 1 else v.minor, 0)
  }

  /** Two minor versions above the request, patch 0; the bound is exclusive. */
  function UpperBoundVersion(v: Version): (r: Version)
    ensures r.major == v.major && r.minor == v.minor + 2 && r.patch == 0
    ensures Less(v, r)
  {
    Version(v.major, v.minor + 2, 0)
  }

  /** The range rule ">=lower <upper" built from the requested version. */
  predicate Compatible(requested: Version, candidate: Version)
    ensures Compatible(requested, candidate) ==>
              candidate.major == requested.major && candidate.minor <= requested.minor + 1
  {
    LessEq(LowerBoundVersion(requested), candidate) && Less(candidate, UpperBoundVersion(requested))
  }

  /** The skew window stated on minor versions alone: same major, and a minor
      from one below (clamped at 0) to one above the request; patch levels do
      not matter. */
  lemma CompatibleIff(requested: Version, candidate: Version)
    ensures Compatible(requested, candidate)
        <==> candidate.major == requested.major
             && (if requested.minor > 0 then requested.minor - 1 else 0) <= candidate.minor
             && candidate.minor <= requested.minor + 1
  {
  }

  /** The first binary of the list, in list order, inside the window; when
      none is, the error is NoVersionFound. */
  function FirstCompatible(requested: Version, bins: seq<KubectlBinary>): (r: Result<KubectlBinary, Error>)
    ensures r.Success? ==> r.value in bins && Compatible(requested, r.value.version)
    ensures r.Failure? ==> r.error == NoVersionFound
  {
    if bins == [] then Failure(NoVersionFound)
    else if Compatible(requested, bins[0].version) then Success(bins[0])
    else FirstCompatible(requested, bins[1..])
  }

  /** The search finds a binary exactly when one is compatible; what it finds
      is the first compatible entry, and the failure is NoVersionFound. */
  lemma {:induction false} FirstCompatibleIsFirstMatch(requested: Version, bins: seq<KubectlBinary>)
    ensures FirstCompatible(requested, bins).Success?
        <==> exists i :: 0 <= i < |bins| && Compatible(requested, bins[i].version)
    ensures FirstCompatible(requested, bins).Failure? ==> FirstCompatible(requested, bins).error == NoVersionFound
    ensures FirstCompatible(requested, bins).Success? ==>
      exists i :: 0 <= i < |bins| && bins[i] == FirstCompatible(requested, bins).value
        && Compatible(requested, bins[i].version)
        && forall k :: 0 <= k < i ==> !Compatible(requested, bins[k].version)
  {
    if bins != [] && !Compatible(requested, bins[0].version) {
      FirstCompatibleIsFirstMatch(requested, bins[1..]);
      if FirstCompatible(requested, bins).Success? {
        var i :| 0 <= i < |bins[1..]| && bins[1..][i] == FirstCompatible(requested, bins).value
          && Compatible(requested, bins[1..][i].version)
          && forall k :: 0 <= k < i ==> !Compatible(requested, bins[1..][k].version);
        assert bins[i + 1] == bins[1..][i];
        assert forall k :: 1 <= k < i + 1 ==> bins[k] == bins[1..][k - 1];
      } else {
        assert forall i :: 1 <= i < |bins| ==> bins[i] == bins[1..][i - 1];
      }
    }
  }

  /** On a list sorted newest first, the first compatible binary is a newest
      compatible one. */
  lemma FirstCompatibleIsNewest(requested: Version, bins: seq<KubectlBinary>)
    requires Sorted(bins, true)
    requires FirstCompatible(requested, bins).Success?
    ensures forall b :: b in bins && Compatible(requested, b.version) ==>
              LessEq(b.version, FirstCompatible(requested, bins).value.version)
  {
    FirstCompatibleIsFirstMatch(requested, bins);
    var found := FirstCompatible(requested, bins).value;
    var i :| 0 <= i < |bins| && bins[i] == found
      && Compatible(requested, bins[i].version)
      && forall k :: 0 <= k < i ==> !Compatible(requested, bins[k].version);
    forall b | b in bins && Compatible(requested, b.version)
      ensures LessEq(b.version, found.version)
    {
      var k :| 0 <= k < |bins| && bins[k] == b;
      if k > i {
        assert InOrder(bins[i].version, bins[k].version, true);
      }
    }
  }

  /** Scans the list in order and returns the first binary inside the window of
      the requested version; the list is expected newest first. */
  method FindCompatibleKubectl(requested: Version, bins: seq<KubectlBinary>)
    returns (r: Result<KubectlBinary, Error>)
    ensures r == FirstCompatible(requested, bins)
  {
    if |bins| == 0 {
      return Failure(NoVersionFound);
    }
    var lowerBound := LowerBoundVersion(requested);
    var upperBound := UpperBoundVersion(requested);
    var i := 0;
    while i < |bins|
      invariant 0 <= i <= |bins|
      invariant FirstCompatible(requested, bins) == FirstCompatible(requested, bins[i..])
    {
      assert bins[i..][1..] == bins[i + 1..];
      if LessEq(lowerBound, bins[i].version) && Less(bins[i].version, upperBound) {
        return Success(bins[i]);
      }
      i := i + 1;
    }
    return Failure(NoVersionFound);
  }

  /** The first binary of a list sorted newest first, or NoVersionFound when
      the list is empty. */
  function MostRecentKubectlAvailable(bins: seq<KubectlBinary>): (r: Result<KubectlBinary, Error>)
    ensures r.Success? <==> |bins| > 0
    ensures r.Failure? ==> r.error == NoVersionFound
    ensures r.Success? ==> r.value == bins[0]
    ensures r.Success? && Sorted(bins, true) ==> forall b :: b in bins ==> LessEq(b.version, r.value.version)
  {
    if |bins| == 0 then Failure(NoVersionFound) else Success(bins[0])
  }

  /** The cases kubectl_finder_test.go and versioner_test.go check: a match at the lower edge of
      the window, at the upper edge, the newest of two matches, and no match. */
  lemma FindCompatibleExamples()
    ensures FirstCompatible(Version(1, 5, 13), Catalog4()) == Success(Bin(Version(1, 4, 2)))
    ensures FirstCompatible(Version(2, 1, 0), Catalog4()[1..]) == Success(Bin(Version(2, 1, 3)))
    ensures FirstCompatible(Version(1, 4, 0),
              [Bin(Version(2, 1, 3)), Bin(Version(1, 5, 3)), Bin(Version(1, 4, 2)), Bin(Version(1, 1, 3))])
         == Success(Bin(Version(1, 5, 3)))
    ensures FirstCompatible(Version(1, 4, 0), []) == Failure(NoVersionFound)
    ensures FirstCompatible(Version(2, 4, 0),
              [Bin(Version(1, 3, 0)), Bin(Version(1, 2, 0)), Bin(Version(1, 1, 0))])
         == Failure(NoVersionFound)
  {
    var c := Catalog4();
    assert c[1..][1..] == c[2..];
    assert c[2..][1..] == c[3..];
  }

  function Bin(v: Version): KubectlBinary
  {
    KubectlBinary("path/to/kubectl-" + Fmt.FormatThree(v.major, v.minor, v.patch), v)
  }

  function Catalog4(): seq<KubectlBinary>
  {
    [Bin(Version(3, 0, 0)), Bin(Version(2, 1, 3)), Bin(Version(1, 4, 2)), Bin(Version(1, 1, 3))]
  }
}
