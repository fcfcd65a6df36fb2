/** The part of semantic versioning the engine relies on: a release version
    major.minor.patch and its precedence (section 11 of Semantic Versioning
    2.0.0, restricted to the numeric triple). */
module Semver {

  datatype Version = Version(major: nat, minor: nat, patch: nat)

  /** Precedence: strictly lexicographic on (major, minor, patch). */
  predicate Less(a: Version, b: Version)
  {
    || a.major < b.major
    || (a.major == b.major && a.minor < b.minor)
    || (a.major == b.major && a.minor == b.minor && a.patch < b.patch)
  }

  predicate LessEq(a: Version, b: Version)
  {
    Less(a, b) || a == b
  }

  /** Precedence is a total order on versions. */
  lemma LessEqTotalOrder(a: Version, b: Version, c: Version)
    ensures LessEq(a, b) || LessEq(b, a)
    ensures LessEq(a, b) && LessEq(b, a) ==> a == b
    ensures LessEq(a, b) && LessEq(b, c) ==> LessEq(a, c)
    ensures Less(a, b) <==> LessEq(a, b) && a != b
  {
  }
}
