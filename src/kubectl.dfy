/** A kubectl binary found on disk and the in-place sort of a list of them. */
module Kubectl {
  import opened Semver

  datatype KubectlBinary = KubectlBinary(path: string, version: Version)

  /** x may stand before y: ascending, or descending when reverse is set. */
  predicate InOrder(x: Version, y: Version, reverse: bool)
  {
    if reverse then LessEq(y, x) else LessEq(x, y)
  }

  predicate Sorted(s: seq<KubectlBinary>, reverse: bool)
  {
    forall i, j :: 0 <= i < j < |s| ==> InOrder(s[i].version, s[j].version, reverse)
  }

  /** x must stand before y: the comparison handed to sort.Slice. */
  predicate Precedes(x: KubectlBinary, y: KubectlBinary, reverse: bool)
  {
    if reverse then Less(y.version, x.version) else Less(x.version, y.version)
  }

  lemma InOrderFacts(x: Version, y: Version, z: Version, reverse: bool)
    ensures InOrder(x, y, reverse) && InOrder(y, z, reverse) ==> InOrder(x, z, reverse)
    ensures InOrder(x, y, reverse) || InOrder(y, x, reverse)
  {
    LessEqTotalOrder(x, y, z);
    LessEqTotalOrder(z, y, x);
  }

  /** Sorts the binaries in place by version, ascending or (reverse) descending.
      Whole records move, so every path stays with its version; the order of
      equal versions is not specified. */
  method SortKubectlByVersion(binaries: array<KubectlBinary>, reverse: bool)
    modifies binaries
    ensures Sorted(binaries[..], reverse)
    ensures multiset(binaries[..]) == multiset(old(binaries[..]))
  {
    if binaries.Length == 0 {
      return;
    }
    var i := 1;
    while i < binaries.Length
      invariant 1 <= i <= binaries.Length
      invariant Sorted(binaries[..i], reverse)
      invariant multiset(binaries[..]) == multiset(old(binaries[..]))
    {
      InsertAt(binaries, i, reverse);
      i := i + 1;
    }
    assert binaries[..] == binaries[..binaries.Length];
  }

  /** Moves binaries[i] left until binaries[..i+1] is sorted. */
  method InsertAt(binaries: array<KubectlBinary>, i: nat, reverse: bool)
    requires i < binaries.Length
    requires Sorted(binaries[..i], reverse)
    modifies binaries
    ensures Sorted(binaries[..i + 1], reverse)
    ensures multiset(binaries[..]) == multiset(old(binaries[..]))
  {
    var j := i;
    assert SortedExcept(binaries[..], i, j, reverse);
    while j > 0 && Precedes(binaries[j], binaries[j - 1], reverse)
      invariant 0 <= j <= i
      invariant SortedExcept(binaries[..], i, j, reverse)
      invariant LeadsRest(binaries[..], i, j, reverse)
      invariant multiset(binaries[..]) == multiset(old(binaries[..]))
    {
      SwapStep(binaries[..], i, j, reverse);
      binaries[j - 1], binaries[j] := binaries[j], binaries[j - 1];
      j := j - 1;
    }
    InsertDone(binaries[..], i, j, reverse);
  }

  /** binaries[..i+1] is in order except for the element at j. */
  ghost predicate SortedExcept(s: seq<KubectlBinary>, i: nat, j: nat, reverse: bool)
    requires i < |s|
  {
    forall p, q :: 0 <= p < q <= i && p != j && q != j ==> InOrder(s[p].version, s[q].version, reverse)
  }

  /** The element at j may stand before every element after it up to i. */
  ghost predicate LeadsRest(s: seq<KubectlBinary>, i: nat, j: nat, reverse: bool)
    requires j <= i < |s|
  {
    forall q :: j < q <= i ==> InOrder(s[j].version, s[q].version, reverse)
  }

  lemma SwapStep(s: seq<KubectlBinary>, i: nat, j: nat, reverse: bool)
    requires 0 < j <= i < |s|
    requires SortedExcept(s, i, j, reverse) && LeadsRest(s, i, j, reverse)
    requires Precedes(s[j], s[j - 1], reverse)
    ensures SortedExcept(s[j - 1 := s[j]][j := s[j - 1]], i, j - 1, reverse)
    ensures LeadsRest(s[j - 1 := s[j]][j := s[j - 1]], i, j - 1, reverse)
  {
  }

  lemma InsertDone(s: seq<KubectlBinary>, i: nat, j: nat, reverse: bool)
    requires j <= i < |s|
    requires SortedExcept(s, i, j, reverse) && LeadsRest(s, i, j, reverse)
    requires j == 0 || !Precedes(s[j], s[j - 1], reverse)
    ensures Sorted(s[..i + 1], reverse)
  {
    forall p, q | 0 <= p < q <= i
      ensures InOrder(s[p].version, s[q].version, reverse)
    {
      if q == j && p < j - 1 {
        InOrderFacts(s[p].version, s[j - 1].version, s[j].version, reverse);
      } else if q == j {
        InOrderFacts(s[j].version, s[j - 1].version, s[j].version, reverse);
      }
    }
  }

  // ---------------------------------------------------------------------------
  // What sorting determines
  // ---------------------------------------------------------------------------

  /** The versions of a list of binaries, in list order. */
  function Versions(s: seq<KubectlBinary>): (r: seq<Version>)
    ensures |r| == |s|
    ensures forall i :: 0 <= i < |s| ==> r[i] == s[i].version
  {
    seq(|s|, i requires 0 <= i < |s| => s[i].version)
  }

  predicate SortedVersions(vs: seq<Version>, reverse: bool)
  {
    forall i, j :: 0 <= i < j < |vs| ==> InOrder(vs[i], vs[j], reverse)
  }

  lemma MultisetCancel<T>(c: multiset<T>, a: multiset<T>, b: multiset<T>)
    requires c + a == c + b
    ensures a == b
  {
    assert forall y :: a[y] == (c + a)[y] - c[y];
    assert forall y :: b[y] == (c + b)[y] - c[y];
  }

  lemma VersionsConcat(a: seq<KubectlBinary>, b: seq<KubectlBinary>)
    ensures Versions(a + b) == Versions(a) + Versions(b)
  {
    assert forall i :: 0 <= i < |a + b| ==> Versions(a + b)[i] == (Versions(a) + Versions(b))[i];
  }

  lemma RemoveMatching(s: seq<KubectlBinary>, t: seq<KubectlBinary>, j: nat)
    requires multiset(s) == multiset(t)
    requires s != [] && j < |t| && t[j] == s[0]
    ensures multiset(t[..j] + t[j + 1..]) == multiset(s[1..])
  {
    var x := s[0];
    assert t == t[..j] + [x] + t[j + 1..];
    assert s == [x] + s[1..];
    assert multiset([x]) + multiset(t[..j] + t[j + 1..]) == multiset([x]) + multiset(s[1..]);
    MultisetCancel(multiset([x]), multiset(t[..j] + t[j + 1..]), multiset(s[1..]));
  }

  lemma VersionsRemoveAt(t: seq<KubectlBinary>, j: nat)
    requires j < |t|
    ensures multiset(Versions(t)) == multiset([t[j].version]) + multiset(Versions(t[..j] + t[j + 1..]))
  {
    var left, right := t[..j], t[j + 1..];
    assert t == left + [t[j]] + right;
    VersionsConcat(left + [t[j]], right);
    VersionsConcat(left, [t[j]]);
    VersionsConcat(left, right);
    var a, v, b := Versions(left), [t[j].version], Versions(right);
    assert Versions([t[j]]) == v;
    assert Versions(t) == a + v + b;
    assert multiset(a + v + b) == multiset(a) + multiset(v) + multiset(b);
    assert multiset(Versions(left + right)) == multiset(a) + multiset(b);
  }

  /** Rearranging binaries rearranges their versions. */
  lemma {:induction false} VersionsMultiset(s: seq<KubectlBinary>, t: seq<KubectlBinary>)
    requires multiset(s) == multiset(t)
    ensures multiset(Versions(s)) == multiset(Versions(t))
  {
    if s == [] {
      assert |t| == |multiset(t)| == 0;
    } else {
      assert s[0] in multiset(t);
      var j :| 0 <= j < |t| && t[j] == s[0];
      RemoveMatching(s, t, j);
      VersionsMultiset(s[1..], t[..j] + t[j + 1..]);
      VersionsRemoveAt(t, j);
      assert Versions(s) == [s[0].version] + Versions(s[1..]);
    }
  }

  /** A multiset of versions has only one ordering in each direction. */
  lemma {:induction false} SortedVersionsUnique(u: seq<Version>, w: seq<Version>, reverse: bool)
    requires SortedVersions(u, reverse) && SortedVersions(w, reverse)
    requires multiset(u) == multiset(w)
    ensures u == w
  {
    if u == [] {
      assert |w| == |multiset(w)| == 0;
    } else {
      assert |w| == |multiset(w)| == |multiset(u)| == |u|;
      assert u[0] in multiset(w);
      assert w[0] in multiset(u);
      var k :| 0 <= k < |w| && w[k] == u[0];
      var m :| 0 <= m < |u| && u[m] == w[0];
      if k > 0 {
        assert InOrder(w[0], w[k], reverse);
      }
      if m > 0 {
        assert InOrder(u[0], u[m], reverse);
      }
      LessEqTotalOrder(u[0], w[0], u[0]);
      assert u[0] == w[0];
      assert u == [u[0]] + u[1..];
      assert w == [w[0]] + w[1..];
      assert multiset(u) == multiset([u[0]]) + multiset(u[1..]);
      assert multiset(w) == multiset([w[0]]) + multiset(w[1..]);
      MultisetCancel(multiset([u[0]]), multiset(u[1..]), multiset(w[1..]));
      assert SortedVersions(u[1..], reverse) by {
        forall i, j | 0 <= i < j < |u| - 1 ensures InOrder(u[1..][i], u[1..][j], reverse) {
          assert u[1..][i] == u[i + 1] && u[1..][j] == u[j + 1];
        }
      }
      assert SortedVersions(w[1..], reverse) by {
        forall i, j | 0 <= i < j < |w| - 1 ensures InOrder(w[1..][i], w[1..][j], reverse) {
          assert w[1..][i] == w[i + 1] && w[1..][j] == w[j + 1];
        }
      }
      SortedVersionsUnique(u[1..], w[1..], reverse);
    }
  }

  /** Two sorted rearrangements of the same binaries list the same versions in
      the same order: sorting is idempotent up to the order of binaries with
      equal versions, which it leaves unspecified. */
  lemma SortedPermutationsAgreeOnVersions(s: seq<KubectlBinary>, t: seq<KubectlBinary>, reverse: bool)
    requires Sorted(s, reverse) && Sorted(t, reverse)
    requires multiset(s) == multiset(t)
    ensures Versions(s) == Versions(t)
  {
    VersionsMultiset(s, t);
    SortedVersionsUnique(Versions(s), Versions(t), reverse);
  }

  /** When no two binaries share a version, sorting has exactly one outcome. */
  lemma SortedUniqueWhenVersionsDistinct(s: seq<KubectlBinary>, t: seq<KubectlBinary>, reverse: bool)
    requires Sorted(s, reverse) && Sorted(t, reverse)
    requires multiset(s) == multiset(t)
    requires forall i, j :: 0 <= i < j < |s| ==> s[i].version != s[j].version
    ensures s == t
  {
    SortedPermutationsAgreeOnVersions(s, t, reverse);
    assert |s| == |multiset(s)| == |multiset(t)| == |t|;
    forall i | 0 <= i < |s|
      ensures s[i] == t[i]
    {
      assert Versions(s)[i] == Versions(t)[i];
      assert t[i] in multiset(s);
      var j :| 0 <= j < |s| && s[j] == t[i];
      assert s[j].version == s[i].version;
    }
  }

  /** Three binaries whose versions strictly increase (or strictly decrease
      when reverse is set) have exactly one sorted rearrangement. */
  lemma SortedThreeUnique(t: seq<KubectlBinary>, x: KubectlBinary, y: KubectlBinary, z: KubectlBinary, reverse: bool)
    requires Precedes(x, y, reverse) && Precedes(y, z, reverse)
    requires multiset(t) == multiset([x, y, z]) && Sorted(t, reverse)
    ensures t == [x, y, z]
  {
    var e := [x, y, z];
    assert Less(x.version, z.version) || Less(z.version, x.version) by {
      LessEqTotalOrder(x.version, y.version, z.version);
      LessEqTotalOrder(z.version, y.version, x.version);
    }
    assert Sorted(e, reverse) by {
      LessEqTotalOrder(x.version, y.version, z.version);
      LessEqTotalOrder(z.version, y.version, x.version);
    }
    SortedUniqueWhenVersionsDistinct(e, t, reverse);
  }

  /** Binaries b3 (2.0.3), b1 (1.0.0) and b2 (2.0.0) sorted ascending:
      any sorted rearrangement is [b1, b2, b3]. */
  lemma SortAscendingScenario(t: seq<KubectlBinary>)
    requires multiset(t) == multiset([KubectlBinary("b3", Version(2, 0, 3)), KubectlBinary("b1", Version(1, 0, 0)),
                                      KubectlBinary("b2", Version(2, 0, 0))])
    requires Sorted(t, false)
    ensures t == [KubectlBinary("b1", Version(1, 0, 0)), KubectlBinary("b2", Version(2, 0, 0)),
                  KubectlBinary("b3", Version(2, 0, 3))]
  {
    var b1, b2, b3 := KubectlBinary("b1", Version(1, 0, 0)), KubectlBinary("b2", Version(2, 0, 0)),
                      KubectlBinary("b3", Version(2, 0, 3));
    RotateThree(b1, b2, b3);
    SortedThreeUnique(t, b1, b2, b3, false);
  }

  /** The same binaries sorted descending: any sorted rearrangement is
      [b3, b2, b1]. */
  lemma SortDescendingScenario(t: seq<KubectlBinary>)
    requires multiset(t) == multiset([KubectlBinary("b3", Version(2, 0, 3)), KubectlBinary("b1", Version(1, 0, 0)),
                                      KubectlBinary("b2", Version(2, 0, 0))])
    requires Sorted(t, true)
    ensures t == [KubectlBinary("b3", Version(2, 0, 3)), KubectlBinary("b2", Version(2, 0, 0)),
                  KubectlBinary("b1", Version(1, 0, 0))]
  {
    var b1, b2, b3 := KubectlBinary("b1", Version(1, 0, 0)), KubectlBinary("b2", Version(2, 0, 0)),
                      KubectlBinary("b3", Version(2, 0, 3));
    SwapLastTwo(b3, b1, b2);
    SortedThreeUnique(t, b3, b2, b1, true);
  }

  /** Exchanging two halves of a list keeps its contents. */
  lemma SwapHalves(a: seq<KubectlBinary>, b: seq<KubectlBinary>)
    ensures multiset(a + b) == multiset(b + a)
  {
    calc {
      multiset(a + b);
      multiset(a) + multiset(b);
      multiset(b + a);
    }
  }

  lemma RotateThree(x: KubectlBinary, y: KubectlBinary, z: KubectlBinary)
    ensures multiset([z, x, y]) == multiset([x, y, z])
  {
    assert [z, x, y] == [z] + [x, y];
    assert [x, y, z] == [x, y] + [z];
    SwapHalves([z], [x, y]);
  }

  lemma SwapLastTwo(x: KubectlBinary, y: KubectlBinary, z: KubectlBinary)
    ensures multiset([x, y, z]) == multiset([x, z, y])
  {
    assert [x, y, z] == [x] + ([y] + [z]);
    assert [x, z, y] == [x] + ([z] + [y]);
    SwapHalves([y], [z]);
  }
}
