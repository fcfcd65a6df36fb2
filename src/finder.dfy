/** The catalog of installed kubectl binaries: parsing versions out of
    filenames, listing a directory, and merging the user's download cache with
    the system directory. */
module Finder {
  import opened Wrappers
  import opened Semver
  import opened OsExec
  import opened Fmt
  import opened Common
  import opened Kubectl
  import Resolver

  // ---------------------------------------------------------------------------
  // Filename parsing
  // ---------------------------------------------------------------------------

  /** Sscanf with the local scheme "kubectl%d.%d.%d"; text after the third
      number is not looked at. */
  function ScanLocalScheme(filename: string): Option<(nat, nat, nat)>
  {
    var rest :- ScanLiteral(KubectlPrefix, filename);
    var (major, minor, patch, _) :- ScanThree(rest);
    Some((major, minor, patch))
  }

  /** Sscanf with the system scheme "kubectl%d.%d". */
  function ScanSystemScheme(filename: string): Option<(nat, nat)>
  {
    var rest :- ScanLiteral(KubectlPrefix, filename);
    var (major, minor, _) :- ScanTwo(rest);
    Some((major, minor))
  }

  /** The version a downloaded binary's name encodes, or "Not parsable". */
  function InferLocalKubectlVersion(filename: string): (r: Result<Version, Error>)
    ensures r.Success? ==> KubectlPrefix <= filename
    ensures r.Failure? ==> r.error == Other("Not parsable")
  {
    match ScanLocalScheme(filename)
    case Some((major, minor, patch)) => Success(Version(major, minor, patch))
    case None => Failure(Other("Not parsable"))
  }

  /** The version a system binary's name encodes, with patch 0, or "Not parsable". */
  function InferSystemKubectlVersion(filename: string): (r: Result<Version, Error>)
    ensures r.Success? ==> KubectlPrefix <= filename && r.value.patch == 0
    ensures r.Failure? ==> r.error == Other("Not parsable")
  {
    match ScanSystemScheme(filename)
    case Some((major, minor)) => Success(Version(major, minor, 0))
    case None => Failure(Other("Not parsable"))
  }

  /** "kubectl" followed by three dot-separated digit runs, and then anything
      that does not continue the last run. */
  predicate LocalSchemeShape(filename: string, d1: string, d2: string, d3: string, rest: string)
  {
    && d1 != [] && AllDigits(d1)
    && d2 != [] && AllDigits(d2)
    && d3 != [] && AllDigits(d3)
    && (rest == [] || !IsDigit(rest[0]))
    && filename == KubectlPrefix + (d1 + ("." + (d2 + ("." + (d3 + rest)))))
  }

  /** "kubectl" followed by two dot-separated digit runs, and then anything
      that does not continue the last run. */
  predicate SystemSchemeShape(filename: string, d1: string, d2: string, rest: string)
  {
    && d1 != [] && AllDigits(d1)
    && d2 != [] && AllDigits(d2)
    && (rest == [] || !IsDigit(rest[0]))
    && filename == KubectlPrefix + (d1 + ("." + (d2 + rest)))
  }

  /** Every name of the local shape parses, to the numbers its digits denote. */
  lemma InferLocalAcceptsScheme(filename: string, d1: string, d2: string, d3: string, rest: string)
    requires LocalSchemeShape(filename, d1, d2, d3, rest)
    ensures InferLocalKubectlVersion(filename)
         == Success(Version(DigitsValue(d1), DigitsValue(d2), DigitsValue(d3)))
  {
    var s2 := "." + (d3 + rest);
    var s1 := "." + (d2 + s2);
    ScanLiteralPrefix(KubectlPrefix, d1 + s1);
    ScanDigits(d1, s1);
    ScanLiteralPrefix(".", d2 + s2);
    ScanDigits(d2, s2);
    ScanLiteralPrefix(".", d3 + rest);
    ScanDigits(d3, rest);
  }

  /** Only names of the local shape parse. */
  lemma InferLocalOnlyOnScheme(filename: string)
    requires InferLocalKubectlVersion(filename).Success?
    ensures exists d1, d2, d3, rest ::
      LocalSchemeShape(filename, d1, d2, d3, rest)
      && InferLocalKubectlVersion(filename).value
         == Version(DigitsValue(d1), DigitsValue(d2), DigitsValue(d3))
  {
    var s0 := ScanLiteral(KubectlPrefix, filename).value;
    var d1, d2, d3, rest := ScanThreeParts(s0);
    assert LocalSchemeShape(filename, d1, d2, d3, rest);
  }

  /** Every name of the system shape parses, with patch 0. */
  lemma InferSystemAcceptsScheme(filename: string, d1: string, d2: string, rest: string)
    requires SystemSchemeShape(filename, d1, d2, rest)
    ensures InferSystemKubectlVersion(filename) == Success(Version(DigitsValue(d1), DigitsValue(d2), 0))
  {
    var s1 := "." + (d2 + rest);
    ScanLiteralPrefix(KubectlPrefix, d1 + s1);
    ScanDigits(d1, s1);
    ScanLiteralPrefix(".", d2 + rest);
    ScanDigits(d2, rest);
  }

  /** Only names of the system shape parse. */
  lemma InferSystemOnlyOnScheme(filename: string)
    requires InferSystemKubectlVersion(filename).Success?
    ensures exists d1, d2, rest ::
      SystemSchemeShape(filename, d1, d2, rest)
      && InferSystemKubectlVersion(filename).value == Version(DigitsValue(d1), DigitsValue(d2), 0)
  {
    var s0 := ScanLiteral(KubectlPrefix, filename).value;
    var d1, d2, rest := ScanTwoParts(s0);
    assert SystemSchemeShape(filename, d1, d2, rest);
  }

  /** A name the local scheme accepts is also accepted by the system scheme,
      which would lose its patch: this is why the local scheme is tried first. */
  lemma LocalNameAlsoSystemName(filename: string)
    requires InferLocalKubectlVersion(filename).Success?
    ensures InferSystemKubectlVersion(filename).Success?
    ensures InferSystemKubectlVersion(filename).value
         == Version(InferLocalKubectlVersion(filename).value.major,
                    InferLocalKubectlVersion(filename).value.minor, 0)
  {
    InferLocalOnlyOnScheme(filename);
    var d1, d2, d3, rest :| LocalSchemeShape(filename, d1, d2, d3, rest)
      && InferLocalKubectlVersion(filename).value
         == Version(DigitsValue(d1), DigitsValue(d2), DigitsValue(d3));
    InferSystemAcceptsScheme(filename, d1, d2, "." + (d3 + rest));
  }

  /** A downloaded binary's name parses back to its full version. */
  lemma LocalNameRoundTrip(p: Platform, v: Version)
    ensures InferLocalKubectlVersion(BuildKubectlNameForLocalBin(p, v)) == Success(v)
  {
    LocalNameParts(p, v);
    ScanLiteralPrefix(KubectlPrefix, FormatThree(v.major, v.minor, v.patch) + Ext(p));
    ScanFormatThree(v.major, v.minor, v.patch, Ext(p));
  }

  /** A system binary's name parses back to its major and minor with patch 0,
      and the local scheme does not accept it. */
  lemma SystemNameRoundTrip(p: Platform, v: Version)
    ensures InferSystemKubectlVersion(BuildKubectlNameForSystemBin(p, v)) == Success(Version(v.major, v.minor, 0))
    ensures InferLocalKubectlVersion(BuildKubectlNameForSystemBin(p, v)).Failure?
  {
    SystemNameParts(p, v);
    SystemSchemeReadsPair(BuildKubectlNameForSystemBin(p, v), p, v.major, v.minor);
    LocalSchemeRejectsPair(BuildKubectlNameForSystemBin(p, v), p, v.major, v.minor);
  }

  /** The system scheme reads "kubectl%d.%d" and an extension back as major.minor.0. */
  lemma SystemSchemeReadsPair(name: string, p: Platform, major: nat, minor: nat)
    requires name == KubectlPrefix + (FormatTwo(major, minor) + Ext(p))
    ensures InferSystemKubectlVersion(name) == Success(Version(major, minor, 0))
  {
    ScanLiteralPrefix(KubectlPrefix, FormatTwo(major, minor) + Ext(p));
    ScanFormatTwo(major, minor, Ext(p));
  }

  /** The local scheme does not accept "kubectl%d.%d" and an extension. */
  lemma LocalSchemeRejectsPair(name: string, p: Platform, major: nat, minor: nat)
    requires name == KubectlPrefix + (FormatTwo(major, minor) + Ext(p))
    ensures InferLocalKubectlVersion(name).Failure?
  {
    ScanLiteralPrefix(KubectlPrefix, FormatTwo(major, minor) + Ext(p));
    ScanThreeOfTwo(major, minor, Ext(p));
  }

  // ---------------------------------------------------------------------------
  // Listing a directory
  // ---------------------------------------------------------------------------

  /** What reading a directory gives: its entry names, "does not exist", or
      another I/O error. */
  datatype DirListing = Entries(names: seq<string>) | NotExist | ReadFailed(err: Error)

  /** The directories the finder can see; a path that is not a key does not exist. */
  type FileSystem = map<string, DirListing>

  function ReadDir(fs: FileSystem, path: string): DirListing
  {
    if path in fs then fs[path] else NotExist
  }

  /** filepath.Join of a directory and an entry name (without lexical cleaning). */
  function Join(dir: string, name: string): (r: string)
    ensures EndsWith(r, name)
  {
    if dir == "" then name
    else
      var r := dir + "/" + name;
      assert r[|r| - |name|..] == name;
      r
  }

  /** The version an entry name encodes: the local scheme first, then the
      system scheme; None when neither accepts it. */
  function InferVersion(name: string): (r: Option<Version>)
    ensures r.Some? ==> KubectlPrefix <= name
  {
    match InferLocalKubectlVersion(name)
    case Success(v) => Some(v)
    case Failure(_) =>
      match InferSystemKubectlVersion(name)
      case Success(v) => Some(v)
      case Failure(_) => None
  }

  /** A name has a version exactly when one of the schemes parses it, and
      the local scheme's reading wins over the system scheme's. */
  lemma InferVersionLocalFirst(name: string)
    ensures InferVersion(name).Some?
        <==> InferLocalKubectlVersion(name).Success? || InferSystemKubectlVersion(name).Success?
    ensures InferLocalKubectlVersion(name).Success? ==> InferVersion(name) == Some(InferLocalKubectlVersion(name).value)
    ensures InferLocalKubectlVersion(name).Failure? && InferSystemKubectlVersion(name).Success?
            ==> InferVersion(name) == Some(InferSystemKubectlVersion(name).value)
  {
  }

  /** The binary one entry name yields, if any. */
  function CatalogEntry(dir: string, name: string): (r: seq<KubectlBinary>)
    ensures |r| <= 1
  {
    match InferVersion(name)
    case Some(v) => [KubectlBinary(Join(dir, name), v)]
    case None => []
  }

  /** The binaries a list of entry names yields, in entry order. */
  function Catalog(dir: string, names: seq<string>): (r: seq<KubectlBinary>)
    ensures |r| <= |names|
  {
    if names == [] then [] else Catalog(dir, names[..|names| - 1]) + CatalogEntry(dir, names[|names| - 1])
  }

  /** Cataloguing distributes over concatenation of listings, so entry order
      is kept. */
  lemma {:induction false} CatalogAppend(dir: string, a: seq<string>, b: seq<string>)
    ensures Catalog(dir, a + b) == Catalog(dir, a) + Catalog(dir, b)
    decreases |b|
  {
    if b == [] {
      assert a + b == a;
    } else {
      var init := b[..|b| - 1];
      assert (a + b)[..|a + b| - 1] == a + init;
      assert (a + b)[|a + b| - 1] == b[|b| - 1];
      CatalogAppend(dir, a, init);
    }
  }

  /** Every catalogued binary comes from one entry: its path is the directory
      joined with the entry name and its version is the one the name encodes. */
  lemma {:induction false} CatalogMember(dir: string, names: seq<string>, b: KubectlBinary)
    requires b in Catalog(dir, names)
    ensures exists name :: name in names && b.path == Join(dir, name) && InferVersion(name) == Some(b.version)
  {
    var init := names[..|names| - 1];
    var last := names[|names| - 1];
    if b in Catalog(dir, init) {
      CatalogMember(dir, init, b);
      var name :| name in init && b.path == Join(dir, name) && InferVersion(name) == Some(b.version);
      assert name in names;
    } else {
      assert last in names;
    }
  }

  /** What the engine's names for downloaded and system binaries are catalogued
      as; an entry named just "kubectl" is skipped. */
  lemma CatalogOfBuiltNames(p: Platform, dir: string, v: Version)
    ensures Catalog(dir, [BuildKubectlNameForLocalBin(p, v)])
         == [KubectlBinary(Join(dir, BuildKubectlNameForLocalBin(p, v)), v)]
    ensures Catalog(dir, [BuildKubectlNameForSystemBin(p, v)])
         == [KubectlBinary(Join(dir, BuildKubectlNameForSystemBin(p, v)), Version(v.major, v.minor, 0))]
    ensures Catalog(dir, ["kubectl"]) == []
  {
    LocalNameRoundTrip(p, v);
    SystemNameRoundTrip(p, v);
    assert ["kubectl"][..0] == [];
    assert ScanLiteral(KubectlPrefix, "kubectl") == Some("");
  }

  /** Reads a directory and catalogues its entries. A directory that does not
      exist gives an empty list; any other read error is returned. */
  method FindKubectlBinaries(fs: FileSystem, path: string) returns (r: Result<seq<KubectlBinary>, Error>)
    ensures ReadDir(fs, path).Entries? ==> r == Success(Catalog(path, ReadDir(fs, path).names))
    ensures ReadDir(fs, path).NotExist? ==> r == Success([])
    ensures ReadDir(fs, path).ReadFailed? ==> r == Failure(ReadDir(fs, path).err)
  {
    var binaries: seq<KubectlBinary> := [];
    match ReadDir(fs, path)
    case NotExist =>
      return Success(binaries);
    case ReadFailed(err) =>
      return Failure(err);
    case Entries(names) =>
      var i := 0;
      while i < |names|
        invariant 0 <= i <= |names|
        invariant binaries == Catalog(path, names[..i])
      {
        assert names[..i + 1][..i] == names[..i];
        var sv := InferLocalKubectlVersion(names[i]);
        if sv.Failure? {
          sv := InferSystemKubectlVersion(names[i]);
          if sv.Failure? {
            i := i + 1;
            continue;
          }
        }
        binaries := binaries + [KubectlBinary(Join(path, names[i]), sv.value)];
        i := i + 1;
      }
      assert names[..i] == names;
      return Success(binaries);
  }

  /** The binaries a directory contributes to the merged catalog: none when
      its listing fails. */
  function Found(fs: FileSystem, path: string): seq<KubectlBinary>
  {
    match ReadDir(fs, path)
    case Entries(names) => Catalog(path, names)
    case _ => []
  }

  /** r is the newest binary of all that is compatible with the requested
      version, or NoVersionFound exactly when none is. */
  ghost predicate NewestCompatible(all: seq<KubectlBinary>, requested: Version, r: Result<KubectlBinary, Error>)
  {
    && (r.Success? <==> exists b :: b in all && Resolver.Compatible(requested, b.version))
    && (r.Failure? ==> r.error == NoVersionFound)
    && (r.Success? ==> r.value in all && Resolver.Compatible(requested, r.value.version))
    && (r.Success? ==> forall b :: b in all && Resolver.Compatible(requested, b.version) ==>
          LessEq(b.version, r.value.version))
  }

  // ---------------------------------------------------------------------------
  // The finder
  // ---------------------------------------------------------------------------

  /** Where to look for kubectl binaries: the user's download cache and a
      system directory. */
  class KubectlFinder {
    var localBinaryPath: string
    var sysBinaryPath: string

    /** An empty argument is replaced by its default: the local download
        directory, or the configured system path. */
    constructor (local: string, sys: string, localDownloadDir: string, systemPath: string)
      ensures localBinaryPath == if local == "" then localDownloadDir else local
      ensures sysBinaryPath == if sys == "" then systemPath else sys
    {
      localBinaryPath := if local == "" then localDownloadDir else local;
      sysBinaryPath := if sys == "" then systemPath else sys;
    }

    /** Every binary both directories contribute, local ones first. */
    ghost function Everything(fs: FileSystem): seq<KubectlBinary>
      reads this
    {
      Found(fs, localBinaryPath) + Found(fs, sysBinaryPath)
    }

    method SystemKubectlBinaries(fs: FileSystem) returns (r: Result<seq<KubectlBinary>, Error>)
      ensures r.Success? ==> r.value == Found(fs, sysBinaryPath)
      ensures r.Failure? ==> Found(fs, sysBinaryPath) == [] && ReadDir(fs, sysBinaryPath) == ReadFailed(r.error)
    {
      r := FindKubectlBinaries(fs, sysBinaryPath);
    }

    method LocalKubectlBinaries(fs: FileSystem) returns (r: Result<seq<KubectlBinary>, Error>)
      ensures r.Success? ==> r.value == Found(fs, localBinaryPath)
      ensures r.Failure? ==> Found(fs, localBinaryPath) == [] && ReadDir(fs, localBinaryPath) == ReadFailed(r.error)
    {
      r := FindKubectlBinaries(fs, localBinaryPath);
    }

    /** The binaries of both directories, a side whose listing fails
        contributing nothing, sorted by version (newest first when reverseSort). */
    method AllKubectlBinaries(fs: FileSystem, reverseSort: bool) returns (bins: seq<KubectlBinary>)
      ensures multiset(bins) == multiset(Everything(fs))
      ensures Sorted(bins, reverseSort)
    {
      var localBin := LocalKubectlBinaries(fs);
      var local := if localBin.Success? then localBin.value else [];
      var systemBin := SystemKubectlBinaries(fs);
      var system := if systemBin.Success? then systemBin.value else [];
      var all := local + system;
      var slice := new KubectlBinary[|all|](i requires 0 <= i < |all| => all[i]);
      assert slice[..] == all;
      SortKubectlByVersion(slice, reverseSort);
      bins := slice[..];
    }

    /** A binary compatible with the requested version: the newest such among
        both directories, or NoVersionFound. */
    method FindCompatibleKubectl(fs: FileSystem, requested: Version) returns (r: Result<KubectlBinary, Error>)
      ensures NewestCompatible(Everything(fs), requested, r)
    {
      var bins := AllKubectlBinaries(fs, true);
      if |bins| == 0 {
        return Failure(NoVersionFound);
      }
      r := Resolver.FindCompatibleKubectl(requested, bins);
      Resolver.FirstCompatibleIsFirstMatch(requested, bins);
      SameContents(bins, Everything(fs));
      if r.Success? {
        Resolver.FirstCompatibleIsNewest(requested, bins);
      }
    }

    /** The newest binary among both directories, or NoVersionFound. */
    method MostRecentKubectlAvailable(fs: FileSystem) returns (r: Result<KubectlBinary, Error>)
      ensures r.Success? <==> |Everything(fs)| > 0
      ensures r.Failure? ==> r.error == NoVersionFound
      ensures r.Success? ==> r.value in Everything(fs)
      ensures r.Success? ==> forall b :: b in Everything(fs) ==> LessEq(b.version, r.value.version)
    {
      var bins := AllKubectlBinaries(fs, true);
      SameContents(bins, Everything(fs));
      r := Resolver.MostRecentKubectlAvailable(bins);
    }
  }

  /** Two rearrangements of one list have the same length and members. */
  lemma SameContents(s: seq<KubectlBinary>, t: seq<KubectlBinary>)
    requires multiset(s) == multiset(t)
    ensures |s| == |t|
    ensures forall b :: b in s <==> b in t
  {
    assert |s| == |multiset(s)| == |multiset(t)| == |t|;
    assert forall b :: b in s <==> b in multiset(s);
    assert forall b :: b in t <==> b in multiset(t);
  }

  // ---------------------------------------------------------------------------
  // The finder's test scenarios
  // ---------------------------------------------------------------------------

  /** A download cache and a system directory holding the given entries. */
  function TwoDirs(home: string, homeNames: seq<string>, sysDir: string, sysNames: seq<string>): FileSystem
  {
    map[home := Entries(homeNames), sysDir := Entries(sysNames)]
  }

  /** Each of the two directories lists its own entries. */
  lemma TwoDirsRead(home: string, homeNames: seq<string>, sysDir: string, sysNames: seq<string>)
    requires home != sysDir
    ensures ReadDir(TwoDirs(home, homeNames, sysDir, sysNames), home) == Entries(homeNames)
    ensures ReadDir(TwoDirs(home, homeNames, sysDir, sysNames), sysDir) == Entries(sysNames)
  {
  }

  /** What the two directories of a scenario contribute, local ones first. */
  function Merged(fs: FileSystem, home: string, sysDir: string): seq<KubectlBinary>
  {
    Found(fs, home) + Found(fs, sysDir)
  }

  /** The version the catalog records for the engine's own names. */
  lemma InferVersionOfBuiltNames(p: Platform, v: Version)
    ensures InferVersion(BuildKubectlNameForLocalBin(p, v)) == Some(v)
    ensures InferVersion(BuildKubectlNameForSystemBin(p, v)) == Some(Version(v.major, v.minor, 0))
  {
    LocalNameRoundTrip(p, v);
    SystemNameRoundTrip(p, v);
  }

  /** A parsable entry name yields its binary. */
  lemma CatalogEntryOf(dir: string, n: string, v: Version)
    requires InferVersion(n) == Some(v)
    ensures CatalogEntry(dir, n) == [KubectlBinary(Join(dir, n), v)]
  {
  }

  /** Cataloguing one more entry appends what that entry yields. */
  lemma CatalogSnoc(dir: string, names: seq<string>, n: string)
    ensures Catalog(dir, names + [n]) == Catalog(dir, names) + CatalogEntry(dir, n)
  {
    assert (names + [n])[..|names|] == names;
  }

  /** One parsable entry name is catalogued as one binary. */
  lemma CatalogOne(dir: string, n: string, v: Version)
    requires InferVersion(n) == Some(v)
    ensures Catalog(dir, [n]) == [KubectlBinary(Join(dir, n), v)]
  {
    CatalogSnoc(dir, [], n);
    assert [] + [n] == [n];
    CatalogEntryOf(dir, n, v);
  }

  lemma FoundOne(fs: FileSystem, dir: string, n: string, v: Version)
    requires ReadDir(fs, dir) == Entries([n]) && InferVersion(n) == Some(v)
    ensures Found(fs, dir) == [KubectlBinary(Join(dir, n), v)]
  {
    CatalogOne(dir, n, v);
  }

  lemma FoundTwo(fs: FileSystem, dir: string, n1: string, v1: Version, n2: string, v2: Version)
    requires ReadDir(fs, dir) == Entries([n1, n2])
    requires InferVersion(n1) == Some(v1) && InferVersion(n2) == Some(v2)
    ensures Found(fs, dir) == [KubectlBinary(Join(dir, n1), v1), KubectlBinary(Join(dir, n2), v2)]
  {
    CatalogTwo(dir, n1, v1, n2, v2);
  }

  /** Two parsable entry names are catalogued as two binaries, in order. */
  lemma CatalogTwo(dir: string, n1: string, v1: Version, n2: string, v2: Version)
    requires InferVersion(n1) == Some(v1) && InferVersion(n2) == Some(v2)
    ensures Catalog(dir, [n1, n2]) == [KubectlBinary(Join(dir, n1), v1), KubectlBinary(Join(dir, n2), v2)]
  {
    CatalogOne(dir, n1, v1);
    CatalogSnoc(dir, [n1], n2);
    assert [n1] + [n2] == [n1, n2];
    CatalogEntryOf(dir, n2, v2);
  }

  /** A descending listing of two binaries of different versions puts the
      newer first. */
  lemma DescendingPair(bins: seq<KubectlBinary>, older: KubectlBinary, newer: KubectlBinary)
    requires multiset(bins) == multiset([older] + [newer])
    requires Sorted(bins, true)
    requires Less(older.version, newer.version)
    ensures bins == [newer, older]
  {
    assert multiset([older] + [newer]) == multiset{older, newer};
    assert |bins| == |multiset(bins)| == 2;
    var x, y := bins[0], bins[1];
    assert bins == [x, y];
    assert multiset{x, y} == multiset{older, newer};
    assert InOrder(x.version, y.version, true);
    LessEqTotalOrder(older.version, newer.version, newer.version);
    if x == older {
      assert false;
    }
  }

  /** Cache {1.4.2} and system {2.1.3 named "kubectl2.1"}: the descending
      listing is the system 2.1.0 first, then the local 1.4.2. */
  lemma AllBinariesScenario(p: Platform, home: string, sysDir: string, bins: seq<KubectlBinary>)
    requires home != sysDir
    requires var fs := TwoDirs(home, [BuildKubectlNameForLocalBin(p, Version(1, 4, 2))],
                                sysDir, [BuildKubectlNameForSystemBin(p, Version(2, 1, 3))]);
             multiset(bins) == multiset(Merged(fs, home, sysDir))
    requires Sorted(bins, true)
    ensures bins == [KubectlBinary(Join(sysDir, BuildKubectlNameForSystemBin(p, Version(2, 1, 3))), Version(2, 1, 0)),
                     KubectlBinary(Join(home, BuildKubectlNameForLocalBin(p, Version(1, 4, 2))), Version(1, 4, 2))]
  {    var localName := BuildKubectlNameForLocalBin(p, Version(1, 4, 2));
    var sysName := BuildKubectlNameForSystemBin(p, Version(2, 1, 3));
    var fs := TwoDirs(home, [localName], sysDir, [sysName]);
    var bl := KubectlBinary(Join(home, localName), Version(1, 4, 2));
    var bs := KubectlBinary(Join(sysDir, sysName), Version(2, 1, 0));
    InferVersionOfBuiltNames(p, Version(1, 4, 2));
    InferVersionOfBuiltNames(p, Version(2, 1, 3));
    FoundOne(fs, home, localName, bl.version);
    FoundOne(fs, sysDir, sysName, bs.version);
    DescendingPair(bins, bl, bs);
  }

  /** A one-element list followed by a two-element list. */
  lemma ConcatOneTwo(all: seq<KubectlBinary>, x: seq<KubectlBinary>, y: seq<KubectlBinary>,
                     b1: KubectlBinary, b2: KubectlBinary, b3: KubectlBinary)
    requires all == x + y && x == [b1] && y == [b2, b3]
    ensures all == [b1, b2, b3]
  {
    assert [b1] + [b2, b3] == [b1, b2, b3];
  }

  /** A two-element list followed by a one-element list. */
  lemma ConcatTwoOne(all: seq<KubectlBinary>, x: seq<KubectlBinary>, y: seq<KubectlBinary>,
                     b1: KubectlBinary, b2: KubectlBinary, b3: KubectlBinary)
    requires all == x + y && x == [b1, b2] && y == [b3]
    ensures all == [b1, b2, b3]
  {
    assert [b1, b2] + [b3] == [b1, b2, b3];
  }

  /** The catalog of a download cache holding one name and a system
      directory holding two, in listing order. */
  lemma OneAndTwoListing(fs: FileSystem, home: string, n1: string, v1: Version,
                         sysDir: string, n2: string, v2: Version, n3: string, v3: Version)
    requires home != sysDir && fs == TwoDirs(home, [n1], sysDir, [n2, n3])
    requires InferVersion(n1) == Some(v1) && InferVersion(n2) == Some(v2) && InferVersion(n3) == Some(v3)
    ensures Merged(fs, home, sysDir)
         == [KubectlBinary(Join(home, n1), v1), KubectlBinary(Join(sysDir, n2), v2), KubectlBinary(Join(sysDir, n3), v3)]
  {
    TwoDirsRead(home, [n1], sysDir, [n2, n3]);
    FoundOne(fs, home, n1, v1);
    FoundTwo(fs, sysDir, n2, v2, n3, v3);
    var b1, b2, b3 := KubectlBinary(Join(home, n1), v1), KubectlBinary(Join(sysDir, n2), v2), KubectlBinary(Join(sysDir, n3), v3);
    ConcatOneTwo(Merged(fs, home, sysDir), Found(fs, home), Found(fs, sysDir), b1, b2, b3);
  }

  /** The catalog of a download cache holding two names and a system
      directory holding one, in listing order. */
  lemma TwoAndOneListing(fs: FileSystem, home: string, n1: string, v1: Version, n2: string, v2: Version,
                         sysDir: string, n3: string, v3: Version)
    requires home != sysDir && fs == TwoDirs(home, [n1, n2], sysDir, [n3])
    requires InferVersion(n1) == Some(v1) && InferVersion(n2) == Some(v2) && InferVersion(n3) == Some(v3)
    ensures Merged(fs, home, sysDir)
         == [KubectlBinary(Join(home, n1), v1), KubectlBinary(Join(home, n2), v2), KubectlBinary(Join(sysDir, n3), v3)]
  {
    TwoDirsRead(home, [n1, n2], sysDir, [n3]);
    FoundTwo(fs, home, n1, v1, n2, v2);
    FoundOne(fs, sysDir, n3, v3);
    var b1, b2, b3 := KubectlBinary(Join(home, n1), v1), KubectlBinary(Join(home, n2), v2), KubectlBinary(Join(sysDir, n3), v3);
    ConcatTwoOne(Merged(fs, home, sysDir), Found(fs, home), Found(fs, sysDir), b1, b2, b3);
  }

  /** Of three binaries, the one at index i is the answer when it is
      compatible and every other one is incompatible or strictly older. */
  lemma NewestOfThree(all: seq<KubectlBinary>, requested: Version, r: Result<KubectlBinary, Error>, i: nat)
    requires |all| == 3 && i < 3
    requires NewestCompatible(all, requested, r)
    requires Resolver.Compatible(requested, all[i].version)
    requires forall j :: 0 <= j < 3 && j != i ==>
               !Resolver.Compatible(requested, all[j].version) || Less(all[j].version, all[i].version)
    ensures r == Success(all[i])
  {
    assert all[i] in all;
    var j :| 0 <= j < 3 && all[j] == r.value;
    LessEqTotalOrder(all[i].version, r.value.version, r.value.version);
  }

  /** The resolution over a local 1.1.3 and system 1.4.0 and 2.1.0, in that
      order, for request 1.5.13. */
  lemma CompatibleInsideSystemListing(all: seq<KubectlBinary>, p1: string, p2: string, p3: string,
                                      r: Result<KubectlBinary, Error>)
    requires all == [KubectlBinary(p1, Version(1, 1, 3)), KubectlBinary(p2, Version(1, 4, 0)), KubectlBinary(p3, Version(2, 1, 0))]
    requires NewestCompatible(all, Version(1, 5, 13), r)
    ensures r == Success(KubectlBinary(p2, Version(1, 4, 0)))
  {
    assert !Resolver.Compatible(Version(1, 5, 13), Version(1, 1, 3));
    assert !Resolver.Compatible(Version(1, 5, 13), Version(2, 1, 0));
    NewestOfThree(all, Version(1, 5, 13), r, 1);
  }

  /** The resolution over a local 1.4.2 and 2.1.3 and a system 1.5.0, in that
      order, for request 1.4.0. */
  lemma NewestAcrossDirectoriesListing(all: seq<KubectlBinary>, p1: string, p2: string, p3: string,
                                       r: Result<KubectlBinary, Error>)
    requires all == [KubectlBinary(p1, Version(1, 4, 2)), KubectlBinary(p2, Version(2, 1, 3)), KubectlBinary(p3, Version(1, 5, 0))]
    requires NewestCompatible(all, Version(1, 4, 0), r)
    ensures r == Success(KubectlBinary(p3, Version(1, 5, 0)))
  {
    assert Less(Version(1, 4, 2), Version(1, 5, 0));
    assert !Resolver.Compatible(Version(1, 4, 0), Version(2, 1, 3));
    NewestOfThree(all, Version(1, 4, 0), r, 2);
  }

  /** Cache {1.1.3}, system {1.4.2, 2.1.3} named by major and minor, request
      1.5.13: the only compatible binary is the system one, at 1.4.0. */
  lemma CompatibleInsideSystemScenario(p: Platform, home: string, sysDir: string, r: Result<KubectlBinary, Error>)
    requires home != sysDir
    requires var fs := TwoDirs(home, [BuildKubectlNameForLocalBin(p, Version(1, 1, 3))], sysDir,
                                [BuildKubectlNameForSystemBin(p, Version(1, 4, 2)), BuildKubectlNameForSystemBin(p, Version(2, 1, 3))]);
             NewestCompatible(Merged(fs, home, sysDir), Version(1, 5, 13), r)
    ensures r == Success(KubectlBinary(Join(sysDir, BuildKubectlNameForSystemBin(p, Version(1, 4, 2))), Version(1, 4, 0)))
  {
    var n1 := BuildKubectlNameForLocalBin(p, Version(1, 1, 3));
    var n2 := BuildKubectlNameForSystemBin(p, Version(1, 4, 2));
    var n3 := BuildKubectlNameForSystemBin(p, Version(2, 1, 3));
    var fs := TwoDirs(home, [n1], sysDir, [n2, n3]);
    InferVersionOfBuiltNames(p, Version(1, 1, 3));
    InferVersionOfBuiltNames(p, Version(1, 4, 2));
    InferVersionOfBuiltNames(p, Version(2, 1, 3));
    OneAndTwoListing(fs, home, n1, Version(1, 1, 3), sysDir, n2, Version(1, 4, 0), n3, Version(2, 1, 0));
    CompatibleInsideSystemListing(Merged(fs, home, sysDir), Join(home, n1), Join(sysDir, n2), Join(sysDir, n3), r);
  }

  /** Cache {1.4.2, 2.1.3}, system {1.5.3} named by major and minor, request
      1.4.0: two binaries are compatible and the newer, the system 1.5.0, wins
      over the cache's 1.4.2. */
  lemma NewestAcrossDirectoriesScenario(p: Platform, home: string, sysDir: string, r: Result<KubectlBinary, Error>)
    requires home != sysDir
    requires var fs := TwoDirs(home, [BuildKubectlNameForLocalBin(p, Version(1, 4, 2)), BuildKubectlNameForLocalBin(p, Version(2, 1, 3))],
                                sysDir, [BuildKubectlNameForSystemBin(p, Version(1, 5, 3))]);
             NewestCompatible(Merged(fs, home, sysDir), Version(1, 4, 0), r)
    ensures r == Success(KubectlBinary(Join(sysDir, BuildKubectlNameForSystemBin(p, Version(1, 5, 3))), Version(1, 5, 0)))
  {
    var n1 := BuildKubectlNameForLocalBin(p, Version(1, 4, 2));
    var n2 := BuildKubectlNameForLocalBin(p, Version(2, 1, 3));
    var n3 := BuildKubectlNameForSystemBin(p, Version(1, 5, 3));
    var fs := TwoDirs(home, [n1, n2], sysDir, [n3]);
    InferVersionOfBuiltNames(p, Version(1, 4, 2));
    InferVersionOfBuiltNames(p, Version(2, 1, 3));
    InferVersionOfBuiltNames(p, Version(1, 5, 3));
    TwoAndOneListing(fs, home, n1, Version(1, 4, 2), n2, Version(2, 1, 3), sysDir, n3, Version(1, 5, 0));
    NewestAcrossDirectoriesListing(Merged(fs, home, sysDir), Join(home, n1), Join(home, n2), Join(sysDir, n3), r);
  }
}
