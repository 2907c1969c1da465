/** Does an installed package fall under a catalogue row? */
module Matcher {
  import opened Ordering
  import opened GoStrings
  import opened DistroVersion
  import Numerals

  datatype InventoryPackage = InventoryPackage(
    id: string, orgID: string, hostID: string, name: string, version: string, source: string,
    distroID: string, distroIDLike: seq<string>, distroVersionID: string, distroCodename: string,
    sourceName: string, sourceVersion: string, repository: string)

  datatype AffectedPackage = AffectedPackage(
    cveID: string, source: string, distroID: string, distroVersionID: string, distroCodename: string,
    packageName: string, sourcePackageName: string, fixedVersion: string, affectedVersions: seq<string>,
    repository: string, severity: string, packageState: string)

  function MatchPackage(pkg: InventoryPackage, affected: AffectedPackage): (bool, string) {
    if !SupportedInventorySource(pkg.source) then (false, "unsupported inventory source")
    else if affected.distroID != "" && !DistroMatches(pkg, affected) then (false, "distro mismatch")
    else if affected.distroVersionID != "" && pkg.distroVersionID != "" && !DistroVersionMatches(pkg, affected) then
      (false, "distro version mismatch")
    else if affected.distroCodename != "" && pkg.distroCodename != "" && affected.distroCodename != pkg.distroCodename then
      (false, "distro codename mismatch")
    else if !PackageNameMatches(pkg, affected) then (false, "package mismatch")
    else
      var installed := SourceVersionForMatch(pkg, affected);
      if installed == "" then (false, "missing installed version")
      else if installed in affected.affectedVersions then (true, "listed affected version")
      else if affected.fixedVersion == "" then (false, "no fixed version")
      else if DistroCompare(pkg.source, installed, affected.fixedVersion) < 0 then
        (true, if pkg.source == "rpm" then "installed rpm evr is below vendor fixed evr"
               else "installed version is below fixed version")
      else (false, "installed version is fixed")
  }

  predicate SupportedInventorySource(source: string) {
    source == "dpkg" || source == "rpm" || source == "apk"
  }

  predicate DistroMatches(pkg: InventoryPackage, affected: AffectedPackage) {
    || EqualFold(pkg.distroID, affected.distroID)
    || (pkg.source == "rpm" && EqualFold(affected.distroID, "rhel") && IsRHELCompatibleDistro(pkg))
  }

  predicate DistroVersionMatches(pkg: InventoryPackage, affected: AffectedPackage) {
    || affected.distroVersionID == pkg.distroVersionID
    || (&& pkg.source == "rpm" && EqualFold(affected.distroID, "rhel") && IsRHELCompatibleDistro(pkg)
        && '.' !in affected.distroVersionID
        && HasPrefix(pkg.distroVersionID, affected.distroVersionID + "."))
  }

  predicate IsRHELCompatibleDistro(pkg: InventoryPackage) {
    || ToLower(pkg.distroID) in
         ["rhel", "redhat", "redhatenterpriseserver", "almalinux", "rocky", "centos", "ol", "oraclelinux", "miraclelinux"]
    || exists i :: 0 <= i < |pkg.distroIDLike| && EqualFold(pkg.distroIDLike[i], "rhel")
  }

  predicate PackageNameMatches(pkg: InventoryPackage, affected: AffectedPackage) {
    && affected.packageName != ""
    && (|| (pkg.sourceName != "" && pkg.sourceName == affected.packageName)
        || pkg.name == affected.packageName
        || (affected.sourcePackageName != "" && pkg.sourceName == affected.sourcePackageName))
  }

  function SourceVersionForMatch(pkg: InventoryPackage, affected: AffectedPackage): string {
    if pkg.sourceName != "" && pkg.sourceName == affected.packageName && pkg.sourceVersion != "" then
      if pkg.source == "rpm" then BestRPMVersionForMatch(pkg.version, pkg.sourceVersion) else pkg.sourceVersion
    else pkg.version
  }

  function BestRPMVersionForMatch(installedVersion: string, sourceVersion: string): string {
    if sourceVersion == "" then installedVersion
    else if installedVersion == "" then sourceVersion
    else if ('-' !in sourceVersion && '-' in installedVersion) || (':' !in sourceVersion && ':' in installedVersion) then
      installedVersion
    else sourceVersion
  }

  // ----- The verdict follows the version order -----

  function Installed(pkg: InventoryPackage, affected: AffectedPackage): string {
    SourceVersionForMatch(pkg, affected)
  }

  function Order(pkg: InventoryPackage, a: string, b: string): int {
    VersionOrder(SchemeOf(pkg.source), a, b)
  }

  predicate Comparable(pkg: InventoryPackage, a: string, b: string) {
    EpochsComparable(SchemeOf(pkg.source), a, b)
  }

  predicate MatchesByFixedVersion(pkg: InventoryPackage, affected: AffectedPackage) {
    MatchPackage(pkg, affected).0 && Installed(pkg, affected) !in affected.affectedVersions
  }

  /** The same package with other versions installed. */
  predicate OnlyVersionsDiffer(p: InventoryPackage, q: InventoryPackage) {
    p == q.(version := p.version, sourceVersion := p.sourceVersion)
  }

  /** Everything but the version says yes. */
  predicate Eligible(pkg: InventoryPackage, affected: AffectedPackage) {
    && SupportedInventorySource(pkg.source)
    && (affected.distroID != "" ==> DistroMatches(pkg, affected))
    && (affected.distroVersionID != "" && pkg.distroVersionID != "" ==> DistroVersionMatches(pkg, affected))
    && (affected.distroCodename != "" && pkg.distroCodename != "" ==> affected.distroCodename == pkg.distroCodename)
    && PackageNameMatches(pkg, affected)
  }

  /** The whole verdict: eligible, installed, and listed or strictly below a fix. */
  lemma MatchesExactly(pkg: InventoryPackage, affected: AffectedPackage)
    requires affected.fixedVersion != "" ==> Comparable(pkg, Installed(pkg, affected), affected.fixedVersion)
    ensures MatchPackage(pkg, affected).0 <==>
      && Eligible(pkg, affected) && Installed(pkg, affected) != ""
      && (|| Installed(pkg, affected) in affected.affectedVersions
          || (affected.fixedVersion != "" && Order(pkg, Installed(pkg, affected), affected.fixedVersion) < 0))
  {
    hide VersionOrder, DistroCompare, SchemeOf, DistroMatches, DistroVersionMatches;
    CompareAgainstOrder(pkg.source, Installed(pkg, affected), affected.fixedVersion);
  }

  /** An advisory for a RHEL major version covers exactly that version and its minor releases: "9" covers "9" and "9.7",
      not "90" and not "10"; an advisory for a minor release covers only itself. */
  lemma MajorVersionCoversMinors(pkg: InventoryPackage, affected: AffectedPackage)
    requires pkg.source == "rpm" && EqualFold(affected.distroID, "rhel") && IsRHELCompatibleDistro(pkg)
    ensures DistroVersionMatches(pkg, affected) <==>
      var (have, want) := (pkg.distroVersionID, affected.distroVersionID);
      have == want || ('.' !in want && '.' in have && have[..Index(have, '.')] == want)
  {
    hide EqualFold, IsRHELCompatibleDistro;
    var (have, want) := (pkg.distroVersionID, affected.distroVersionID);
    if '.' !in want && want + "." <= have {
      assert have == want + ['.'] + have[|want| + 1..];
      IndexIs(want, '.', have[|want| + 1..]);
    }
    if '.' in have && have[..Index(have, '.')] == want {
      assert have[|want|] == '.';
      assert want + "." <= have;
    }
  }

  /** An unlisted version matches exactly when it is below the fix: true if and only if the epochs can be subtracted. */
  lemma VerdictIsOrderIffComparable(pkg: InventoryPackage, affected: AffectedPackage)
    requires Eligible(pkg, affected) && affected.fixedVersion != ""
    requires Installed(pkg, affected) != "" && Installed(pkg, affected) !in affected.affectedVersions
    ensures (MatchPackage(pkg, affected).0 <==> Order(pkg, Installed(pkg, affected), affected.fixedVersion) < 0)
       <==> Comparable(pkg, Installed(pkg, affected), affected.fixedVersion)
  {
    hide VersionOrder, DistroCompare, SchemeOf, DistroMatches, DistroVersionMatches;
    CompareAgainstOrder(pkg.source, Installed(pkg, affected), affected.fixedVersion);
  }

  /** A match through the fixed version means strictly below it; nothing unlisted at or above it matches. */
  lemma MatchThroughFixedVersionIsBelow(pkg: InventoryPackage, affected: AffectedPackage)
    requires Comparable(pkg, Installed(pkg, affected), affected.fixedVersion)
    ensures MatchesByFixedVersion(pkg, affected) ==>
      affected.fixedVersion != "" && Order(pkg, Installed(pkg, affected), affected.fixedVersion) < 0
    ensures (
      && Order(pkg, Installed(pkg, affected), affected.fixedVersion) >= 0
      && Installed(pkg, affected) !in affected.affectedVersions
    ) ==> !MatchPackage(pkg, affected).0
  {
    hide VersionOrder, DistroCompare, SchemeOf;
    CompareAgainstOrder(pkg.source, Installed(pkg, affected), affected.fixedVersion);
  }

  /** A match through the fixed version stays a match for every non-empty version that is not higher. */
  lemma LowerVersionStillMatches(pkg: InventoryPackage, older: InventoryPackage, affected: AffectedPackage)
    requires OnlyVersionsDiffer(pkg, older)
    requires MatchesByFixedVersion(pkg, affected)
    requires Installed(older, affected) != ""
    requires Order(pkg, Installed(older, affected), Installed(pkg, affected)) <= 0
    requires Comparable(pkg, Installed(pkg, affected), affected.fixedVersion)
    requires Comparable(pkg, Installed(older, affected), affected.fixedVersion)
    ensures MatchPackage(older, affected).0
  {
    hide VersionOrder, DistroCompare, SchemeOf, SourceVersionForMatch, DistroMatches, DistroVersionMatches;
    var (v, w, f) := (Installed(older, affected), Installed(pkg, affected), affected.fixedVersion);
    CompareAgainstOrder(pkg.source, v, f);
    CompareAgainstOrder(pkg.source, w, f);
    VersionOrderIsTotal(SchemeOf(pkg.source), v, w, f);
    SameDistro(pkg, older, affected);
  }

  /** Raising a non-empty fixed version to another non-empty one never loses a match. */
  lemma RaisedFixKeepsMatch(pkg: InventoryPackage, affected: AffectedPackage, raised: string)
    requires MatchPackage(pkg, affected).0
    requires raised != ""
    requires affected.fixedVersion != "" ==> Order(pkg, affected.fixedVersion, raised) <= 0
    requires affected.fixedVersion != "" ==> Comparable(pkg, Installed(pkg, affected), affected.fixedVersion)
    requires Comparable(pkg, Installed(pkg, affected), raised)
    ensures MatchPackage(pkg, affected.(fixedVersion := raised)).0
  {
    hide VersionOrder, DistroCompare, SchemeOf;
    var (v, f) := (Installed(pkg, affected), affected.fixedVersion);
    var after := affected.(fixedVersion := raised);
    CompareAgainstOrder(pkg.source, v, f);
    CompareAgainstOrder(pkg.source, v, raised);
    VersionOrderIsTotal(SchemeOf(pkg.source), v, f, raised);
    assert Installed(pkg, after) == v;
  }

  lemma SameDistro(p: InventoryPackage, q: InventoryPackage, affected: AffectedPackage)
    requires OnlyVersionsDiffer(p, q)
    ensures DistroMatches(p, affected) == DistroMatches(q, affected)
    ensures DistroVersionMatches(p, affected) == DistroVersionMatches(q, affected)
  {
  }

  /** The epoch conditions matter: an epoch of 2^63 - 1 falls under a fix with epoch -1. */
  lemma WrappedEpochMatches(pkg: InventoryPackage, affected: AffectedPackage)
    requires pkg.source == "dpkg" && pkg.sourceVersion == ""
    requires affected.distroID == affected.distroVersionID == affected.distroCodename == ""
    requires pkg.name == affected.packageName != ""
    requires affected.affectedVersions == []
    requires pkg.version == Numerals.Itoa(Numerals.MAX_INT64) + ":1"
    requires affected.fixedVersion == "-" + Numerals.Itoa(1) + ":1"
    ensures MatchPackage(pkg, affected).0
  {
    hide DistroCompare, Numerals.Itoa;
    WrappedEpochsAreBothLower();
  }

  /** For RPM, the chosen version never drops an epoch or a release that the installed version carries. */
  lemma BestRPMVersionKeepsEpochAndRelease(installed: string, source: string)
    ensures var best := BestRPMVersionForMatch(installed, source);
      && best in [installed, source]
      && (best == "" <==> installed == source == "")
      && ('-' in installed ==> '-' in best)
      && (':' in installed ==> ':' in best)
  {
  }

  // ----- The conditions, in the fields of package and advisory -----

  lemma RhelInLowerCase()
    ensures ToLower("rhel") == "rhel"
  {
    assert forall i :: 0 <= i < 4 ==> ToLower("rhel")[i] == "rhel"[i];
  }

  /** A distribution fits if the ids are equal up to case.  For RPM packages an advisory for RHEL also fits the nine rebuilds
      and whatever calls itself like RHEL. */
  lemma DistributionFitsExactly(pkg: InventoryPackage, affected: AffectedPackage)
    requires pkg.source in ["dpkg", "rpm", "apk"] && affected.distroID != ""
    ensures MatchPackage(pkg, affected) != (false, "distro mismatch") <==>
      || ToLower(pkg.distroID) == ToLower(affected.distroID)
      || (&& pkg.source == "rpm" && ToLower(affected.distroID) == "rhel"
          && (|| ToLower(pkg.distroID) == "rhel" || ToLower(pkg.distroID) == "redhat"
              || ToLower(pkg.distroID) == "redhatenterpriseserver" || ToLower(pkg.distroID) == "almalinux"
              || ToLower(pkg.distroID) == "rocky" || ToLower(pkg.distroID) == "centos" || ToLower(pkg.distroID) == "ol"
              || ToLower(pkg.distroID) == "oraclelinux" || ToLower(pkg.distroID) == "miraclelinux"
              || exists i :: 0 <= i < |pkg.distroIDLike| && ToLower(pkg.distroIDLike[i]) == "rhel"))
  {
    hide ToLower, DistroVersionMatches, PackageNameMatches, SourceVersionForMatch, DistroCompare;
    RhelInLowerCase();
  }

  /** In particular an advisory of another distribution never matches a Debian or Alpine package. */
  lemma OtherDistributionNeverMatches(pkg: InventoryPackage, affected: AffectedPackage)
    requires pkg.source == "dpkg" || pkg.source == "apk"
    requires affected.distroID != "" && ToLower(pkg.distroID) != ToLower(affected.distroID)
    ensures !MatchPackage(pkg, affected).0
  {
    hide ToLower, MatchPackage;
    DistributionFitsExactly(pkg, affected);
  }

  /** The version, the codename and the name that an eligible package has.  A distribution version fits if it is equal, or a
      minor release of a RHEL major version; a name fits as binary name or as source name. */
  lemma EligibleExactly(pkg: InventoryPackage, affected: AffectedPackage)
    ensures Eligible(pkg, affected) <==>
      && pkg.source in ["dpkg", "rpm", "apk"]
      && (affected.distroID != "" ==> MatchPackage(pkg, affected) != (false, "distro mismatch"))
      && (|| affected.distroVersionID == "" || pkg.distroVersionID == "" || affected.distroVersionID == pkg.distroVersionID
          || (&& pkg.source == "rpm" && ToLower(affected.distroID) == "rhel"
              && MatchPackage(pkg, affected) != (false, "distro mismatch")
              && '.' !in affected.distroVersionID && affected.distroVersionID + "." <= pkg.distroVersionID))
      && (affected.distroCodename == "" || pkg.distroCodename == "" || affected.distroCodename == pkg.distroCodename)
      && affected.packageName != ""
      && (|| affected.packageName == pkg.name || affected.packageName == pkg.sourceName
          || (affected.sourcePackageName != "" && affected.sourcePackageName == pkg.sourceName))
  {
    hide ToLower, SourceVersionForMatch, DistroCompare;
    RhelInLowerCase();
  }

  /** The version that is compared: that of the source package if the advisory names it and it is known, for RPM only if it
      has the release and the epoch that the installed version has; otherwise the installed version. */
  lemma ComparedVersion(pkg: InventoryPackage, affected: AffectedPackage)
    ensures var named := pkg.sourceName != "" && affected.packageName == pkg.sourceName && pkg.sourceVersion != "";
      var complete := ('-' in pkg.version ==> '-' in pkg.sourceVersion) && (':' in pkg.version ==> ':' in pkg.sourceVersion);
      Installed(pkg, affected) == if named && (pkg.source == "rpm" ==> complete) then pkg.sourceVersion else pkg.version
  {
  }

  /** The reason names the first condition that decides. */
  lemma ReasonsNamed(pkg: InventoryPackage, affected: AffectedPackage)
    requires Eligible(pkg, affected)
    ensures var (version, below) := (Installed(pkg, affected), DistroCompare(pkg.source, Installed(pkg, affected), affected.fixedVersion) < 0);
      MatchPackage(pkg, affected) ==
        if version == "" then (false, "missing installed version")
        else if version in affected.affectedVersions then (true, "listed affected version")
        else if affected.fixedVersion == "" then (false, "no fixed version")
        else if !below then (false, "installed version is fixed")
        else if pkg.source == "rpm" then (true, "installed rpm evr is below vendor fixed evr")
        else (true, "installed version is below fixed version")
  {
    hide DistroCompare, DistroMatches, DistroVersionMatches, PackageNameMatches;
  }

  /** Of what makes a package not eligible, the first is named. */
  lemma ObstaclesNamed(pkg: InventoryPackage, affected: AffectedPackage)
    requires !Eligible(pkg, affected)
    ensures MatchPackage(pkg, affected) ==
      (false,
       if !SupportedInventorySource(pkg.source) then "unsupported inventory source"
       else if affected.distroID != "" && !DistroMatches(pkg, affected) then "distro mismatch"
       else if affected.distroVersionID != "" && pkg.distroVersionID != "" && !DistroVersionMatches(pkg, affected) then
         "distro version mismatch"
       else if affected.distroCodename != "" && pkg.distroCodename !in ["", affected.distroCodename] then "distro codename mismatch"
       else "package mismatch")
  {
    hide DistroCompare, DistroMatches, DistroVersionMatches, PackageNameMatches;
  }
}
