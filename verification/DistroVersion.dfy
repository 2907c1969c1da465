/** The comparator chosen by the package source. */
module DistroVersion {
  import opened Ordering
  import opened GoStrings
  import opened Numerals
  import opened VersionEpoch
  import DebianVersion
  import RpmVersion
  import NaturalVersion

  datatype Scheme = Debian | Rpm | Natural

  function SchemeOf(source: string): Scheme {
    if source in ["dpkg", "apt", "ubuntu", "debian"] then Debian
    else if source in ["rpm", "dnf", "yum", "redhat", "rhel", "fedora", "centos"] then Rpm
    else Natural
  }

  /** The order on versions, with epochs compared as integers. */
  function VersionOrder(scheme: Scheme, a: string, b: string): (r: int)
    ensures -1 <= r <= 1
  {
    match scheme
    case Debian => DebianVersion.DebianOrder(a, b)
    case Rpm => RpmVersion.RpmOrder(a, b)
    case Natural => NaturalVersion.NaturalOrder(a, b)
  }

  /** Both epochs, if the scheme has them, are close enough to be subtracted in 64 bits. */
  predicate EpochsComparable(scheme: Scheme, a: string, b: string) {
    scheme.Natural? || EpochGapFits(a, b)
  }

  /** The verdict of the code, in which the epoch difference wraps around. */
  function DistroCompare(source: string, a: string, b: string): (r: int)
    ensures -1 <= r <= 1
  {
    match SchemeOf(source)
    case Debian => Then(Wrap64(Epoch(a) - Epoch(b)), DebianVersion.AfterEpoch(a, b))
    case Rpm => Then(Wrap64(Epoch(a) - Epoch(b)), RpmVersion.RpmPartOrder(SplitEpoch(a).1, SplitEpoch(b).1))
    case Natural => NaturalVersion.NaturalOrder(a, b)
  }

  function NormalizeCompare(v: int): int {
    Sign(v)
  }

  method CompareDistroVersion(source: string, a: string, b: string) returns (c: int)
    ensures c == DistroCompare(source, a, b)
  {
    hide DebianVersion.AfterEpoch, RpmVersion.RpmPartOrder, NaturalVersion.NaturalOrder, Epoch, Wrap64;
    if source in ["dpkg", "apt", "ubuntu", "debian"] {
      c := DebianVersion.CompareDebianVersion(a, b);
    } else if source in ["rpm", "dnf", "yum", "redhat", "rhel", "fedora", "centos"] {
      c := RpmVersion.CompareRPMVersion(a, b);
    } else {
      c := NaturalVersion.CompareNaturalVersion(a, b);
    }
    c := NormalizeCompare(c);
  }

  /** The code follows the order exactly when the epoch difference is a 64-bit number, and otherwise says the opposite. */
  lemma CompareAgainstOrder(source: string, a: string, b: string)
    ensures EpochsComparable(SchemeOf(source), a, b) ==> DistroCompare(source, a, b) == VersionOrder(SchemeOf(source), a, b)
    ensures !EpochsComparable(SchemeOf(source), a, b) ==>
      DistroCompare(source, a, b) == -VersionOrder(SchemeOf(source), a, b) != 0
  {
    hide DebianVersion.AfterEpoch, RpmVersion.RpmPartOrder, NaturalVersion.NaturalOrder, Epoch, Wrap64;
    EpochDifference(a, b);
  }

  lemma CompareIsOrderIffEpochsComparable(source: string, a: string, b: string)
    ensures DistroCompare(source, a, b) == VersionOrder(SchemeOf(source), a, b)
       <==> EpochsComparable(SchemeOf(source), a, b)
  {
    hide DistroCompare, VersionOrder, EpochsComparable;
    CompareAgainstOrder(source, a, b);
  }

  /** "0:" in front of a version without a colon changes nothing. */
  lemma ZeroEpochIsImplicit(scheme: Scheme, v: string)
    requires !scheme.Natural? && ':' !in v
    ensures VersionOrder(scheme, "0:" + v, v) == 0
  {
    hide DebianVersion.PartOrder, RpmVersion.RpmPartOrder;
    PrintedEpoch(false, 0, v);
    assert "" + Itoa(0) + [':'] + v == "0:" + v;
    assert SplitEpoch("0:" + v) == (0, v) == SplitEpoch(v);
    var (upstream, revision) := DebianVersion.SplitRevision(v);
    DebianVersion.PartOrderIsTotal(upstream, upstream, upstream);
    DebianVersion.PartOrderIsTotal(revision, revision, revision);
    RpmVersion.RpmPartOrderIsTotal(v, v, v);
  }

  lemma VersionOrderIsTotal(scheme: Scheme, a: string, b: string, c: string)
    ensures VersionOrder(scheme, a, a) == 0
    ensures VersionOrder(scheme, a, b) == -VersionOrder(scheme, b, a)
    ensures Transits(VersionOrder(scheme, a, b), VersionOrder(scheme, b, c), VersionOrder(scheme, a, c))
  {
    hide DebianVersion.DebianOrder, RpmVersion.RpmOrder, NaturalVersion.NaturalOrder;
    match scheme
    case Debian => DebianVersion.DebianOrderIsTotal(a, b, c);
    case Rpm => RpmVersion.RpmOrderIsTotal(a, b, c);
    case Natural => NaturalVersion.NaturalOrderIsTotal(a, b, c);
  }

  /** On versions with non-negative epochs the code itself is a total preorder. */
  lemma CompareIsTotalOnNonNegativeEpochs(source: string, a: string, b: string, c: string)
    requires SchemeOf(source).Natural? || (Epoch(a) >= 0 && Epoch(b) >= 0 && Epoch(c) >= 0)
    ensures DistroCompare(source, a, a) == 0
    ensures DistroCompare(source, a, b) == -DistroCompare(source, b, a)
    ensures Transits(DistroCompare(source, a, b), DistroCompare(source, b, c), DistroCompare(source, a, c))
  {
    hide DistroCompare, VersionOrder, Epoch, SchemeOf;
    forall v, w | v in {a, b, c} && w in {a, b, c} && SchemeOf(source) != Natural
      ensures EpochGapFits(v, w)
    {
      NonNegativeEpochsFit(v, w);
    }
    CompareIsOrderIffEpochsComparable(source, a, a);
    CompareIsOrderIffEpochsComparable(source, a, b);
    CompareIsOrderIffEpochsComparable(source, b, a);
    CompareIsOrderIffEpochsComparable(source, b, c);
    CompareIsOrderIffEpochsComparable(source, a, c);
    VersionOrderIsTotal(SchemeOf(source), a, b, c);
  }

  /** Without that, two versions can each be below the other: epoch 2^63 - 1 against epoch -1. */
  lemma WrappedEpochsAreBothLower()
    ensures var (high, low) := (Itoa(MAX_INT64) + ":1", "-" + Itoa(1) + ":1");
      DistroCompare("dpkg", high, low) == -1 && DistroCompare("dpkg", low, high) == -1
  {
    hide DebianVersion.AfterEpoch, SplitEpoch, Itoa;
    PrintedEpoch(false, MAX_INT64, "1");
    PrintedEpoch(true, 1, "1");
    assert "" + Itoa(MAX_INT64) + [':'] + "1" == Itoa(MAX_INT64) + ":1";
    assert "-" + Itoa(1) + [':'] + "1" == "-" + Itoa(1) + ":1";
  }

  // ----- Which scheme a source has -----

  /** Without epochs and revisions the Debian comparison is that of the upstream parts. */
  lemma DebianUpstream(v: string, w: string)
    requires ':' !in v && ':' !in w && '-' !in v && '-' !in w
    ensures Then(Wrap64(Epoch(v) - Epoch(w)), DebianVersion.AfterEpoch(v, w)) == DebianVersion.PartOrder(v, w)
  {
    hide DebianVersion.PartOrder, DebianVersion.SplitRevision, SplitEpoch, Wrap64;
    NoEpoch(v);
    NoEpoch(w);
    DebianVersion.RevisionIsSplit(v, None);
    DebianVersion.RevisionIsSplit(w, None);
    assert v + "" == v && w + "" == w;
    DebianVersion.PartOrderIsTotal("", "", "");
    assert Wrap64(0) == 0 by {
      WrappedSign(0);
    }
  }

  lemma DebianTilde()
    ensures DebianVersion.PartOrder("1~", "1") == -1
  {
    hide DebianVersion.PartOrder;
    assert "1" + "~" == "1~";
    DebianVersion.TildeLowersPart("1", "~");
  }

  lemma DebianUnderscore()
    ensures DebianVersion.PartOrder("1_1", "1.1") == 1
  {
    hide DebianVersion.PartOrder, DebianVersion.RunOrder;
    assert "1" + ("_" + ("1" + "")) == "1_1" && "1" + ("." + ("1" + "")) == "1.1";
    DebianVersion.CharacterOrder('_', '.');
    DebianVersion.BlockAfterCommon("1", "_", "1", "", ".", "1", "");
  }

  lemma RpmSamples()
    ensures RpmVersion.RpmPartOrder("1~", "1") == 1 && RpmVersion.RpmPartOrder("1_1", "1.1") == 0
  {
    hide RpmVersion.RpmPartOrder;
    assert "" + ("1" + "~") == "1~" && "" + ("1" + "") == "1" && "~" + "" == "~";
    RpmVersion.NumbersByValue("", "1", "~", "1", "");
    RpmVersion.NothingIsLowest("~", "");
    RpmVersion.RpmPartOrderIsTotal("", "~", "");
    RpmVersion.SeparatorsDoNotMatter("1", "_", ".", "1", "1.1");
    assert "1" + ("_" + "1") == "1_1" && "1" + ("." + "1") == "1.1";
    RpmVersion.RpmPartOrderIsTotal("1.1", "1.1", "1.1");
  }

  lemma NaturalSamples()
    ensures NaturalVersion.NaturalOrder("1~", "1") == 1 && NaturalVersion.NaturalOrder("1_1", "1.1") == 1
  {
    assert "" + ("1" + "~") == "1~" && "" + ("1" + "") == "1";
    NaturalVersion.NumbersByValue("", "1", "~", "1", "");
    assert "1" + ("_" + "1") == "1_1" && "1" + ("." + "1") == "1.1";
    NaturalVersion.TextsAsWritten("1", "_", "1", ".", "1");
  }

  /** Two comparisons tell the schemes apart: only the Debian one puts a tilde below the end, only the RPM one does not see
      which separator is used. */
  lemma SchemesBySource(source: string)
    ensures DistroCompare(source, "1~", "1") == -1 <==> source in ["dpkg", "apt", "ubuntu", "debian"]
    ensures DistroCompare(source, "1_1", "1.1") == 0 <==>
      source in ["rpm", "dnf", "yum", "redhat", "rhel", "fedora", "centos"]
  {
    hide DebianVersion.PartOrder, DebianVersion.AfterEpoch, RpmVersion.RpmPartOrder, NaturalVersion.NaturalOrder, SplitEpoch, Wrap64;
    DebianUpstream("1~", "1");
    DebianUpstream("1_1", "1.1");
    DebianTilde();
    DebianUnderscore();
    RpmSamples();
    NaturalSamples();
    NoEpoch("1~");
    NoEpoch("1");
    NoEpoch("1_1");
    NoEpoch("1.1");
    assert Wrap64(0) == 0 by {
      WrappedSign(0);
    }
  }
}
