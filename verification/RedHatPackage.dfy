/** Splitting the "name-version-release.arch.rpm" of a Red Hat advisory. */
module RedHatPackage {
  import opened GoStrings

  const ARCHITECTURES := ["aarch64", "i386", "i486", "i586", "i686", "noarch", "ppc64le", "s390x", "src", "x86_64"]

  function StripRPMArchitecture(value: string): string {
    var dot := LastIndex(value, '.');
    if dot <= 0 || dot == |value| - 1 then value
    else if value[dot + 1..] in ARCHITECTURES then value[..dot]
    else value
  }

  /** The value without surrounding space, file suffix and architecture. */
  function BareValue(value: string): string {
    StripRPMArchitecture(TrimSuffix(TrimSuffix(TrimSpace(value), ".src.rpm"), ".rpm"))
  }

  /** (name, version-release), or ("", "") if the value has another form. */
  function SplitRedHatFixedPackage(value: string): (string, string) {
    SplitBareValue(BareValue(value))
  }

  function SplitBareValue(value: string): (string, string) {
    if value == "" then ("", "") else
    var releaseDash := LastIndex(value, '-');
    if releaseDash <= 0 || releaseDash == |value| - 1 then ("", "") else
    var release, beforeRelease := value[releaseDash + 1..], value[..releaseDash];
    var versionDash := LastIndex(beforeRelease, '-');
    if versionDash <= 0 || versionDash == |beforeRelease| - 1 then ("", "") else
    var name, version := TrimSpace(beforeRelease[..versionDash]), TrimSpace(beforeRelease[versionDash + 1..]);
    if name == "" || version == "" || release == "" then ("", "") else (name, version + "-" + release)
  }

  function Print(name: string, version: string, release: string): (s: string)
    ensures name <= s
  {
    name + ['-'] + version + ['-'] + release
  }

  function PrintFile(name: string, version: string, release: string, arch: string, rpm: bool): string {
    Print(name, version, release) + ['.'] + arch + if rpm then ".rpm" else ""
  }

  /** What a package file name is made of; the name may contain any number of dashes. */
  predicate Printable(name: string, version: string, release: string) {
    && name != "" && Trimmed(name)
    && version != "" && Trimmed(version) && '-' !in version
    && release != "" && '-' !in release
  }

  lemma SplitInvertsPrint(name: string, version: string, release: string)
    requires Printable(name, version, release)
    ensures SplitBareValue(Print(name, version, release)) == (name, version + "-" + release)
  {
    hide TrimSpace;
    var value := Print(name, version, release);
    var before := name + ['-'] + version;
    LastIndexIs(before, '-', release);
    LastIndexIs(name, '-', version);
    TrimSpaceOfTrimmed(name);
    TrimSpaceOfTrimmed(version);
    assert value[..|before|] == before && value[|before| + 1..] == release;
    assert before[..|name|] == name && before[|name| + 1..] == version;
  }

  lemma {:induction false} SuffixOf(a: string, b: string)
    ensures HasSuffix(a + b, b) && TrimSuffix(a + b, b) == a
  {
    assert (a + b)[|a|..] == b && (a + b)[..|a|] == a;
  }

  /** The last four and the last eight characters of what ends in a listed architecture other than src. */
  lemma {:induction false} NoFileSuffix(a: string, arch: string)
    requires arch in ARCHITECTURES && arch != "src"
    ensures !HasSuffix(a + ['.'] + arch, ".rpm") && !HasSuffix(a + ['.'] + arch, ".src.rpm")
    ensures !HasSuffix(a + ['.'] + arch + ".rpm", ".src.rpm")
  {
    var s := a + ['.'] + arch;
    assert s[|s| - 1] == arch[|arch| - 1] != 'm';
    var t := s + ".rpm";
    assert ".src.rpm"[3] == 'c' && t[|t| - 5] == arch[|arch| - 1] != 'c';
  }

  lemma {:induction false} ArchitectureStripped(a: string, arch: string)
    requires a != "" && arch in ARCHITECTURES
    ensures StripRPMArchitecture(a + ['.'] + arch) == a
  {
    assert '.' !in arch && arch != "";
    LastIndexIs(a, '.', arch);
    var s := a + ['.'] + arch;
    assert s[..|a|] == a && s[|a| + 1..] == arch;
  }

  /** Splitting inverts printing, for every architecture but src, with or without ".rpm". */
  lemma SplitInvertsPrintFile(name: string, version: string, release: string, arch: string, rpm: bool)
    requires Printable(name, version, release)
    requires arch in ARCHITECTURES && arch != "src"
    ensures SplitRedHatFixedPackage(PrintFile(name, version, release, arch, rpm)) == (name, version + "-" + release)
  {
    hide StripRPMArchitecture, SplitBareValue, TrimSpace, LastIndex, HasSuffix, Print;
    var bare := Print(name, version, release);
    var file := PrintFile(name, version, release, arch, rpm);
    var unpacked := bare + ['.'] + arch;
    assert file == if rpm then unpacked + ".rpm" else unpacked;
    assert file[0] == name[0];
    assert !IsSpace(arch[|arch| - 1]) && file[|file| - 1] == if rpm then 'm' else arch[|arch| - 1];
    TrimSpaceOfTrimmed(file);
    NoFileSuffix(bare, arch);
    SuffixOf(bare + ['.'] + arch, ".rpm");
    ArchitectureStripped(bare, arch);
    SplitInvertsPrint(name, version, release);
  }

  /** Ends in ".rpm" or in a dot and a listed architecture. */
  predicate LooksPackaged(value: string) {
    HasSuffix(value, ".rpm") || exists i :: 0 <= i < |ARCHITECTURES| && HasSuffix(value, "." + ARCHITECTURES[i])
  }

  /** A source package file also loses what looks like a second suffix: it is split back exactly when the
      name-version-release ends neither in ".rpm" nor in a listed architecture. */
  lemma SplitOfSourceFile(name: string, version: string, release: string)
    requires Printable(name, version, release)
    ensures var bare := Print(name, version, release);
      SplitRedHatFixedPackage(bare + ".src.rpm") == (name, version + "-" + release) <==> !LooksPackaged(bare)
  {
    hide StripRPMArchitecture, TrimSpace, LastIndex, SplitBareValue, LooksPackaged;
    var bare := Print(name, version, release);
    var file := bare + ".src.rpm";
    assert file[0] == name[0] && file[|file| - 1] == 'm';
    TrimSpaceOfTrimmed(file);
    SuffixOf(bare, ".src.rpm");
    SplitInvertsPrint(name, version, release);
    PackagedIffStripped(name, bare);
    var stripped := StripRPMArchitecture(TrimSuffix(bare, ".rpm"));
    if stripped != bare {
      StripShortens(TrimSuffix(bare, ".rpm"));
      ShorterSplitsDifferently(stripped, name, version, release);
    }
  }

  /** What is left alone is what does not look packaged. */
  lemma PackagedIffStripped(name: string, bare: string)
    requires name != "" && name + "-" <= bare
    ensures StripRPMArchitecture(TrimSuffix(bare, ".rpm")) == bare <==> !LooksPackaged(bare)
  {
    hide StripRPMArchitecture;
    StripShortens(TrimSuffix(bare, ".rpm"));
    if i :| 0 <= i < |ARCHITECTURES| && HasSuffix(bare, "." + ARCHITECTURES[i]) {
      SuffixStripped(name, bare, ARCHITECTURES[i]);
    }
    if StripRPMArchitecture(bare) != bare {
      StrippedIsSuffix(bare);
    }
  }

  lemma SuffixStripped(name: string, bare: string, arch: string)
    requires name != "" && name + "-" <= bare && arch in ARCHITECTURES && HasSuffix(bare, "." + arch)
    ensures StripRPMArchitecture(bare) != bare
  {
    hide StripRPMArchitecture;
    NoDashInArchitecture(arch);
    AfterTheDash(name, bare, "." + arch);
    var rest := bare[..|bare| - |"." + arch|];
    assert bare == rest + ("." + arch) == rest + ['.'] + arch;
    ArchitectureStripped(rest, arch);
  }

  lemma NoDashInArchitecture(arch: string)
    requires arch in ARCHITECTURES
    ensures '-' !in "." + arch
  {
  }

  lemma AfterTheDash(name: string, bare: string, suffix: string)
    requires name != "" && name + "-" <= bare && '-' !in suffix && HasSuffix(bare, suffix)
    ensures |suffix| < |bare|
  {
    assert bare[|name|] == '-';
    assert forall k :: |bare| - |suffix| <= k < |bare| ==> bare[k] == suffix[k - (|bare| - |suffix|)];
  }

  lemma StrippedIsSuffix(value: string)
    requires StripRPMArchitecture(value) != value
    ensures exists i :: 0 <= i < |ARCHITECTURES| && HasSuffix(value, "." + ARCHITECTURES[i])
  {
    var dot := LastIndex(value, '.');
    var i :| 0 <= i < |ARCHITECTURES| && ARCHITECTURES[i] == value[dot + 1..];
    assert value[dot..] == "." + ARCHITECTURES[i];
  }

  lemma StripShortens(value: string)
    ensures StripRPMArchitecture(value) <= value
  {
  }

  lemma {:induction false} ShorterSplitsDifferently(value: string, name: string, version: string, release: string)
    requires Printable(name, version, release) && |value| < |Print(name, version, release)|
    ensures SplitBareValue(value) != (name, version + "-" + release)
  {
    var (n, v) := SplitBareValue(value);
    SplitPartsFit(value);
  }

  lemma {:induction false} SplitPartsFit(value: string)
    ensures var (n, v) := SplitBareValue(value); n != "" ==> |n| + 1 + |v| <= |value|
  {
    hide LastIndex;
    TrimNeverGrows(value);
    if value != "" {
      var releaseDash := LastIndex(value, '-');
      if 0 < releaseDash < |value| - 1 {
        var beforeRelease := value[..releaseDash];
        var versionDash := LastIndex(beforeRelease, '-');
        if 0 < versionDash < |beforeRelease| - 1 {
          TrimNeverGrows(beforeRelease[..versionDash]);
          TrimNeverGrows(beforeRelease[versionDash + 1..]);
        }
      }
    }
  }

  lemma TrimNeverGrows(s: string)
    ensures |TrimSpace(s)| <= |s|
  {
    TrimRightNeverGrows(DropWhile(IsSpace, s));
  }

  lemma {:induction false} TrimRightNeverGrows(s: string)
    ensures |TrimRight(s)| <= |s|
  {
    if s != "" && IsSpace(s[|s| - 1]) {
      TrimRightNeverGrows(s[..|s| - 1]);
    }
  }

  /** The ten architectures, and no others, are cut off at the last dot, unless nothing would be left. */
  lemma ArchitecturesByName(a: string, arch: string)
    requires '.' !in arch
    ensures StripRPMArchitecture(a + ['.'] + arch) ==
      if a == "" then a + ['.'] + arch
      else if arch == "aarch64" || arch == "i386" || arch == "i486" || arch == "i586" || arch == "i686" || arch == "noarch"
         || arch == "ppc64le" || arch == "s390x" || arch == "src" || arch == "x86_64"
      then a else a + ['.'] + arch
  {
    LastIndexIs(a, '.', arch);
    var s := a + ['.'] + arch;
    assert s[..|a|] == a && s[|a| + 1..] == arch;
  }

  lemma NoDotNoArchitecture(value: string)
    requires '.' !in value
    ensures StripRPMArchitecture(value) == value
  {
  }

  /** The value is written as name, version and release between dashes, none of them blank. */
  predicate WrittenAs(value: string, name: string, version: string, release: string) {
    && value == name + ['-'] + version + ['-'] + release && '-' !in version && '-' !in release
    && TrimSpace(name) != "" && TrimSpace(version) != "" && release != ""
  }

  /** Whatever is split was written like that, and the parts are its own but for space around the name and the version. */
  lemma SplitReadsBack(value: string)
    ensures SplitBareValue(value) == ("", "") || exists name: string, version: string, release: string ::
      WrittenAs(value, name, version, release) && SplitBareValue(value) == (TrimSpace(name), TrimSpace(version) + "-" + release)
  {
    hide TrimSpace;
    if SplitBareValue(value) != ("", "") {
      var releaseDash := LastIndex(value, '-');
      var before := value[..releaseDash];
      var versionDash := LastIndex(before, '-');
      var (name, version, release) := (before[..versionDash], before[versionDash + 1..], value[releaseDash + 1..]);
      assert before == name + ['-'] + version;
      assert value == before + ['-'] + release;
      assert WrittenAs(value, name, version, release);
    }
  }
}
