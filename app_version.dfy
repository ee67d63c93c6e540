/** pkg/app/version.go: the application's name and version, and the
    "about" string built from them. */
module AppVersion {
  import opened Strings

  /** The version: a release number, then `+` and the date of its month. */
  const VERSION: string := "3.0.2+20210909"
  const MODULE: string := "s0counter"

  /** `strings.TrimSpace(name + " V" + strings.Split(version, "+")[0])`: the
      name, " V" and the release number, i.e. the version up to its first
      `+`, with white space trimmed from both ends. */
  function VersionOf(name: string, version: string): (r: string)
    ensures |r| > 0 ==> !IsSpace(r[0]) && !IsSpace(r[|r| - 1])
  {
    TrimSpace(name + " V" + Split(version, '+')[0])
  }

  /** Version: the about-string of the shipped constants. */
  function Version(): string {
    VersionOf(MODULE, VERSION)
  }

  /** The release number is the longest prefix of the version without a
      `+`: the whole version when it has none. */
  lemma VersionPart(name: string, version: string)
    ensures exists n ::
              && 0 <= n <= |version| && '+' !in version[..n]
              && (n < |version| ==> version[n] == '+')
              && VersionOf(name, version) == TrimSpace(name + " V" + version[..n])
    ensures '+' !in version ==> VersionOf(name, version) == TrimSpace(name + " V" + version)
  {
    SplitHead(version, '+');
    var n := |Split(version, '+')[0]|;
    assert '+' !in version[..n];
  }

  /** A release number, `+` and anything after it: only the release number
      counts. */
  lemma VersionCut(name: string, release: string, build: string)
    requires '+' !in release
    ensures VersionOf(name, release + "+" + build) == TrimSpace(name + " V" + release)
  {
    SplitCons(release, build, '+');
  }

  /** A name that does not start with white space and a release number that
      does not end with it come out untrimmed. */
  lemma VersionExact(name: string, version: string, release: string)
    requires Split(version, '+')[0] == release
    requires |name| > 0 && !IsSpace(name[0])
    requires |release| > 0 ==> !IsSpace(release[|release| - 1])
    ensures VersionOf(name, version) == name + " V" + release
  {
    var s := name + " V" + release;
    assert s[0] == name[0];
    assert !IsSpace(s[|s| - 1]);
    TrimSpaceUntrimmed(s);
  }

  lemma ShippedRelease()
    ensures Split(VERSION, '+')[0] == "3.0.2"
  {
    assert VERSION == "3.0.2" + "+" + "20210909";
    SplitCons("3.0.2", "20210909", '+');
  }

  lemma ShippedParts()
    ensures VersionOf(MODULE, VERSION) == MODULE + " V" + "3.0.2"
  {
    ShippedRelease();
    VersionExact(MODULE, VERSION, "3.0.2");
  }

  lemma ShippedText()
    ensures MODULE + " V" + "3.0.2" == "s0counter V3.0.2"
  {
  }

  /** The shipped constants give "s0counter V3.0.2". */
  lemma ShippedVersion()
    ensures Version() == "s0counter V3.0.2"
  {
    ShippedParts();
    ShippedText();
  }
}
