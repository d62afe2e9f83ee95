/** The package version string: the numeric version joined with dots, with
    `-dev` appended while the release stage is alpha. The partner the
    rendering is proved against is the reading of a dotted version back into
    its numbers. */
module Version {
  import Decimal

  datatype Option<T> = None | Some(value: T)

  /** `VERSION` and `STAGE` of the package. */
  const VERSION: seq<nat> := [0, 1, 0]
  const STAGE: string := "alpha"

  const DEV_SUFFIX: string := "-dev"

  /** Python's `sep.join(parts)`. */
  function Join(parts: seq<string>, sep: string): string {
    if parts == [] then ""
    else if |parts| == 1 then parts[0]
    else parts[0] + sep + Join(parts[1..], sep)
  }

  /** Python's `s.split(sep)` for a one-character separator: the pieces
      between separators, always at least one. */
  function Split(s: string, sep: char): (r: seq<string>)
    ensures |r| >= 1
  {
    if s == [] then [""]
    else if s[0] == sep then [""] + Split(s[1..], sep)
    else
      var rest := Split(s[1..], sep);
      [[s[0]] + rest[0]] + rest[1..]
  }

  /** How often `c` occurs in `s`. */
  function CountChar(s: string, c: char): nat {
    if s == [] then 0 else (if s[0] == c then 1 else 0) + CountChar(s[1..], c)
  }

  /** `map(str, version)`. */
  function Components(version: seq<nat>): seq<string> {
    seq(|version|, i requires 0 <= i < |version| => Decimal.NatToString(version[i]))
  }

  /** `'.'.join(map(str, version))`. */
  function DottedVersion(version: seq<nat>): string {
    Join(Components(version), ".")
  }

  /** `get_version()` for a given version and stage. */
  function GetVersionOf(version: seq<nat>, stage: string): string {
    var dotted := DottedVersion(version);
    if stage == "alpha" then dotted + DEV_SUFFIX else dotted
  }

  /** `get_version()`. */
  function GetVersion(): string {
    GetVersionOf(VERSION, STAGE)
  }

  // ---------------------------------------------------------------------------
  // Reading a version string back

  predicate EndsWithDev(s: string) {
    |s| >= |DEV_SUFFIX| && s[|s| - |DEV_SUFFIX|..] == DEV_SUFFIX
  }

  /** The release part of a version string: without a trailing `-dev`. */
  function Release(s: string): string {
    if EndsWithDev(s) then s[..|s| - |DEV_SUFFIX|] else s
  }

  predicate IsNumber(s: string) {
    |s| > 0 && Decimal.AllDigits(s)
  }

  /** The numbers of a dotted version, or `None` if a piece between dots is
      not a decimal number. */
  function ParseVersion(s: string): Option<seq<nat>> {
    var parts := Split(s, '.');
    if forall i :: 0 <= i < |parts| ==> IsNumber(parts[i]) then
      Some(seq(|parts|, i requires 0 <= i < |parts| && IsNumber(parts[i]) => Decimal.ParseDecimal(parts[i])))
    else
      None
  }

  // ---------------------------------------------------------------------------
  // Splitting undoes joining

  /** Splitting text that starts with a piece free of the separator puts that
      piece in front of the first part. */
  lemma {:induction false} SplitPrefix(a: string, rest: string, sep: char)
    requires forall i :: 0 <= i < |a| ==> a[i] != sep
    ensures Split(a + rest, sep) == [a + Split(rest, sep)[0]] + Split(rest, sep)[1..]
    decreases |a|
  {
    if a == [] {
      assert a + rest == rest;
      assert a + Split(rest, sep)[0] == Split(rest, sep)[0];
      ListOfHead(Split(rest, sep));
    } else {
      assert (a + rest)[1..] == a[1..] + rest;
      SplitPrefix(a[1..], rest, sep);
      assert [a[0]] + (a[1..] + Split(rest, sep)[0]) == a + Split(rest, sep)[0];
    }
  }

  lemma ListOfHead(r: seq<string>)
    requires |r| >= 1
    ensures [r[0]] + r[1..] == r
  {
  }

  /** A leading separator starts an empty part. */
  lemma SplitSeparator(rest: string, sep: char)
    ensures Split([sep] + rest, sep) == [""] + Split(rest, sep)
  {
    assert ([sep] + rest)[1..] == rest;
  }

  /** Splitting the join of separator-free parts gives the parts back. */
  lemma {:induction false} SplitJoin(parts: seq<string>, sep: char)
    requires |parts| >= 1
    requires forall k, i :: 0 <= k < |parts| && 0 <= i < |parts[k]| ==> parts[k][i] != sep
    ensures Split(Join(parts, [sep]), sep) == parts
    decreases |parts|
  {
    if |parts| == 1 {
      SplitPrefix(parts[0], "", sep);
      assert parts[0] + "" == parts[0];
    } else {
      var tail := Join(parts[1..], [sep]);
      assert Join(parts, [sep]) == parts[0] + ([sep] + tail);
      SplitPrefix(parts[0], [sep] + tail, sep);
      SplitSeparator(tail, sep);
      SplitJoin(parts[1..], sep);
      assert parts[0] + "" == parts[0];
      ListOfHead(parts);
    }
  }

  /** Splitting cuts at every separator: one part more than separators. */
  lemma {:induction false} SplitCount(s: string, sep: char)
    ensures |Split(s, sep)| == CountChar(s, sep) + 1
    decreases |s|
  {
    if s != [] {
      SplitCount(s[1..], sep);
    }
  }

  // ---------------------------------------------------------------------------
  // Properties of `get_version`

  /** The pieces of a version are decimal numbers without dots. */
  lemma ComponentsAreNumbers(version: seq<nat>)
    ensures forall k :: 0 <= k < |Components(version)| ==> IsNumber(Components(version)[k])
    ensures forall k, i :: 0 <= k < |Components(version)| && 0 <= i < |Components(version)[k]| ==>
      Components(version)[k][i] != '.'
  {
    var parts := Components(version);
    forall k, i | 0 <= k < |parts| && 0 <= i < |parts[k]| ensures parts[k][i] != '.' {
      assert Decimal.IsDigit(parts[k][i]);
    }
  }

  /** The dotted version reads back as the version it was made from, so
      distinct non-empty versions have distinct strings. */
  lemma ParseDottedVersion(version: seq<nat>)
    requires |version| >= 1
    ensures ParseVersion(DottedVersion(version)) == Some(version)
  {
    var parts := Components(version);
    ComponentsAreNumbers(version);
    SplitJoin(parts, '.');
    var nums := seq(|parts|, i requires 0 <= i < |parts| && IsNumber(parts[i]) => Decimal.ParseDecimal(parts[i]));
    forall i | 0 <= i < |version| ensures nums[i] == version[i] {
      Decimal.ParseNatToString(version[i]);
    }
    assert nums == version;
  }

  /** A version of `n` numbers has `n - 1` dots, and none when it is empty. */
  lemma DottedVersionDots(version: seq<nat>)
    ensures CountChar(DottedVersion(version), '.') == if version == [] then 0 else |version| - 1
  {
    if version != [] {
      ComponentsAreNumbers(version);
      SplitJoin(Components(version), '.');
      SplitCount(DottedVersion(version), '.');
    }
  }

  /** A dotted version holds only digits and dots. */
  lemma {:induction false} JoinDigitsDots(parts: seq<string>)
    requires forall k :: 0 <= k < |parts| ==> Decimal.AllDigits(parts[k])
    ensures forall i :: 0 <= i < |Join(parts, ".")| ==>
      Decimal.IsDigit(Join(parts, ".")[i]) || Join(parts, ".")[i] == '.'
    decreases |parts|
  {
    if |parts| > 1 {
      JoinDigitsDots(parts[1..]);
      var j := Join(parts, ".");
      assert j == parts[0] + "." + Join(parts[1..], ".");
    }
  }

  /** `get_version()` ends in `-dev` exactly when the stage is alpha, and
      without it it is the dotted version. */
  lemma GetVersionSuffix(version: seq<nat>, stage: string)
    ensures EndsWithDev(GetVersionOf(version, stage)) <==> stage == "alpha"
    ensures Release(GetVersionOf(version, stage)) == DottedVersion(version)
  {
    var dotted := DottedVersion(version);
    var r := GetVersionOf(version, stage);
    ComponentsAreNumbers(version);
    JoinDigitsDots(Components(version));
    if stage == "alpha" {
      assert r[|r| - |DEV_SUFFIX|..] == DEV_SUFFIX;
      assert r[..|r| - |DEV_SUFFIX|] == dotted;
    } else if |r| >= 1 {
      assert r[|r| - 1] != 'v';
    }
  }

  /** The full version string reads back as the version, whatever the stage. */
  lemma GetVersionReadsBack(version: seq<nat>, stage: string)
    requires |version| >= 1
    ensures ParseVersion(Release(GetVersionOf(version, stage))) == Some(version)
  {
    GetVersionSuffix(version, stage);
    ParseDottedVersion(version);
  }

  /** The package's own version string. */
  lemma CurrentVersion()
    ensures GetVersion() == "0.1.0-dev"
  {
    var parts := Components(VERSION);
    assert parts == ["0", "1", "0"];
    assert DottedVersion(VERSION) == "0.1.0";
  }
}
