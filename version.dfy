/** Model of the version-string formatter of scenarigo (version/version.go).

    The Go package keeps two package-level strings, `version` and `revision`,
    and `String()` formats them. Here both strings are parameters of a pure
    function, and the package defaults are constants.
 */
module Version {

  datatype Option<+T> = None | Some(value: T)

  /** Default of the package-level `version` variable. */
  const DefaultVersion: string := "0.1.0"

  /** Default of the package-level `revision` variable. */
  const DefaultRevision: string := "dev"

  /** The string `String()` returns for the given `version` and `revision`:
      "v" followed by the version, then "-" and the revision unless the
      revision is empty. */
  function VersionString(version: string, revision: string): (r: string)
    // always "v", then the whole version
    ensures |r| >= 1 + |version| && r[0] == 'v' && r[1..1 + |version|] == version
    ensures "v" + version <= r
    // an empty revision adds nothing; a non-empty one adds the separator and itself
    ensures revision == "" <==> |r| == 1 + |version|
    ensures revision != "" ==>
              |r| == 2 + |version| + |revision|
              && r[1 + |version|] == '-'
              && r[2 + |version|..] == revision
  {
    if revision == "" then
      "v" + version
    else
      "v" + version + "-" + revision
  }

  /** `String()` with the package variables left at their defaults. */
  function DefaultString(): (r: string)
    ensures r == "v0.1.0-dev"
  {
    VersionString(DefaultVersion, DefaultRevision)
  }

  /** Recovers the revision from a formatted string, given the version it was
      formatted with; None when `s` is not the output for that version and
      any revision. */
  function ParseRevision(s: string, version: string): (o: Option<string>)
  {
    var n := 1 + |version|;
    if |s| < n || s[0] != 'v' || s[1..n] != version then
      None
    else if |s| == n then
      Some("")
    else if s[n] == '-' && |s| > n + 1 then
      Some(s[n + 1..])
    else
      None
  }

  /** The positional facts of VersionString's contract determine the string:
      any `r` that starts with 'v' and the whole version, and has the right
      length, separator and revision suffix, is exactly the formatter's output
      ("v" + version, or "v" + version + "-" + revision). */
  lemma ContractDeterminesString(version: string, revision: string, r: string)
    requires |r| >= 1 + |version| && r[0] == 'v' && r[1..1 + |version|] == version
    requires revision == "" <==> |r| == 1 + |version|
    requires revision != "" ==>
               |r| == 2 + |version| + |revision|
               && r[1 + |version|] == '-'
               && r[2 + |version|..] == revision
    ensures r == VersionString(version, revision)
  {
    if revision == "" {
      assert r == [r[0]] + r[1..1 + |version|];
    } else {
      assert r == [r[0]] + r[1..1 + |version|] + [r[1 + |version|]] + r[2 + |version|..];
    }
  }

  /** Parsing undoes formatting: the revision comes back from the output. */
  lemma ParseFormatted(version: string, revision: string)
    ensures ParseRevision(VersionString(version, revision), version) == Some(revision)
  {
  }

  /** Every string that parses is the output for the revision it parses to. */
  lemma FormatParsed(s: string, version: string, revision: string)
    requires ParseRevision(s, version) == Some(revision)
    ensures VersionString(version, revision) == s
  {
  }

  /** For a fixed version, different revisions give different strings. */
  lemma RevisionDetermined(version: string, r1: string, r2: string)
    requires VersionString(version, r1) == VersionString(version, r2)
    ensures r1 == r2
  {
  }

  /** Without the version, the revision cannot be recovered: a '-' may belong
      to either part. */
  lemma SeparatorAmbiguous(a: string, b: string, c: string)
    requires b != ""
    ensures VersionString(a + "-" + b, c) == VersionString(a, b + (if c == "" then "" else "-" + c))
  {
  }

  /** Position of the first `c` in `s`, or |s| when there is none. */
  function FirstIndex(s: string, c: char): (i: nat)
    ensures i <= |s|
    ensures i < |s| ==> s[i] == c
    ensures forall j :: 0 <= j < i ==> s[j] != c
  {
    if s == [] || s[0] == c then 0 else 1 + FirstIndex(s[1..], c)
  }

  /** Splits a formatted string into version and revision at the first '-'
      after the leading 'v'; None when `s` has no leading 'v' or ends in a
      '-' with nothing after it. */
  function SplitVersionString(s: string): (o: Option<(string, string)>)
  {
    if s == [] || s[0] != 'v' then
      None
    else
      var t := s[1..];
      var i := FirstIndex(t, '-');
      if i == |t| then Some((t, ""))
      else if i + 1 == |t| then None
      else Some((t[..i], t[i + 1..]))
  }

  /** When the version has no '-', both parts come back from the output alone
      (the revision may contain '-'). */
  lemma SplitFormatted(version: string, revision: string)
    requires '-' !in version
    ensures SplitVersionString(VersionString(version, revision)) == Some((version, revision))
  {
    var t := VersionString(version, revision)[1..];
    var i := FirstIndex(t, '-');
    // no '-' inside the version part, so the first one is the separator
    assert forall j :: 0 <= j < |version| ==> t[j] == version[j];
    assert i >= |version|;
    if revision != "" {
      assert t[|version|] == '-';
      assert i == |version|;
      assert t[..i] == version && t[i + 1..] == revision;
    } else {
      assert t == version;
    }
  }

  /** Whatever splits was formatted from the parts it splits into, and its
      version part has no '-'. */
  lemma FormatSplit(s: string, version: string, revision: string)
    requires SplitVersionString(s) == Some((version, revision))
    ensures '-' !in version
    ensures VersionString(version, revision) == s
  {
  }

  /** Among versions without '-', the output determines both parts. */
  lemma PairDetermined(v1: string, r1: string, v2: string, r2: string)
    requires '-' !in v1 && '-' !in v2
    requires VersionString(v1, r1) == VersionString(v2, r2)
    ensures v1 == v2 && r1 == r2
  {
  }
}
