/**
 * The build-name filter of `get_available_builds`: which anchors of a
 * version's download page are kept as build files.
 *
 * The filter keeps the stripped text of every anchor that has a non-empty
 * `href` and whose text contains, anywhere, `<version>.<digits>_byond.exe`
 * (a `re.search`, so a substring test and not a full match).
 */
module BuildNames {
  import opened Wrappers
  import opened PyText

  /** One `<a>` element of the page: its `href` attribute, if any, and its text. */
  datatype Anchor = Anchor(href: Option<string>, text: string)

  const Suffix: string := "_byond.exe"

  /** The regular expression's `\d`, restricted to ASCII digits. */
  predicate IsDigit(c: char)
  {
    '0' <= c <= '9'
  }

  predicate AllDigits(s: string)
  {
    forall k :: 0 <= k < |s| ==> IsDigit(s[k])
  }

  /**
   * The pattern `<version>\.\d+_byond\.exe` matches `s[i..j + |Suffix|]`:
   * `version` and a dot start at `i`, digits fill the gap up to `j`, and the
   * suffix starts at `j`.
   */
  ghost predicate MatchAt(version: string, s: string, i: nat, j: nat)
  {
    && i + |version| + 1 < j
    && j + |Suffix| <= |s|
    && s[i..i + |version| + 1] == version + "."
    && AllDigits(s[i + |version| + 1..j])
    && s[j..j + |Suffix|] == Suffix
  }

  /** What `re.search(version + r"\.\d+_byond\.exe", s)` finds a match for. */
  ghost predicate ContainsBuildName(version: string, s: string)
  {
    exists i: nat, j: nat :: MatchAt(version, s, i, j)
  }

  /** The end of the run of digits that starts at `k`. */
  function DigitRunEnd(s: string, k: nat): (e: nat)
    requires k <= |s|
    ensures k <= e <= |s|
    ensures AllDigits(s[k..e])
    ensures e < |s| ==> !IsDigit(s[e])
    decreases |s| - k
  {
    if k < |s| && IsDigit(s[k]) then
      var e := DigitRunEnd(s, k + 1);
      assert s[k..e] == [s[k]] + s[k + 1..e];
      e
    else k
  }

  /** A run of digits from `k` that ends before a non-digit ends exactly there. */
  lemma {:induction false} DigitRunEndIs(s: string, k: nat, j: nat)
    requires k <= j < |s|
    requires AllDigits(s[k..j]) && !IsDigit(s[j])
    ensures DigitRunEnd(s, k) == j
    decreases j - k
  {
    if k < j {
      assert s[k] == s[k..j][0];
      assert s[k + 1..j] == s[k..j][1..];
      DigitRunEndIs(s, k + 1, j);
    }
  }

  /** Whether the pattern matches at position `i`, decided without search. */
  function MatchesAt(version: string, s: string, i: nat): (b: bool)
    requires i <= |s|
    ensures b <==> exists j: nat :: MatchAt(version, s, i, j)
  {
    var k := i + |version| + 1;
    if k <= |s| && s[i..k] == version + "." then
      var e := DigitRunEnd(s, k);
      var b := k < e && e + |Suffix| <= |s| && s[e..e + |Suffix|] == Suffix;
      assert b ==> MatchAt(version, s, i, e);
      assert (exists j: nat :: MatchAt(version, s, i, j)) ==> b by {
        if j: nat :| MatchAt(version, s, i, j) {
          assert s[j] == Suffix[0];
          DigitRunEndIs(s, k, j);
        }
      }
      b
    else
      false
  }

  /** Whether the pattern matches at some position `i' >= i`. */
  function MatchesFrom(version: string, s: string, i: nat): (b: bool)
    requires i <= |s|
    ensures b <==> exists i': nat, j: nat :: i <= i' && MatchAt(version, s, i', j)
    decreases |s| - i
  {
    if MatchesAt(version, s, i) then true
    else if i == |s| then
      assert forall i': nat, j: nat :: i <= i' && MatchAt(version, s, i', j) ==> i' == i;
      false
    else
      MatchesFrom(version, s, i + 1)
  }

  /** The executable form of `ContainsBuildName`. */
  function MatchesBuildName(version: string, s: string): (b: bool)
    ensures b <==> ContainsBuildName(version, s)
  {
    MatchesFrom(version, s, 0)
  }

  /** An anchor is kept when its `href` is truthy and its stripped text contains a build name. */
  predicate Keeps(version: string, a: Anchor)
  {
    a.href.Some? && a.href.value != "" && MatchesBuildName(version, Strip(a.text))
  }

  /** The names the anchor loop collects from `anchors`, in page order. */
  function Kept(version: string, anchors: seq<Anchor>): seq<string>
  {
    if anchors == [] then []
    else
      var last := anchors[|anchors| - 1];
      Kept(version, anchors[..|anchors| - 1]) + (if Keeps(version, last) then [Strip(last.text)] else [])
  }

  /**
   * The loop of `get_available_builds` over the page's anchors: appends the
   * stripped text of each kept anchor to `files`.
   */
  method CollectBuildNames(version: string, anchors: seq<Anchor>) returns (files: seq<string>)
    ensures files == Kept(version, anchors)
    ensures forall f :: f in files ==> ContainsBuildName(version, f)
  {
    files := [];
    for n := 0 to |anchors|
      invariant files == Kept(version, anchors[..n])
    {
      var link := anchors[n];
      var fileName := Strip(link.text);
      if link.href.Some? && link.href.value != "" && MatchesBuildName(version, fileName) {
        files := files + [fileName];
      }
      assert anchors[..n + 1][..n] == anchors[..n];
    }
    assert anchors[..|anchors|] == anchors;
    KeptMembers(version, anchors);
  }

  /** Collecting over two pieces of a page is collecting over each piece, in order. */
  lemma {:induction false} KeptAppend(version: string, xs: seq<Anchor>, ys: seq<Anchor>)
    ensures Kept(version, xs + ys) == Kept(version, xs) + Kept(version, ys)
    decreases |ys|
  {
    if ys == [] {
      assert xs + ys == xs;
    } else {
      var init := ys[..|ys| - 1];
      assert (xs + ys)[..|xs + ys| - 1] == xs + init;
      KeptAppend(version, xs, init);
    }
  }

  /** A name is collected exactly when some anchor with a truthy `href` carries it and it matches. */
  lemma {:induction false} KeptMembers(version: string, anchors: seq<Anchor>)
    ensures forall f :: f in Kept(version, anchors) <==>
      exists k :: 0 <= k < |anchors| && anchors[k].href.Some? && anchors[k].href.value != ""
        && Strip(anchors[k].text) == f && ContainsBuildName(version, f)
    decreases |anchors|
  {
    if anchors != [] {
      var init := anchors[..|anchors| - 1];
      KeptMembers(version, init);
      forall k | 0 <= k < |init| ensures init[k] == anchors[k] { }
    }
  }

  /** Each anchor yields at most one name: collecting never invents extra names. */
  lemma {:induction false} KeptLength(version: string, anchors: seq<Anchor>)
    ensures |Kept(version, anchors)| <= |anchors|
    decreases |anchors|
  {
    if anchors != [] {
      KeptLength(version, anchors[..|anchors| - 1]);
    }
  }

  /** A page without qualifying anchors yields no names. */
  lemma {:induction false} KeptNone(version: string, anchors: seq<Anchor>)
    requires forall k :: 0 <= k < |anchors| ==> !Keeps(version, anchors[k])
    ensures Kept(version, anchors) == []
    decreases |anchors|
  {
    if anchors != [] {
      KeptNone(version, anchors[..|anchors| - 1]);
    }
  }

  /** The dot must be followed by at least one digit: a name without a build number is refused. */
  lemma NoBuildNumberRejected()
    ensures !ContainsBuildName("515", "515._byond.exe")
  {
    assert !MatchesBuildName("515", "515._byond.exe");
  }

  /** A build name embedded anywhere in a text is found, whatever surrounds it. */
  lemma BuildNameAnywhere(version: string, before: string, digits: string, after: string)
    requires digits != [] && AllDigits(digits)
    ensures ContainsBuildName(version, before + version + "." + digits + Suffix + after)
  {
    var s := before + version + "." + digits + Suffix + after;
    var i, j := |before|, |before| + |version| + 1 + |digits|;
    assert s[i..i + |version| + 1] == version + ".";
    assert s[i + |version| + 1..j] == digits;
    assert s[j..j + |Suffix|] == Suffix;
    assert MatchAt(version, s, i, j);
  }

  /** A build name inside a longer anchor text is found by the search. */
  lemma SurroundedNameAccepted()
    ensures ContainsBuildName("515", "BYOND 515.1647_byond.exe (latest)")
  {
    assert "BYOND 515.1647_byond.exe (latest)" == "BYOND " + "515" + "." + "1647" + Suffix + " (latest)";
    BuildNameAnywhere("515", "BYOND ", "1647", " (latest)");
  }

  /** The version is not anchored: a longer number ending in the version is accepted too. */
  lemma LongerVersionAccepted()
    ensures ContainsBuildName("515", "1515.1647_byond.exe.bak")
  {
    assert "1515.1647_byond.exe.bak" == "1" + "515" + "." + "1647" + Suffix + ".bak";
    BuildNameAnywhere("515", "1", "1647", ".bak");
  }

  /** Where the pattern matches, the last character of the version and the dot stand at fixed places. */
  lemma VersionDotAt(version: string, s: string, i: nat, j: nat)
    requires MatchAt(version, s, i, j) && version != []
    ensures s[i + |version| - 1] == version[|version| - 1] && s[i + |version|] == '.'
  {
    assert s[i + |version| - 1] == s[i..i + |version| + 1][|version| - 1];
    assert s[i + |version|] == s[i..i + |version| + 1][|version|];
  }

  /** A build of another version is refused. */
  lemma OtherVersionRejected()
    ensures !ContainsBuildName("515", "516.1647_byond.exe")
  {
    var s := "516.1647_byond.exe";
    if i: nat, j: nat :| MatchAt("515", s, i, j) {
      VersionDotAt("515", s, i, j);
      assert false;
    }
  }
}
