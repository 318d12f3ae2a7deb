/** BunnyCDNClient.matchesFilter: the name filter of the recursive listing. */
module Filter {
  import opened Wrappers
  import opened JavaStrings

  /** The first branch: a null, blank or "*" filter lets everything through. */
  function IsCatchAll(filter: Option<string>): (r: bool)
    ensures r <==> filter.None? || AllTrimmable(filter.value) || filter.value == "*"
  {
    if filter.None? then true
    else
      BlankIffAllTrimmable(filter.value);
      IsBlank(filter.value) || filter.value == "*"
  }

  /**
   * matchesFilter(fileName, filter) for a non-null file name, its four
   * branches in the order of the source; the lemmas below state each.
   */
  function MatchesFilter(fileName: string, filter: Option<string>): (r: bool)
    ensures IsCatchAll(filter) ==> r
  {
    if IsCatchAll(filter) then true
    else if filter.value == "*.*" then ContainsChar(fileName, '.')
    else if StartsWith(filter.value, "*.") then
      var extension := ToLower(filter.value[1..]);
      EndsWith(ToLower(fileName), extension)
    else EqualsIgnoreCase(fileName, filter.value)
  }

  /** A filter "*." + rest matches only names that contain a '.'. */
  lemma DotFilterNeedsDot(fileName: string, rest: string)
    ensures MatchesFilter(fileName, Some("*." + rest)) ==> '.' in fileName
  {
    if MatchesFilter(fileName, Some("*." + rest)) {
      if rest == "*" {
        assert "*." + rest == "*.*";
        StarDotStarMatchesDottedNames(fileName);
      } else {
        ExtensionFilterMatchesSuffix(fileName, rest);
        var suffix := "." + rest;
        var at := |fileName| - |suffix|;
        assert LowerChar(fileName[at + 0]) == LowerChar(suffix[0]);
        assert fileName[at] == '.';
      }
    }
  }

  /** `name` ends with `suffix`, comparing ASCII letters without regard to case. */
  predicate EndsWithIgnoringCase(name: string, suffix: string) {
    |suffix| <= |name| &&
    forall i :: 0 <= i < |suffix| ==> LowerChar(name[|name| - |suffix| + i]) == LowerChar(suffix[i])
  }

  /** `a` and `b` are the same text, comparing ASCII letters without regard to case. */
  predicate SameIgnoringCase(a: string, b: string) {
    |a| == |b| && forall i :: 0 <= i < |a| ==> LowerChar(a[i]) == LowerChar(b[i])
  }

  /** "*.*" matches exactly the names that contain a '.'. */
  lemma StarDotStarMatchesDottedNames(fileName: string)
    ensures MatchesFilter(fileName, Some("*.*")) <==> exists i :: 0 <= i < |fileName| && fileName[i] == '.'
  {
    assert !IsTrimmable("*.*"[0]);
  }

  /**
   * "*." + rest, other than "*.*", matches exactly the names that end with
   * "." + rest ignoring case.
   */
  lemma ExtensionFilterMatchesSuffix(fileName: string, rest: string)
    requires rest != "*"
    ensures MatchesFilter(fileName, Some("*." + rest)) <==> EndsWithIgnoringCase(fileName, "." + rest)
  {
    var filter := "*." + rest;
    assert !IsTrimmable(filter[0]);
    assert filter[..2] == "*.";
    assert filter[1..] == "." + rest;
    LowerSuffixIffEndsWithIgnoringCase(fileName, "." + rest);
  }

  /** endsWith on lower-cased strings is a case-insensitive suffix test. */
  lemma LowerSuffixIffEndsWithIgnoringCase(name: string, suffix: string)
    ensures EndsWith(ToLower(name), ToLower(suffix)) <==> EndsWithIgnoringCase(name, suffix)
  {
    var lowered := ToLower(name);
    var ext := ToLower(suffix);
    if EndsWith(lowered, ext) {
      forall i | 0 <= i < |suffix|
        ensures LowerChar(name[|name| - |suffix| + i]) == LowerChar(suffix[i])
      {
        assert lowered[|lowered| - |ext|..][i] == ext[i];
      }
    }
    if EndsWithIgnoringCase(name, suffix) {
      assert lowered[|lowered| - |ext|..] == ext;
    }
  }

  /** Filter "*.*" is not read as the extension ".*": "a.b" passes it. */
  lemma StarDotStarIsNotAnExtension()
    ensures MatchesFilter("a.b", Some("*.*"))
    ensures !EndsWithIgnoringCase("a.b", ".*")
  {
    StarDotStarMatchesDottedNames("a.b");
    assert "a.b"[1] == '.';
    assert LowerChar("a.b"[2]) != LowerChar(".*"[1]);
  }

  /** Any other filter matches only the name equal to it ignoring case. */
  lemma OtherFilterMatchesSameName(fileName: string, filter: string)
    requires !AllTrimmable(filter) && filter != "*" && !StartsWith(filter, "*.")
    ensures MatchesFilter(fileName, Some(filter)) <==> SameIgnoringCase(fileName, filter)
  {
    EqualsIgnoreCaseIffLowerEqual(fileName, filter);
    if SameIgnoringCase(fileName, filter) {
      assert ToLower(fileName) == ToLower(filter);
    }
  }

  /** The outcome never depends on the case of the file name. */
  lemma MatchIgnoresCaseOfName(fileName: string, filter: Option<string>)
    ensures MatchesFilter(ToLower(fileName), filter) == MatchesFilter(fileName, filter)
  {
    var lowered := ToLower(fileName);
    assert ToLower(lowered) == lowered;
    if !IsCatchAll(filter) {
      var f := filter.value;
      if f == "*.*" {
        if '.' in fileName {
          var i :| 0 <= i < |fileName| && fileName[i] == '.';
          assert lowered[i] == '.';
        }
        if '.' in lowered {
          var i :| 0 <= i < |lowered| && lowered[i] == '.';
          assert fileName[i] == '.';
        }
      } else if !StartsWith(f, "*.") {
        EqualsIgnoreCaseIffLowerEqual(fileName, f);
        EqualsIgnoreCaseIffLowerEqual(lowered, f);
      }
    }
  }
}
