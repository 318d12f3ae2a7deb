/**
 * The parts of java.lang.String that the client relies on: trim, isEmpty,
 * toLowerCase, equalsIgnoreCase, startsWith, endsWith, contains and replace.
 * Case conversion is modelled over ASCII only.
 */
module JavaStrings {

  /** String.trim removes every leading and trailing char at or below U+0020. */
  predicate IsTrimmable(c: char) {
    c <= ' '
  }

  /** Every char of `s` is one that trim removes. */
  predicate AllTrimmable(s: string) {
    forall i :: 0 <= i < |s| ==> IsTrimmable(s[i])
  }

  function TrimStart(s: string): (r: string)
    ensures |r| <= |s| && r == s[|s| - |r|..]
    ensures r != [] ==> !IsTrimmable(r[0])
    ensures AllTrimmable(s[..|s| - |r|])
  {
    if s != [] && IsTrimmable(s[0]) then
      var r := TrimStart(s[1..]);
      TrimStartStep(s, r);
      r
    else s
  }

  /** One step of TrimStart: a trimmable first character joins the trimmed prefix. */
  lemma TrimStartStep(s: string, r: string)
    requires s != [] && IsTrimmable(s[0])
    requires |r| <= |s| - 1 && r == s[1..][|s| - 1 - |r|..]
    requires AllTrimmable(s[1..][..|s| - 1 - |r|])
    ensures r == s[|s| - |r|..]
    ensures AllTrimmable(s[..|s| - |r|])
  {
    forall i | 0 <= i < |s| - |r|
      ensures IsTrimmable(s[i])
    {
      if i > 0 {
        assert s[i] == s[1..][..|s| - 1 - |r|][i - 1];
      }
    }
  }

  function TrimEnd(s: string): (r: string)
    ensures |r| <= |s| && r == s[..|r|]
    ensures r != [] ==> !IsTrimmable(r[|r| - 1])
    ensures AllTrimmable(s[|r|..])
  {
    if s != [] && IsTrimmable(s[|s| - 1]) then TrimEnd(s[..|s| - 1]) else s
  }

  /** String.trim. */
  function Trim(s: string): (r: string)
    ensures |r| <= |s|
    ensures r != [] ==> !IsTrimmable(r[0]) && !IsTrimmable(r[|r| - 1])
  {
    var t := TrimStart(s);
    var r := TrimEnd(t);
    r
  }

  /** `s.trim().isEmpty()`. */
  predicate IsBlank(s: string) {
    Trim(s) == ""
  }

  /** A string is blank exactly when trim would remove all of it. */
  lemma BlankIffAllTrimmable(s: string)
    ensures IsBlank(s) <==> AllTrimmable(s)
  {
    var t := TrimStart(s);
    if !AllTrimmable(s) {
      var k :| 0 <= k < |s| && !IsTrimmable(s[k]);
      assert t[k - (|s| - |t|)] == s[k];
    }
  }

  function LowerChar(c: char): char {
    if 'A' <= c <= 'Z' then (c as int + 32) as char else c
  }

  function UpperChar(c: char): char {
    if 'a' <= c <= 'z' then (c as int - 32) as char else c
  }

  /** String.toLowerCase, char by char. */
  function ToLower(s: string): (r: string)
    ensures |r| == |s|
    ensures forall i :: 0 <= i < |s| ==> r[i] == LowerChar(s[i])
  {
    seq(|s|, i requires 0 <= i < |s| => LowerChar(s[i]))
  }

  /** The per-char test of String.equalsIgnoreCase (String.regionMatches). */
  predicate CharEqualsIgnoreCase(a: char, b: char) {
    a == b || UpperChar(a) == UpperChar(b) || LowerChar(a) == LowerChar(b)
  }

  /** String.equalsIgnoreCase against a non-null argument. */
  function EqualsIgnoreCase(a: string, b: string): (r: bool)
    ensures r ==> |a| == |b|
    ensures a == b ==> r
  {
    |a| == |b| && forall i :: 0 <= i < |a| ==> CharEqualsIgnoreCase(a[i], b[i])
  }

  lemma CharEqualsIgnoreCaseIffLower(a: char, b: char)
    ensures CharEqualsIgnoreCase(a, b) <==> LowerChar(a) == LowerChar(b)
  {
  }

  /** Over ASCII, equalsIgnoreCase is equality of the lower-case forms. */
  lemma EqualsIgnoreCaseIffLowerEqual(a: string, b: string)
    ensures EqualsIgnoreCase(a, b) <==> ToLower(a) == ToLower(b)
  {
    if EqualsIgnoreCase(a, b) {
      forall i | 0 <= i < |a| ensures ToLower(a)[i] == ToLower(b)[i] {
        CharEqualsIgnoreCaseIffLower(a[i], b[i]);
      }
    }
    if ToLower(a) == ToLower(b) {
      forall i | 0 <= i < |a| ensures CharEqualsIgnoreCase(a[i], b[i]) {
        assert ToLower(a)[i] == ToLower(b)[i];
        CharEqualsIgnoreCaseIffLower(a[i], b[i]);
      }
    }
  }

  predicate StartsWith(s: string, prefix: string) {
    |prefix| <= |s| && s[..|prefix|] == prefix
  }

  predicate EndsWith(s: string, suffix: string) {
    |suffix| <= |s| && s[|s| - |suffix|..] == suffix
  }

  /** `s.contains(String.valueOf(c))`. */
  predicate ContainsChar(s: string, c: char) {
    c in s
  }

  /** `target` occurs somewhere in `s`. */
  ghost predicate Occurs(s: string, target: string) {
    exists k :: OccursAt(s, target, k)
  }

  /** `target` occurs in `s` starting at index `k`. */
  predicate OccursAt(s: string, target: string, k: int) {
    0 <= k && k + |target| <= |s| && s[k..k + |target|] == target
  }

  /**
   * String.replace(target, replacement) for a non-empty target: one pass from
   * the left, replacing each non-overlapping occurrence.
   */
  function Replace(s: string, target: string, replacement: string): (r: string)
    requires target != []
    ensures |replacement| <= |target| ==> |r| <= |s|
    ensures |replacement| == |target| ==> |r| == |s|
    decreases |s|
  {
    if s == [] then []
    else if StartsWith(s, target) then replacement + Replace(s[|target|..], target, replacement)
    else [s[0]] + Replace(s[1..], target, replacement)
  }

  /** A string without an occurrence of the target comes back unchanged. */
  lemma {:induction false} ReplaceWithoutOccurrence(s: string, target: string, replacement: string)
    requires target != []
    requires !Occurs(s, target)
    ensures Replace(s, target, replacement) == s
    decreases |s|
  {
    if s != [] {
      assert !OccursAt(s, target, 0);
      forall k | 0 <= k && k + |target| <= |s| - 1
        ensures !OccursAt(s[1..], target, k)
      {
        assert s[1..][k..k + |target|] == s[k + 1..k + 1 + |target|];
        assert !OccursAt(s, target, k + 1);
      }
      ReplaceWithoutOccurrence(s[1..], target, replacement);
      assert [s[0]] + s[1..] == s;
    }
  }

  /** An occurrence at the very start is replaced. */
  lemma ReplaceLeading(target: string, rest: string, replacement: string)
    requires target != []
    ensures Replace(target + rest, target, replacement) == replacement + Replace(rest, target, replacement)
  {
    var s := target + rest;
    assert s[..|target|] == target;
    assert s[|target|..] == rest;
  }

  /** A char that does not start an occurrence is kept. */
  lemma ReplaceSkips(c: char, rest: string, target: string, replacement: string)
    requires target != []
    requires !StartsWith([c] + rest, target)
    ensures Replace([c] + rest, target, replacement) == [c] + Replace(rest, target, replacement)
  {
    assert ([c] + rest)[1..] == rest;
  }

  /**
   * The first occurrence is the one replaced: when `t` first occurs in
   * a + t + b right after `a`, the result is `a`, the replacement, and the
   * rest replaced in turn. With ReplaceWithoutOccurrence this is the
   * indexOf loop of String.replace.
   */
  lemma {:induction false} ReplaceFirstOccurrence(a: string, t: string, b: string, r: string)
    requires t != []
    requires forall k :: 0 <= k < |a| ==> !OccursAt(a + t, t, k)
    ensures Replace(a + t + b, t, r) == a + r + Replace(b, t, r)
    decreases |a|
  {
    if a == [] {
      assert a + t + b == t + b;
      ReplaceLeading(t, b, r);
    } else {
      var tail := a[1..];
      var s := a + t + b;
      assert s == [a[0]] + (tail + t + b);
      NoOccurrenceAtStart(a, t, b);
      ReplaceSkips(a[0], tail + t + b, t, r);
      NoEarlierOccurrenceInTail(a, t);
      ReplaceFirstOccurrence(tail, t, b, r);
      PrependJoined(a, r, Replace(b, t, r));
    }
  }

  /** The first character of `a`, then the rest of `a` joined with `m` and `z`. */
  lemma PrependJoined(a: string, m: string, z: string)
    requires a != []
    ensures [a[0]] + (a[1..] + m + z) == a + m + z
  {
    assert a == [a[0]] + a[1..];
  }

  /** Without an occurrence at 0 in a + t, a + t + b does not start with t. */
  lemma NoOccurrenceAtStart(a: string, t: string, b: string)
    requires !OccursAt(a + t, t, 0)
    ensures !StartsWith(a + t + b, t)
  {
    assert (a + t + b)[..|t|] == (a + t)[..|t|];
  }

  /** An occurrence-free prefix stays occurrence-free without its first character. */
  lemma NoEarlierOccurrenceInTail(a: string, t: string)
    requires a != []
    requires forall k :: 0 <= k < |a| ==> !OccursAt(a + t, t, k)
    ensures forall k :: 0 <= k < |a[1..]| ==> !OccursAt(a[1..] + t, t, k)
  {
    forall k | 0 <= k < |a[1..]|
      ensures !OccursAt(a[1..] + t, t, k)
    {
      assert (a[1..] + t)[k..k + |t|] == (a + t)[k + 1..k + 1 + |t|];
      assert !OccursAt(a + t, t, k + 1);
    }
  }

  /** The example of String.replace's documentation: "aaa" with "aa" replaced by "b" is "ba". */
  lemma ReplaceDocumentationExample()
    ensures Replace("aaa", "aa", "b") == "ba"
  {
    assert "aaa" == "aa" + "a";
    ReplaceLeading("aa", "a", "b");
    assert !OccursAt("a", "aa", 0);
    ReplaceWithoutOccurrence("a", "aa", "b");
  }

  /** Replace is a single pass: removing "/z" from "//zz" leaves a new "/z". */
  lemma ReplaceIsSinglePass()
    ensures Replace("//zz", "/z", "") == "/z"
    ensures Occurs(Replace("//zz", "/z", ""), "/z")
  {
    assert "//zz"[..2] == "//";
    assert "//zz"[1..] == "/zz";
    assert "/zz"[..2] == "/z";
    assert "/zz"[2..] == "z";
    assert Replace("z", "/z", "") == "z";
    assert OccursAt("/z", "/z", 0);
  }
}
