/**
 * The Python string operations the report pipeline relies on, over `string`
 * (a sequence of characters): `p in s`, `s.startswith(p)`, `s.replace(p, "")`,
 * `os.path.basename`, `sep.join(parts)` and `str(n)` for a non-negative integer.
 */
module PyStrings {

  /** `p` occurs in `s` starting at index `i`. */
  ghost predicate OccursAt(s: string, p: string, i: int) {
    0 <= i && i + |p| <= |s| && s[i..i + |p|] == p
  }

  /** Python's `p in s`: the empty string occurs in every string. */
  function Contains(s: string, p: string): bool
    decreases |s|
  {
    if |p| > |s| then false
    else if s[..|p|] == p then true
    else Contains(s[1..], p)
  }

  /** `Contains` agrees with the positional definition of a substring, in both directions. */
  lemma {:induction false} ContainsIffOccurs(s: string, p: string)
    ensures Contains(s, p) <==> exists i :: OccursAt(s, p, i)
    decreases |s|
  {
    if |p| > |s| {
    } else if s[..|p|] == p {
      assert OccursAt(s, p, 0);
    } else {
      ContainsIffOccurs(s[1..], p);
      if Contains(s[1..], p) {
        var j :| OccursAt(s[1..], p, j);
        assert s[j + 1..j + 1 + |p|] == s[1..][j..j + |p|];
        assert OccursAt(s, p, j + 1);
      }
      if exists i :: OccursAt(s, p, i) {
        var i :| OccursAt(s, p, i);
        assert i != 0;
        assert s[1..][i - 1..i - 1 + |p|] == s[i..i + |p|];
        assert OccursAt(s[1..], p, i - 1);
      }
    }
  }

  /** Python's `s.startswith(p)`. */
  predicate StartsWith(s: string, p: string) {
    |p| <= |s| && s[..|p|] == p
  }

  /** Python's `s.endswith(p)`. */
  predicate EndsWith(s: string, p: string) {
    |p| <= |s| && s[|s| - |p|..] == p
  }

  /**
   * Python's `s.replace(pat, "")`: scanning from the left, every
   * non-overlapping occurrence of `pat` is removed, not only a leading one.
   */
  function RemoveAll(s: string, pat: string): (r: string)
    requires |pat| > 0
    ensures |r| <= |s|
    decreases |s|
  {
    if |s| < |pat| then s
    else if s[..|pat|] == pat then RemoveAll(s[|pat|..], pat)
    else [s[0]] + RemoveAll(s[1..], pat)
  }

  /** A string in which `pat` does not occur is left as it is. */
  lemma {:induction false} RemoveAllAbsent(s: string, pat: string)
    requires |pat| > 0
    requires !Contains(s, pat)
    ensures RemoveAll(s, pat) == s
    decreases |s|
  {
    if |s| >= |pat| {
      assert s[..|pat|] != pat;
      RemoveAllAbsent(s[1..], pat);
      assert s == [s[0]] + s[1..];
    }
  }

  /** An occurrence of `pat` at the front is removed. */
  lemma RemoveAllLeading(pat: string, s: string)
    requires |pat| > 0
    ensures RemoveAll(pat + s, pat) == RemoveAll(s, pat)
  {
    var x := pat + s;
    assert x[..|pat|] == pat;
    assert x[|pat|..] == s;
  }

  /** Dropping the first character of `a` keeps the later starts of `a` free of `pat`. */
  lemma NoOccurrenceShift(a: string, s: string, pat: string)
    requires a != []
    requires forall i :: 0 <= i < |a| ==> !OccursAt(a + s, pat, i)
    ensures forall i :: 0 <= i < |a| - 1 ==> !OccursAt(a[1..] + s, pat, i)
  {
    var x := a + s;
    assert a[1..] + s == x[1..];
    forall i | 0 <= i < |a| - 1
      ensures !OccursAt(a[1..] + s, pat, i)
    {
      assert !OccursAt(x, pat, i + 1);
      if i + |pat| <= |x| - 1 {
        assert x[1..][i..i + |pat|] == x[i + 1..i + 1 + |pat|];
      }
    }
  }

  /** The step of `RemoveAll` past a character where `pat` does not start. */
  lemma RemoveAllSkip(x: string, pat: string)
    requires |pat| > 0 && |x| >= |pat| && x[..|pat|] != pat
    ensures RemoveAll(x, pat) == [x[0]] + RemoveAll(x[1..], pat)
  {
  }

  /** A stretch `a` in front of which no occurrence of `pat` starts is kept as it is. */
  lemma {:induction false} RemoveAllKeepsFree(a: string, s: string, pat: string)
    requires |pat| > 0
    requires forall i :: 0 <= i < |a| ==> !OccursAt(a + s, pat, i)
    ensures RemoveAll(a + s, pat) == a + RemoveAll(s, pat)
    decreases |a|
  {
    var x := a + s;
    if a == [] {
      assert x == s;
    } else if |x| < |pat| {
      assert RemoveAll(s, pat) == s;
    } else {
      assert !OccursAt(x, pat, 0);
      RemoveAllSkip(x, pat);
      NoOccurrenceShift(a, s, pat);
      RemoveAllKeepsFree(a[1..], s, pat);
      assert x[1..] == a[1..] + s;
      assert a == [a[0]] + a[1..];
    }
  }

  /**
   * Every occurrence is removed, not only the leading one: `pat`, a stretch
   * `a` in which no further occurrence starts, `pat` again and a `pat`-free
   * rest leave `a` followed by that rest.
   */
  lemma RemoveAllEvery(pat: string, a: string, b: string)
    requires |pat| > 0
    requires forall i :: 0 <= i < |a| ==> !OccursAt(a + pat + b, pat, i)
    requires !Contains(b, pat)
    ensures RemoveAll(pat + a + pat + b, pat) == a + b
  {
    var rest := pat + b;
    assert pat + a + pat + b == pat + (a + rest);
    assert a + pat + b == a + rest;
    calc {
      RemoveAll(pat + a + pat + b, pat);
      RemoveAll(pat + (a + rest), pat);
      { RemoveAllLeading(pat, a + rest); }
      RemoveAll(a + rest, pat);
      { RemoveAllKeepsFree(a, rest, pat); }
      a + RemoveAll(rest, pat);
      { RemoveAllLeading(pat, b); }
      a + RemoveAll(b, pat);
      { RemoveAllAbsent(b, pat); }
      a + b;
    }
  }

  /** `"test_ab_test_c".replace("test_", "")` is `"ab_c"`. */
  lemma RemoveAllInnerOccurrence(s: string, pat: string)
    requires s == "test_ab_test_c" && pat == "test_"
    ensures RemoveAll(s, pat) == "ab_c"
  {
    var a, b := "ab_", "c";
    assert s == pat + a + pat + b;
    forall i | 0 <= i < |a|
      ensures !OccursAt(a + pat + b, pat, i)
    {
      assert (a + pat + b)[i] == a[i];
    }
    RemoveAllEvery(pat, a, b);
  }

  /** A name made of `pat` followed by a rest free of `pat` loses exactly that prefix. */
  lemma StripSinglePrefix(s: string, pat: string)
    requires |pat| > 0 && StartsWith(s, pat)
    requires !Contains(s[|pat|..], pat)
    ensures RemoveAll(s, pat) == s[|pat|..]
  {
    RemoveAllAbsent(s[|pat|..], pat);
  }

  /**
   * Python's `os.path.basename` on a POSIX path: the part after the last `/`,
   * the whole path when it has no `/`.
   */
  function Basename(path: string): (r: string)
    ensures '/' !in r
    ensures |r| <= |path| && r == path[|path| - |r|..]
    ensures |r| < |path| ==> path[|path| - |r| - 1] == '/'
    decreases |path|
  {
    if path == [] then []
    else if path[|path| - 1] == '/' then []
    else
      var init := path[..|path| - 1];
      var rest := Basename(init);
      assert path[|path| - |rest| - 1..] == init[|init| - |rest|..] + [path[|path| - 1]];
      rest + [path[|path| - 1]]
  }

  /** The basename of `dir + "/" + file` is `file` when `file` has no `/`. */
  lemma BasenameOfJoin(dir: string, file: string)
    requires '/' !in file
    ensures Basename(dir + "/" + file) == file
  {
    var path := dir + "/" + file;
    var r := Basename(path);
    assert path[|path| - |file| - 1] == '/';
    assert path[|path| - |file|..] == file;
    assert |r| == |file|;
  }

  /** Python's `sep.join(parts)`. */
  function Join(parts: seq<string>, sep: string): string
    decreases |parts|
  {
    if |parts| == 0 then ""
    else if |parts| == 1 then parts[0]
    else parts[0] + sep + Join(parts[1..], sep)
  }

  /** A non-empty join ends with its last part. */
  lemma {:induction false} JoinEndsWithLast(parts: seq<string>, sep: string)
    requires |parts| > 0
    ensures var r := Join(parts, sep); var last := parts[|parts| - 1];
      |last| <= |r| && r[|r| - |last|..] == last
    decreases |parts|
  {
    if |parts| > 1 {
      JoinEndsWithLast(parts[1..], sep);
      var rest := Join(parts[1..], sep);
      var last := parts[|parts| - 1];
      assert (parts[0] + sep + rest)[|parts[0] + sep + rest| - |last|..] == rest[|rest| - |last|..];
    }
  }

  /** Every part of a join occurs in the joined string. */
  lemma {:induction false} JoinContainsParts(parts: seq<string>, sep: string, k: nat)
    requires k < |parts|
    ensures exists i :: OccursAt(Join(parts, sep), parts[k], i)
    decreases |parts|
  {
    var r := Join(parts, sep);
    if |parts| == 1 {
      assert OccursAt(r, parts[k], 0);
    } else if k == 0 {
      assert r[..|parts[0]|] == parts[0];
      assert OccursAt(r, parts[k], 0);
    } else {
      JoinContainsParts(parts[1..], sep, k - 1);
      var rest := Join(parts[1..], sep);
      var i :| OccursAt(rest, parts[k], i);
      var off := |parts[0] + sep|;
      assert r[off + i..off + i + |parts[k]|] == rest[i..i + |parts[k]|];
      assert OccursAt(r, parts[k], off + i);
    }
  }

  /** The character of a decimal digit. */
  function DigitChar(d: nat): (c: char)
    requires d < 10
    ensures '0' <= c <= '9'
  {
    (48 + d) as char
  }

  predicate IsDigits(s: string) {
    forall i :: 0 <= i < |s| ==> '0' <= s[i] <= '9'
  }

  /** Python's `str(n)` for a non-negative integer: its decimal digits, no leading zero. */
  function DecimalString(n: nat): (r: string)
    ensures |r| >= 1 && IsDigits(r)
    ensures |r| > 1 ==> r[0] != '0'
    decreases n
  {
    if n < 10 then [DigitChar(n)]
    else DecimalString(n / 10) + [DigitChar(n % 10)]
  }

  /** The value of a string of decimal digits (the inverse of `DecimalString`). */
  function DecimalValue(s: string): nat
    requires IsDigits(s)
    decreases |s|
  {
    if s == [] then 0
    else DecimalValue(s[..|s| - 1]) * 10 + (s[|s| - 1] as int - 48)
  }

  /** Reading back the decimal rendering of `n` gives `n`. */
  lemma {:induction false} DecimalRoundTrip(n: nat)
    ensures DecimalValue(DecimalString(n)) == n
    decreases n
  {
    var r := DecimalString(n);
    if n >= 10 {
      DecimalRoundTrip(n / 10);
      assert r[..|r| - 1] == DecimalString(n / 10);
    }
  }
}
