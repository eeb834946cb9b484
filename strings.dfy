/** Small string facts shared by the path, query and header code. */
module Strings {
  import opened Wrappers

  /** `s` ends with `suffix`. */
  predicate EndsWith(s: string, suffix: string) {
    |suffix| <= |s| && s[|s| - |suffix|..] == suffix
  }

  /** Appending the same text to a string and to its suffix keeps the suffix relation. */
  lemma EndsWithAppend(p: string, suffix: string, t: string)
    requires EndsWith(p, suffix)
    ensures EndsWith(p + t, suffix + t)
  {
    var j := |p| - |suffix|;
    assert (p + t)[j..] == p[j..] + t;
  }

  /** A string ending with `a + b` ends with `b`, and what precedes that `b` ends with `a`. */
  lemma EndsWithSplit(s: string, a: string, b: string)
    requires EndsWith(s, a + b)
    ensures s[|s| - |b|..] == b
    ensures EndsWith(s[..|s| - |b|], a)
  {
    var j := |s| - |a + b|;
    var k := |s| - |b|;
    assert s[j..] == a + b;
    assert s[k..] == (a + b)[|a|..];
    assert s[..k][j..] == s[j..k] == (a + b)[..|a|];
  }

  /** The number of occurrences of `c` in `s`. */
  function Count(s: string, c: char): (n: nat)
    ensures n <= |s|
    ensures n == 0 <==> c !in s
  {
    if s == [] then 0 else (if s[0] == c then 1 else 0) + Count(s[1..], c)
  }

  lemma {:induction false} CountConcat(a: string, b: string, c: char)
    ensures Count(a + b, c) == Count(a, c) + Count(b, c)
  {
    if a != [] {
      assert (a + b)[1..] == a[1..] + b;
      CountConcat(a[1..], b, c);
    } else {
      assert a + b == b;
    }
  }

  /** The index of the first `c` in `s`, or None when `s` has none. */
  function IndexOf(s: string, c: char): (r: Option<nat>)
    ensures r.None? <==> c !in s
    ensures r.Some? ==> r.value < |s| && s[r.value] == c && c !in s[..r.value]
  {
    if s == [] then None
    else if s[0] == c then Some(0)
    else match IndexOf(s[1..], c)
      case None => None
      case Some(i) =>
        assert s[..i + 1] == [s[0]] + s[1..][..i];
        Some(i + 1)
  }

  /** `s` cut at its first `c`: the part before it and, when there is one, the part after it. */
  function SplitAtFirst(s: string, c: char): (r: (string, Option<string>))
    ensures c !in r.0
    ensures r.1.None? ==> r.0 == s
    ensures r.1.Some? ==> s == r.0 + [c] + r.1.value
  {
    match IndexOf(s, c)
    case None => (s, None)
    case Some(i) =>
      assert s == s[..i] + [c] + s[i + 1..];
      (s[..i], Some(s[i + 1..]))
  }

  /** A string without `c` does not come apart at `c`. */
  lemma SplitAtFirstAbsent(s: string, c: char)
    requires c !in s
    ensures SplitAtFirst(s, c) == (s, None)
  {
  }

  /** The part before the first `c` is exactly `a` whenever `a` holds no `c`. */
  lemma {:induction false} SplitAtFirstConcat(a: string, c: char, b: string)
    requires c !in a
    ensures SplitAtFirst(a + [c] + b, c) == (a, Some(b))
  {
    var s := a + [c] + b;
    var i := IndexOf(s, c).value;
    assert s[|a|] == c;
    assert s[..i] == a;
    assert s[i + 1..] == b;
  }

  /** The pieces of `s` between occurrences of `sep` (String.Split with one separator). */
  function Split(s: string, sep: char): (r: seq<string>)
    ensures 0 < |r|
  {
    if s == [] then [[]]
    else
      var rest := Split(s[1..], sep);
      if s[0] == sep then [[]] + rest else [[s[0]] + rest[0]] + rest[1..]
  }

  /** A character other than `sep` joins the first piece of what follows it. */
  lemma SplitCons(c: char, t: string, sep: char)
    requires c != sep
    ensures Split([c] + t, sep) == [[c] + Split(t, sep)[0]] + Split(t, sep)[1..]
  {
    assert ([c] + t)[1..] == t;
  }

  /** A prefix free of `sep` glues onto the first piece of what follows it. */
  lemma {:induction false} SplitPrefix(a: string, t: string, sep: char)
    requires sep !in a
    ensures Split(a + t, sep) == [a + Split(t, sep)[0]] + Split(t, sep)[1..]
  {
    var r := Split(t, sep);
    if a == [] {
      assert a + t == t && a + r[0] == r[0];
      assert [r[0]] + r[1..] == r;
    } else {
      SplitPrefix(a[1..], t, sep);
      SplitCons(a[0], a[1..] + t, sep);
      assert a + t == [a[0]] + (a[1..] + t);
      assert [a[0]] + (a[1..] + r[0]) == a + r[0];
    }
  }

  /** Splitting `a + sep + b` yields `a` and then the pieces of `b`. */
  lemma SplitAtSeparator(a: string, b: string, sep: char)
    requires sep !in a
    ensures Split(a + [sep] + b, sep) == [a] + Split(b, sep)
  {
    var t := [sep] + b;
    assert a + [sep] + b == a + t;
    SplitPrefix(a, t, sep);
    assert t[1..] == b;
    assert Split(t, sep) == [[]] + Split(b, sep);
    assert a + [] == a;
  }

  /** A string free of `sep` is one piece. */
  lemma SplitWhole(a: string, sep: char)
    requires sep !in a
    ensures Split(a, sep) == [a]
  {
    assert a + [] == a;
    SplitPrefix(a, [], sep);
  }
}
