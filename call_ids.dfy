/**
 * The id of a created call, taken from the local path of the Location header.
 * As written, the regular expression `/calls/(\w+)$` is applied and the first
 * group's value returned; `\w` is taken as `[A-Za-z0-9_]`. As intended, the
 * final path segment after the collection name is the id, and its absence is
 * an error.
 */
module CallIds {
  import opened Wrappers
  import opened Strings

  const CallsMarker: string := "/calls/"

  predicate IsWordChar(c: char) {
    'A' <= c <= 'Z' || 'a' <= c <= 'z' || '0' <= c <= '9' || c == '_'
  }

  /** A match of `\w+`. */
  predicate IsWord(w: string) {
    0 < |w| && forall i | 0 <= i < |w| :: IsWordChar(w[i])
  }

  /** A path segment: non-empty and free of `/`. */
  predicate IsSegment(w: string) {
    0 < |w| && '/' !in w
  }

  /** The length of the longest suffix of `s` whose characters all satisfy `inRun`. */
  function TrailingRun(s: string, inRun: char -> bool): (n: nat)
    ensures n <= |s|
    ensures forall i | |s| - n <= i < |s| :: inRun(s[i])
    ensures n < |s| ==> !inRun(s[|s| - n - 1])
  {
    if s == [] || !inRun(s[|s| - 1]) then 0
    else
      var m := TrailingRun(s[..|s| - 1], inRun);
      assert forall i | |s| - 1 - m <= i < |s| - 1 :: s[i] == s[..|s| - 1][i];
      m + 1
  }

  /** Every suffix made only of run characters is no longer than the trailing run. */
  lemma TrailingRunLongest(s: string, inRun: char -> bool, k: nat)
    requires k <= |s|
    requires forall i | |s| - k <= i < |s| :: inRun(s[i])
    ensures k <= TrailingRun(s, inRun)
  {
  }

  /** A character outside the run bounds the trailing run from the left. */
  lemma TrailingRunStops(s: string, inRun: char -> bool, j: nat)
    requires j < |s| && !inRun(s[j])
    ensures TrailingRun(s, inRun) <= |s| - 1 - j
  {
  }

  /**
   * `Regex.Match(path)` for `/calls/(\w+)$`: Some(group 1) on success. The
   * group is the whole trailing word run, which the match needs preceded by
   * `/calls/`.
   */
  function MatchCallId(path: string): Option<string> {
    var n := TrailingRun(path, IsWordChar);
    if 0 < n && EndsWith(path[..|path| - n], CallsMarker) then Some(path[|path| - n..]) else None
  }

  /**
   * `match.Groups[1].Value` as written: the id when the path ends in
   * `/calls/` and a word, and "" (never an exception) otherwise. The word is
   * unique, so the id is the one the pattern admits.
   */
  function CallIdAsWritten(path: string): (id: string)
    ensures id != "" ==> IsWord(id) && EndsWith(path, CallsMarker + id)
    ensures forall w :: IsWord(w) && EndsWith(path, CallsMarker + w) ==> id == w
  {
    var n := TrailingRun(path, IsWordChar);
    var id := match MatchCallId(path) case Some(w) => w case None => "";
    assert id != "" ==> EndsWith(path, CallsMarker + id) by {
      if id != "" {
        assert path == path[..|path| - n] + id;
      }
    }
    assert forall w :: IsWord(w) && EndsWith(path, CallsMarker + w) ==> id == w by {
      forall w | IsWord(w) && EndsWith(path, CallsMarker + w) ensures id == w {
        WordMatchIsTrailingRun(path, w);
      }
    }
    id
  }

  /** A word after `/calls/` at the end of the path is exactly the trailing word run. */
  lemma WordMatchIsTrailingRun(path: string, w: string)
    requires IsWord(w) && EndsWith(path, CallsMarker + w)
    ensures TrailingRun(path, IsWordChar) == |w|
    ensures EndsWith(path[..|path| - |w|], CallsMarker)
    ensures path[|path| - |w|..] == w
  {
    var k := |path| - |w|;
    EndsWithSplit(path, CallsMarker, w);
    forall i | k <= i < |path| ensures IsWordChar(path[i]) {
      assert path[i] == w[i - k];
    }
    TrailingRunLongest(path, IsWordChar, |w|);
    var p := path[..k];
    assert path[k - 1] == p[|p| - 1] == '/';
    TrailingRunStops(path, IsWordChar, k - 1);
  }

  /** A final path segment holding a character outside `\w` never yields an id as written. */
  lemma NonWordFinalSegment(path: string, seg: string, i: nat)
    requires EndsWith(path, "/" + seg)
    requires '/' !in seg && i < |seg| && !IsWordChar(seg[i])
    ensures CallIdAsWritten(path) == ""
  {
    var id := CallIdAsWritten(path);
    if id != "" {
      EndsWithSplit(path, "/", seg);
      WordsCoverFinalSegment(path, seg, id);
    }
  }

  /** A word matched after `/calls/` covers the whole final segment of the path. */
  lemma WordsCoverFinalSegment(path: string, seg: string, id: string)
    requires '/' !in seg && EndsWith(path, seg)
    requires IsWord(id) && EndsWith(path, CallsMarker + id)
    ensures forall j | 0 <= j < |seg| :: IsWordChar(seg[j])
  {
    var k := |path| - |id|;
    var start := |path| - |seg|;
    EndsWithSplit(path, CallsMarker, id);
    assert forall j | start <= j < |path| :: path[j] != '/' by {
      forall j | start <= j < |path| ensures path[j] != '/' {
        assert path[j] == seg[j - start];
      }
    }
    var p := path[..k];
    assert path[k - 1] == p[|p| - 1] == '/';
    forall j | 0 <= j < |seg| ensures IsWordChar(seg[j]) {
      assert seg[j] == path[start + j] == path[k..][start + j - k];
    }
  }

  /** The call id `c-123` in a Location path is lost as written and found as intended. */
  lemma HyphenatedIdLost()
    ensures CallIdAsWritten("/v1/users/u1/calls/c-123") == ""
    ensures CreatedId("/v1/users/u1/calls/c-123", "calls") == Some("c-123")
  {
    var path := "/v1/users/u1/calls/c-123";
    assert path[|path| - 6..] == "/" + "c-123";
    NonWordFinalSegment(path, "c-123", 1);
    assert path[|path| - 12..] == "/" + "calls" + "/" + "c-123";
  }

  /** A path with no id yields "" as written, where an error was intended. */
  lemma MissingIdIsEmptyString()
    ensures CallIdAsWritten("/v1/users/u1/calls") == ""
    ensures CreatedId("/v1/users/u1/calls", "calls") == None
  {
    var path := "/v1/users/u1/calls";
    assert TrailingRun(path, IsWordChar) == 5 by {
      assert !IsWordChar(path[|path| - 6]);
      TrailingRunLongest(path, IsWordChar, 5);
    }
    var p := path[..|path| - 5];
    assert p[|p| - |CallsMarker|] == 'e';
  }

  predicate NotSlash(c: char) {
    c != '/'
  }

  /**
   * The intended extraction: the final segment of the path when it follows
   * `/collection/`, and None when the path does not end that way.
   */
  function CreatedId(path: string, collection: string): (r: Option<string>)
    ensures r.Some? ==> IsSegment(r.value) && EndsWith(path, "/" + collection + "/" + r.value)
    ensures forall id :: IsSegment(id) && EndsWith(path, "/" + collection + "/" + id) ==> r == Some(id)
  {
    var n := TrailingRun(path, NotSlash);
    if 0 < n && EndsWith(path[..|path| - n], "/" + collection + "/") then
      FinalSegment(path, "/" + collection + "/", n);
      SegmentsAreTrailingRun(path, collection, n);
      Some(path[|path| - n..])
    else
      SegmentsAreTrailingRun(path, collection, n);
      None
  }

  /** The trailing run of non-slashes, when the marker precedes it, is a segment after the marker. */
  lemma FinalSegment(path: string, marker: string, n: nat)
    requires n == TrailingRun(path, NotSlash)
    requires 0 < n && EndsWith(path[..|path| - n], marker)
    ensures IsSegment(path[|path| - n..]) && EndsWith(path, marker + path[|path| - n..])
  {
    var k := |path| - n;
    var id := path[k..];
    assert '/' !in id by {
      forall i | 0 <= i < |id| ensures NotSlash(id[i]) {
        assert id[i] == path[k + i];
      }
    }
    EndsWithAppend(path[..k], marker, id);
    assert path[..k] + id == path;
  }

  /** Any segment after `/collection/` at the end of the path is the trailing run of non-slashes. */
  lemma SegmentsAreTrailingRun(path: string, collection: string, n: nat)
    requires n == TrailingRun(path, NotSlash)
    ensures forall id :: IsSegment(id) && EndsWith(path, "/" + collection + "/" + id) ==>
      n == |id| && EndsWith(path[..|path| - n], "/" + collection + "/") && path[|path| - n..] == id
  {
    var marker := "/" + collection + "/";
    assert marker[|marker| - 1] == '/';
    forall id | IsSegment(id) && EndsWith(path, marker + id)
      ensures n == |id| && EndsWith(path[..|path| - n], marker) && path[|path| - n..] == id
    {
      SegmentIsTrailingRun(path, marker, id);
    }
  }

  /** A segment after the marker at the end of the path is exactly the trailing run of non-slashes. */
  lemma SegmentIsTrailingRun(path: string, marker: string, id: string)
    requires IsSegment(id) && EndsWith(path, marker + id)
    requires 0 < |marker| && marker[|marker| - 1] == '/'
    ensures TrailingRun(path, NotSlash) == |id|
    ensures EndsWith(path[..|path| - |id|], marker)
    ensures path[|path| - |id|..] == id
  {
    var k := |path| - |id|;
    EndsWithSplit(path, marker, id);
    forall i | k <= i < |path| ensures NotSlash(path[i]) {
      assert path[i] == id[i - k];
    }
    TrailingRunLongest(path, NotSlash, |id|);
    var p := path[..k];
    assert path[k - 1] == p[|p| - 1] == marker[|marker| - 1];
    TrailingRunStops(path, NotSlash, k - 1);
  }

  /** Writing a segment after `/collection/` and extracting it gives the segment back. */
  lemma CreatedIdOf(prefix: string, collection: string, id: string)
    requires IsSegment(id)
    ensures CreatedId(prefix + "/" + collection + "/" + id, collection) == Some(id)
  {
    var path := prefix + "/" + collection + "/" + id;
    var m := "/" + collection + "/" + id;
    assert path == prefix + m;
    assert path[|path| - |m|..] == m;
  }
}
