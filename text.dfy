/** The string operations the header normalisation uses: Python's
    `str.replace(p, "")` and `str.strip()`. */
module Text {

  /** `p` occurs in `s` starting at index `i`. */
  predicate OccursAt(s: string, p: string, i: int) {
    0 <= i && i + |p| <= |s| && s[i..i + |p|] == p
  }

  predicate Contains(s: string, p: string) {
    exists i :: 0 <= i <= |s| && OccursAt(s, p, i)
  }

  predicate StartsWith(s: string, p: string) {
    |p| <= |s| && s[..|p|] == p
  }

  /** `s.replace(p, "")`: occurrences are removed left to right without
      overlapping, and what the removal brings together is not scanned again. */
  function RemoveAll(s: string, p: string): (r: string)
    requires p != ""
    ensures |r| <= |s|
    decreases |s|
  {
    if |s| < |p| then s
    else if s[..|p|] == p then RemoveAll(s[|p|..], p)
    else [s[0]] + RemoveAll(s[1..], p)
  }

  /** A string in which `p` does not occur is left as it is. */
  lemma {:induction false} RemoveAllAbsent(s: string, p: string)
    requires p != ""
    requires !Contains(s, p)
    ensures RemoveAll(s, p) == s
    decreases |s|
  {
    if |s| >= |p| {
      assert !OccursAt(s, p, 0);
      assert s[..|p|] != p;
      forall i | OccursAt(s[1..], p, i) ensures false {
        assert s[1..][i..i + |p|] == s[i + 1..i + 1 + |p|];
        assert OccursAt(s, p, i + 1);
      }
      RemoveAllAbsent(s[1..], p);
    }
  }

  /** A leading occurrence of `p` is removed and the rest is processed alone. */
  lemma RemoveAllLeading(p: string, s: string)
    requires p != ""
    ensures RemoveAll(p + s, p) == RemoveAll(s, p)
  {
    assert (p + s)[..|p|] == p;
    assert (p + s)[|p|..] == s;
  }

  /** Every character `str.isspace()` accepts: the ASCII and separator
      control characters and the Unicode space separators. */
  predicate IsSpace(c: char) {
    c == ' ' || ('\t' <= c <= '\r') || ('\U{1C}' <= c <= '\U{1F}')
    || c == '\U{85}' || c == '\U{A0}' || c == '\U{1680}'
    || ('\U{2000}' <= c <= '\U{200A}') || c == '\U{2028}' || c == '\U{2029}'
    || c == '\U{202F}' || c == '\U{205F}' || c == '\U{3000}'
  }

  /** `s.lstrip()`. */
  function TrimStart(s: string): (r: string)
    ensures |r| <= |s| && r == s[|s| - |r|..]
    ensures forall i :: 0 <= i < |s| - |r| ==> IsSpace(s[i])
    ensures r != [] ==> !IsSpace(r[0])
    decreases |s|
  {
    if s != [] && IsSpace(s[0]) then TrimStart(s[1..]) else s
  }

  /** `s.rstrip()`. */
  function TrimEnd(s: string): (r: string)
    ensures |r| <= |s| && r == s[..|r|]
    ensures forall i :: |r| <= i < |s| ==> IsSpace(s[i])
    ensures r != [] ==> !IsSpace(r[|r| - 1])
    decreases |s|
  {
    if s != [] && IsSpace(s[|s| - 1]) then TrimEnd(s[..|s| - 1]) else s
  }

  /** `s.strip()`: the longest infix of `s` that neither starts nor ends with
      whitespace, once only whitespace has been cut off either end. */
  function Strip(s: string): (r: string)
    ensures |r| <= |s|
    ensures r != [] ==> !IsSpace(r[0]) && !IsSpace(r[|r| - 1])
    ensures (s == [] || (!IsSpace(s[0]) && !IsSpace(s[|s| - 1]))) ==> r == s
    ensures exists i, j :: SliceWithinSpace(s, r, i, j)
  {
    var t := TrimStart(s);
    var r := TrimEnd(t);
    assert r != [] ==> r[0] == t[0];
    TrimBothSlice(s);
    r
  }

  /** Trimming both ends leaves the slice between two whitespace runs. */
  /** `r` is `s[i..j]`, and everything of `s` outside `i..j` is whitespace. */
  predicate SliceWithinSpace(s: string, r: string, i: int, j: int) {
    && 0 <= i <= j <= |s| && r == s[i..j]
    && (forall k :: 0 <= k < i ==> IsSpace(s[k]))
    && (forall k :: j <= k < |s| ==> IsSpace(s[k]))
  }

  /** Trimming both ends leaves the slice between two whitespace runs. */
  lemma TrimBothSlice(s: string)
    ensures exists i, j :: SliceWithinSpace(s, TrimEnd(TrimStart(s)), i, j)
  {
    var t := TrimStart(s);
    var r := TrimEnd(t);
    var i := |s| - |t|;
    var j := i + |r|;
    assert r == s[i..j] by {
      assert t == s[i..] && r == t[..|r|];
    }
    forall k | j <= k < |s| ensures IsSpace(s[k]) {
      assert s[k] == t[k - i];
    }
    assert SliceWithinSpace(s, r, i, j);
  }

  /** Stripping twice strips nothing more. */
  lemma StripIdempotent(s: string)
    ensures Strip(Strip(s)) == Strip(s)
  {
  }

  const BearerPrefix: string := "Bearer "

  /** `authorization.replace("Bearer ", "").strip()` (backend/auth.py). */
  function NormalizeAuthorization(header: string): (r: string)
    ensures |r| <= |header|
  {
    Strip(RemoveAll(header, BearerPrefix))
  }

  /** "Bearer <token>" and "<token>" name the same token. */
  lemma NormalizeIgnoresBearer(t: string)
    ensures NormalizeAuthorization(BearerPrefix + t) == NormalizeAuthorization(t)
  {
    RemoveAllLeading(BearerPrefix, t);
  }

  /** A token without surrounding whitespace and without "Bearer " inside it
      survives normalisation, alone or behind the "Bearer " prefix. */
  lemma NormalizeCleanToken(t: string)
    requires !Contains(t, BearerPrefix)
    requires t == [] || (!IsSpace(t[0]) && !IsSpace(t[|t| - 1]))
    ensures NormalizeAuthorization(t) == t
    ensures NormalizeAuthorization(BearerPrefix + t) == t
  {
    RemoveAllAbsent(t, BearerPrefix);
    NormalizeIgnoresBearer(t);
  }

  /** Removing the inner "Bearer " of "BeBearer arer x" joins "Be" and
      "arer x" into a new occurrence, which is not removed again. */
  lemma RemovalJoins()
    ensures RemoveAll("Be" + BearerPrefix + "arer x", BearerPrefix) == "Be" + "arer x"
  {
    var rest := "arer x";
    var tail := BearerPrefix + rest;
    assert RemoveAll(rest, BearerPrefix) == rest;
    RemoveAllLeading(BearerPrefix, rest);
    var s1 := ['e'] + tail;
    assert s1[..7][1] != BearerPrefix[1];
    RemoveAllKeep('e', tail, BearerPrefix);
    var s0 := ['B'] + s1;
    assert s0[..7][2] != BearerPrefix[2];
    RemoveAllKeep('B', s1, BearerPrefix);
    assert s0 == "Be" + BearerPrefix + rest;
    assert ['B'] + (['e'] + rest) == (['B'] + ['e']) + rest;
    assert ['B'] + ['e'] == "Be";
  }

  /** A first character that does not start an occurrence is kept. */
  lemma RemoveAllKeep(c: char, s: string, p: string)
    requires p != "" && |p| <= |s| + 1 && ([c] + s)[..|p|] != p
    ensures RemoveAll([c] + s, p) == [c] + RemoveAll(s, p)
  {
    assert ([c] + s)[1..] == s;
  }

  /** Occurrences anywhere are removed, not only a prefix, so normalising is
      not idempotent: "BeBearer arer x" normalises to "Bearer x", and that
      normalises to "x". */
  lemma NormalizeNotIdempotent()
    ensures NormalizeAuthorization("Be" + BearerPrefix + "arer x") == BearerPrefix + "x"
    ensures NormalizeAuthorization(BearerPrefix + "x") == "x"
  {
    RemovalJoins();
    var t := "Be" + "arer x";
    assert t == BearerPrefix + "x";
    assert !IsSpace(t[0]) && !IsSpace(t[|t| - 1]);
    RemoveAllLeading(BearerPrefix, "x");
  }
}
