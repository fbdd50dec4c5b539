/** The few Python `str` operations the scripts use, on `string` (a sequence of code points):
    `sub in s`, `s.startswith(p)`, `s.strip()`, `s.strip(chars)` and `s.split(sep)` with a
    one-character separator. */
module Text {

  /** Python's `str.isspace` on one character: the characters `str.strip()` removes. */
  predicate IsSpace(c: char) {
    var n := c as int;
    (0x09 <= n <= 0x0D) || (0x1C <= n <= 0x20) || n == 0x85 || n == 0xA0 || n == 0x1680 ||
    (0x2000 <= n <= 0x200A) || n == 0x2028 || n == 0x2029 || n == 0x202F || n == 0x205F ||
    n == 0x3000
  }

  /** The characters of the argument `'"\''` passed to `str.strip`. */
  predicate IsQuote(c: char) {
    c == '"' || c == '\''
  }

  /** `sub in s`: `sub` occurs in `s` at some position. */
  predicate Contains(s: string, sub: string) {
    exists i :: 0 <= i <= |s| && sub <= s[i..]
  }

  /** `s.startswith(prefix)`. */
  predicate StartsWith(s: string, prefix: string) {
    prefix <= s
  }

  /** `s.lstrip(chars)`: the longest suffix of `s` that does not start with a dropped character. */
  function TrimStart(s: string, drop: char -> bool): (r: string)
    ensures |r| <= |s| && r == s[|s| - |r|..]
    ensures forall k :: 0 <= k < |s| - |r| ==> drop(s[k])
    ensures r != [] ==> !drop(r[0])
  {
    if |s| > 0 && drop(s[0]) then
      var r := TrimStart(s[1..], drop);
      assert s[1..][|s[1..]| - |r|..] == s[|s| - |r|..];
      assert forall k :: 1 <= k < |s| - |r| ==> s[k] == s[1..][k - 1];
      r
    else s
  }

  /** `s.rstrip(chars)`: the longest prefix of `s` that does not end with a dropped character. */
  function TrimEnd(s: string, drop: char -> bool): (r: string)
    ensures |r| <= |s| && r == s[..|r|]
    ensures forall k :: |r| <= k < |s| ==> drop(s[k])
    ensures r != [] ==> !drop(r[|r| - 1])
  {
    if |s| > 0 && drop(s[|s| - 1]) then
      var r := TrimEnd(s[..|s| - 1], drop);
      assert s[..|s| - 1][..|r|] == s[..|r|];
      r
    else s
  }

  /** `r` is `s[i..j]` and every character of `s` outside it is dropped. */
  predicate StrippedAt(s: string, r: string, drop: char -> bool, i: int, j: int) {
    0 <= i <= j <= |s| && r == s[i..j] &&
    (forall k :: 0 <= k < i ==> drop(s[k])) && (forall k :: j <= k < |s| ==> drop(s[k]))
  }

  /** `s.strip(chars)`: the part of `s` left once the dropped characters at both ends are
      removed; it neither starts nor ends with a dropped character. */
  function Strip(s: string, drop: char -> bool): (r: string)
    ensures Contains(s, r)
    ensures exists i, j :: StrippedAt(s, r, drop, i, j)
    ensures r != [] ==> !drop(r[0]) && !drop(r[|r| - 1])
  {
    var t := TrimStart(s, drop);
    var r := TrimEnd(t, drop);
    StripKeeps(s, t, r, drop);
    StripBounds(s, t, r, drop);
    r
  }

  /** Trimming both ends leaves `s[i..j]`, every character outside it dropped. */
  lemma StripBounds(s: string, t: string, r: string, drop: char -> bool)
    requires |t| <= |s| && t == s[|s| - |t|..]
    requires forall k :: 0 <= k < |s| - |t| ==> drop(s[k])
    requires |r| <= |t| && r == t[..|r|]
    requires forall k :: |r| <= k < |t| ==> drop(t[k])
    ensures StrippedAt(s, r, drop, |s| - |t|, |s| - |t| + |r|)
  {
    var i := |s| - |t|;
    var j := i + |r|;
    assert t == s[i..];
    assert r == t[..|r|];
    assert |s[i..j]| == |r|;
    forall k | 0 <= k < |r| ensures r[k] == s[i..j][k] {
      assert r[k] == t[k] == s[i + k];
    }
    assert r == s[i..j];
    forall k | j <= k < |s| ensures drop(s[k]) {
      assert s[k] == t[k - i];
    }
  }

  /** `Strip` keeps every character of `s` that is not dropped. */
  lemma StripKeepsKept(s: string, drop: char -> bool)
    ensures forall k :: 0 <= k < |s| && !drop(s[k]) ==> s[k] in Strip(s, drop)
  {
    StripKeeps(s, TrimStart(s, drop), Strip(s, drop), drop);
  }

  lemma StripKeeps(s: string, t: string, r: string, drop: char -> bool)
    requires t == TrimStart(s, drop) && r == TrimEnd(t, drop)
    ensures Contains(s, r)
    ensures forall k :: 0 <= k < |s| && !drop(s[k]) ==> s[k] in r
  {
    var n := |s| - |t|;
    assert t == s[n..];
    assert r == t[..|r|];
    assert r <= s[n..];
    forall k | 0 <= k < |s| && !drop(s[k]) ensures s[k] in r {
      KeptPosition(s, t, r, drop, k);
    }
  }

  lemma KeptPosition(s: string, t: string, r: string, drop: char -> bool, k: nat)
    requires t == TrimStart(s, drop) && r == TrimEnd(t, drop)
    requires k < |s| && !drop(s[k])
    ensures s[k] in r
  {
    var n := |s| - |t|;
    assert n <= k;
    assert t[k - n] == s[k];
    assert k - n < |r|;
    assert r[k - n] == s[k];
  }

  /** Stripping twice removes nothing more than stripping once. */
  lemma StripIdempotent(s: string, drop: char -> bool)
    ensures Strip(Strip(s, drop), drop) == Strip(s, drop)
  {
    var r := Strip(s, drop);
    TrimStartClean(r, drop);
    TrimEndClean(r, drop);
  }

  /** A leading dropped character is removed. */
  lemma TrimStartDrop(c: char, s: string, drop: char -> bool)
    requires drop(c)
    ensures TrimStart([c] + s, drop) == TrimStart(s, drop)
  {
    assert ([c] + s)[1..] == s;
  }

  /** A trailing dropped character is removed. */
  lemma TrimEndDrop(s: string, c: char, drop: char -> bool)
    requires drop(c)
    ensures TrimEnd(s + [c], drop) == TrimEnd(s, drop)
  {
    assert (s + [c])[..|s|] == s;
  }

  /** Nothing to strip: the string comes back unchanged. */
  lemma StripClean(s: string, drop: char -> bool)
    requires s == [] || (!drop(s[0]) && !drop(s[|s| - 1]))
    ensures Strip(s, drop) == s
  {
    TrimStartClean(s, drop);
    TrimEndClean(s, drop);
  }

  /** One dropped character on each side of a clean string is all `Strip` removes. */
  lemma StripPadded(c: char, q: string, d: char, drop: char -> bool)
    requires drop(c) && drop(d)
    requires q == [] || (!drop(q[0]) && !drop(q[|q| - 1]))
    ensures Strip([c] + (q + [d]), drop) == q
  {
    StripDropFirst(c, q + [d], drop);
    StripDropLast(q, d, drop);
    StripClean(q, drop);
  }

  /** One dropped character in front of a clean string is all `Strip` removes. */
  lemma StripLeading(c: char, q: string, drop: char -> bool)
    requires drop(c)
    requires q == [] || (!drop(q[0]) && !drop(q[|q| - 1]))
    ensures Strip([c] + q, drop) == q
  {
    StripDropFirst(c, q, drop);
    StripClean(q, drop);
  }

  /** One dropped character after a clean string is all `Strip` removes. */
  lemma StripTrailing(q: string, c: char, drop: char -> bool)
    requires drop(c)
    requires q == [] || (!drop(q[0]) && !drop(q[|q| - 1]))
    ensures Strip(q + [c], drop) == q
  {
    StripDropLast(q, c, drop);
    StripClean(q, drop);
  }

  /** A dropped first character makes no difference to the stripped result. */
  lemma StripDropFirst(c: char, s: string, drop: char -> bool)
    requires drop(c)
    ensures Strip([c] + s, drop) == Strip(s, drop)
  {
    TrimStartDrop(c, s, drop);
  }

  /** A dropped last character makes no difference to the stripped result. */
  lemma StripDropLast(s: string, c: char, drop: char -> bool)
    requires drop(c)
    ensures Strip(s + [c], drop) == Strip(s, drop)
  {
    TrimStartAppend(s, c, drop);
    var t := TrimStart(s, drop);
    if t == [] {
      TrimEndDrop([], c, drop);
    } else {
      TrimEndDrop(t, c, drop);
    }
  }

  /** Trimming the front of `s + [c]` trims the front of `s`, unless all of `s` goes. */
  lemma {:induction false} TrimStartAppend(s: string, c: char, drop: char -> bool)
    ensures TrimStart(s + [c], drop) == if TrimStart(s, drop) == [] then TrimStart([c], drop)
                                        else TrimStart(s, drop) + [c]
  {
    if |s| > 0 {
      assert (s + [c])[1..] == s[1..] + [c];
      if drop(s[0]) {
        TrimStartAppend(s[1..], c, drop);
      }
    } else {
      assert s + [c] == [c];
    }
  }

  lemma TrimStartClean(s: string, drop: char -> bool)
    requires s == [] || !drop(s[0])
    ensures TrimStart(s, drop) == s
  {
  }

  lemma TrimEndClean(s: string, drop: char -> bool)
    requires s == [] || !drop(s[|s| - 1])
    ensures TrimEnd(s, drop) == s
  {
  }

  /** `s.split(sep)` for a one-character separator: the maximal runs between separators. */
  function Split(s: string, sep: char): (parts: seq<string>)
    ensures |parts| >= 1
    ensures forall k :: 0 <= k < |parts| ==> sep !in parts[k]
    ensures |parts| >= 2 <==> sep in s
    ensures Join(parts, sep) == s
  {
    if |s| == 0 then [""]
    else
      var rest := Split(s[1..], sep);
      if s[0] == sep then
        assert ([""] + rest)[1..] == rest;
        [""] + rest
      else
        var parts := [[s[0]] + rest[0]] + rest[1..];
        assert parts[1..] == rest[1..];
        assert s == [s[0]] + s[1..];
        assert |rest| == 1 ==> Join(parts, sep) == [s[0]] + rest[0];
        assert |rest| >= 2 ==> Join(rest, sep) == rest[0] + [sep] + Join(rest[1..], sep);
        parts
  }

  /** `sep.join(parts)`: the inverse of `Split`. */
  function Join(parts: seq<string>, sep: char): string
    requires |parts| >= 1
  {
    if |parts| == 1 then parts[0] else parts[0] + [sep] + Join(parts[1..], sep)
  }

  /** Splitting what `Join` built gives the parts back, when no part holds the separator. */
  lemma {:induction false} SplitJoin(parts: seq<string>, sep: char)
    requires |parts| >= 1
    requires forall k :: 0 <= k < |parts| ==> sep !in parts[k]
    ensures Split(Join(parts, sep), sep) == parts
  {
    if |parts| == 1 {
      SplitNoSeparator(parts[0], sep);
    } else {
      SplitJoin(parts[1..], sep);
      SplitAfterSegment(parts[0], sep, Join(parts[1..], sep));
      assert parts == [parts[0]] + parts[1..];
    }
  }

  /** A string without the separator splits into itself alone. */
  lemma {:induction false} SplitNoSeparator(s: string, sep: char)
    requires sep !in s
    ensures Split(s, sep) == [s]
  {
    if |s| > 0 {
      SplitNoSeparator(s[1..], sep);
      assert s == [s[0]] + s[1..];
    }
  }

  /** A separator-free segment followed by the separator becomes the first part. */
  lemma {:induction false} SplitAfterSegment(a: string, sep: char, b: string)
    requires sep !in a
    ensures Split(a + [sep] + b, sep) == [a] + Split(b, sep)
  {
    var s := a + [sep] + b;
    if |a| == 0 {
      assert s[1..] == b;
    } else {
      assert s[1..] == a[1..] + [sep] + b;
      SplitAfterSegment(a[1..], sep, b);
      assert a == [a[0]] + a[1..];
    }
  }

  /** Every part of a join occurs in the joined string. */
  lemma {:induction false} JoinContainsPart(parts: seq<string>, sep: char, k: nat)
    requires k < |parts|
    ensures Contains(Join(parts, sep), parts[k])
  {
    var s := Join(parts, sep);
    if |parts| == 1 {
      assert parts[k] <= s[0..];
    } else if k == 0 {
      assert parts[0] <= s[0..];
    } else {
      JoinContainsPart(parts[1..], sep, k - 1);
      var t := Join(parts[1..], sep);
      assert s[|parts[0]| + 1..] == t;
      ContainsInSuffix(s, |parts[0]| + 1, parts[k]);
    }
  }

  lemma ContainsInSuffix(s: string, n: nat, sub: string)
    requires n <= |s|
    requires Contains(s[n..], sub)
    ensures Contains(s, sub)
  {
    var i :| 0 <= i <= |s[n..]| && sub <= s[n..][i..];
    assert s[n..][i..] == s[n + i..];
  }

  /** Occurrence is transitive. */
  lemma ContainsTransitive(a: string, b: string, c: string)
    requires Contains(a, b) && Contains(b, c)
    ensures Contains(a, c)
  {
    var i :| 0 <= i <= |a| && b <= a[i..];
    var j :| 0 <= j <= |b| && c <= b[j..];
    assert forall k :: 0 <= k < |c| ==> c[k] == b[j + k] == a[i + j + k];
    assert c <= a[i + j..];
  }

  /** Whatever occurs in `s` uses only characters of `s`. */
  lemma ContainsChars(s: string, sub: string)
    requires Contains(s, sub)
    ensures forall c :: c in sub ==> c in s
  {
    var i :| 0 <= i <= |s| && sub <= s[i..];
    forall c | c in sub ensures c in s {
      var k :| 0 <= k < |sub| && sub[k] == c;
      assert s[i + k] == c;
    }
  }
}
