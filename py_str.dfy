/**
 * The few Python `str` operations the filter tool relies on, written out:
 * `split` on a separator, `strip()`, and `lower()` (ASCII letters only).
 */
module PyStr {

  /** The characters for which Python's `str.isspace()` holds, i.e. what `strip()` removes. */
  predicate IsSpace(c: char) {
    var n := c as int;
    (0x09 <= n <= 0x0D) || (0x1C <= n <= 0x20) || n == 0x85 || n == 0xA0 || n == 0x1680
    || (0x2000 <= n <= 0x200A) || n == 0x2028 || n == 0x2029 || n == 0x202F || n == 0x205F
    || n == 0x3000
  }

  predicate AllSpace(s: string) {
    forall i :: 0 <= i < |s| ==> IsSpace(s[i])
  }

  /** `s.lstrip()`: the longest suffix of `s` that does not start with whitespace. */
  function TrimStart(s: string): (r: string)
    ensures |r| <= |s| && r == s[|s| - |r|..]
    ensures AllSpace(s[..|s| - |r|])
    ensures r == [] || !IsSpace(r[0])
  {
    if s != [] && IsSpace(s[0]) then
      var r := TrimStart(s[1..]);
      assert s[..|s| - |r|] == [s[0]] + s[1..][..|s[1..]| - |r|];
      r
    else s
  }

  /** `s.rstrip()`: the longest prefix of `s` that does not end with whitespace. */
  function TrimEnd(s: string): (r: string)
    ensures |r| <= |s| && r == s[..|r|]
    ensures AllSpace(s[|r|..])
    ensures r == [] || !IsSpace(r[|r| - 1])
  {
    if s != [] && IsSpace(s[|s| - 1]) then
      var r := TrimEnd(s[..|s| - 1]);
      assert s[|r|..] == s[..|s| - 1][|r|..] + [s[|s| - 1]];
      r
    else s
  }

  /** `s.strip()`: `s` without its leading and trailing whitespace (see `StripRemovesSpace` and `StripEmpty`). */
  function Strip(s: string): (r: string)
    ensures |r| <= |s|
    ensures r == [] || (!IsSpace(r[0]) && !IsSpace(r[|r| - 1]))
  {
    TrimEnd(TrimStart(s))
  }

  /** `r` is the slice of `s` at position `k`, with only whitespace before and after it. */
  predicate PaddedBySpace(s: string, k: int, r: string) {
    0 <= k && k + |r| <= |s| && s[k..k + |r|] == r && AllSpace(s[..k]) && AllSpace(s[k + |r|..])
  }

  /**
   * `Strip(s)` is the slice of `s` that starts where `TrimStart` stops, and
   * what it leaves out is whitespace, before and after.
   */
  lemma StripRemovesSpace(s: string)
    ensures PaddedBySpace(s, |s| - |TrimStart(s)|, Strip(s))
  {
    StripSliceOf(s, TrimStart(s), Strip(s));
  }

  /** `Strip(s)` is empty exactly when `s` is all whitespace. */
  lemma StripEmpty(s: string)
    ensures Strip(s) == [] <==> AllSpace(s)
  {
    StripSliceOf(s, TrimStart(s), Strip(s));
  }

  /** The facts behind `StripRemovesSpace` and `StripEmpty`, for a suffix `t` of `s` and a prefix `r` of `t` with the properties of `TrimStart` and `TrimEnd`. */
  lemma StripSliceOf(s: string, t: string, r: string)
    requires |t| <= |s| && t == s[|s| - |t|..] && AllSpace(s[..|s| - |t|]) && (t == [] || !IsSpace(t[0]))
    requires |r| <= |t| && r == t[..|r|] && AllSpace(t[|r|..])
    ensures PaddedBySpace(s, |s| - |t|, r)
    ensures r == [] <==> AllSpace(s)
  {
    var k := |s| - |t|;
    assert s[k + |r|..] == t[|r|..];
    if r == [] {
      assert t[|r|..] == t;
      AllSpaceConcat(s[..k], t);
      assert s == s[..k] + t;
    } else {
      assert s[k] == r[0];
    }
  }

  lemma AllSpaceConcat(a: string, b: string)
    requires AllSpace(a) && AllSpace(b)
    ensures AllSpace(a + b)
  {
  }

  /** A string without surrounding whitespace is its own strip. */
  lemma StripFixpoint(s: string)
    requires s == [] || (!IsSpace(s[0]) && !IsSpace(s[|s| - 1]))
    ensures Strip(s) == s
  {
  }

  /** Stripping twice is stripping once. */
  lemma StripIdempotent(s: string)
    ensures Strip(Strip(s)) == Strip(s)
  {
    StripFixpoint(Strip(s));
  }

  /** Every character of `Strip(s)` is a character of `s`. */
  lemma StripChars(s: string, c: char)
    ensures c in Strip(s) ==> c in s
  {
    var k := |s| - |TrimStart(s)|;
    StripSliceOf(s, TrimStart(s), Strip(s));
    SliceChars(s, k, k + |Strip(s)|, c);
  }

  lemma SliceChars(s: string, lo: int, hi: int, c: char)
    requires 0 <= lo <= hi <= |s|
    ensures c in s[lo..hi] ==> c in s
  {
    if c in s[lo..hi] {
      var i :| lo <= i < hi && s[i] == c;
    }
  }

  /** `sep.join(pieces)`. */
  function Join(pieces: seq<string>, sep: char): string
    requires |pieces| >= 1
  {
    if |pieces| == 1 then pieces[0] else pieces[0] + [sep] + Join(pieces[1..], sep)
  }

  /**
   * `s.split(sep)` with an explicit one-character separator: the pieces between
   * separators, at least one (`"".split(",") == [""]`), none containing `sep`,
   * and joining them back with `sep` gives `s`.
   */
  function Split(s: string, sep: char): (pieces: seq<string>)
    ensures |pieces| >= 1
    ensures forall p :: p in pieces ==> sep !in p
    ensures Join(pieces, sep) == s
  {
    if s == [] then [""]
    else
      var rest := Split(s[1..], sep);
      if s[0] == sep then
        assert ([""] + rest)[1..] == rest;
        [""] + rest
      else
        SplitCons(s[0], rest, sep);
        assert s == [s[0]] + s[1..];
        [[s[0]] + rest[0]] + rest[1..]
  }

  /** A non-separator character in front of the input joins the first piece. */
  lemma SplitCons(c: char, rest: seq<string>, sep: char)
    requires c != sep && |rest| >= 1 && forall p :: p in rest ==> sep !in p
    ensures var pieces := [[c] + rest[0]] + rest[1..];
            (forall p :: p in pieces ==> sep !in p) && Join(pieces, sep) == [c] + Join(rest, sep)
  {
    var head := [c] + rest[0];
    var pieces := [head] + rest[1..];
    assert pieces[1..] == rest[1..];
    assert sep !in head by {
      assert rest[0] in rest;
    }
    assert forall p :: p in pieces ==> p == head || p in rest;
    if |rest| > 1 {
      assert Join(rest, sep) == rest[0] + [sep] + Join(rest[1..], sep);
      assert Join(pieces, sep) == head + [sep] + Join(rest[1..], sep);
    }
  }

  /** Splitting a separator-free string gives the string itself. */
  lemma {:induction false} SplitNoSeparator(a: string, sep: char)
    requires sep !in a
    ensures Split(a, sep) == [a]
  {
    if a != [] {
      SplitNoSeparator(a[1..], sep);
    }
  }

  /** Splitting `a + [sep] + b`, where `a` has no separator, gives `a` then the pieces of `b`. */
  lemma {:induction false} SplitAtFirstSeparator(a: string, b: string, sep: char)
    requires sep !in a
    ensures Split(a + [sep] + b, sep) == [a] + Split(b, sep)
  {
    if a == [] {
      assert ([sep] + b)[1..] == b;
    } else {
      assert (a + [sep] + b)[1..] == a[1..] + [sep] + b;
      SplitAtFirstSeparator(a[1..], b, sep);
      assert [a[0]] + a[1..] == a;
    }
  }

  /** Join then split is the identity on pieces that contain no separator. */
  lemma {:induction false} SplitJoin(pieces: seq<string>, sep: char)
    requires |pieces| >= 1
    requires forall p :: p in pieces ==> sep !in p
    ensures Split(Join(pieces, sep), sep) == pieces
  {
    if |pieces| == 1 {
      SplitNoSeparator(pieces[0], sep);
    } else {
      SplitJoin(pieces[1..], sep);
      SplitAtFirstSeparator(pieces[0], Join(pieces[1..], sep), sep);
      assert [pieces[0]] + pieces[1..] == pieces;
    }
  }

  /** `c.lower()` for ASCII; every other character is left alone. */
  function LowerChar(c: char): char {
    if 'A' <= c <= 'Z' then (c as int + 32) as char else c
  }

  /** `s.lower()`, character by character, with the length unchanged. */
  function Lower(s: string): (r: string)
    ensures |r| == |s|
    ensures forall i :: 0 <= i < |s| ==> r[i] == LowerChar(s[i])
  {
    if s == [] then [] else [LowerChar(s[0])] + Lower(s[1..])
  }

  /** A string without ASCII capitals is its own lower-case form. */
  lemma LowerOfLowercase(s: string)
    requires forall i :: 0 <= i < |s| ==> !('A' <= s[i] <= 'Z')
    ensures Lower(s) == s
  {
  }

  /** Lower-casing twice is lower-casing once. */
  lemma LowerIdempotent(s: string)
    ensures Lower(Lower(s)) == Lower(s)
  {
  }
}
