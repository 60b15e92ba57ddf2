/**
 * E-mail normalisation as the signup form applies it: `email.trim().toLowerCase()`.
 *
 * `Trim` removes exactly the characters ECMAScript's `String.prototype.trim`
 * removes (the WhiteSpace and LineTerminator code points). `Lower` folds the
 * ASCII upper-case letters only; the full Unicode case mapping of
 * `toLowerCase` is not modelled.
 */
module Text {

  /** The code points `String.prototype.trim` strips, as closed ranges: WhiteSpace
      (tab, vertical tab, form feed, space, no-break space, the other Space_Separator
      characters and the zero-width no-break space) and LineTerminator (line feed,
      carriage return, line and paragraph separators). */
  const WhitespaceRanges: seq<(int, int)> :=
    [(0x09, 0x0D), (0x20, 0x20), (0xA0, 0xA0), (0x1680, 0x1680), (0x2000, 0x200A),
     (0x2028, 0x2029), (0x202F, 0x202F), (0x205F, 0x205F), (0x3000, 0x3000), (0xFEFF, 0xFEFF)]

  predicate InRanges(n: int, ranges: seq<(int, int)>)
  {
    ranges != [] && ((ranges[0].0 <= n <= ranges[0].1) || InRanges(n, ranges[1..]))
  }

  predicate IsWhitespace(c: char)
  {
    InRanges(c as int, WhitespaceRanges)
  }

  predicate AllWhitespace(s: string)
  {
    forall i :: 0 <= i < |s| ==> IsWhitespace(s[i])
  }

  /** A string with nothing for `trim` to remove: no whitespace at either end. */
  predicate Unpadded(s: string)
  {
    s == [] || (!IsWhitespace(s[0]) && !IsWhitespace(s[|s| - 1]))
  }

  /** How many whitespace characters `s` starts with. */
  function LeadingWhitespace(s: string): (n: nat)
    ensures n <= |s|
  {
    if s != [] && IsWhitespace(s[0]) then 1 + LeadingWhitespace(s[1..]) else 0
  }

  /** How many whitespace characters `s` ends with. */
  function TrailingWhitespace(s: string): (n: nat)
    ensures n <= |s|
  {
    if s != [] && IsWhitespace(s[|s| - 1]) then 1 + TrailingWhitespace(s[..|s| - 1]) else 0
  }

  /** The leading count covers whitespace only and stops at the first other character. */
  lemma {:induction false} LeadingWhitespaceExact(s: string)
    ensures forall k :: 0 <= k < LeadingWhitespace(s) ==> IsWhitespace(s[k])
    ensures LeadingWhitespace(s) < |s| ==> !IsWhitespace(s[LeadingWhitespace(s)])
  {
    if s != [] && IsWhitespace(s[0]) {
      LeadingWhitespaceExact(s[1..]);
    }
  }

  /** The trailing count covers whitespace only and stops at the last other character. */
  lemma {:induction false} TrailingWhitespaceExact(s: string)
    ensures forall k :: |s| - TrailingWhitespace(s) <= k < |s| ==> IsWhitespace(s[k])
    ensures TrailingWhitespace(s) < |s| ==> !IsWhitespace(s[|s| - 1 - TrailingWhitespace(s)])
  {
    if s != [] && IsWhitespace(s[|s| - 1]) {
      TrailingWhitespaceExact(s[..|s| - 1]);
    }
  }

  /** A run of `n` whitespace characters followed by the end or by another character
      is the leading count. */
  lemma {:induction false} LeadingWhitespaceIs(s: string, n: nat)
    requires n <= |s|
    requires forall k :: 0 <= k < n ==> IsWhitespace(s[k])
    requires n < |s| ==> !IsWhitespace(s[n])
    ensures LeadingWhitespace(s) == n
  {
    if n > 0 {
      LeadingWhitespaceIs(s[1..], n - 1);
    }
  }

  /** A run of `n` whitespace characters preceded by the start or by another
      character is the trailing count. */
  lemma {:induction false} TrailingWhitespaceIs(s: string, n: nat)
    requires n <= |s|
    requires forall k :: |s| - n <= k < |s| ==> IsWhitespace(s[k])
    requires n < |s| ==> !IsWhitespace(s[|s| - 1 - n])
    ensures TrailingWhitespace(s) == n
  {
    if n > 0 {
      TrailingWhitespaceIs(s[..|s| - 1], n - 1);
    }
  }

  /** `String.prototype.trim`: drop the leading whitespace, then the trailing
      whitespace of what is left. */
  function Trim(s: string): (r: string)
    ensures |r| <= |s|
  {
    var t := s[LeadingWhitespace(s)..];
    t[..|t| - TrailingWhitespace(t)]
  }

  /** What `trim` keeps has no whitespace at either end. */
  lemma TrimResultUnpadded(s: string)
    ensures Unpadded(Trim(s))
  {
    var t := s[LeadingWhitespace(s)..];
    LeadingWhitespaceExact(s);
    TrailingWhitespaceExact(t);
    var r := Trim(s);
    if r != [] {
      assert r[0] == t[0] && r[|r| - 1] == t[|t| - 1 - TrailingWhitespace(t)];
    }
  }

  /** What `trim` keeps is a contiguous slice of the input, and what it cuts off on
      either side is whitespace only. */
  lemma TrimIsSlice(s: string)
    ensures exists i, j :: 0 <= i <= j <= |s| && Trim(s) == s[i..j] &&
                           AllWhitespace(s[..i]) && AllWhitespace(s[j..])
  {
    var i := LeadingWhitespace(s);
    var t := s[i..];
    var j := i + |t| - TrailingWhitespace(t);
    LeadingWhitespaceExact(s);
    TrailingWhitespaceExact(t);
    forall k | 0 <= k < i ensures IsWhitespace(s[..i][k]) {
      assert s[..i][k] == s[k];
    }
    forall k | 0 <= k < |s| - j ensures IsWhitespace(s[j..][k]) {
      assert s[j..][k] == t[j - i + k];
    }
    assert Trim(s) == s[i..j];
  }

  predicate IsAsciiUpper(c: char)
  {
    'A' <= c <= 'Z'
  }

  function LowerChar(c: char): char
  {
    if IsAsciiUpper(c) then (c as int + 32) as char else c
  }

  /** `toLowerCase` restricted to ASCII: every upper-case ASCII letter becomes its
      lower-case partner, every other character stays, and no upper-case ASCII letter remains. */
  function Lower(s: string): (r: string)
    ensures |r| == |s|
    ensures forall i :: 0 <= i < |s| ==> r[i] == LowerChar(s[i])
    ensures forall i :: 0 <= i < |r| ==> !IsAsciiUpper(r[i])
  {
    seq(|s|, i requires 0 <= i < |s| => LowerChar(s[i]))
  }

  /** The form's normalisation of an e-mail address: trim, then lower-case. */
  function Normalize(email: string): (r: string)
    ensures |r| <= |email|
    ensures Unpadded(r)
    ensures forall i :: 0 <= i < |r| ==> !IsAsciiUpper(r[i])
  {
    TrimResultUnpadded(email);
    var t := Trim(email);
    if t != [] then
      LowerCharKeepsWhitespace(t[0]);
      LowerCharKeepsWhitespace(t[|t| - 1]);
      Lower(t)
    else
      Lower(t)
  }

  /** A string with no whitespace at its ends is left alone by `trim`. */
  lemma TrimUnpadded(s: string)
    requires Unpadded(s)
    ensures Trim(s) == s
  {
  }

  /** Lower-casing twice is lower-casing once. */
  lemma LowerIdempotent(s: string)
    ensures Lower(Lower(s)) == Lower(s)
  {
  }

  predicate IsAsciiLetterCode(n: int)
  {
    0x41 <= n <= 0x5A || 0x61 <= n <= 0x7A
  }

  /** A range table none of whose ranges meets the ASCII letters contains no letter. */
  lemma {:induction false} LetterNotInRanges(n: int, ranges: seq<(int, int)>)
    requires IsAsciiLetterCode(n)
    requires forall k :: 0 <= k < |ranges| ==>
               ranges[k].1 < 0x41 || (0x5A < ranges[k].0 && ranges[k].1 < 0x61) || 0x7A < ranges[k].0
    ensures !InRanges(n, ranges)
  {
    if ranges != [] {
      LetterNotInRanges(n, ranges[1..]);
    }
  }

  /** Case folding never turns whitespace into non-whitespace or back. */
  lemma LowerCharKeepsWhitespace(c: char)
    ensures IsWhitespace(LowerChar(c)) == IsWhitespace(c)
  {
    if IsAsciiUpper(c) {
      LetterNotInRanges(c as int, WhitespaceRanges);
      LetterNotInRanges(LowerChar(c) as int, WhitespaceRanges);
    }
  }

  /** Lower-casing leaves the whitespace margins of a string where they were. */
  lemma {:induction false} LowerKeepsMargins(s: string)
    ensures LeadingWhitespace(Lower(s)) == LeadingWhitespace(s)
    ensures TrailingWhitespace(Lower(s)) == TrailingWhitespace(s)
  {
    forall k | 0 <= k < |s| ensures IsWhitespace(Lower(s)[k]) == IsWhitespace(s[k]) {
      LowerCharKeepsWhitespace(s[k]);
    }
    LeadingWhitespaceExact(s);
    LeadingWhitespaceExact(Lower(s));
    TrailingWhitespaceExact(s);
    TrailingWhitespaceExact(Lower(s));
  }

  /** Lower-casing a slice is slicing the lower-cased string. */
  lemma LowerSlice(s: string, i: nat, j: nat)
    requires i <= j <= |s|
    ensures Lower(s)[i..j] == Lower(s[i..j])
  {
    var u, v := Lower(s)[i..j], Lower(s[i..j]);
    forall k | 0 <= k < |u| ensures u[k] == v[k] {
      assert u[k] == LowerChar(s[i + k]);
    }
  }

  /** Trimming and ASCII lower-casing commute, so the order the form applies them in
      does not matter. */
  lemma {:induction false} LowerTrimCommute(s: string)
    ensures Trim(Lower(s)) == Lower(Trim(s))
  {
    var i := LeadingWhitespace(s);
    var t := s[i..];
    var m := |t| - TrailingWhitespace(t);
    LowerKeepsMargins(s);
    LowerSlice(s, i, |s|);
    assert Lower(s)[LeadingWhitespace(Lower(s))..] == Lower(t);
    LowerKeepsMargins(t);
    LowerSlice(t, 0, m);
    assert Lower(t)[..m] == Lower(t[..m]);
  }

  /** Normalising a normalised address changes nothing. */
  lemma NormalizeIdempotent(email: string)
    ensures Normalize(Normalize(email)) == Normalize(email)
  {
    var t := Trim(email);
    TrimResultUnpadded(email);
    LowerTrimCommute(t);
    TrimUnpadded(t);
    LowerIdempotent(t);
  }

  /** Two addresses that agree up to ASCII case and surrounding whitespace have the
      same normalisation. */
  lemma NormalizeIgnoresCaseAndPadding(a: string, b: string)
    requires Trim(Lower(a)) == Trim(Lower(b))
    ensures Normalize(a) == Normalize(b)
  {
    LowerTrimCommute(a);
    LowerTrimCommute(b);
  }

  /** A string with no whitespace at its ends, padded on either side with whitespace,
      trims back to itself. */
  lemma TrimOfPadded(u: string, r: string, v: string)
    requires AllWhitespace(u) && AllWhitespace(v)
    requires r != [] && Unpadded(r)
    ensures Trim(u + r + v) == r
  {
    var s := u + r + v;
    forall k | 0 <= k < |u| ensures IsWhitespace(s[k]) {
      assert s[k] == u[k];
    }
    assert s[|u|] == r[0];
    LeadingWhitespaceIs(s, |u|);
    var t := s[|u|..];
    assert t == r + v;
    forall k | |t| - |v| <= k < |t| ensures IsWhitespace(t[k]) {
      assert t[k] == v[k - |r|];
    }
    assert t[|t| - 1 - |v|] == r[|r| - 1];
    TrailingWhitespaceIs(t, |v|);
    assert t[..|r|] == r;
  }

  lemma WhitespaceConcat(x: string, y: string)
    requires AllWhitespace(x) && AllWhitespace(y)
    ensures AllWhitespace(x + y)
  {
    forall k | 0 <= k < |x + y| ensures IsWhitespace((x + y)[k]) {
      if k < |x| { assert (x + y)[k] == x[k]; } else { assert (x + y)[k] == y[k - |x|]; }
    }
  }

  lemma Regroup(p: string, a: string, q: string, i: nat, j: nat)
    requires i <= j <= |a|
    ensures p + a + q == (p + a[..i]) + a[i..j] + (a[j..] + q)
  {
    assert a == a[..i] + a[i..j] + a[j..];
  }

  /** Whitespace added around a string does not change what `trim` returns. */
  lemma TrimIgnoresPadding(p: string, a: string, q: string)
    requires AllWhitespace(p) && AllWhitespace(q)
    ensures Trim(p + a + q) == Trim(a)
  {
    TrimIsSlice(a);
    var i, j :| 0 <= i <= j <= |a| && Trim(a) == a[i..j] &&
                AllWhitespace(a[..i]) && AllWhitespace(a[j..]);
    var u, v := p + a[..i], a[j..] + q;
    WhitespaceConcat(p, a[..i]);
    WhitespaceConcat(a[j..], q);
    Regroup(p, a, q, i, j);
    if i < j {
      TrimResultUnpadded(a);
      TrimOfPadded(u, a[i..j], v);
    } else {
      WhitespaceConcat(u, v);
      assert p + a + q == u + v;
      TrimAllWhitespace(u + v);
    }
  }

  /** Whitespace added around an address does not change its normalisation. */
  lemma NormalizeIgnoresPadding(p: string, a: string, q: string)
    requires AllWhitespace(p) && AllWhitespace(q)
    ensures Normalize(p + a + q) == Normalize(a)
  {
    TrimIgnoresPadding(p, a, q);
  }

  /** A string made only of whitespace trims to the empty string. */
  lemma TrimAllWhitespace(s: string)
    requires AllWhitespace(s)
    ensures Trim(s) == []
  {
    LeadingWhitespaceExact(s);
  }
}
