/**
  The two JavaScript string builtins the plugin relies on:
  `String.prototype.trim` and `String.prototype.toLowerCase`.
 */
module JsString {

  /** A code point `trim` strips: the WhiteSpace and LineTerminator characters of ECMAScript. */
  predicate IsSpace(c: char) {
    var n := c as int;
    || n == 0x09 || n == 0x0A || n == 0x0B || n == 0x0C || n == 0x0D
    || n == 0x20 || n == 0xA0 || n == 0x1680
    || (0x2000 <= n <= 0x200A)
    || n == 0x2028 || n == 0x2029 || n == 0x202F || n == 0x205F
    || n == 0x3000 || n == 0xFEFF
  }

  predicate AllSpace(s: string) {
    forall k :: 0 <= k < |s| ==> IsSpace(s[k])
  }

  /** The length of the run of white space that starts `s`. */
  function LeadingSpaces(s: string): (n: nat)
    ensures n <= |s|
  {
    if |s| == 0 || !IsSpace(s[0]) then 0 else 1 + LeadingSpaces(s[1..])
  }

  /** The leading run is all white space, and what follows it is not. */
  lemma {:induction false} LeadingSpacesSpec(s: string)
    ensures forall k :: 0 <= k < LeadingSpaces(s) ==> IsSpace(s[k])
    ensures LeadingSpaces(s) < |s| ==> !IsSpace(s[LeadingSpaces(s)])
    decreases |s|
  {
    if |s| > 0 && IsSpace(s[0]) {
      LeadingSpacesSpec(s[1..]);
    }
  }

  /** The length of the run of white space that ends `s`. */
  function TrailingSpaces(s: string): (n: nat)
    ensures n <= |s|
  {
    if |s| == 0 || !IsSpace(s[|s| - 1]) then 0 else 1 + TrailingSpaces(s[..|s| - 1])
  }

  /** The trailing run is all white space, and what precedes it is not. */
  lemma {:induction false} TrailingSpacesSpec(s: string)
    ensures forall k :: |s| - TrailingSpaces(s) <= k < |s| ==> IsSpace(s[k])
    ensures TrailingSpaces(s) < |s| ==> !IsSpace(s[|s| - TrailingSpaces(s) - 1])
    decreases |s|
  {
    if |s| > 0 && IsSpace(s[|s| - 1]) {
      TrailingSpacesSpec(s[..|s| - 1]);
    }
  }

  /** `s.trim()`: `s` without its leading and trailing white space. */
  function Trim(s: string): (r: string)
    ensures |r| <= |s|
    ensures r == [] <==> AllSpace(s)
    ensures r != [] ==> !IsSpace(r[0]) && !IsSpace(r[|r| - 1])
  {
    var a := LeadingSpaces(s);
    LeadingSpacesSpec(s);
    assert a < |s| ==> !AllSpace(s) by {
      if a < |s| { assert !IsSpace(s[a]); }
    }
    DropTrailing(s[a..])
  }

  /** `x` without its trailing white space. */
  function DropTrailing(x: string): (r: string)
    ensures |r| <= |x|
    ensures x != [] && !IsSpace(x[0]) ==> r != [] && !IsSpace(r[0]) && !IsSpace(r[|r| - 1])
  {
    TrailingSpacesSpec(x);
    x[..|x| - TrailingSpaces(x)]
  }

  /** `c.toLowerCase()` for one character; only the ASCII letters A-Z are folded. */
  function LowerChar(c: char): (d: char)
    ensures 'A' <= c <= 'Z' ==> 'a' <= d <= 'z' && d as int - c as int == 32
    ensures !('A' <= c <= 'Z') ==> d == c
  {
    if 'A' <= c <= 'Z' then (c as int + 32) as char else c
  }

  /** `s.toLowerCase()`, character by character. */
  function ToLower(s: string): (r: string)
    ensures |r| == |s|
    ensures forall k :: 0 <= k < |s| ==> r[k] == LowerChar(s[k])
    ensures forall k :: 0 <= k < |s| ==> !('A' <= r[k] <= 'Z')
    ensures forall k :: 0 <= k < |s| ==> ('A' <= s[k] <= 'Z' ==> r[k] as int == s[k] as int + 32)
    ensures forall k :: 0 <= k < |s| ==> (!('A' <= s[k] <= 'Z') ==> r[k] == s[k])
  {
    seq(|s|, k requires 0 <= k < |s| => LowerChar(s[k]))
  }

  /** Lower-casing leaves no upper-case ASCII letter behind, so doing it twice changes nothing. */
  lemma ToLowerIdempotent(s: string)
    ensures ToLower(ToLower(s)) == ToLower(s)
  {
  }

  /** Lower-casing neither creates nor destroys white space. */
  lemma LowerCharKeepsSpace(c: char)
    ensures IsSpace(LowerChar(c)) <==> IsSpace(c)
  {
  }

  /** Lower-casing keeps white space and everything else apart at both ends. */
  lemma ToLowerKeepsEnds(s: string)
    ensures s != [] ==> (IsSpace(ToLower(s)[0]) <==> IsSpace(s[0]))
    ensures s != [] ==> (IsSpace(ToLower(s)[|s| - 1]) <==> IsSpace(s[|s| - 1]))
  {
    if s != [] {
      LowerCharKeepsSpace(s[0]);
      LowerCharKeepsSpace(s[|s| - 1]);
    }
  }

  lemma {:induction false} LeadingSpacesOfLower(s: string)
    ensures LeadingSpaces(ToLower(s)) == LeadingSpaces(s)
    decreases |s|
  {
    if |s| > 0 {
      LowerCharKeepsSpace(s[0]);
      if IsSpace(s[0]) {
        assert ToLower(s)[1..] == ToLower(s[1..]);
        LeadingSpacesOfLower(s[1..]);
      }
    }
  }

  lemma {:induction false} TrailingSpacesOfLower(s: string)
    ensures TrailingSpaces(ToLower(s)) == TrailingSpaces(s)
    decreases |s|
  {
    if |s| > 0 {
      var t := ToLower(s);
      var last := s[|s| - 1];
      LowerCharKeepsSpace(last);
      assert t[|t| - 1] == LowerChar(last);
      if IsSpace(last) {
        var front := s[..|s| - 1];
        assert t[..|t| - 1] == ToLower(front);
        TrailingSpacesOfLower(front);
        assert TrailingSpaces(t) == 1 + TrailingSpaces(t[..|t| - 1]);
      } else {
        assert TrailingSpaces(t) == 0;
      }
    }
  }

  lemma DropTrailingOfLower(x: string)
    ensures DropTrailing(ToLower(x)) == ToLower(DropTrailing(x))
  {
    TrailingSpacesOfLower(x);
    var n := |x| - TrailingSpaces(x);
    assert ToLower(x)[..n] == ToLower(x[..n]);
  }

  /** Trimming and lower-casing commute: the source trims first, but the order does not matter. */
  lemma {:induction false} TrimToLowerCommute(s: string)
    ensures Trim(ToLower(s)) == ToLower(Trim(s))
  {
    LeadingSpacesOfLower(s);
    var a := LeadingSpaces(s);
    assert ToLower(s)[a..] == ToLower(s[a..]);
    DropTrailingOfLower(s[a..]);
  }

  /** A string that neither starts nor ends with white space is its own trim. */
  lemma TrimOfTrimmed(s: string)
    requires s == [] || (!IsSpace(s[0]) && !IsSpace(s[|s| - 1]))
    ensures Trim(s) == s
  {
  }

  /** Trimming twice is trimming once. */
  lemma TrimIdempotent(s: string)
    ensures Trim(Trim(s)) == Trim(s)
  {
    TrimOfTrimmed(Trim(s));
  }

  lemma {:induction false} LeadingSpacesOfPadded(pad: string, s: string)
    requires AllSpace(pad)
    ensures LeadingSpaces(pad + s) == |pad| + LeadingSpaces(s)
    decreases |pad|
  {
    if |pad| > 0 {
      assert (pad + s)[1..] == pad[1..] + s;
      LeadingSpacesOfPadded(pad[1..], s);
    } else {
      assert pad + s == s;
    }
  }

  lemma {:induction false} TrailingSpacesOfPadded(s: string, pad: string)
    requires AllSpace(pad)
    ensures TrailingSpaces(s + pad) == TrailingSpaces(s) + |pad|
    decreases |pad|
  {
    if |pad| > 0 {
      assert (s + pad)[..|s + pad| - 1] == s + pad[..|pad| - 1];
      TrailingSpacesOfPadded(s, pad[..|pad| - 1]);
    } else {
      assert s + pad == s;
    }
  }

  /** Appending text after a non-space character does not change the leading run. */
  lemma {:induction false} LeadingSpacesOfAppend(s: string, t: string)
    requires LeadingSpaces(s) < |s|
    ensures LeadingSpaces(s + t) == LeadingSpaces(s)
    decreases |s|
  {
    if IsSpace(s[0]) {
      assert (s + t)[1..] == s[1..] + t;
      LeadingSpacesOfAppend(s[1..], t);
    }
  }

  lemma AllSpaceConcat(a: string, b: string)
    requires AllSpace(a) && AllSpace(b)
    ensures AllSpace(a + b)
  {
    forall k | 0 <= k < |a + b| ensures IsSpace((a + b)[k]) {
      if k >= |a| { assert (a + b)[k] == b[k - |a|]; }
    }
  }

  lemma DropTrailingPadding(core: string, after: string)
    requires AllSpace(after)
    ensures DropTrailing(core + after) == DropTrailing(core)
  {
    TrailingSpacesOfPadded(core, after);
    var n := |core| - TrailingSpaces(core);
    assert (core + after)[..n] == core[..n];
  }

  /** Proof helper: concatenation is associative. */
  lemma ConcatAssoc(a: string, b: string, c: string)
    ensures a + b + c == a + (b + c)
  {
  }

  /** Proof helper: dropping the first part of a concatenation leaves the second. */
  lemma SuffixOfConcat(a: string, b: string)
    ensures (a + b)[|a|..] == b
  {
  }

  /** Proof helper: a suffix of `s` followed by `after` is the same suffix of `s + after`. */
  lemma SliceOfAppend(s: string, after: string, k: nat)
    requires k <= |s|
    ensures (s + after)[k..] == s[k..] + after
  {
  }

  lemma TrimPaddedCore(before: string, s: string, after: string)
    requires AllSpace(before) && AllSpace(after)
    requires LeadingSpaces(s) < |s|
    ensures Trim(before + (s + after)) == Trim(s)
  {
    var core := s[LeadingSpaces(s)..];
    TrimOfPadded(before, s, after);
    TrimIsDropTrailing(s, LeadingSpaces(s), core);
    DropTrailingPadding(core, after);
  }

  /** With a non-space character in `s`, trimming the padded string drops exactly the front padding and the leading run of `s`. */
  lemma TrimOfPadded(before: string, s: string, after: string)
    requires AllSpace(before) && AllSpace(after)
    requires LeadingSpaces(s) < |s|
    ensures Trim(before + (s + after)) == DropTrailing(s[LeadingSpaces(s)..] + after)
  {
    var la := LeadingSpaces(s);
    var u := s + after;
    LeadingSpacesOfAppend(s, after);
    SliceOfAppend(s, after, la);
    DropFrontPadding(before, u, la, s[la..] + after);
  }

  /** Proof helper: white space in front of `u` joins the leading run that `Trim` drops. */
  lemma DropFrontPadding(before: string, u: string, la: nat, x: string)
    requires AllSpace(before)
    requires la == LeadingSpaces(u) && u[la..] == x
    ensures Trim(before + u) == DropTrailing(x)
  {
    SliceAfterPrefix(before, u, la);
    LeadingSpacesOfPadded(before, u);
    TrimIsDropTrailing(before + u, |before| + la, x);
  }

  /** Proof helper: a suffix of `u` is the matching suffix of `before + u`. */
  lemma SliceAfterPrefix(before: string, u: string, k: nat)
    requires k <= |u|
    ensures (before + u)[|before| + k..] == u[k..]
  {
  }

  /** Proof helper: `Trim` unfolded, once the leading run and the rest are known. */
  lemma TrimIsDropTrailing(t: string, a: nat, x: string)
    requires a == LeadingSpaces(t) && t[a..] == x
    ensures Trim(t) == DropTrailing(x)
  {
  }

  /** Surrounding white space of any length is invisible to `trim`. */
  lemma TrimIgnoresPadding(before: string, s: string, after: string)
    requires AllSpace(before) && AllSpace(after)
    ensures Trim(before + s + after) == Trim(s)
  {
    var la := LeadingSpaces(s);
    ConcatAssoc(before, s, after);
    if la < |s| {
      TrimPaddedCore(before, s, after);
    } else {
      LeadingSpacesSpec(s);
      AllSpaceConcat(before, s);
      AllSpaceConcat(before + s, after);
    }
  }
}
