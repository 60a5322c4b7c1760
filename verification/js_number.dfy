/**
  The JavaScript number builtins the settings screen relies on: `parseInt(text, 10)` to read
  the refresh interval the user typed, and `String(n)` to show the stored interval back in
  the same field. Numbers are modelled as unbounded integers.
 */
module JsNumber {
  import opened Options
  import opened JsString

  predicate IsDigit(c: char) {
    '0' <= c <= '9'
  }

  predicate AllDigits(s: string) {
    forall k :: 0 <= k < |s| ==> IsDigit(s[k])
  }

  /** The length of the run of decimal digits that starts `s`. */
  function DigitRun(s: string): (n: nat)
    ensures n <= |s|
  {
    if |s| == 0 || !IsDigit(s[0]) then 0 else 1 + DigitRun(s[1..])
  }

  /** The digit run is all digits, and what follows it is not a digit. */
  lemma {:induction false} DigitRunSpec(s: string)
    ensures AllDigits(s[..DigitRun(s)])
    ensures DigitRun(s) < |s| ==> !IsDigit(s[DigitRun(s)])
    decreases |s|
  {
    if |s| > 0 && IsDigit(s[0]) {
      DigitRunSpec(s[1..]);
      assert s[..DigitRun(s)] == [s[0]] + s[1..][..DigitRun(s[1..])];
    }
  }

  /** The value of a string of decimal digits, most significant first. */
  function DigitsValue(ds: string): nat {
    if |ds| == 0 then 0
    else 10 * DigitsValue(ds[..|ds| - 1]) + DigitValue(ds[|ds| - 1])
  }

  function DigitValue(c: char): (d: nat)
    ensures d < 10
  {
    if IsDigit(c) then c as int - '0' as int else 0
  }

  /**
    `parseInt(s, 10)`: leading white space is skipped, then an optional `-` or `+`, then the
    longest run of decimal digits; everything after that run is ignored. Without a single digit
    the answer is NaN, modelled as `None`.
   */
  function ParseInt(s: string): (r: Option<int>)
    ensures AllSpace(s) ==> r.None?
    ensures |s| > 0 && IsDigit(s[0]) ==> r.Some? && r.value >= 0
  {
    LeadingSpacesSpec(s);
    ParseSigned(s[LeadingSpaces(s)..])
  }

  /** The part of `parseInt` after the white space: optional sign, then the digit run. */
  function ParseSigned(t: string): Option<int> {
    ParseDigits(|t| > 0 && t[0] == '-', t[SignLength(t)..])
  }

  /** 1 when `t` starts with a sign character, else 0. */
  function SignLength(t: string): (k: nat)
    ensures k <= |t|
  {
    if |t| > 0 && (t[0] == '-' || t[0] == '+') then 1 else 0
  }

  /** The leading digit run of `body` as a number, negated when a `-` preceded it. */
  function ParseDigits(negative: bool, body: string): Option<int> {
    var n := DigitRun(body);
    if n == 0 then None
    else Some((if negative then -1 else 1) * DigitsValue(body[..n]))
  }

  function DigitChar(d: nat): (c: char)
    requires d < 10
    ensures IsDigit(c) && c as int - '0' as int == d
  {
    ('0' as int + d) as char
  }

  /** The decimal text of a natural number, without leading zeros. */
  function NatToString(n: nat): (r: string)
    ensures |r| > 0 && AllDigits(r)
    ensures r[0] == '0' ==> n == 0
    decreases n
  {
    if n < 10 then [DigitChar(n)] else NatToString(n / 10) + [DigitChar(n % 10)]
  }

  /** `String(n)` for an integral number `n`. */
  function IntToString(n: int): (r: string)
    ensures |r| > 0
    ensures n < 0 <==> r[0] == '-'
    ensures n >= 0 ==> AllDigits(r) && (r[0] == '0' ==> n == 0)
    ensures n < 0 ==> |r| > 1 && AllDigits(r[1..]) && r[1] != '0'
  {
    if n < 0 then "-" + NatToString(-n) else NatToString(n)
  }

  lemma {:induction false} NatToStringValue(n: nat)
    ensures DigitsValue(NatToString(n)) == n
    decreases n
  {
    if n >= 10 {
      var r := NatToString(n);
      assert r[..|r| - 1] == NatToString(n / 10);
      NatToStringValue(n / 10);
    }
  }

  lemma {:induction false} DigitRunOfDigits(ds: string, tail: string)
    requires AllDigits(ds)
    requires tail == [] || !IsDigit(tail[0])
    ensures DigitRun(ds + tail) == |ds|
    decreases |ds|
  {
    if |ds| == 0 {
      assert ds + tail == tail;
    } else {
      assert (ds + tail)[1..] == ds[1..] + tail;
      DigitRunOfDigits(ds[1..], tail);
    }
  }

  /**
    Reading back what `String` printed recovers the number, whatever follows it, so long as
    the next character is not a digit.
   */
  lemma ParseIntToString(n: int, tail: string)
    requires tail == [] || !IsDigit(tail[0])
    ensures ParseInt(IntToString(n) + tail) == Some(n)
  {
    var m: nat := if n < 0 then -n else n;
    NatToStringValue(m);
    ParseIntOfSignedDigits(n < 0, NatToString(m), tail, IntToString(n) + tail);
  }

  /** A digit run, with a `-` in front when negative, followed by a non-digit reads as its value. */
  lemma ParseIntOfSignedDigits(negative: bool, ds: string, tail: string, s: string)
    requires |ds| > 0 && AllDigits(ds)
    requires tail == [] || !IsDigit(tail[0])
    requires s == (if negative then "-" + ds else ds) + tail
    ensures ParseInt(s) == Some((if negative then -1 else 1) * DigitsValue(ds))
  {
    var x := ds + tail;
    var k := if negative then 1 else 0;
    if negative {
      ConcatAssoc("-", ds, tail);
      SuffixOfConcat("-", x);
    }
    assert s[k..] == x;
    assert s[0] == (if negative then '-' else ds[0]);
    assert LeadingSpaces(s) == 0;
    assert s[0..] == s;
    assert SignLength(s) == k;
    ParseDigitsOfDigits(negative, ds, tail);
  }

  /** Leading white space is skipped: `parseInt` reads whatever follows it. */
  lemma ParseIntSkipsSpace(ws: string, t: string)
    requires AllSpace(ws)
    requires t == [] || !IsSpace(t[0])
    ensures ParseInt(ws + t) == ParseSigned(t)
  {
    LeadingSpacesOfPadded(ws, t);
    assert LeadingSpaces(t) == 0;
    SuffixOfConcat(ws, t);
  }

  /** An optional sign, then digits, then a non-digit: the signed value of the digits. */
  lemma ParseSignedOfDigits(sign: string, ds: string, tail: string)
    requires sign == "" || sign == "+" || sign == "-"
    requires |ds| > 0 && AllDigits(ds)
    requires tail == [] || !IsDigit(tail[0])
    ensures ParseSigned(sign + (ds + tail)) == Some((if sign == "-" then -1 else 1) * DigitsValue(ds))
  {
    var t := sign + (ds + tail);
    SuffixOfConcat(sign, ds + tail);
    assert t[0] == (if sign == "" then ds[0] else sign[0]);
    assert SignLength(t) == |sign|;
    ParseDigitsOfDigits(sign == "-", ds, tail);
  }

  /**
    What `parseInt` reads from every text that has a number: white space, an optional sign, a
    digit run and then anything that does not continue the run.
   */
  lemma ParseIntOfText(ws: string, sign: string, ds: string, tail: string)
    requires AllSpace(ws)
    requires sign == "" || sign == "+" || sign == "-"
    requires |ds| > 0 && AllDigits(ds)
    requires tail == [] || !IsDigit(tail[0])
    ensures ParseInt(ws + (sign + (ds + tail))) == Some((if sign == "-" then -1 else 1) * DigitsValue(ds))
  {
    var t := sign + (ds + tail);
    assert t[0] == (if sign == "" then ds[0] else sign[0]);
    ParseIntSkipsSpace(ws, t);
    ParseSignedOfDigits(sign, ds, tail);
  }

  /** Without a digit right after the optional sign there is no number. */
  lemma ParseSignedNoDigits(sign: string, rest: string)
    requires sign == "" || sign == "+" || sign == "-"
    requires rest == [] || !IsDigit(rest[0])
    requires sign == "" && rest != [] ==> rest[0] != '+' && rest[0] != '-'
    ensures ParseSigned(sign + rest) == None
  {
    var t := sign + rest;
    SuffixOfConcat(sign, rest);
    assert SignLength(t) == |sign|;
    assert DigitRun(rest) == 0;
  }

  /**
    Every text without a number reads as NaN: white space, an optional sign, and then no digit.
    Without a sign, what follows the white space is neither white space nor a sign.
   */
  lemma ParseIntOfNoDigits(ws: string, sign: string, rest: string)
    requires AllSpace(ws)
    requires sign == "" || sign == "+" || sign == "-"
    requires rest == [] || !IsDigit(rest[0])
    requires sign == "" && rest != [] ==> !IsSpace(rest[0]) && rest[0] != '+' && rest[0] != '-'
    ensures ParseInt(ws + (sign + rest)) == None
  {
    var t := sign + rest;
    assert t == [] || t[0] == (if sign == "" then rest[0] else sign[0]);
    ParseIntSkipsSpace(ws, t);
    ParseSignedNoDigits(sign, rest);
  }

  /** Letters, a lone sign and a sign before a letter read as NaN. */
  lemma ParseIntNaNExamples()
    ensures ParseInt("abc") == None
    ensures ParseInt("-") == None
    ensures ParseInt("+x") == None
  {
    assert ParseInt("abc") == None by {
      assert "" + ("" + "abc") == "abc";
      ParseIntOfNoDigits("", "", "abc");
    }
    assert ParseInt("-") == None by {
      assert "" + ("-" + "") == "-";
      ParseIntOfNoDigits("", "-", "");
    }
    assert ParseInt("+x") == None by {
      assert "" + ("+" + "x") == "+x";
      ParseIntOfNoDigits("", "+", "x");
    }
  }

  /** A sign in front of the digits is read, and letters after them are ignored. */
  lemma ParseIntSignExample()
    ensures ParseInt("-42px") == Some(-42)
  {
    assert "" + ("-" + ("42" + "px")) == "-42px";
    assert DigitsValue("42") == 42 by { assert "42"[..1] == "4" && "4"[..0] == ""; }
    ParseIntOfText("", "-", "42", "px");
  }

  /** A plus sign is read and changes nothing. */
  lemma ParseIntPlusExample()
    ensures ParseInt("+5") == Some(5)
  {
    assert "" + ("+" + ("5" + "")) == "+5";
    assert DigitsValue("5") == 5 by { assert "5"[..0] == ""; }
    ParseIntOfText("", "+", "5", "");
  }

  /** Leading white space and leading zeros are read through. */
  lemma ParseIntPaddingExample()
    ensures ParseInt(" 007") == Some(7)
  {
    assert " " + ("" + ("007" + "")) == " 007";
    assert DigitsValue("007") == 7 by {
      assert "007"[..2] == "00" && "00"[..1] == "0" && "0"[..0] == "";
    }
    ParseIntOfText(" ", "", "007", "");
  }

  /** A run of digits followed by a non-digit reads as the run's value. */
  lemma ParseDigitsOfDigits(negative: bool, ds: string, tail: string)
    requires |ds| > 0 && AllDigits(ds)
    requires tail == [] || !IsDigit(tail[0])
    ensures ParseDigits(negative, ds + tail) == Some((if negative then -1 else 1) * DigitsValue(ds))
  {
    DigitRunOfDigits(ds, tail);
    assert (ds + tail)[..|ds|] == ds;
  }

  /** Truncating `s` after its leading digit run does not change that run. */
  lemma {:induction false} DigitRunOfPrefix(s: string, p: nat)
    requires DigitRun(s) <= p <= |s|
    ensures DigitRun(s[..p]) == DigitRun(s)
    decreases |s|
  {
    if |s| > 0 && IsDigit(s[0]) {
      assert s[..p][1..] == s[1..][..p - 1];
      DigitRunOfPrefix(s[1..], p - 1);
    }
  }

  /** A digit run ends at the first white space at the latest. */
  lemma {:induction false} DigitRunStopsAtSpace(x: string, i: nat)
    requires i < |x| && IsSpace(x[i])
    ensures DigitRun(x) <= i
    decreases i
  {
    if i > 0 && IsDigit(x[0]) {
      assert x[1..][i - 1] == x[i];
      DigitRunStopsAtSpace(x[1..], i - 1);
    }
  }

  /** Cutting the text anywhere after the digit run does not change the number read. */
  lemma ParseDigitsOfPrefix(negative: bool, body: string, p: nat)
    requires DigitRun(body) <= p <= |body|
    ensures ParseDigits(negative, body[..p]) == ParseDigits(negative, body)
  {
    var q := body[..p];
    var n := DigitRun(body);
    DigitRunOfPrefix(body, p);
    assert DigitRun(q) == n;
    assert q[..n] == body[..n];
    assert DigitsValue(q[..n]) == DigitsValue(body[..n]);
  }

  /** White space after the number does not change what `parseInt` reads. */
  lemma ParseSignedIgnoresTrailingSpace(t: string, m: nat)
    requires m <= |t| && AllSpace(t[m..])
    ensures ParseSigned(t[..m]) == ParseSigned(t)
  {
    if m == |t| {
      assert t[..m] == t;
    } else {
      assert IsSpace(t[m]) by { assert t[m..][0] == t[m]; }
      var u := t[..m];
      var k := SignLength(t);
      if m == 0 {
        assert k == 0;
        assert DigitRun(t) == 0;
      } else {
        assert SignLength(u) == k && (u[0] == '-' <==> t[0] == '-') by { assert u[0] == t[0]; }
        var body := t[k..];
        assert u[k..] == body[..m - k];
        assert body[m - k] == t[m];
        DigitRunStopsAtSpace(body, m - k);
        ParseDigitsOfPrefix(t[0] == '-', body, m - k);
      }
    }
  }

  /**
    Trimming before `parseInt` is redundant: `parseInt` skips leading white space itself, and
    trailing white space lies after the digit run.
   */
  lemma ParseIntOfTrim(s: string)
    ensures ParseInt(Trim(s)) == ParseInt(s)
  {
    var a := LeadingSpaces(s);
    var t := s[a..];
    var m := |t| - TrailingSpaces(t);
    var u := Trim(s);
    assert u == t[..m];
    assert LeadingSpaces(u) == 0 by {
      if |u| > 0 { assert u[0] == t[0]; }
    }
    assert u[0..] == u;
    TrailingSpacesSpec(t);
    assert AllSpace(t[m..]) by {
      forall k | 0 <= k < |t[m..]| ensures IsSpace(t[m..][k]) { assert t[m..][k] == t[m + k]; }
    }
    ParseSignedIgnoresTrailingSpace(t, m);
  }
}
