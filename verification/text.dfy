/**
 The string primitives the tool relies on: whitespace stripping, the
 all-digits test, prefix test, lower-casing and the decimal value of a
 digit string. Each is restricted to ASCII (see README).
 */
module Text {

  /** Python's `str.isspace` on ASCII: space, TAB..CR, and the four
      information separators 0x1C..0x1F. */
  predicate IsSpace(c: char) {
    c == ' ' || 9 <= c as int <= 13 || 28 <= c as int <= 31
  }

  predicate AllSpace(s: string) {
    forall i :: 0 <= i < |s| ==> IsSpace(s[i])
  }

  predicate IsDigit(c: char) {
    '0' <= c <= '9'
  }

  /** `str.isdigit`: true only for a non-empty string of digits. */
  predicate IsDigits(s: string) {
    |s| > 0 && forall i :: 0 <= i < |s| ==> IsDigit(s[i])
  }

  predicate StartsWith(s: string, prefix: string) {
    |prefix| <= |s| && s[..|prefix|] == prefix
  }

  /** No whitespace at either end (vacuously true of the empty string). */
  predicate Trimmed(s: string) {
    s == [] || (!IsSpace(s[0]) && !IsSpace(s[|s| - 1]))
  }

  /** Removes leading whitespace (see TrimLeftShape). */
  function TrimLeft(s: string): (r: string)
    decreases |s|
  {
    if |s| > 0 && IsSpace(s[0]) then TrimLeft(s[1..]) else s
  }

  /** TrimLeft's result is a suffix of `s`, everything it dropped is
      whitespace, and the result does not start with whitespace. */
  lemma {:induction false} TrimLeftShape(s: string)
    ensures var r := TrimLeft(s);
      && |r| <= |s| && r == s[|s| - |r|..]
      && AllSpace(s[..|s| - |r|])
      && (r == [] || !IsSpace(r[0]))
    decreases |s|
  {
    if |s| > 0 && IsSpace(s[0]) {
      TrimLeftShape(s[1..]);
      var r := TrimLeft(s);
      assert s[..|s| - |r|] == [s[0]] + s[1..][..|s| - 1 - |r|];
    }
  }

  /** Removes trailing whitespace (see TrimRightShape). */
  function TrimRight(s: string): (r: string)
    decreases |s|
  {
    if |s| > 0 && IsSpace(s[|s| - 1]) then TrimRight(s[..|s| - 1]) else s
  }

  /** TrimRight's result is a prefix of `s`, everything it dropped is
      whitespace, and the result does not end with whitespace. */
  lemma {:induction false} TrimRightShape(s: string)
    ensures var r := TrimRight(s);
      && |r| <= |s| && r == s[..|r|]
      && AllSpace(s[|r|..])
      && (r == [] || !IsSpace(r[|r| - 1]))
    decreases |s|
  {
    if |s| > 0 && IsSpace(s[|s| - 1]) {
      var t := s[..|s| - 1];
      TrimRightShape(t);
      var r := TrimRight(s);
      assert s[|r|..] == t[|r|..] + [s[|s| - 1]];
    }
  }

  /** `str.strip()` with no argument: the result has no whitespace at
      either end. */
  function Strip(s: string): (r: string)
    ensures |r| <= |s|
    ensures Trimmed(r)
  {
    TrimLeftShape(s);
    TrimRightShape(TrimLeft(s));
    TrimRight(TrimLeft(s))
  }

  /** Whitespace before a trimmed string is all TrimLeft removes. */
  lemma {:induction false} TrimLeftPadded(pre: string, t: string)
    requires AllSpace(pre)
    requires t == [] || !IsSpace(t[0])
    ensures TrimLeft(pre + t) == t
    decreases |pre|
  {
    if pre == [] {
      assert pre + t == t;
    } else {
      assert (pre + t)[0] == pre[0];
      assert (pre + t)[1..] == pre[1..] + t;
      TrimLeftPadded(pre[1..], t);
    }
  }

  /** Whitespace after a string that does not end in whitespace is all
      TrimRight removes. */
  lemma {:induction false} TrimRightPadded(t: string, suf: string)
    requires AllSpace(suf)
    requires t == [] || !IsSpace(t[|t| - 1])
    ensures TrimRight(t + suf) == t
    decreases |suf|
  {
    if suf == [] {
      assert t + suf == t;
    } else {
      var n := |t + suf|;
      assert (t + suf)[n - 1] == suf[|suf| - 1];
      assert (t + suf)[..n - 1] == t + suf[..|suf| - 1];
      TrimRightPadded(t, suf[..|suf| - 1]);
    }
  }

  /** Reference characterisation of Strip: whatever whitespace surrounds a
      trimmed string, stripping returns exactly that string. */
  lemma StripPadded(pre: string, t: string, suf: string)
    requires AllSpace(pre) && AllSpace(suf) && Trimmed(t)
    ensures Strip(pre + t + suf) == t
  {
    if t == [] {
      assert pre + t + suf == pre + suf;
      assert AllSpace(pre + suf);
      TrimLeftPadded(pre + suf, []);
      assert pre + suf + [] == pre + suf;
      assert TrimRight([]) == [];
    } else {
      assert pre + t + suf == pre + (t + suf);
      assert (t + suf)[0] == t[0];
      TrimLeftPadded(pre, t + suf);
      TrimRightPadded(t, suf);
    }
  }

  /** The converse direction: every string is its strip, framed by
      whitespace on both sides. */
  lemma StripFrames(s: string)
    ensures exists k ::
              && 0 <= k <= |s| - |Strip(s)|
              && AllSpace(s[..k])
              && s[k..k + |Strip(s)|] == Strip(s)
              && AllSpace(s[k + |Strip(s)|..])
  {
    var l := TrimLeft(s);
    var k := |s| - |l|;
    var r := TrimRight(l);
    TrimLeftShape(s);
    TrimRightShape(l);
    assert s[k..k + |r|] == l[..|r|];
    assert s[k + |r|..] == l[|r|..];
  }

  /** Stripping twice is stripping once. */
  lemma StripIdempotent(s: string)
    ensures Strip(Strip(s)) == Strip(s)
  {
    var t := Strip(s);
    assert [] + t + [] == t;
    StripPadded([], t, []);
  }

  function LowerChar(c: char): char {
    if 'A' <= c <= 'Z' then (c as int + 32) as char else c
  }

  /** `str.lower()` on ASCII letters. */
  function Lower(s: string): (r: string)
    ensures |r| == |s|
    ensures forall i :: 0 <= i < |s| ==> !('A' <= r[i] <= 'Z')
    // only upper-case letters change, each to its lower-case partner
    ensures forall i :: 0 <= i < |s| && !('A' <= s[i] <= 'Z') ==> r[i] == s[i]
    ensures forall i :: 0 <= i < |s| && 'A' <= s[i] <= 'Z' ==> r[i] as int == s[i] as int + 32
  {
    seq(|s|, i requires 0 <= i < |s| => LowerChar(s[i]))
  }

  /** A string with no upper-case letter is its own lower-case form; in
      particular lower-casing is idempotent. */
  lemma LowerFixesLowercase(s: string)
    requires forall i :: 0 <= i < |s| ==> !('A' <= s[i] <= 'Z')
    ensures Lower(s) == s
  {
  }

  function DigitValue(c: char): nat
    requires IsDigit(c)
  {
    c as int - '0' as int
  }

  /** `int(s)` for a string of ASCII digits. */
  function DecimalValue(s: string): (n: nat)
    requires IsDigits(s)
    decreases |s|
  {
    if |s| == 1 then DigitValue(s[0])
    else 10 * DecimalValue(s[..|s| - 1]) + DigitValue(s[|s| - 1])
  }
}
