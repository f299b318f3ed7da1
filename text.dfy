/** The parts of Python's str.strip, str.lower and str.isdigit that the
    scripts rely on, over ASCII text. */
module Text {

  /** Python's whitespace within ASCII: tab, line feed, vertical tab, form
      feed, carriage return, the separators 0x1C to 0x1F, and space. */
  predicate IsSpace(ch: char) {
    9 <= ch as int <= 13 || 28 <= ch as int <= 32
  }

  predicate AllSpace(s: string) {
    forall k :: 0 <= k < |s| ==> IsSpace(s[k])
  }

  /** str.lstrip(): drops the leading whitespace and nothing else. */
  function TrimLeft(s: string): (r: string)
    ensures |r| <= |s|
    ensures forall k :: 0 <= k < |r| ==> r[k] == s[|s| - |r| + k]
    ensures forall k :: 0 <= k < |s| - |r| ==> IsSpace(s[k])
    ensures r == [] || !IsSpace(r[0])
  {
    if s != [] && IsSpace(s[0]) then
      var t := s[1..];
      assert forall j :: 0 <= j < |t| ==> t[j] == s[j + 1];
      TrimLeft(t)
    else
      s
  }

  /** str.rstrip(): drops the trailing whitespace and nothing else. */
  function TrimRight(s: string): (r: string)
    ensures |r| <= |s|
    ensures forall k :: 0 <= k < |r| ==> r[k] == s[k]
    ensures forall k :: |r| <= k < |s| ==> IsSpace(s[k])
    ensures r == [] || !IsSpace(r[|r| - 1])
  {
    if s != [] && IsSpace(s[|s| - 1]) then
      var t := s[..|s| - 1];
      assert forall k :: 0 <= k < |s| - 1 ==> s[k] == t[k];
      TrimRight(t)
    else
      s
  }

  /** r is the part of s from position i on, and everything of s outside it
      is whitespace. */
  ghost predicate StripsTo(s: string, r: string, i: int) {
    && 0 <= i <= |s| - |r|
    && (forall k :: 0 <= k < |r| ==> r[k] == s[i + k])
    && (forall k :: 0 <= k < i ==> IsSpace(s[k]))
    && (forall k :: i + |r| <= k < |s| ==> IsSpace(s[k]))
  }

  /** str.strip(): the slice of s left once the whitespace at both ends is gone. */
  function Strip(s: string): (r: string)
    ensures r == [] || (!IsSpace(r[0]) && !IsSpace(r[|r| - 1]))
    ensures exists i :: StripsTo(s, r, i)
  {
    StripSlice(s);
    TrimRight(TrimLeft(s))
  }

  lemma StripSlice(s: string)
    ensures StripsTo(s, TrimRight(TrimLeft(s)), |s| - |TrimLeft(s)|)
  {
    var t := TrimLeft(s);
    var r := TrimRight(t);
    var i := |s| - |t|;
    forall k | 0 <= k < |r|
      ensures r[k] == s[i + k]
    {
      assert r[k] == t[k];
    }
    forall k | i + |r| <= k < |s|
      ensures IsSpace(s[k])
    {
      assert IsSpace(t[k - i]);
    }
  }

  lemma {:induction false} TrimLeftPadded(pad: string, s: string)
    requires AllSpace(pad)
    requires s == [] || !IsSpace(s[0])
    ensures TrimLeft(pad + s) == s
  {
    var t := pad + s;
    if pad == [] {
      assert t == s;
    } else {
      assert t[0] == pad[0] && t[1..] == pad[1..] + s;
      TrimLeftPadded(pad[1..], s);
      assert TrimLeft(t) == TrimLeft(t[1..]);
    }
  }

  lemma {:induction false} TrimRightPadded(s: string, pad: string)
    requires AllSpace(pad)
    requires s == [] || !IsSpace(s[|s| - 1])
    ensures TrimRight(s + pad) == s
  {
    if pad != [] {
      assert (s + pad)[..|s + pad| - 1] == s + pad[..|pad| - 1];
      TrimRightPadded(s, pad[..|pad| - 1]);
    }
  }

  /** Whitespace around a text with no whitespace at its ends is exactly what
      str.strip() removes. */
  lemma StripPadded(front: string, s: string, back: string)
    requires AllSpace(front) && AllSpace(back)
    requires s == [] || (!IsSpace(s[0]) && !IsSpace(s[|s| - 1]))
    ensures Strip(front + s + back) == s
  {
    if s == [] {
      assert front + s + back == front + back;
      TrimLeftPadded(front + back, []);
      assert front + back + [] == front + back;
    } else {
      assert front + s + back == front + (s + back);
      TrimLeftPadded(front, s + back);
      TrimRightPadded(s, back);
    }
  }

  /** The ASCII part of str.lower(). */
  function LowerChar(ch: char): (r: char)
    ensures !('A' <= r <= 'Z')
    ensures 'a' <= r <= 'z' <==> 'a' <= ch <= 'z' || 'A' <= ch <= 'Z'
  {
    if 'A' <= ch <= 'Z' then (ch as int + 32) as char else ch
  }

  /** str.lower(): same length, each character lowered on its own. */
  function Lower(s: string): (r: string)
    ensures |r| == |s|
    ensures forall k :: 0 <= k < |s| ==> r[k] == LowerChar(s[k])
  {
    if s == [] then [] else [LowerChar(s[0])] + Lower(s[1..])
  }

  predicate IsDigit(ch: char) {
    '0' <= ch <= '9'
  }

  /** str.isdigit() over ASCII: false on the empty string. A digit string has
      no whitespace at either end, so strip() leaves it as it is. */
  predicate IsDigits(s: string)
    ensures IsDigits(s) ==> s != [] && !IsSpace(s[0]) && !IsSpace(s[|s| - 1])
  {
    |s| > 0 && forall k :: 0 <= k < |s| ==> IsDigit(s[k])
  }

  /** 10 to the power n. */
  function Pow10(n: nat): (p: nat)
    ensures p >= 1
  {
    if n == 0 then 1 else 10 * Pow10(n - 1)
  }

  /** int(s) for a string of decimal digits (leading zeros allowed): a number
      with at most |s| digits. */
  function DigitsValue(s: string): (v: nat)
    requires forall k :: 0 <= k < |s| ==> IsDigit(s[k])
    ensures v < Pow10(|s|)
  {
    if s == [] then 0
    else
      assert IsDigit(s[|s| - 1]);
      10 * DigitsValue(s[..|s| - 1]) + (s[|s| - 1] as int - '0' as int)
  }

  /** str(n) for a natural number n. */
  function Decimal(n: nat): (s: string)
    ensures IsDigits(s)
  {
    if n < 10 then [('0' as int + n) as char]
    else Decimal(n / 10) + [('0' as int + n % 10) as char]
  }

  /** int(str(n)) == n. */
  lemma {:induction false} DecimalRoundTrip(n: nat)
    ensures DigitsValue(Decimal(n)) == n
  {
    if n >= 10 {
      var s := Decimal(n);
      assert s[..|s| - 1] == Decimal(n / 10);
      DecimalRoundTrip(n / 10);
    }
  }
}
