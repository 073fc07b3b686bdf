/** Unsigned decimal numerals: strconv.FormatUint, and strconv.ParseUint with base 10 and 32 bits. */
module Decimals {

  const MAX_UINT32: nat := 0xFFFF_FFFF

  function Digit(d: nat): char
    requires d < 10
  {
    '0' + d as char
  }

  predicate IsDigit(c: char) {
    '0' <= c <= '9'
  }

  function Format(n: nat): (s: string)
    ensures s != "" && forall c :: c in s ==> IsDigit(c)
  {
    if n < 10 then [Digit(n)] else Format(n / 10) + [Digit(n % 10)]
  }

  function DigitValue(c: char): nat
    requires IsDigit(c)
  {
    (c - '0') as nat
  }

  /** The number that is written, with `n` for the digits already read. */
  function Value(s: string, n: nat): nat
    requires forall c :: c in s ==> IsDigit(c)
  {
    if s == "" then n else
    assert IsDigit(s[0]);
    Value(s[1..], n * 10 + DigitValue(s[0]))
  }

  /** Digit by digit. Callers ignore the error, so what matters is the value returned beside it: 0 at
      a character that is no digit, the largest number as soon as the digits read are out of range. */
  function Scan(s: string, n: nat): (r: nat)
    requires n <= MAX_UINT32
    ensures r <= MAX_UINT32
  {
    if s == "" then n
    else if !IsDigit(s[0]) then 0
    else if n * 10 + DigitValue(s[0]) > MAX_UINT32 then MAX_UINT32
    else Scan(s[1..], n * 10 + DigitValue(s[0]))
  }

  function ParseUint32(s: string): (n: nat)
    ensures n <= MAX_UINT32
  {
    Scan(s, 0)
  }

  lemma {:induction false} ValueGrows(s: string, n: nat)
    requires forall c :: c in s ==> IsDigit(c)
    ensures Value(s, n) >= n
  {
    if s == "" {
    } else {
      assert IsDigit(s[0]);
      ValueGrows(s[1..], n * 10 + DigitValue(s[0]));
    }
  }

  lemma {:induction false} ScanSaturates(s: string, n: nat)
    requires n <= MAX_UINT32 && forall c :: c in s ==> IsDigit(c)
    ensures Scan(s, n) == if Value(s, n) > MAX_UINT32 then MAX_UINT32 else Value(s, n)
  {
    if s == "" {
    } else {
      assert IsDigit(s[0]);
      var m := n * 10 + DigitValue(s[0]);
      if m > MAX_UINT32 {
        ValueGrows(s[1..], m);
      } else {
        ScanSaturates(s[1..], m);
      }
    }
  }

  lemma {:induction false} ScanStops(s: string, k: nat, n: nat)
    requires n <= MAX_UINT32 && k < |s| && !IsDigit(s[k]) && forall c :: c in s[..k] ==> IsDigit(c)
    ensures Scan(s, n) == if Value(s[..k], n) > MAX_UINT32 then MAX_UINT32 else 0
  {
    if k == 0 {
      assert s[..k] == "";
    } else {
      assert s[0] == s[..k][0];
      assert s[..k][1..] == s[1..][..k - 1];
      var m := n * 10 + DigitValue(s[0]);
      if m > MAX_UINT32 {
        ValueGrows(s[..k][1..], m);
      } else {
        ScanStops(s[1..], k - 1, m);
      }
    }
  }

  /** Every text is read as its number, capped; one with a character that is no digit as 0, unless the
      digits before it are out of range already. */
  lemma ParsesExactly(s: string, k: nat)
    requires k <= |s| && (forall c :: c in s[..k] ==> '0' <= c <= '9')
    requires k < |s| ==> !('0' <= s[k] <= '9')
    ensures var v := Value(s[..k], 0);
            ParseUint32(s) == if v > 0xFFFF_FFFF then 0xFFFF_FFFF else if k < |s| then 0 else v
  {
    if k < |s| {
      ScanStops(s, k, 0);
    } else {
      assert s[..k] == s;
      ScanSaturates(s, 0);
    }
  }

  /** How many digits the text starts with. */
  lemma {:induction false} DigitsAhead(s: string) returns (k: nat)
    ensures k <= |s| && (forall c :: c in s[..k] ==> '0' <= c <= '9') && (k < |s| ==> !('0' <= s[k] <= '9'))
  {
    if s == "" || !IsDigit(s[0]) {
      k := 0;
    } else {
      var l := DigitsAhead(s[1..]);
      k := l + 1;
      assert s[..k] == [s[0]] + s[1..][..l];
    }
  }

  lemma {:induction false} ValueAppend(s: string, c: char, n: nat)
    requires IsDigit(c) && forall d :: d in s ==> IsDigit(d)
    ensures Value(s + [c], n) == Value(s, n) * 10 + DigitValue(c)
  {
    if s == "" {
      assert s + [c] == [c] && [c][1..] == "";
    } else {
      assert IsDigit(s[0]);
      assert (s + [c])[1..] == s[1..] + [c];
      ValueAppend(s[1..], c, n * 10 + DigitValue(s[0]));
    }
  }

  lemma {:induction false} ValueOfFormat(n: nat)
    ensures Value(Format(n), 0) == n
  {
    if n < 10 {
      assert Format(n)[1..] == "";
    } else {
      ValueOfFormat(n / 10);
      ValueAppend(Format(n / 10), Digit(n % 10), 0);
    }
  }

  lemma FormatParses(n: nat)
    requires n <= MAX_UINT32
    ensures ParseUint32(Format(n)) == n
  {
    ValueOfFormat(n);
    ScanSaturates(Format(n), 0);
  }
}
