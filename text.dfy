/**
 * The string conversions the source performs with JavaScript built-ins:
 * `String(n)` on integers, `padStart(2, '0')` and `Array.prototype.join`,
 * with a decimal parser as the inverse that shows the conversions lose nothing.
 */
module Text {
  import opened Wrappers

  function DigitChar(d: nat): (c: char)
    requires d < 10
    ensures '0' <= c <= '9'
  {
    (48 + d) as char
  }

  function DigitValue(c: char): (d: nat)
    requires '0' <= c <= '9'
    ensures d < 10
  {
    (c as int) - 48
  }

  predicate IsDigits(s: string)
  {
    forall i :: 0 <= i < |s| ==> '0' <= s[i] <= '9'
  }

  /** `String(n)` for a natural number: its decimal digits, without leading zeros. */
  function NatToString(n: nat): (s: string)
    ensures 1 <= |s| && IsDigits(s)
    ensures n < 10 ==> |s| == 1
    ensures 10 <= n < 100 ==> |s| == 2
    ensures 1000 <= n < 10000 ==> |s| == 4
    ensures s[0] == '0' ==> n == 0
  {
    if n < 10 then [DigitChar(n)] else NatToString(n / 10) + [DigitChar(n % 10)]
  }

  /** The value of a string of decimal digits (the empty string reads as 0). */
  function ParseDigits(s: string): nat
    requires IsDigits(s)
  {
    if s == [] then 0 else 10 * ParseDigits(s[..|s| - 1]) + DigitValue(s[|s| - 1])
  }

  /** Reading back the digits `String(n)` wrote gives `n`. */
  lemma {:induction false} ParseNatToString(n: nat)
    ensures ParseDigits(NatToString(n)) == n
  {
    if 10 <= n {
      var s := NatToString(n);
      assert s[..|s| - 1] == NatToString(n / 10);
      ParseNatToString(n / 10);
    }
  }

  /** `String(i)` for an integer: a minus sign before the digits of a negative number. */
  function IntToString(i: int): (s: string)
    ensures 1 <= |s|
    ensures 0 <= i ==> s == NatToString(i)
    ensures i < 0 ==> s[0] == '-' && s[1..] == NatToString(-i)
  {
    if i < 0 then "-" + NatToString(-i) else NatToString(i)
  }

  /** The inverse of `IntToString`: an optional minus sign, then at least one digit. */
  function ParseInt(s: string): Option<int>
  {
    if 2 <= |s| && s[0] == '-' && IsDigits(s[1..]) then Some(0 - ParseDigits(s[1..]) as int)
    else if 1 <= |s| && IsDigits(s) then Some(ParseDigits(s))
    else None
  }

  lemma ParseIntToString(i: int)
    ensures ParseInt(IntToString(i)) == Some(i)
  {
    if i < 0 {
      ParseNegative(-i);
    } else {
      var s := NatToString(i);
      ParseNatToString(i);
      assert '0' <= s[0] <= '9';
    }
  }

  /** A minus sign before the digits of `n` reads back as `-n`. */
  lemma ParseNegative(n: nat)
    ensures ParseInt("-" + NatToString(n)) == Some(0 - n)
  {
    var digits := NatToString(n);
    ParseNatToString(n);
    assert ("-" + digits)[1..] == digits;
  }

  /** Different integers are written differently. */
  lemma IntToStringInjective(a: int, b: int)
    ensures IntToString(a) == IntToString(b) ==> a == b
  {
    ParseIntToString(a);
    ParseIntToString(b);
  }

  /** `s.padStart(2, '0')`. */
  function PadStart2(s: string): (r: string)
    ensures |s| < 2 ==> |r| == 2 && r[2 - |s|..] == s && r[0] == '0'
    ensures 2 <= |s| ==> r == s
  {
    if 2 <= |s| then s else if |s| == 1 then "0" + s else "00"
  }

  /** A number between 0 and 99 written with `String` and padded to two digits reads back as itself. */
  lemma {:induction false} ParsePadded2(n: nat)
    requires n < 100
    ensures |PadStart2(IntToString(n))| == 2
    ensures IsDigits(PadStart2(IntToString(n)))
    ensures ParseDigits(PadStart2(IntToString(n))) == n
  {
    var s := NatToString(n);
    var r := PadStart2(s);
    if n < 10 {
      assert r == ['0', DigitChar(n)];
      assert r[..1] == ['0'];
      assert ParseDigits(r[..1]) == 0 by {
        assert r[..1][..0] == [];
      }
    } else {
      assert r == s;
      assert s == NatToString(n / 10) + [DigitChar(n % 10)];
      assert NatToString(n / 10) == [DigitChar(n / 10)];
      assert r[..1] == [DigitChar(n / 10)];
      assert ParseDigits(r[..1]) == n / 10 by {
        assert r[..1][..0] == [];
      }
    }
  }

  /** `parts.join(sep)`. */
  function Join(parts: seq<string>, sep: string): (r: string)
    ensures parts == [] ==> r == ""
    ensures parts != [] ==> |parts[0]| <= |r| && r[..|parts[0]|] == parts[0]
  {
    if parts == [] then ""
    else if |parts| == 1 then parts[0]
    else
      var init := Join(parts[..|parts| - 1], sep);
      assert (init + sep + parts[|parts| - 1])[..|parts[0]|] == init[..|parts[0]|];
      init + sep + parts[|parts| - 1]
  }

  /** Read left to right, a join is the first part, the separator and the join of the rest. */
  lemma {:induction false} JoinCons(parts: seq<string>, sep: string)
    requires |parts| >= 2
    ensures Join(parts, sep) == parts[0] + sep + Join(parts[1..], sep)
    decreases |parts|
  {
    var n := |parts|;
    var init := parts[..n - 1];
    if n == 2 {
      assert init == [parts[0]];
      assert parts[1..] == [parts[1]];
    } else {
      JoinCons(init, sep);
      assert init[1..] == parts[1..][..n - 2];
      assert init[0] == parts[0];
    }
  }
}
