/**
 * The string helpers the bot relies on: `str.strip()`, `str.lower()`,
 * `str(int)` and `int(str)`.
 */
module Text {

  import opened Wrappers

  /** The characters for which Python's `str.isspace()` holds. */
  predicate IsSpace(c: char)
  {
    c == ' ' || ('\t' <= c <= '\r') || ('\U{1c}' <= c <= '\U{1f}')
    || c == '\U{85}' || c == '\U{a0}' || c == '\U{1680}'
    || ('\U{2000}' <= c <= '\U{200a}') || c == '\U{2028}' || c == '\U{2029}'
    || c == '\U{202f}' || c == '\U{205f}' || c == '\U{3000}'
  }

  predicate AllSpace(s: string)
  {
    forall i :: 0 <= i < |s| ==> IsSpace(s[i])
  }

  /** Neither end of `s` is whitespace: `s.strip() == s`. */
  predicate Trimmed(s: string)
  {
    s == [] || (!IsSpace(s[0]) && !IsSpace(s[|s| - 1]))
  }

  /** `s.lstrip()`: drops the leading whitespace. */
  function StripLeft(s: string): string
  {
    if s != [] && IsSpace(s[0]) then StripLeft(s[1..]) else s
  }

  /** `s.rstrip()`: drops the trailing whitespace. */
  function StripRight(s: string): string
  {
    if s != [] && IsSpace(s[|s| - 1]) then StripRight(s[..|s| - 1]) else s
  }

  /** `s.strip()`. */
  function Strip(s: string): string
  {
    StripRight(StripLeft(s))
  }

  /** `lstrip` removes a prefix made of whitespace only, and stops at the first other character. */
  lemma {:induction false} StripLeftShape(s: string)
    ensures var r := StripLeft(s);
      |r| <= |s| && r == s[|s| - |r|..] && AllSpace(s[..|s| - |r|]) && (r == [] || !IsSpace(r[0]))
  {
    if s != [] && IsSpace(s[0]) {
      StripLeftShape(s[1..]);
      var r := StripLeft(s[1..]);
      assert s[1..][|s| - 1 - |r|..] == s[|s| - |r|..];
      assert s[..|s| - |r|] == [s[0]] + s[1..][..|s| - 1 - |r|];
      var cut := s[..|s| - |r|];
      assert AllSpace(cut) by {
        forall i | 0 <= i < |cut|
          ensures IsSpace(cut[i])
        {
          if i > 0 {
            assert cut[i] == s[1..][..|s| - 1 - |r|][i - 1];
          }
        }
      }
    }
  }

  /** `rstrip` removes a suffix made of whitespace only, and stops at the last other character. */
  lemma {:induction false} StripRightShape(s: string)
    ensures var r := StripRight(s);
      |r| <= |s| && r == s[..|r|] && AllSpace(s[|r|..]) && (r == [] || !IsSpace(r[|r| - 1]))
  {
    if s != [] && IsSpace(s[|s| - 1]) {
      StripRightShape(s[..|s| - 1]);
      var r := StripRight(s[..|s| - 1]);
      assert s[..|s| - 1][..|r|] == s[..|r|];
      assert s[|r|..] == s[..|s| - 1][|r|..] + [s[|s| - 1]];
      var cut := s[|r|..];
      assert AllSpace(cut) by {
        forall i | 0 <= i < |cut|
          ensures IsSpace(cut[i])
        {
          if i < |cut| - 1 {
            assert cut[i] == s[..|s| - 1][|r|..][i];
          }
        }
      }
    }
  }

  /** Neither end of `s.strip()` is whitespace, and it is no longer than `s`. */
  lemma StripEnds(s: string)
    ensures Trimmed(Strip(s)) && |Strip(s)| <= |s|
  {
    StripLeftShape(s);
    var l := StripLeft(s);
    StripRightShape(l);
    var r := StripRight(l);
    if r != [] {
      assert r[0] == l[0];
    }
  }

  /** The whitespace `strip` removes on either side. */
  lemma StripPieces(s: string) returns (lead: string, trail: string)
    ensures AllSpace(lead) && AllSpace(trail) && s == lead + Strip(s) + trail
  {
    var l := StripLeft(s);
    StripLeftShape(s);
    var r := StripRight(l);
    StripRightShape(l);
    lead, trail := s[..|s| - |l|], l[|r|..];
    assert s == lead + l;
    assert l == r + trail;
  }

  /** `s.strip()` is a piece of `s` with whitespace only around it and none at either of its ends. */
  lemma StripShape(s: string)
    ensures Trimmed(Strip(s)) && |Strip(s)| <= |s|
    ensures exists lead, trail :: AllSpace(lead) && AllSpace(trail) && s == lead + Strip(s) + trail
  {
    StripEnds(s);
    var lead, trail := StripPieces(s);
  }

  lemma {:induction false} StripLeftPadded(ws: string, x: string)
    requires AllSpace(ws)
    requires x == [] || !IsSpace(x[0])
    ensures StripLeft(ws + x) == x
  {
    if ws == [] {
      assert ws + x == x;
    } else {
      assert (ws + x)[1..] == ws[1..] + x;
      StripLeftPadded(ws[1..], x);
    }
  }

  lemma {:induction false} StripRightPadded(x: string, ws: string)
    requires AllSpace(ws)
    requires x == [] || !IsSpace(x[|x| - 1])
    ensures StripRight(x + ws) == x
  {
    if ws == [] {
      assert x + ws == x;
    } else {
      assert (x + ws)[..|x + ws| - 1] == x + ws[..|ws| - 1];
      StripRightPadded(x, ws[..|ws| - 1]);
    }
  }

  /** Whitespace around a trimmed text is exactly what `strip()` removes. */
  lemma StripPadded(lead: string, x: string, trail: string)
    requires AllSpace(lead) && AllSpace(trail) && Trimmed(x)
    ensures Strip(lead + x + trail) == x
  {
    if x == [] {
      assert lead + x + trail == lead + trail;
      assert AllSpace(lead + trail);
      assert (lead + trail) + [] == lead + trail;
      StripLeftPadded(lead + trail, []);
      assert StripLeft(lead + trail) == [];
    } else {
      assert lead + x + trail == lead + (x + trail);
      StripLeftPadded(lead, x + trail);
      StripRightPadded(x, trail);
    }
  }

  lemma StripTrimmed(x: string)
    requires Trimmed(x)
    ensures Strip(x) == x
  {
    assert [] + x + [] == x;
    StripPadded([], x, []);
  }

  /** `c.lower()` for ASCII letters; every other character is kept. */
  function LowerChar(c: char): char
  {
    if 'A' <= c <= 'Z' then (c as int + 32) as char else c
  }

  /** `s.lower()`, character by character. */
  function Lower(s: string): string
  {
    seq(|s|, i requires 0 <= i < |s| => LowerChar(s[i]))
  }

  /** `s.lower() == "yes"` holds exactly for the eight spellings of "yes" in either case. */
  lemma LowerIsYes(s: string)
    ensures Lower(s) == "yes" <==>
      |s| == 3 && (s[0] == 'y' || s[0] == 'Y') && (s[1] == 'e' || s[1] == 'E') && (s[2] == 's' || s[2] == 'S')
  {
    if Lower(s) == "yes" {
      assert |s| == 3;
      assert Lower(s)[0] == LowerChar(s[0]) == 'y';
      assert Lower(s)[1] == LowerChar(s[1]) == 'e';
      assert Lower(s)[2] == LowerChar(s[2]) == 's';
    }
  }

  predicate IsDigit(c: char)
  {
    '0' <= c <= '9'
  }

  predicate AllDigits(s: string)
  {
    forall i :: 0 <= i < |s| ==> IsDigit(s[i])
  }

  function DigitChar(n: nat): char
    requires n < 10
  {
    ('0' as int + n) as char
  }

  function DigitValue(c: char): nat
    requires IsDigit(c)
  {
    c as int - '0' as int
  }

  /** The number a run of decimal digits denotes, most significant first. */
  function DigitsValue(s: string): nat
    requires AllDigits(s)
  {
    if s == [] then 0 else 10 * DigitsValue(s[..|s| - 1]) + DigitValue(s[|s| - 1])
  }

  /** Appending a digit multiplies the value by ten and adds the digit. */
  lemma DigitsValueSnoc(s: string, c: char)
    requires AllDigits(s) && IsDigit(c)
    ensures AllDigits(s + [c]) && DigitsValue(s + [c]) == 10 * DigitsValue(s) + DigitValue(c)
  {
    assert (s + [c])[..|s|] == s;
  }

  /** `str(n)` for a natural number: decimal, no leading zeros. */
  function NatToString(n: nat): (r: string)
    ensures r != [] && AllDigits(r)
    decreases n
  {
    if n < 10 then [DigitChar(n)] else NatToString(n / 10) + [DigitChar(n % 10)]
  }

  /** Python's `str(n)` for an `int`. */
  function IntToString(n: int): (r: string)
    ensures r != [] && Trimmed(r)
  {
    var r := if n < 0 then "-" + NatToString(-n) else NatToString(n);
    assert IsDigit(r[|r| - 1]);
    r
  }

  /**
   * Python's `int(s)` restricted to an optional sign and ASCII decimal
   * digits, with the surrounding whitespace `int` itself ignores.
   */
  function ParseInt(s: string): Option<int>
  {
    var t := Strip(s);
    if t != [] && (t[0] == '-' || t[0] == '+') then
      if |t| > 1 && AllDigits(t[1..]) then
        var magnitude: int := DigitsValue(t[1..]);
        Some(if t[0] == '-' then -magnitude else magnitude)
      else None
    else if t != [] && AllDigits(t) then Some(DigitsValue(t))
    else None
  }

  lemma {:induction false} NatToStringValue(n: nat)
    ensures DigitsValue(NatToString(n)) == n
    decreases n
  {
    if n >= 10 {
      var s := NatToString(n / 10) + [DigitChar(n % 10)];
      assert s[..|s| - 1] == NatToString(n / 10);
      NatToStringValue(n / 10);
    }
  }

  /** `int()` of a run of digits is the number they denote. */
  lemma ParseIntOfNonNegative(digits: string)
    requires digits != [] && AllDigits(digits)
    ensures ParseInt(digits) == Some(DigitsValue(digits))
  {
    assert IsDigit(digits[0]) && IsDigit(digits[|digits| - 1]);
    StripTrimmed(digits);
  }

  /** A leading zero changes the text of a number but not its value. */
  lemma {:induction false} LeadingZeroValue(ds: string)
    requires AllDigits(ds)
    ensures AllDigits("0" + ds) && DigitsValue("0" + ds) == DigitsValue(ds)
    decreases |ds|
  {
    var s := "0" + ds;
    assert AllDigits(s) by {
      forall i | 0 <= i < |s|
        ensures IsDigit(s[i])
      {
        if i > 0 {
          assert s[i] == ds[i - 1];
        }
      }
    }
    if ds == [] {
      assert s[..0] == [];
    } else {
      assert s[..|s| - 1] == "0" + ds[..|ds| - 1];
      LeadingZeroValue(ds[..|ds| - 1]);
    }
  }

  lemma ParseIntOfNegative(digits: string)
    requires digits != [] && AllDigits(digits)
    ensures ParseInt("-" + digits) == Some(-(DigitsValue(digits) as int))
  {
    var t := "-" + digits;
    assert t[|t| - 1] == digits[|digits| - 1];
    assert !IsSpace(t[0]) && !IsSpace(t[|t| - 1]);
    StripTrimmed(t);
    assert t[1..] == digits;
    assert t[0] == '-' && |t| > 1 && AllDigits(t[1..]);
  }

  /** `int(str(n)) == n`. */
  lemma ParseIntOfIntToString(n: int)
    ensures ParseInt(IntToString(n)) == Some(n)
  {
    if n < 0 {
      NatToStringValue(-n);
      ParseIntOfNegative(NatToString(-n));
    } else {
      NatToStringValue(n);
      ParseIntOfNonNegative(NatToString(n));
    }
  }

}
