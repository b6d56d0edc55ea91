/** Amounts of money. The program keeps them as Python floats; this model keeps
    exact whole cents, so that sums are exact. Written to the file, an amount
    takes the form Python's repr gives a float with at most two decimals
    ("100.0", "12.5", "0.25"); read back, it goes through float(text). */
module Amounts {
  import opened Options
  import opened Text

  /** The fractional part as repr prints it: at least one digit, no trailing zero
      after the first. */
  function CentsText(f: nat): (s: string)
    requires f < 100
    ensures 1 <= |s| <= 2 && AllDigits(s)
  {
    if f == 0 then "0"
    else if f % 10 == 0 then [DigitChar(f / 10)]
    else [DigitChar(f / 10), DigitChar(f % 10)]
  }

  /** The cents that one or two digits after the point stand for. */
  function CentsValue(s: string): nat
    requires AllDigits(s) && |s| <= 2
  {
    if |s| == 0 then 0
    else if |s| == 1 then DigitValue(s[0]) * 10
    else DigitValue(s[0]) * 10 + DigitValue(s[1])
  }

  /** repr of the float holding `cents` hundredths. */
  function AmountToString(cents: int): string
  {
    var a := if cents < 0 then -cents else cents;
    (if cents < 0 then "-" else "") + NatToString(a / 100) + "." + CentsText(a % 100)
  }

  /** float(text) for unsigned text: digits, optionally a point and at most two
      more digits, at least one digit in all. */
  function ParseUnsignedAmount(t: string): Option<nat>
  {
    var k := IndexOf(t, '.');
    if k == |t| then
      if |t| > 0 && AllDigits(t) then Some(DigitsValue(t) * 100) else None
    else
      var whole, frac := t[..k], t[k + 1..];
      if AllDigits(whole) && AllDigits(frac) && |whole| + |frac| > 0 && |frac| <= 2 then
        Some(DigitsValue(whole) * 100 + CentsValue(frac))
      else
        None
  }

  /** float(text): surrounding whitespace, one optional sign, an unsigned amount. */
  function ParseAmount(text: string): Option<int>
  {
    var t := Strip(text);
    var signed := |t| > 0 && (t[0] == '-' || t[0] == '+');
    match ParseUnsignedAmount(if signed then t[1..] else t)
    case None => None
    case Some(v) => Some(if signed && t[0] == '-' then -(v as int) else v)
  }

  /** What the file holds for an amount contains neither the field separator
      nor whitespace at its ends. */
  lemma AmountTextShape(cents: int)
    ensures '|' !in AmountToString(cents)
    ensures !IsSpace(AmountToString(cents)[0])
    ensures !IsSpace(AmountToString(cents)[|AmountToString(cents)| - 1])
  {
    var a := if cents < 0 then -cents else cents;
    var w, f := NatToString(a / 100), CentsText(a % 100);
    var s := AmountToString(cents);
    assert s == (if cents < 0 then "-" else "") + w + "." + f;
    assert forall i :: 0 <= i < |s| ==> s[i] == '-' || s[i] == '.' || IsDigit(s[i]);
  }

  lemma CentsValueOfCentsText(f: nat)
    requires f < 100
    ensures CentsValue(CentsText(f)) == f
  {
  }

  /** The unsigned part of what is written reads back as the same cents. */
  lemma ParseUnsignedOfText(a: nat)
    ensures ParseUnsignedAmount(NatToString(a / 100) + "." + CentsText(a % 100)) == Some(a)
  {
    var w, f := NatToString(a / 100), CentsText(a % 100);
    var t := w + "." + f;
    assert '.' !in w by {
      assert forall i :: 0 <= i < |w| ==> IsDigit(w[i]);
    }
    IndexOfAfter(w, f, '.');
    assert t[..|w|] == w && t[|w| + 1..] == f;
    DigitsValueOfNatToString(a / 100);
    CentsValueOfCentsText(a % 100);
  }

  /** An unpadded unsigned amount reads back as itself... */
  lemma ParseAmountOfUnsigned(t: string, v: nat)
    requires |t| > 0 && IsDigit(t[0]) && !IsSpace(t[|t| - 1])
    requires ParseUnsignedAmount(t) == Some(v)
    ensures ParseAmount(t) == Some(v)
  {
    StripUnpadded(t);
  }

  /** ...and, behind a minus sign, as its negation. */
  lemma ParseAmountOfNegated(t: string, v: nat)
    requires |t| > 0 && !IsSpace(t[|t| - 1])
    requires ParseUnsignedAmount(t) == Some(v)
    ensures ParseAmount("-" + t) == Some(-(v as int))
  {
    var n := "-" + t;
    assert n[0] == '-' && n[|n| - 1] == t[|t| - 1] && n[1..] == t;
    StripUnpadded(n);
  }

  /** Reading back what was written gives the same number of cents. */
  lemma ParseAmountOfAmountToString(cents: int)
    ensures ParseAmount(AmountToString(cents)) == Some(cents)
  {
    var a := if cents < 0 then -cents else cents;
    var t := NatToString(a / 100) + "." + CentsText(a % 100);
    assert AmountToString(cents) == if cents < 0 then "-" + t else t;
    assert IsDigit(t[0]) by {
      assert IsDigit(NatToString(a / 100)[0]);
    }
    assert !IsSpace(t[|t| - 1]) by {
      assert IsDigit(CentsText(a % 100)[|CentsText(a % 100)| - 1]);
    }
    ParseUnsignedOfText(a);
    if cents < 0 {
      ParseAmountOfNegated(t, a);
    } else {
      ParseAmountOfUnsigned(t, a);
    }
  }
}
