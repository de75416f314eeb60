// Decimal and hexadecimal numerals as Python prints and reads them.
module Numerals {
  import opened Wrappers

  predicate IsBase(b: nat) {
    b == 10 || b == 16
  }

  function DigitValue(c: char): Option<nat> {
    if '0' <= c <= '9' then Some((c - '0') as nat)
    else if 'a' <= c <= 'f' then Some((c - 'a') as nat + 10)
    else if 'A' <= c <= 'F' then Some((c - 'A') as nat + 10)
    else None
  }

  function DigitChar(d: nat): char
    requires d < 16
  {
    if d < 10 then '0' + d as char else 'a' + (d - 10) as char
  }

  // str(n) for base 10, the digits of hex(n) for base 16
  function Digits(n: nat, b: nat): (s: string)
    requires IsBase(b)
    ensures s != ""
  {
    if n < b then [DigitChar(n)] else Digits(n / b, b) + [DigitChar(n % b)]
  }

  function Value(s: string, b: nat): Option<nat>
    requires IsBase(b)
  {
    if s == "" then Some(0)
    else
      match (Value(s[..|s| - 1], b), DigitValue(s[|s| - 1]))
      case (Some(v), Some(d)) => if d < b then Some(v * b + d) else None
      case _ => None
  }

  // int(text) of an unsigned decimal numeral
  function ParseNat(s: string, b: nat): Option<nat>
    requires IsBase(b)
  {
    if s == "" then None else Value(s, b)
  }

  lemma DigitRoundTrip(d: nat)
    requires d < 16
    ensures DigitValue(DigitChar(d)) == Some(d)
  {
  }

  lemma {:induction false} DigitsRoundTrip(n: nat, b: nat)
    requires IsBase(b)
    ensures ParseNat(Digits(n, b), b) == Some(n)
  {
    var s := Digits(n, b);
    if n < b {
      DigitRoundTrip(n);
      assert Value(s[..0], b) == Some(0);
    } else {
      DigitsRoundTrip(n / b, b);
      DigitRoundTrip(n % b);
      assert s[..|s| - 1] == Digits(n / b, b);
      assert n / b * b + n % b == n by {
        if b == 10 {} else {}
      }
    }
  }

  // Sixteen digits, the last six in either case, and no others.
  lemma DigitsRead(c: char, d: nat)
    ensures DigitValue(c) == Some(d) <==> d < 16 && (c == "0123456789abcdef"[d] || c == "0123456789ABCDEF"[d])
  {
  }

  lemma {:induction false} ValueIff(s: string, b: nat)
    requires IsBase(b)
    ensures Value(s, b).Some? <==> forall i :: 0 <= i < |s| ==> DigitValue(s[i]).Some? && DigitValue(s[i]).value < b
  {
    hide DigitValue;
    if s != "" {
      ValueIff(s[..|s| - 1], b);
      assert forall i :: 0 <= i < |s| - 1 ==> s[..|s| - 1][i] == s[i];
    }
  }

  // A numeral is read when it has digits, all of the base.
  lemma ParseNatIff(s: string, b: nat)
    requires IsBase(b)
    ensures ParseNat(s, b).Some? <==>
              s != "" && forall i :: 0 <= i < |s| ==> DigitValue(s[i]).Some? && DigitValue(s[i]).value < b
  {
    hide DigitValue, Value;
    ValueIff(s, b);
  }

  // Left padding with zeros up to a width, as in f"{n:08x}"
  function Pad(s: string, width: nat): (r: string)
    ensures |r| == if |s| < width then width else |s|
    decreases width - |s|
  {
    if |s| < width then Pad("0" + s, width) else s
  }

  lemma {:induction false} ValueZero(s: string, b: nat)
    requires IsBase(b)
    ensures Value("0" + s, b) == Value(s, b)
  {
    var t := "0" + s;
    if s == "" {
      assert t[..0] == "";
    } else {
      assert t[..|t| - 1] == "0" + s[..|s| - 1];
      ValueZero(s[..|s| - 1], b);
    }
  }

  lemma {:induction false} PadKeepsValue(s: string, width: nat, b: nat)
    requires IsBase(b) && s != ""
    ensures ParseNat(Pad(s, width), b) == ParseNat(s, b)
    decreases width - |s|
  {
    if |s| < width {
      ValueZero(s, b);
      PadKeepsValue("0" + s, width, b);
    }
  }

  function Decimal(n: nat): string {
    Digits(n, 10)
  }

  // f"0x{n:08x}"
  function Hex32(n: nat): string {
    "0x" + Pad(Digits(n, 16), 8)
  }

  // _integer on a word of the inventory: hexadecimal after 0x, else decimal.
  function ParseInteger(s: string): Option<nat> {
    if "0x" <= s then ParseNat(s[2..], 16) else ParseNat(s, 10)
  }

  lemma {:induction false} DecimalDigits(n: nat)
    ensures forall i :: 0 <= i < |Decimal(n)| ==> '0' <= Decimal(n)[i] <= '9'
  {
    if n < 10 {
      assert Decimal(n) == [DigitChar(n)];
    } else {
      DecimalDigits(n / 10);
      assert Decimal(n) == Decimal(n / 10) + [DigitChar(n % 10)];
    }
  }

  lemma ParsePrinted(n: nat)
    ensures ParseInteger(Decimal(n)) == Some(n)
    ensures ParseInteger(Hex32(n)) == Some(n)
  {
    var decimal := Digits(n, 10);
    DecimalDigits(n);
    DigitsRoundTrip(n, 10);
    assert "0x" <= decimal ==> decimal[1] == 'x';
    var hex := Digits(n, 16);
    DigitsRoundTrip(n, 16);
    PadKeepsValue(hex, 8, 16);
    AfterPrefix(Pad(hex, 8));
  }

  lemma AfterPrefix(s: string)
    ensures ParseInteger("0x" + s) == ParseNat(s, 16)
  {
  }
}
