/** Text as the programs take it apart: searching for a character, splitting and joining, and
    numbers written in decimal or hexadecimal. */
module Strings {
  import opened Wrappers

  /** Index of the first c, or the length of s. */
  function IndexOf(s: string, c: char): (i: nat)
    ensures i <= |s| && c !in s[..i] && (i < |s| ==> s[i] == c) && (i == |s| <==> c !in s)
  {
    if s == "" || s[0] == c then 0 else 1 + IndexOf(s[1..], c)
  }

  /** The pieces between the occurrences of c. */
  function Fields(s: string, c: char): (f: seq<string>)
    ensures f != []
  {
    var i := IndexOf(s, c);
    if i == |s| then [s] else [s[..i]] + Fields(s[i + 1..], c)
  }

  function Join(f: seq<string>, c: char): string {
    if f == [] then "" else if |f| == 1 then f[0] else f[0] + [c] + Join(f[1..], c)
  }

  ghost predicate Free(s: string, c: char) {
    c !in s
  }

  lemma {:induction false} IndexOfAt(x: string, c: char, y: string)
    requires c !in x
    ensures IndexOf(x + [c] + y, c) == |x|
  {
    if x != "" {
      assert (x + [c] + y)[1..] == x[1..] + [c] + y;
      IndexOfAt(x[1..], c, y);
    }
  }

  /** Splitting undoes joining when no piece contains the separator. */
  lemma {:induction false} FieldsOfJoin(f: seq<string>, c: char)
    requires f != [] && forall x :: x in f ==> Free(x, c)
    ensures Fields(Join(f, c), c) == f
  {
    assert Free(f[0], c);
    if |f| == 1 {
      assert Fields(f[0], c) == [f[0]];
    } else {
      FieldsOfJoin(f[1..], c);
      var s, rest := Join(f, c), Join(f[1..], c);
      IndexOfAt(f[0], c, rest);
      assert s[..|f[0]|] == f[0] && s[|f[0]| + 1..] == rest;
    }
  }

  // ---- numbers -------------------------------------------------------------------------------

  datatype Radix = Decimal | Hex

  function Div(n: nat, r: Radix): nat {
    if r.Decimal? then n / 10 else n / 16
  }

  function Mod(n: nat, r: Radix): (d: nat)
    ensures d < 16 && (r.Decimal? ==> d < 10)
  {
    if r.Decimal? then n % 10 else n % 16
  }

  function Times(n: nat, r: Radix): nat {
    if r.Decimal? then 10 * n else 16 * n
  }

  function Digit(d: nat): (c: char)
    requires d < 16
  {
    if d < 10 then '0' + d as char else 'a' + (d - 10) as char
  }

  /** Readers take hexadecimal digits of either case. */
  function DigitValue(c: char, r: Radix): Option<nat> {
    if '0' <= c <= '9' then Some(c as nat - '0' as nat)
    else if r.Hex? && 'a' <= c <= 'f' then Some(c as nat - 'a' as nat + 10)
    else if r.Hex? && 'A' <= c <= 'F' then Some(c as nat - 'A' as nat + 10)
    else None
  }

  function Digits(n: nat, r: Radix): (s: string)
    ensures s != []
  {
    if Div(n, r) == 0 then [Digit(Mod(n, r))] else Digits(Div(n, r), r) + [Digit(Mod(n, r))]
  }

  /** The number these digits denote; None if one of them is not a digit. */
  function Number(s: string, r: Radix): Option<nat> {
    if s == "" then Some(0)
    else
      var front := Number(s[..|s| - 1], r);
      var last := DigitValue(s[|s| - 1], r);
      if front.Some? && last.Some? then Some(Times(front.value, r) + last.value) else None
  }

  lemma {:induction false} NumberOfDigits(n: nat, r: Radix)
    ensures Number(Digits(n, r), r) == Some(n)
  {
    if Div(n, r) > 0 {
      NumberOfDigits(Div(n, r), r);
      assert Digits(n, r)[..|Digits(n, r)| - 1] == Digits(Div(n, r), r);
    } else {
      assert Digits(n, r)[..0] == "";
    }
  }

  lemma {:induction false} DigitsAreDigits(n: nat, r: Radix)
    ensures forall c :: c in Digits(n, r) ==> DigitValue(c, r).Some?
  {
    if Div(n, r) > 0 {
      DigitsAreDigits(Div(n, r), r);
    }
  }

  lemma {:induction false} BadCharacterIsFatal(s: string, i: nat, r: Radix)
    requires i < |s| && DigitValue(s[i], r) == None
    ensures Number(s, r) == None
  {
    if i < |s| - 1 { BadCharacterIsFatal(s[..|s| - 1], i, r); }
  }

  /** Numbers are written without leading zeros. */
  lemma {:induction false} NoLeadingZero(n: nat, r: Radix)
    requires n > 0
    ensures Digits(n, r)[0] != '0'
  {
    if Div(n, r) > 0 {
      NoLeadingZero(Div(n, r), r);
    }
  }

  /** The digits themselves: decimal ones, and hexadecimal ones in lower case. */
  lemma DigitsExample()
    ensures Digits(0, Decimal) == "0" && Digits(40, Decimal) == "40" && Digits(9, Decimal) == "9"
    ensures Digits(0xBE, Hex) == "be" && Digits(0xF0, Hex) == "f0" && Digits(0xA9, Hex) == "a9"
    ensures Number("aF", Hex) == Some(0xAF) && Number("a", Decimal) == None
  {
    assert Digits(4, Decimal) == "4" && Digits(0xB, Hex) == "b" && Digits(0xF, Hex) == "f" && Digits(0xA, Hex) == "a";
    assert Number("aF"[..1], Hex) == Some(0xA) by { assert "aF"[..1] == "a" && "a"[..0] == ""; }
    assert "a"[..0] == "";
  }
}
