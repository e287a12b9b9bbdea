/** Decimal numerals: how the kernel prints numbers and how stoi and stoul read them back. */
module Decimal {
  import opened Prelude

  predicate IsDigit(c: char) { '0' <= c <= '9' }

  function DigitChar(d: nat): char
    requires d < 10
  {
    '0' + (d as char)
  }

  function DigitValue(c: char): nat
    requires IsDigit(c)
  {
    (c - '0') as nat
  }

  function PrintNat(n: nat): (s: string)
    ensures s != "" && forall k :: 0 <= k < |s| ==> IsDigit(s[k])
  {
    if n < 10 then [DigitChar(n)] else PrintNat(n / 10) + [DigitChar(n % 10)]
  }

  function Print(n: int): string {
    if n < 0 then "-" + PrintNat(-n) else PrintNat(n)
  }

  /** How many digits `s` starts with. */
  function DigitCount(s: string): (n: nat)
    ensures n <= |s| && (forall k :: 0 <= k < n ==> IsDigit(s[k])) && (n < |s| ==> !IsDigit(s[n]))
  {
    if s == "" || !IsDigit(s[0]) then 0 else 1 + DigitCount(s[1..])
  }

  function ValueOf(digits: string): nat
    requires forall k :: 0 <= k < |digits| ==> IsDigit(digits[k])
  {
    if digits == "" then 0 else 10 * ValueOf(digits[..|digits| - 1]) + DigitValue(digits[|digits| - 1])
  }

  datatype Parsed = Number(n: int) | NotANumber | OutOfRange

  /** The longest numeral at the start of `s`; what follows it is ignored. */
  function Leading(s: string): Option<int> {
    var negative := s != "" && s[0] == '-';
    var body := if s != "" && (s[0] == '-' || s[0] == '+') then s[1..] else s;
    var count := DigitCount(body);
    if count == 0 then None
    else Some(if negative then -(ValueOf(body[..count]) as int) else ValueOf(body[..count]))
  }

  /** std::stoi for a 32-bit int, on a word without leading white space. */
  function Stoi(s: string): Parsed {
    match Leading(s)
    case None => NotANumber
    case Some(n) => if -0x8000_0000 <= n < 0x8000_0000 then Number(n) else OutOfRange
  }

  /** std::stoul for a 64-bit unsigned long; a minus sign wraps around. */
  function Stoul(s: string): Parsed {
    match Leading(s)
    case None => NotANumber
    case Some(n) =>
      if -0x1_0000_0000_0000_0000 < n < 0x1_0000_0000_0000_0000
      then Number(n % 0x1_0000_0000_0000_0000) else OutOfRange
  }

  lemma {:induction false} PrintNatValue(n: nat)
    ensures ValueOf(PrintNat(n)) == n
  {
    if n >= 10 {
      var s := PrintNat(n);
      assert s[..|s| - 1] == PrintNat(n / 10);
      PrintNatValue(n / 10);
    } else {
      assert PrintNat(n)[..0] == "";
    }
  }

  lemma AllDigits(s: string)
    requires forall k :: 0 <= k < |s| ==> IsDigit(s[k])
    ensures DigitCount(s) == |s|
  {
  }

  /** Reading back what was printed. */
  lemma LeadingOfPrint(n: int)
    ensures Leading(Print(n)) == Some(n)
  {
    var body := PrintNat(if n < 0 then -n else n);
    AllDigits(body);
    PrintNatValue(if n < 0 then -n else n);
    assert body[..|body|] == body;
    assert n < 0 ==> Print(n)[1..] == body;
    assert IsDigit(body[0]);
  }

  lemma StoiOfPrint(n: int)
    requires -0x8000_0000 <= n < 0x8000_0000
    ensures Stoi(Print(n)) == Number(n)
  {
    LeadingOfPrint(n);
  }

  lemma StoulOfPrint(n: nat)
    requires n < 0x1_0000_0000_0000_0000
    ensures Stoul(Print(n)) == Number(n)
  {
    LeadingOfPrint(n);
  }

  /** A number that does not fit is an error; stoul takes a negative one for its value modulo 2^64. */
  lemma RangesOfPrint(n: int)
    ensures Stoi(Print(n)).OutOfRange? <==> !(-0x8000_0000 <= n < 0x8000_0000)
    ensures Stoul(Print(n)).OutOfRange? <==> !(-0x1_0000_0000_0000_0000 < n < 0x1_0000_0000_0000_0000)
    ensures -0x1_0000_0000_0000_0000 < n < 0 ==> Stoul(Print(n)) == Number(n + 0x1_0000_0000_0000_0000)
  {
    LeadingOfPrint(n);
    hide Print, Leading;
  }
}
