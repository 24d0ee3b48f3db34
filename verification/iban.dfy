/**
 The conversion of a Czech domestic account (account number, bank code) into an IBAN,
 with the check digits of ISO 7064 MOD 97-10 as ISO 13616-1 uses them: the BBAN
 followed by the country code and "00" is read as a decimal number N (letters become
 10..35), and the check digits are 98 - (N mod 97).
 */
module Iban {
  import opened Decimal
  import opened Text

  const CountryCode: string := "CZ"
  const AccountWidth: nat := 16

  predicate IsUpper(c: char) {
    'A' <= c <= 'Z'
  }

  /** The characters the conversion is defined for: ASCII digits and upper-case letters. */
  predicate IsIbanChar(c: char) {
    IsDigit(c) || IsUpper(c)
  }

  predicate IsIbanText(s: string) {
    forall i :: 0 <= i < |s| ==> IsIbanChar(s[i])
  }

  /** One character in numeric form: a letter becomes `str(ord(c) - 55)`, a digit stays. */
  function CharNumeric(c: char): (r: string)
    requires IsIbanChar(c)
    ensures AllDigits(r)
    ensures IsDigit(c) ==> r == [c]
    ensures IsUpper(c) ==> |r| == 2 && Value(r) == c as int - 'A' as int + 10
  {
    if IsUpper(c) then
      var r := NatToString(c as int - 55);
      ValueOfNatToString(c as int - 55);
      assert r == NatToString((c as int - 55) / 10) + [DigitChar((c as int - 55) % 10)];
      r
    else [c]
  }

  /** The numeric form of a string: each character mapped on its own, in order. */
  function NumericForm(s: string): (r: string)
    requires IsIbanText(s)
    ensures AllDigits(r)
    ensures |s| <= |r| <= 2 * |s|
  {
    if |s| == 0 then "" else CharNumeric(s[0]) + NumericForm(s[1..])
  }

  /** The numeric form of a concatenation is the concatenation of the numeric forms. */
  lemma {:induction false} NumericFormAppend(a: string, b: string)
    requires IsIbanText(a) && IsIbanText(b)
    ensures IsIbanText(a + b)
    ensures NumericForm(a + b) == NumericForm(a) + NumericForm(b)
    decreases |a|
  {
    if |a| > 0 {
      assert (a + b)[1..] == a[1..] + b;
      NumericFormAppend(a[1..], b);
    } else {
      assert a + b == b;
    }
  }

  /** A string of digits is its own numeric form. */
  lemma {:induction false} NumericFormOfDigits(s: string)
    requires AllDigits(s)
    ensures IsIbanText(s)
    ensures NumericForm(s) == s
    decreases |s|
  {
    if |s| > 0 {
      NumericFormOfDigits(s[1..]);
      assert s == [s[0]] + s[1..];
    }
  }

  /** The country code "CZ" reads as "1235", so the checksum seed is "123500". */
  lemma CountryCodeNumeric()
    ensures IsIbanText(CountryCode)
    ensures NumericForm(CountryCode) == "1235"
  {
    var c := CharNumeric('C');
    var z := CharNumeric('Z');
    assert Value(c) == 12 && |c| == 2;
    assert Value(z) == 35 && |z| == 2;
    NatToStringOfValue(c);
    NatToStringOfValue(z);
    assert c == NatToString(12) == "12";
    assert z == NatToString(35) == "35";
    assert CountryCode[1..] == "Z";
    assert NumericForm("Z") == z + NumericForm("");
  }

  /** The numeric form of the country code followed by the placeholder check digits "00". */
  function ChecksumSeed(): (seed: string)
    ensures AllDigits(seed)
    ensures seed == "1235" + "00"
  {
    CountryCodeNumeric();
    NumericForm(CountryCode) + "00"
  }

  lemma ZFillKeepsIbanText(s: string, width: nat)
    requires IsIbanText(s)
    ensures IsIbanText(ZFill(s, width))
  {
    var r := ZFill(s, width);
    assert !HasSign(s);
    forall i | 0 <= i < |r|
      ensures IsIbanChar(r[i])
    {
      if i >= |r| - |s| {
        assert r[i] == r[|r| - |s|..][i - (|r| - |s|)];
      }
    }
  }

  lemma IbanTextAppend(a: string, b: string)
    requires IsIbanText(a) && IsIbanText(b)
    ensures IsIbanText(a + b)
  {
    assert forall i :: |a| <= i < |a + b| ==> (a + b)[i] == b[i - |a|];
  }

  /** The BBAN: the bank code followed by the account number zero-padded to 16 characters. */
  function Bban(account: string, bankCode: string): (bban: string)
    requires IsIbanText(account) && IsIbanText(bankCode)
    ensures IsIbanText(bban)
    ensures |bban| == |bankCode| + Max(AccountWidth, |account|)
  {
    ZFillKeepsIbanText(account, AccountWidth);
    IbanTextAppend(bankCode, ZFill(account, AccountWidth));
    bankCode + ZFill(account, AccountWidth)
  }

  /** The BBAN starts with the bank code and ends with the whole account number, with only
      '0's between them: the account is padded, never truncated. */
  lemma BbanLayout(account: string, bankCode: string)
    requires IsIbanText(account) && IsIbanText(bankCode)
    ensures var bban := Bban(account, bankCode);
            && bban[..|bankCode|] == bankCode
            && bban[|bban| - |account|..] == account
            && forall i :: |bankCode| <= i < |bban| - |account| ==> bban[i] == '0'
  {
    var padded := ZFill(account, AccountWidth);
    var bban := bankCode + padded;
    assert !HasSign(account);
    assert bban[|bban| - |account|..] == padded[|padded| - |account|..];
    assert forall i :: |bankCode| <= i < |bban| - |account| ==> bban[i] == padded[i - |bankCode|];
  }

  /** The checksum of a BBAN: 98 minus the remainder modulo 97 of the number read from the
      numeric form of the BBAN followed by that of the country code and "00". */
  function Checksum(bban: string): (c: int)
    requires IsIbanText(bban)
    ensures 2 <= c <= 98
  {
    98 - Value(NumericForm(bban) + ChecksumSeed()) % 97
  }

  /** `str(c).zfill(2)`: check values 2..98 always come out as exactly two digits worth `c`. */
  function CheckDigits(c: int): (cc: string)
    requires 2 <= c <= 98
    ensures AllDigits(cc) && |cc| == 2 && Value(cc) == c
  {
    ZFillNumeral(NatToString(c), 2);
    ValueOfNatToString(c);
    if c >= 10 then
      assert NatToString(c) == NatToString(c / 10) + [DigitChar(c % 10)];
      ZFill(NatToString(c), 2)
    else
      ZFill(NatToString(c), 2)
  }

  /** `convert_to_iban(account_number, bank_code)`. */
  function ConvertToIban(account: string, bankCode: string): (iban: string)
    requires IsIbanText(account) && IsIbanText(bankCode)
    ensures |iban| == 4 + |bankCode| + Max(AccountWidth, |account|)
    ensures |bankCode| == 4 && |account| <= AccountWidth ==> |iban| == 24
    ensures iban[..2] == CountryCode
    ensures AllDigits(iban[2..4]) && 2 <= Value(iban[2..4]) <= 98
    ensures iban[4..] == Bban(account, bankCode)
  {
    var bban := Bban(account, bankCode);
    var cc := CheckDigits(Checksum(bban));
    var iban := CountryCode + cc + bban;
    assert iban[2..4] == cc;
    assert iban[4..] == bban;
    iban
  }

  /** The IBAN check of ISO 13616-1: move the first four characters to the end,
      read the result in numeric form, and the remainder modulo 97 must be 1. */
  predicate PassesMod97Check(s: string) {
    && |s| >= 4
    && IsIbanText(s)
    && RearrangedNumber(s) % 97 == 1
  }

  /** The number the mod-97 check reads: the numeric form of `s` with its first four
      characters moved to the end. */
  function RearrangedNumber(s: string): nat
    requires |s| >= 4 && IsIbanText(s)
  {
    Value(NumericForm(s[4..] + s[..4]))
  }

  /** Moving "CZ" and two check digits behind the BBAN gives numeric(BBAN) ++ "1235" ++ cc. */
  lemma RearrangedNumeric(bban: string, cc: string)
    requires IsIbanText(bban) && AllDigits(cc) && |cc| == 2
    ensures IsIbanText(CountryCode + cc + bban)
    ensures NumericForm((CountryCode + cc + bban)[4..] + (CountryCode + cc + bban)[..4])
         == NumericForm(bban) + "1235" + cc
  {
    var s := CountryCode + cc + bban;
    var head := CountryCode + cc;
    CountryCodeNumeric();
    NumericFormOfDigits(cc);
    NumericFormAppend(CountryCode, cc);
    IbanTextAppend(head, bban);
    assert s[4..] == bban && s[..4] == head;
    NumericFormAppend(bban, head);
    assert NumericForm(bban + head) == NumericForm(bban) + ("1235" + cc);
  }

  /** ... and so adds the check digits to the number the checksum was computed from. */
  lemma RearrangedValue(bban: string, cc: string)
    requires IsIbanText(bban) && AllDigits(cc) && |cc| == 2
    ensures IsIbanText(CountryCode + cc + bban)
    ensures RearrangedNumber(CountryCode + cc + bban) == Value(NumericForm(bban) + ChecksumSeed()) + Value(cc)
  {
    RearrangedNumeric(bban, cc);
    var x := NumericForm(bban) + "1235";
    AppendCheckDigits(x, cc);
    assert NumericForm(bban) + ("1235" + "00") == x + "00";
  }

  lemma AppendCheckDigits(x: string, cc: string)
    requires AllDigits(x) && AllDigits(cc) && |cc| == 2
    ensures AllDigits(x + "00") && AllDigits(x + cc)
    ensures Value(x + cc) == Value(x + "00") + Value(cc)
  {
    ValueAppend(x, cc);
    ValueAppend(x, "00");
    assert Value("00") == 0;
  }

  /** Adding 98 - (n mod 97) to n leaves remainder 1 modulo 97. */
  lemma Mod97Arith(n: nat, v: int, w: int)
    requires v == 98 - n % 97 && w == n + v
    ensures w % 97 == 1
  {
    var q := n / 97;
    assert w == 97 * (q + 1) + 1;
  }

  /** "CZ", the check digits computed for a BBAN, and the BBAN pass the mod-97 check. */
  lemma ChecksumMakesValid(bban: string)
    requires IsIbanText(bban)
    ensures PassesMod97Check(CountryCode + CheckDigits(Checksum(bban)) + bban)
  {
    var c := Checksum(bban);
    var cc := CheckDigits(c);
    var s := CountryCode + cc + bban;
    RearrangedValue(bban, cc);
    Mod97Arith(Value(NumericForm(bban) + ChecksumSeed()), c, RearrangedNumber(s));
  }

  /** The result passes the IBAN mod-97 check; equivalently numeric(BBAN) ++ "1235" ++ the
      check digits reads as a number congruent to 1 modulo 97. */
  lemma ConvertToIbanIsValid(account: string, bankCode: string)
    requires IsIbanText(account) && IsIbanText(bankCode)
    ensures PassesMod97Check(ConvertToIban(account, bankCode))
    ensures var iban := ConvertToIban(account, bankCode);
            var digits := NumericForm(Bban(account, bankCode)) + "1235" + iban[2..4];
            AllDigits(digits) && Value(digits) % 97 == 1
  {
    var bban := Bban(account, bankCode);
    var cc := CheckDigits(Checksum(bban));
    var iban := ConvertToIban(account, bankCode);
    assert iban == CountryCode + cc + bban;
    ChecksumMakesValid(bban);
    RearrangedNumeric(bban, cc);
    assert iban[2..4] == cc;
  }

  /** Among two-digit check values 02..98 exactly one makes "CZ" + cc + BBAN pass the
      mod-97 check, and it is the one the conversion computes. */
  lemma CheckDigitsUnique(account: string, bankCode: string, cc: string)
    requires IsIbanText(account) && IsIbanText(bankCode)
    requires AllDigits(cc) && |cc| == 2 && 2 <= Value(cc) <= 98
    ensures PassesMod97Check(CountryCode + cc + Bban(account, bankCode))
        <==> cc == ConvertToIban(account, bankCode)[2..4]
  {
    var bban := Bban(account, bankCode);
    var c := Checksum(bban);
    var mine := CheckDigits(c);
    var iban := ConvertToIban(account, bankCode);
    assert iban == CountryCode + mine + bban;
    assert iban[2..4] == mine;
    if PassesMod97Check(CountryCode + cc + bban) {
      OnlyOneCheckValue(bban, cc);
      ValueInjective(cc, mine);
    }
    if cc == mine {
      ChecksumMakesValid(bban);
    }
  }

  lemma OnlyOneCheckValue(bban: string, cc: string)
    requires IsIbanText(bban)
    requires AllDigits(cc) && |cc| == 2 && 2 <= Value(cc) <= 98
    requires PassesMod97Check(CountryCode + cc + bban)
    ensures Value(cc) == Checksum(bban)
  {
    var s := CountryCode + cc + bban;
    RearrangedValue(bban, cc);
    var n := Value(NumericForm(bban) + ChecksumSeed());
    var v := Value(cc);
    ResidueDeterminesCheck(n, v, RearrangedNumber(s));
  }

  /** Only one value in [2, 98] added to `n` leaves remainder 1 modulo 97. */
  lemma ResidueDeterminesCheck(n: nat, v: int, w: int)
    requires 2 <= v <= 98
    requires w == n + v && w % 97 == 1
    ensures v == 98 - n % 97
  {
    var q := n / 97;
    var r := n % 97;
    assert n == 97 * q + r;
    var k := w / 97;
    assert w == 97 * k + 1;
    assert v - (98 - r) == 97 * (k - q - 1);
  }

  /** One streaming step: reducing the prefix first does not change the remainder. */
  lemma Mod97Step(a: nat, d: nat)
    ensures (a % 97 * 10 + d) % 97 == (a * 10 + d) % 97
  {
    var q := a / 97;
    assert a * 10 + d == 97 * (10 * q) + (a % 97 * 10 + d);
  }

  /** The remainder modulo 97 of a long numeral, one digit at a time: acc = (acc * 10 + d) % 97. */
  method Mod97Streaming(digits: string) returns (rem: nat)
    requires AllDigits(digits)
    ensures rem == Value(digits) % 97
  {
    rem := 0;
    var i := 0;
    while i < |digits|
      invariant 0 <= i <= |digits|
      invariant rem == Value(digits[..i]) % 97
    {
      assert digits[..i + 1][..i] == digits[..i];
      Mod97Step(Value(digits[..i]), DigitValue(digits[i]));
      rem := (rem * 10 + DigitValue(digits[i])) % 97;
      i := i + 1;
    }
    assert digits[..i] == digits;
  }

  /** The conversion with streaming arithmetic, never forming the 30-digit number, gives
      the same IBAN as the whole-number version. */
  method ConvertToIbanStreaming(account: string, bankCode: string) returns (iban: string)
    requires IsIbanText(account) && IsIbanText(bankCode)
    ensures iban == ConvertToIban(account, bankCode)
  {
    var bban := Bban(account, bankCode);
    var rem := Mod97Streaming(NumericForm(bban) + ChecksumSeed());
    var c := 98 - rem;
    assert c == Checksum(bban);
    iban := CountryCode + CheckDigits(c) + bban;
  }

}
