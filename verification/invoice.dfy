/**
 The payment-code part of invoice generation: the provider's "<account>/<bank code>"
 field is split, the account is converted to an IBAN, and the SPD payload is assembled
 with the amount taken from the "<quantity * price> Kč" total text and the invoice
 number as variable symbol.
 */
module Invoice {
  import opened Wrappers
  import opened Decimal
  import opened Text
  import opened Iban
  import opened Spd

  /** The account number (before the first '/') and the bank code (between the first and the
      second '/'); `None` where indexing part 1 of the split raises because there is no '/'. */
  function SplitAccountField(field: string): (r: Option<(string, string)>)
    ensures r.None? <==> '/' !in field
    ensures r.Some? ==>
              var (account, bankCode) := r.value;
              var end := |account| + 1 + |bankCode|;
              && '/' !in account && '/' !in bankCode
              && end <= |field|
              && field[..|account|] == account
              && field[|account|] == '/'
              && field[|account| + 1..end] == bankCode
              && (end == |field| || field[end] == '/')
  {
    var parts := Split(field, '/');
    SplitSinglePiece(field, '/');
    if |parts| < 2 then
      None
    else
      SplitFirstTwo(field, '/');
      Some((parts[0], parts[1]))
  }

  /** The account field is in the domain of the conversion: where it splits, both parts are
      ASCII digits and upper-case letters. */
  predicate AccountFieldSupported(field: string) {
    var split := SplitAccountField(field);
    split.Some? ==> IsIbanText(split.value.0) && IsIbanText(split.value.1)
  }

  /** The "Total Amount" text: `f"{quantity * price} Kč"`. */
  function TotalAmountText(quantity: nat, price: nat): (text: string)
    ensures FirstToken(text) == Some(NatToString(quantity * price))
  {
    var numeral := NatToString(quantity * price);
    var text := numeral + " Kč";
    NumeralHasNoSpace(numeral);
    FirstTokenOf(numeral, " Kč");
    text
  }

  lemma NumeralHasNoSpace(s: string)
    requires AllDigits(s)
    ensures NoSpace(s)
  {
  }

  /** The QR payload of `generate_invoice`; `None` where `generate_invoice` raises `IndexError`
      (no '/' in the account field, or a total text without a token). */
  function QrPayload(accountField: string, totalText: string, invoiceNumber: string): (r: Option<string>)
    requires AccountFieldSupported(accountField)
    ensures r.Some? <==> '/' in accountField && FirstToken(totalText).Some?
  {
    match SplitAccountField(accountField)
    case None => None
    case Some((account, bankCode)) =>
      var iban := ConvertToIban(account, bankCode);
      match FirstToken(totalText)
      case None => None
      case Some(amount) => Some(BuildSpd(PaymentInstruction(iban, amount, invoiceNumber)))
  }

  /** For an invoice of `quantity` items at `price`, the payload exists exactly when the
      account field has a '/', and it carries exactly the IBAN `convert_to_iban` gives for the
      field's account and bank code (a "CZ" IBAN that passes the mod-97 check and ends in
      their BBAN), exactly `str(quantity * price)` as the amount, and the invoice number
      verbatim. */
  lemma QrPayloadOfInvoice(accountField: string, quantity: nat, price: nat, invoiceNumber: string)
    requires AccountFieldSupported(accountField)
    ensures QrPayload(accountField, TotalAmountText(quantity, price), invoiceNumber).Some?
        <==> '/' in accountField
    ensures '/' in accountField ==>
              var payload := QrPayload(accountField, TotalAmountText(quantity, price), invoiceNumber).value;
              var (account, bankCode) := SplitAccountField(accountField).value;
              && ParseSpd(payload).Some?
              && var p := ParseSpd(payload).value;
              && p.iban == ConvertToIban(account, bankCode)
              && p.amount == NatToString(quantity * price)
              && PassesMod97Check(p.iban)
              && p.iban[..2] == CountryCode
              && p.iban[4..] == Bban(account, bankCode)
              && AllDigits(p.amount) && Value(p.amount) == quantity * price
              && p.variableSymbol == invoiceNumber
  {
    if '/' in accountField {
      var (account, bankCode) := SplitAccountField(accountField).value;
      var p := PaymentInstruction(ConvertToIban(account, bankCode), NatToString(quantity * price), invoiceNumber);
      assert QrPayload(accountField, TotalAmountText(quantity, price), invoiceNumber) == Some(BuildSpd(p));
      PayloadRoundTrip(account, bankCode, quantity * price, invoiceNumber);
    }
  }

  lemma PayloadRoundTrip(account: string, bankCode: string, total: nat, invoiceNumber: string)
    requires IsIbanText(account) && IsIbanText(bankCode)
    ensures var p := PaymentInstruction(ConvertToIban(account, bankCode), NatToString(total), invoiceNumber);
            && ParseSpd(BuildSpd(p)) == Some(p)
            && PassesMod97Check(p.iban)
            && Value(p.amount) == total
  {
    var iban := ConvertToIban(account, bankCode);
    var amount := NatToString(total);
    ConvertToIbanIsValid(account, bankCode);
    ValueOfNatToString(total);
    assert '*' !in iban by {
      assert forall i :: 0 <= i < |iban| ==> IsIbanChar(iban[i]);
    }
    assert '*' !in amount;
    ParseBuild(PaymentInstruction(iban, amount, invoiceNumber));
  }

}
