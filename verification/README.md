# Czech invoice generator: IBAN and QR payment payload

This project models the computational core of a small Streamlit invoice generator for
Czech providers. The core has three parts:

- the conversion of a domestic Czech account number and bank code into an IBAN
  (`convert_to_iban`). The conversion left-pads the account to 16 characters with
  `str.zfill` and prefixes the bank code, which gives the BBAN. Letters become two-digit
  numbers (A = 10 … Z = 35). The check digits are `98 - (N mod 97)`, where N is the BBAN's
  numeric form followed by the numeric form of "CZ" and "00". This is the ISO 7064
  MOD 97-10 scheme of ISO 13616-1;
- how `generate_invoice` splits the provider's `"<account>/<bank code>"` field on `/`, and
  the Short Payment Descriptor (SPD) string it builds for the QR code:
  `SPD*1.0*ACC:<iban>*AM:<amount>*CC:CZK*X-VS:<invoice number>`;
- the `"<quantity * price> Kč"` total text that `main` stores and from which the SPD amount
  is taken by `split()[0]`.

The modules follow that structure:

- `Wrappers`: the `Option` type for the paths on which the program raises.
- `Decimal`: decimal digit strings, their value (Python's `int()` on a digit string) and
  the canonical numeral of a natural number (`str(n)`).
- `Text`: the Python string operations the core uses: `zfill`, `split(sep)` with its
  inverse `join`, and the first whitespace-separated token (`split()[0]`).
- `Iban`: `convert_to_iban`, the mod-97 validity check it establishes, the uniqueness of
  the check digits, and a streaming remainder computation that agrees with it.
- `Spd`: the SPD payload, with a parser whose round trip with the builder is proved both
  ways.
- `Invoice`: the account-field split, the total-amount text and the whole payload, with
  the end-to-end statement that the payload parses back into a valid IBAN, the invoiced
  amount and the invoice number.

Each operation is tied to a partner, so its contract says more than its body:

- the IBAN to the mod-97 check, which it passes, and for which its check digits are the
  only pair from 02 to 98 that passes;
- `split` to `join`, which inverts it in both directions;
- `str(n)` to `int()`, which inverts it both ways on canonical numerals;
- the SPD builder to its parser, round-tripping both ways.

Where `generate_invoice` raises `IndexError`, the model returns `None`:

- `split('/')[1]` on a field without `/`;
- `split()[0]` on an all-whitespace total.

The `ValueError` that `int()` raises inside `convert_to_iban` is not modelled as a result:
account numbers and bank codes are restricted by precondition to ASCII digits and A-Z, on
which `int()` succeeds up to CPython's default limit of 4300 digits (see "## Left out").

Some behaviours of the code that a reader might not expect:

- The code validates nothing. An account longer than 16 characters is not rejected;
  `zfill` leaves it alone, and the IBAN simply grows beyond 24 characters
  (`Iban.ConvertToIban` states the length in general, and that it is 24 for a 4-character
  bank code and an account of at most 16).
- The bank code is part 1 of `split('/')`, so it ends at a second `/` if there is one, and
  the text after that is dropped (`Invoice.SplitAccountField`).
- The variable symbol is inserted verbatim. A `*` in the invoice number therefore adds
  fields to the payload (`Spd.SpdFields`).
- There is no currency, amount-format or account-format validation.

## Model

| member | source | states |
|---|---|---|
| Decimal.Value | invoice_generator.py:15 | `int()` on a string of ASCII digits, read most significant digit first; its properties are stated by `Decimal.ValueAppend`, `Decimal.ValueBound` and `Decimal.ValueInjective` |
| Decimal.ValueBound | invoice_generator.py:15 | `int()` on a string of k digits gives a number below 10 to the power k |
| Decimal.NatToString | invoice_generator.py:16 | `str(n)` of a natural number is a canonical numeral: digits only, nonempty, no leading zero unless it is "0" |
| Decimal.ValueOfNatToString | invoice_generator.py:16 | `int(str(n)) == n`: reading back the numeral that `str` writes gives the number |
| Decimal.NatToStringOfValue | invoice_generator.py:165 | `str(int(s)) == s` for every canonical numeral s, the other direction of the round trip |
| Decimal.ValueAppend | invoice_generator.py:15 | the value of a concatenation of digit strings is the left value shifted by the right length plus the right value, as the concatenation inside `int(...)` relies on |
| Decimal.ValueInjective | invoice_generator.py:15-16 | two digit strings of the same length with the same value are equal |
| Text.ZFill | invoice_generator.py:11 | `zfill(width)`: the result has length max(width, len), keeps the text at its end, and has zeros only in the padding, which goes after a leading sign |
| Text.ZFillNumeral | invoice_generator.py:11 | zero-padding a digit string keeps it a digit string with the same value, and padding twice to the same width is the same as padding once |
| Text.Split | invoice_generator.py:101-102 | `split(sep)` gives at least one piece, and no piece holds the separator |
| Text.JoinSplit | invoice_generator.py:101-102 | joining the pieces of a split with the separator gives back the original text |
| Text.SplitJoin | invoice_generator.py:101-102 | splitting a join of separator-free pieces gives back exactly those pieces |
| Text.SplitSinglePiece | invoice_generator.py:101 | a split has exactly one piece if and only if the separator does not occur, which is when `split('/')[1]` raises |
| Text.SplitFirstTwo | invoice_generator.py:101-102 | when there are two pieces or more, piece 0 is the text before the first separator and piece 1 runs from there to the next separator or the end |
| Text.FirstToken | invoice_generator.py:106 | `split()[0]`: absent exactly when the text is all whitespace; otherwise a nonempty token without whitespace that sits in the text with only whitespace before it |
| Text.IsSpace | invoice_generator.py:106 | the whitespace set of Python's `str.isspace()`, on which `split()` breaks: the ASCII tab-to-carriage-return range, the space, the file/group/record/unit separators, and the Unicode spaces and line and paragraph separators |
| Text.FirstTokenOf | invoice_generator.py:106 | a whitespace-free word followed by text starting with whitespace has that word as its first token |
| Iban.CharNumeric | invoice_generator.py:13 | a digit stands for itself, and an upper-case letter becomes the two-digit number `ord(c) - 55`, from 10 to 35 |
| Iban.NumericForm | invoice_generator.py:13 | the numeric form of the BBAN is all digits and between one and two times the BBAN's length |
| Iban.NumericFormAppend | invoice_generator.py:13-14 | the numeric form of a concatenation is the concatenation of the numeric forms |
| Iban.NumericFormOfDigits | invoice_generator.py:13 | a digit string's numeric form is the string itself |
| Iban.CountryCodeNumeric | invoice_generator.py:14 | the numeric form of "CZ" is "1235" |
| Iban.ChecksumSeed | invoice_generator.py:14 | the suffix appended before the remainder is taken is the digit string "123500" |
| Iban.Bban | invoice_generator.py:11-12 | the BBAN stays in the upper-case-and-digits domain and has the bank code's length plus max(16, account length) |
| Iban.BbanLayout | invoice_generator.py:11-12 | the BBAN starts with the bank code, ends with the account, and has only zeros between them |
| Iban.Checksum | invoice_generator.py:15 | the check value `98 - (N mod 97)` lies between 2 and 98 |
| Iban.CheckDigits | invoice_generator.py:16 | `str(checksum).zfill(2)` gives exactly two digits whose value is the checksum |
| Iban.ConvertToIban | invoice_generator.py:9-16 | the IBAN is "CZ", then two check digits with value 2 to 98, then the BBAN; its length is four plus the BBAN's, which is 24 for a 4-character bank code and an account of at most 16 |
| Iban.ConvertToIbanIsValid | invoice_generator.py:13-16 | every generated IBAN passes the ISO 13616 check: moving the first four characters to the end and taking the numeric form gives a number that is 1 mod 97 |
| Iban.CheckDigitsUnique | invoice_generator.py:13-16 | among the check-digit pairs 02 to 98, the one the conversion writes is the only one with which "CZ", those digits and the BBAN pass the mod-97 check |
| Iban.Mod97Streaming | invoice_generator.py:15 | a digit-by-digit remainder loop computes the same `int(...) % 97` as the big-integer expression |
| Iban.ConvertToIbanStreaming | invoice_generator.py:9-16 | the conversion computed with the streaming remainder gives the same IBAN |
| Spd.BuildSpd | invoice_generator.py:105-107 | the SPD payload is 29 characters of fixed keys plus the IBAN, the amount and the variable symbol |
| Spd.ParseSpd | invoice_generator.py:106 | a parsed IBAN and amount never contain `*`, since the payload separates fields with it |
| Spd.ParseBuild | invoice_generator.py:106 | the payload built from an IBAN and an amount without `*` parses back to the same three values |
| Spd.BuildParse | invoice_generator.py:106 | every payload that parses is exactly the payload built from what it parses to |
| Spd.SpdFields | invoice_generator.py:106 | split on `*`, the payload has the five fixed fields followed by the variable-symbol field, and six fields in all exactly when the invoice number has no `*` |
| Invoice.SplitAccountField | invoice_generator.py:100-102 | absent exactly when the field has no `/`; otherwise the account is the text before the first `/` and the bank code runs from there to the next `/` or the end |
| Invoice.TotalAmountText | invoice_generator.py:165 | the first whitespace-separated token of `f"{quantity * price} Kč"` is the numeral of the product |
| Invoice.QrPayload | invoice_generator.py:100-106 | the payload exists exactly when the account field has a `/` and the total text has a token |
| Invoice.QrPayloadOfInvoice | invoice_generator.py:100-106 | for an invoice's own total text, the payload exists exactly when the account field has a `/`. It then parses back to: exactly the IBAN that `convert_to_iban` gives for the split account and bank code, which passes the mod-97 check, starts with "CZ" and ends with their BBAN; exactly `str(quantity * price)` as the amount, whose value is quantity times price; and the invoice number |

## Left out

- The Streamlit form, the PDF layout and fonts, the QR image rendering, the temporary
  files and the download link are user interface and I/O. The model takes their inputs as
  parameters.
- Iban.ConvertToIban: the model is restricted by precondition to account numbers and bank
  codes made of ASCII digits and the letters A-Z. Other characters are not modelled:
  - for most of them `int()` raises `ValueError`; a `-`, as in the prefix form
    "xxxx-xxxxxxx" that the form's label suggests, reaches `int()` unchanged and makes it
    raise;
  - some pass through into the IBAN instead: an underscore between digits, Unicode decimal
    digits (which `isalpha` rejects but `int()` reads), and a leading sign or whitespace in
    the bank code;
  - Python's `isalpha` is Unicode-wide, and lower-case letters produce numbers outside
    10-35.
- Iban.ConvertToIban: CPython's default limit on converting long decimal strings is not
  modelled. `int()` raises `ValueError` on a base-10 string of more than 4300 digits, so an
  account number of more than about 4290 characters makes `convert_to_iban` raise, while the
  model returns an IBAN (and `Invoice.QrPayloadOfInvoice` a payload). Accounts that long are
  not realistic, and the model keeps unbounded integers.
- Decimal.Value: only plain digit strings are read. The whitespace, sign and underscore
  forms that `int()` also accepts never occur on the modelled paths.
- Decimal.Value: an empty digit string is given value 0, where `int('')` raises. The
  conversion never reaches it, because the BBAN is at least 16 characters long.
- Iban.ConvertToIbanIsValid: no lemma evaluates a concrete account such as 2600420569 at
  bank 2010 (IBAN CZ9420100000002600420569); reading a 26-digit literal is too costly for
  the verifier, so the statement for all accounts stands in for worked examples.
- Invoice.QrPayload: requires the account field to split into digits and A-Z letters, the
  domain of the conversion described above; outside it the program's behaviour is that of
  the unmodelled Unicode and `int()` paths.
- Invoice.QrPayloadOfInvoice: the form's `min_value` bounds (quantity at least 1, price at
  least 0) are not required; the statements hold for every natural quantity and price.
  Non-integer and negative amounts are not modelled.
