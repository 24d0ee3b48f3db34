/**
 The Short Payment Descriptor (SPD) line encoded into the invoice's QR code:
 `SPD*1.0*ACC:<iban>*AM:<amount>*CC:CZK*X-VS:<variable symbol>`, fields separated by
 '*', currency fixed to Czech koruna, and the variable symbol inserted verbatim.
 */
module Spd {
  import opened Wrappers
  import opened Text

  const Currency: string := "CZK"
  const AccountKey: string := "SPD*1.0*ACC:"
  const AmountKey: string := "*AM:"
  const TrailerKeys: string := "*CC:" + Currency + "*X-VS:"

  /** The payment a QR code asks for: beneficiary IBAN, amount numeral, variable symbol. */
  datatype PaymentInstruction = PaymentInstruction(iban: string, amount: string, variableSymbol: string)

  predicate StartsWith(s: string, prefix: string) {
    |prefix| <= |s| && s[..|prefix|] == prefix
  }

  /** The payload string of the QR code. */
  function BuildSpd(p: PaymentInstruction): (payload: string)
    ensures |payload| == 29 + |p.iban| + |p.amount| + |p.variableSymbol|
  {
    AccountKey + p.iban + AmountKey + p.amount + TrailerKeys + p.variableSymbol
  }

  lemma Reassociate(a: string, b: string, c: string, d: string, e: string, f: string)
    ensures a + b + c + d + e + f == a + (b + (c + (d + (e + f))))
  {
  }

  /** The rest of `s` after `prefix`, if `s` starts with it. */
  function DropPrefix(s: string, prefix: string): (r: Option<string>)
    ensures r.Some? <==> StartsWith(s, prefix)
    ensures r.Some? ==> s == prefix + r.value
  {
    if StartsWith(s, prefix) then
      assert s == prefix + s[|prefix|..];
      Some(s[|prefix|..])
    else None
  }

  /** `s` cut before its first '*': the field, and the rest starting at that '*' (or empty). */
  function TakeField(s: string): (r: (string, string))
    ensures s == r.0 + r.1
    ensures '*' !in r.0
    ensures |r.1| == 0 || r.1[0] == '*'
  {
    var k := FirstIndex(s, '*');
    assert s == s[..k] + s[k..];
    (s[..k], s[k..])
  }

  /** Reads the fields back from a payload, keying on the field names in their fixed order:
      the IBAN and the amount run to the next '*', the variable symbol to the end. */
  function ParseSpd(payload: string): (r: Option<PaymentInstruction>)
    ensures r.Some? ==> '*' !in r.value.iban && '*' !in r.value.amount
  {
    match DropPrefix(payload, AccountKey)
    case None => None
    case Some(rest) =>
      var (iban, afterIban) := TakeField(rest);
      match DropPrefix(afterIban, AmountKey)
      case None => None
      case Some(rest') =>
        var (amount, tail) := TakeField(rest');
        match DropPrefix(tail, TrailerKeys)
        case None => None
        case Some(vs) => Some(PaymentInstruction(iban, amount, vs))
  }

  lemma DropPrefixOf(prefix: string, x: string)
    ensures DropPrefix(prefix + x, prefix) == Some(x)
  {
    assert (prefix + x)[..|prefix|] == prefix;
  }

  /** A field without '*' followed by '*' (or nothing) is cut exactly there. */
  lemma TakeFieldOf(x: string, y: string)
    requires '*' !in x && (|y| == 0 || y[0] == '*')
    ensures TakeField(x + y) == (x, y)
  {
    var s := x + y;
    var k := FirstIndex(s, '*');
    assert forall i :: 0 <= i < |x| ==> s[i] == x[i];
    if |y| > 0 {
      assert s[|x|] == '*';
    }
    assert k == |x|;
    assert s[..k] == x && s[k..] == y;
  }

  /** Parsing recovers every field of a built payload whose IBAN and amount hold no '*'. */
  lemma ParseBuild(p: PaymentInstruction)
    requires '*' !in p.iban && '*' !in p.amount
    ensures ParseSpd(BuildSpd(p)) == Some(p)
  {
    var tail := TrailerKeys + p.variableSymbol;
    var rest' := p.amount + tail;
    var afterIban := AmountKey + rest';
    var rest := p.iban + afterIban;
    var payload := BuildSpd(p);
    Reassociate(AccountKey, p.iban, AmountKey, p.amount, TrailerKeys, p.variableSymbol);
    assert payload == AccountKey + rest;
    DropPrefixOf(AccountKey, rest);
    TakeFieldOf(p.iban, afterIban);
    DropPrefixOf(AmountKey, rest');
    TakeFieldOf(p.amount, tail);
    DropPrefixOf(TrailerKeys, p.variableSymbol);
    assert DropPrefix(payload, AccountKey) == Some(rest);
  }

  /** Every payload that parses is exactly the payload built from what it parses to. */
  lemma BuildParse(payload: string)
    requires ParseSpd(payload).Some?
    ensures BuildSpd(ParseSpd(payload).value) == payload
  {
    var p := ParseSpd(payload).value;
    var rest := DropPrefix(payload, AccountKey).value;
    var (iban, afterIban) := TakeField(rest);
    var rest' := DropPrefix(afterIban, AmountKey).value;
    var (amount, tail) := TakeField(rest');
    var vs := DropPrefix(tail, TrailerKeys).value;
    assert p == PaymentInstruction(iban, amount, vs);
    Reassociate(AccountKey, iban, AmountKey, amount, TrailerKeys, vs);
  }

  /** Split on '*', the payload has the five fixed fields and then the variable-symbol field,
      which itself falls apart wherever the verbatim variable symbol holds a '*'. */
  lemma SpdFields(p: PaymentInstruction)
    requires '*' !in p.iban && '*' !in p.amount
    ensures Split(BuildSpd(p), '*')
         == ["SPD", "1.0", "ACC:" + p.iban, "AM:" + p.amount, "CC:" + Currency]
            + Split("X-VS:" + p.variableSymbol, '*')
    ensures |Split(BuildSpd(p), '*')| == 6 <==> '*' !in p.variableSymbol
  {
    var vs := "X-VS:" + p.variableSymbol;
    BuildSpdShape(p);
    NoStar("ACC:", p.iban);
    NoStar("AM:", p.amount);
    var fixed := ["SPD", "1.0", "ACC:" + p.iban, "AM:" + p.amount, "CC:" + Currency];
    FieldsThenFive("SPD", "1.0", "ACC:" + p.iban, "AM:" + p.amount, "CC:" + Currency, vs);
    SplitFieldsThen(fixed, vs);
    NoStar("X-VS:", p.variableSymbol);
    if '*' in p.variableSymbol {
      SplitSeveral(vs, '*');
    } else {
      SplitNoSeparator(vs, '*');
    }
  }

  /** Fields each followed by '*', then `rest`. */
  function FieldsThen(fields: seq<string>, rest: string): string {
    if |fields| == 0 then rest else fields[0] + ['*'] + FieldsThen(fields[1..], rest)
  }

  lemma FieldsThenFive(a: string, b: string, c: string, d: string, e: string, rest: string)
    ensures FieldsThen([a, b, c, d, e], rest)
         == a + ['*'] + (b + ['*'] + (c + ['*'] + (d + ['*'] + (e + ['*'] + rest))))
  {
    assert [e][1..] == [];
    assert FieldsThen([e], rest) == e + ['*'] + rest;
    assert [d, e][1..] == [e];
    assert FieldsThen([d, e], rest) == d + ['*'] + FieldsThen([e], rest);
    assert [c, d, e][1..] == [d, e];
    assert FieldsThen([c, d, e], rest) == c + ['*'] + FieldsThen([d, e], rest);
    assert [b, c, d, e][1..] == [c, d, e];
    assert FieldsThen([b, c, d, e], rest) == b + ['*'] + FieldsThen([c, d, e], rest);
    assert [a, b, c, d, e][1..] == [b, c, d, e];
  }

  lemma {:induction false} SplitFieldsThen(fields: seq<string>, rest: string)
    requires forall i :: 0 <= i < |fields| ==> '*' !in fields[i]
    ensures Split(FieldsThen(fields, rest), '*') == fields + Split(rest, '*')
  {
    if |fields| > 0 {
      var head, tail := fields[0], fields[1..];
      var t := FieldsThen(tail, rest);
      SplitFieldsThen(tail, rest);
      SplitAtFirst(head, '*', t);
      calc {
        Split(FieldsThen(fields, rest), '*');
        Split(head + ['*'] + t, '*');
        [head] + Split(t, '*');
        [head] + (tail + Split(rest, '*'));
        { assert fields == [head] + tail; }
        fields + Split(rest, '*');
      }
    }
  }

  lemma BuildSpdShape(p: PaymentInstruction)
    ensures BuildSpd(p)
         == "SPD" + ['*'] + ("1.0" + ['*'] + ("ACC:" + p.iban + ['*'] + ("AM:" + p.amount + ['*']
            + ("CC:" + Currency + ['*'] + ("X-VS:" + p.variableSymbol)))))
  {
  }

  lemma NoStar(key: string, value: string)
    requires '*' !in key
    ensures '*' in key + value <==> '*' in value
  {
    assert forall i :: 0 <= i < |value| ==> (key + value)[|key| + i] == value[i];
  }

  lemma SplitSeveral(s: string, sep: char)
    requires sep in s
    ensures |Split(s, sep)| >= 2
  {
    var k := FirstIndex(s, sep);
    assert k < |s|;
  }

}
