/**
 The three Python string operations the payment code relies on: `str.zfill`,
 `str.split(sep)` with a one-character separator, and `str.split()` (split on runs of
 whitespace) followed by taking the first token.
 */
module Text {
  import opened Wrappers
  import opened Decimal

  function Max(a: int, b: int): int {
    if a >= b then a else b
  }

  predicate HasSign(s: string) {
    |s| > 0 && (s[0] == '+' || s[0] == '-')
  }

  /** `s.zfill(width)`: pads on the left with '0' up to `width`, after a leading sign if
      there is one, and never shortens. */
  function ZFill(s: string, width: nat): (r: string)
    ensures |r| == Max(width, |s|)
    ensures !HasSign(s) ==> r[|r| - |s|..] == s && forall i :: 0 <= i < |r| - |s| ==> r[i] == '0'
    ensures HasSign(s) ==>
              && r[0] == s[0]
              && r[|r| - |s| + 1..] == s[1..]
              && forall i :: 1 <= i <= |r| - |s| ==> r[i] == '0'
  {
    if |s| >= width then s
    else if HasSign(s) then [s[0]] + Zeros(width - |s|) + s[1..]
    else Zeros(width - |s|) + s
  }

  /** Padding a numeral with zeros keeps its value, and padding twice is padding once. */
  lemma ZFillNumeral(s: string, width: nat)
    requires AllDigits(s)
    ensures AllDigits(ZFill(s, width))
    ensures Value(ZFill(s, width)) == Value(s)
    ensures ZFill(ZFill(s, width), width) == ZFill(s, width)
  {
    if |s| < width {
      assert !HasSign(s);
      LeadingZerosValue(width - |s|, s);
    }
  }

  /** Index of the first `c` in `s`, or `|s|` when there is none. */
  function FirstIndex(s: string, c: char): (k: nat)
    ensures k <= |s|
    ensures k < |s| ==> s[k] == c
    ensures forall i :: 0 <= i < k ==> s[i] != c
  {
    if |s| == 0 then 0 else if s[0] == c then 0 else 1 + FirstIndex(s[1..], c)
  }

  /** `sep.join(parts)`. */
  function Join(parts: seq<string>, sep: char): string
    requires |parts| >= 1
  {
    if |parts| == 1 then parts[0] else parts[0] + [sep] + Join(parts[1..], sep)
  }

  /** `s.split(sep)`: the maximal pieces between separators, empty pieces included. */
  function Split(s: string, sep: char): (parts: seq<string>)
    ensures |parts| >= 1
    ensures forall i :: 0 <= i < |parts| ==> sep !in parts[i]
    decreases |s|
  {
    var k := FirstIndex(s, sep);
    if k == |s| then
      assert s[..k] == s;
      [s]
    else
      [s[..k]] + Split(s[k + 1..], sep)
  }

  /** Joining the pieces with the separator gives back the split string. */
  lemma {:induction false} JoinSplit(s: string, sep: char)
    ensures Join(Split(s, sep), sep) == s
    decreases |s|
  {
    var k := FirstIndex(s, sep);
    if k == |s| {
      assert s[..k] == s;
    } else {
      var head, rest := s[..k], s[k + 1..];
      SplitUnfold(s, sep);
      JoinSplit(rest, sep);
      JoinCons(head, Split(rest, sep), sep);
      assert s == head + [sep] + rest;
    }
  }

  lemma SplitUnfold(s: string, sep: char)
    requires FirstIndex(s, sep) < |s|
    ensures Split(s, sep) == [s[..FirstIndex(s, sep)]] + Split(s[FirstIndex(s, sep) + 1..], sep)
  {
  }

  lemma JoinCons(head: string, rest: seq<string>, sep: char)
    requires |rest| >= 1
    ensures Join([head] + rest, sep) == head + [sep] + Join(rest, sep)
  {
    assert ([head] + rest)[1..] == rest;
  }

  /** The split has a single piece exactly when the separator does not occur. */
  lemma SplitSinglePiece(s: string, sep: char)
    ensures |Split(s, sep)| == 1 <==> sep !in s
  {
    var k := FirstIndex(s, sep);
    if k < |s| {
      assert s[k] == sep;
    }
  }

  lemma SplitHead(s: string, sep: char)
    ensures Split(s, sep)[0] == s[..FirstIndex(s, sep)]
  {
  }

  /** Where there are at least two pieces, the first is the text before the first separator
      and the second runs from there to the next separator or to the end. */
  lemma SplitFirstTwo(s: string, sep: char)
    requires |Split(s, sep)| >= 2
    ensures var parts := Split(s, sep);
            var end := |parts[0]| + 1 + |parts[1]|;
            && end <= |s|
            && s[..|parts[0]|] == parts[0]
            && s[|parts[0]|] == sep
            && s[|parts[0]| + 1..end] == parts[1]
            && (end == |s| || s[end] == sep)
  {
    SplitSinglePiece(s, sep);
    var k := FirstIndex(s, sep);
    SplitFirstPieces(s, sep);
    FieldLayout(s, sep, k, FirstIndex(s[k + 1..], sep));
  }

  lemma SplitFirstPieces(s: string, sep: char)
    requires FirstIndex(s, sep) < |s|
    ensures Split(s, sep)[0] == s[..FirstIndex(s, sep)]
    ensures Split(s, sep)[1] == s[FirstIndex(s, sep) + 1..][..FirstIndex(s[FirstIndex(s, sep) + 1..], sep)]
  {
    var k := FirstIndex(s, sep);
    var rest := s[k + 1..];
    SplitUnfold(s, sep);
    SplitHead(rest, sep);
    assert Split(s, sep)[1] == Split(rest, sep)[0];
  }

  lemma FieldLayout(s: string, sep: char, k: nat, k2: nat)
    requires k < |s| && s[k] == sep
    requires k2 <= |s| - k - 1 && (k2 == |s| - k - 1 || s[k + 1..][k2] == sep)
    ensures var a, b := s[..k], s[k + 1..][..k2];
            var end := |a| + 1 + |b|;
            && end <= |s|
            && s[..|a|] == a
            && s[|a|] == sep
            && s[|a| + 1..end] == b
            && (end == |s| || s[end] == sep)
  {
  }

  /** Splitting at the first separator: the text before it, then the split of the rest. */
  lemma SplitAtFirst(x: string, sep: char, y: string)
    requires sep !in x
    ensures Split(x + [sep] + y, sep) == [x] + Split(y, sep)
  {
    var s := x + [sep] + y;
    var k := FirstIndex(s, sep);
    assert s[|x|] == sep;
    assert forall i :: 0 <= i < |x| ==> s[i] == x[i];
    assert k == |x|;
    assert s[..k] == x;
    assert s[k + 1..] == y;
  }

  /** A string without the separator splits into itself. */
  lemma SplitNoSeparator(s: string, sep: char)
    requires sep !in s
    ensures Split(s, sep) == [s]
  {
    assert FirstIndex(s, sep) == |s|;
  }

  /** Splitting undoes joining pieces that do not contain the separator. */
  lemma {:induction false} SplitJoin(parts: seq<string>, sep: char)
    requires |parts| >= 1
    requires forall i :: 0 <= i < |parts| ==> sep !in parts[i]
    ensures Split(Join(parts, sep), sep) == parts
    decreases |parts|
  {
    if |parts| == 1 {
      SplitNoSeparator(parts[0], sep);
    } else {
      assert sep !in parts[0];
      SplitJoin(parts[1..], sep);
      SplitAtFirst(parts[0], sep, Join(parts[1..], sep));
      assert parts == [parts[0]] + parts[1..];
    }
  }

  /** Python's `str.isspace()` for one character. */
  predicate IsSpace(c: char) {
    var n := c as int;
    || n == 0x20 || 0x09 <= n <= 0x0D || 0x1C <= n <= 0x1F
    || n == 0x85 || n == 0xA0 || n == 0x1680 || 0x2000 <= n <= 0x200A
    || n == 0x2028 || n == 0x2029 || n == 0x202F || n == 0x205F || n == 0x3000
  }

  predicate NoSpace(s: string) {
    forall i :: 0 <= i < |s| ==> !IsSpace(s[i])
  }

  /** Number of whitespace characters at the start of `s`. */
  function LeadingSpaces(s: string): (k: nat)
    ensures k <= |s|
    ensures forall i :: 0 <= i < k ==> IsSpace(s[i])
    ensures k < |s| ==> !IsSpace(s[k])
  {
    if |s| == 0 || !IsSpace(s[0]) then 0 else 1 + LeadingSpaces(s[1..])
  }

  /** Index of the first whitespace character of `s`, or `|s|` when there is none. */
  function FirstSpace(s: string): (k: nat)
    ensures k <= |s|
    ensures forall i :: 0 <= i < k ==> !IsSpace(s[i])
    ensures k < |s| ==> IsSpace(s[k])
  {
    if |s| == 0 || IsSpace(s[0]) then 0 else 1 + FirstSpace(s[1..])
  }

  /** `t` is a whitespace-delimited token of `s` starting at `k`, with only whitespace before it. */
  predicate TokenAt(s: string, k: nat, t: string) {
    && k + |t| <= |s|
    && (forall i :: 0 <= i < k ==> IsSpace(s[i]))
    && s[k..k + |t|] == t
    && (k + |t| == |s| || IsSpace(s[k + |t|]))
  }

  /** `s.split()[0]`: the first whitespace-separated token; `None` where Python raises
      `IndexError` because `s` is empty or all whitespace. */
  function FirstToken(s: string): (r: Option<string>)
    ensures r.None? <==> forall i :: 0 <= i < |s| ==> IsSpace(s[i])
    ensures r.Some? ==> |r.value| > 0 && NoSpace(r.value) && exists k :: TokenAt(s, k, r.value)
  {
    var k := LeadingSpaces(s);
    if k == |s| then None
    else
      var rest := s[k..];
      var t := rest[..FirstSpace(rest)];
      assert s[k..k + |t|] == t;
      assert TokenAt(s, k, t);
      Some(t)
  }

  /** A token followed by whitespace is what `split()[0]` returns. */
  lemma FirstTokenOf(t: string, tail: string)
    requires |t| > 0 && NoSpace(t)
    requires |tail| > 0 && IsSpace(tail[0])
    ensures FirstToken(t + tail) == Some(t)
  {
    var s := t + tail;
    assert !IsSpace(s[0]);
    assert LeadingSpaces(s) == 0;
    assert s[0..] == s;
    var k := FirstSpace(s);
    assert s[|t|] == tail[0];
    assert forall i :: 0 <= i < |t| ==> s[i] == t[i];
    assert k == |t|;
    assert s[..k] == t;
  }

}
