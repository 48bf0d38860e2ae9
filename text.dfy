/**
 * The Kotlin string operations the app relies on: decimal rendering of
 * counts, `toLongOrNull`/`toIntOrNull`, `toDoubleOrNull`/`toFloatOrNull`,
 * `isBlank`, `contains` and `split(" ")[0]`.
 */
module Text {
  import opened Wrappers

  const LongMin: int := -0x8000_0000_0000_0000
  const LongMax: int := 0x7fff_ffff_ffff_ffff
  const IntMin: int := -0x8000_0000
  const IntMax: int := 0x7fff_ffff

  // ---------------------------------------------------------------------------
  // Decimal digits

  predicate IsDigit(c: char) {
    '0' <= c <= '9'
  }

  predicate AllDigits(s: string) {
    forall i :: 0 <= i < |s| ==> IsDigit(s[i])
  }

  /** The number a string of decimal digits spells, most significant digit first. */
  function DigitsValue(s: string): nat
    requires AllDigits(s)
  {
    if s == [] then 0
    else DigitsValue(s[..|s| - 1]) * 10 + (s[|s| - 1] - '0') as nat
  }

  function DigitChar(d: nat): (c: char)
    requires d < 10
    ensures IsDigit(c) && (c - '0') as nat == d
  {
    ('0' as int + d) as char
  }

  /** String templates render a non-negative count as its shortest decimal form. */
  function NatToString(n: nat): (s: string)
    ensures |s| > 0 && AllDigits(s)
    ensures s[0] == '0' ==> n == 0
  {
    if n < 10 then [DigitChar(n)] else NatToString(n / 10) + [DigitChar(n % 10)]
  }

  lemma {:induction false} NatToStringValue(n: nat)
    ensures DigitsValue(NatToString(n)) == n
  {
    var s := NatToString(n);
    if n >= 10 {
      NatToStringValue(n / 10);
      assert s[..|s| - 1] == NatToString(n / 10);
    }
  }

  // ---------------------------------------------------------------------------
  // Integers: String.toLongOrNull / String.toIntOrNull

  /** An optional `+` or `-` followed by at least one digit, with no other character. */
  function ParseInteger(s: string): (r: Option<int>)
    ensures r.Some? ==> |s| > 0
    ensures r.Some? && IsDigit(s[0]) ==> AllDigits(s) && r.value == DigitsValue(s)
  {
    if s == [] then None
    else if s[0] == '+' || s[0] == '-' then
      var rest := s[1..];
      if rest != [] && AllDigits(rest) then
        Some(if s[0] == '-' then -(DigitsValue(rest) as int) else DigitsValue(rest))
      else None
    else if AllDigits(s) then Some(DigitsValue(s))
    else None
  }

  /** `toLongOrNull`: a 64-bit value or nothing. */
  function ParseLong(s: string): (r: Option<int>)
    ensures r.Some? <==> ParseInteger(s).Some? && LongMin <= ParseInteger(s).value <= LongMax
    ensures r.Some? ==> r == ParseInteger(s)
  {
    match ParseInteger(s)
    case Some(v) => if LongMin <= v <= LongMax then Some(v) else None
    case None => None
  }

  /** `toIntOrNull`: a 32-bit value or nothing. */
  function ParseInt(s: string): (r: Option<int>)
    ensures r.Some? <==> ParseInteger(s).Some? && IntMin <= ParseInteger(s).value <= IntMax
    ensures r.Some? ==> r == ParseInteger(s)
  {
    match ParseInteger(s)
    case Some(v) => if IntMin <= v <= IntMax then Some(v) else None
    case None => None
  }

  lemma ParseLongOfNatToString(n: nat)
    requires n <= LongMax
    ensures ParseLong(NatToString(n)) == Some(n)
  {
    NatToStringValue(n);
  }

  // ---------------------------------------------------------------------------
  // Decimals: String.toDoubleOrNull / String.toFloatOrNull

  /** The characters the floating-point grammar allows around a number (code points 0 to 32). */
  predicate IsPadding(c: char) {
    c <= ' '
  }

  /** The type suffix the floating-point grammar allows after the digits: `5f` and `10d` read as 5 and 10. */
  predicate IsTypeSuffix(c: char) {
    c == 'f' || c == 'F' || c == 'd' || c == 'D'
  }

  function Pow10(n: nat): (p: nat)
    ensures p >= 1
  {
    if n == 0 then 1 else 10 * Pow10(n - 1)
  }

  function DigitValue(c: char): nat
    requires IsDigit(c)
  {
    (c - '0') as nat
  }

  /**
   * Where a left-to-right reading of
   * `padding* [+-]? (digits+ ('.' digits*)? | '.' digits+) [fFdD]? padding*`
   * stands: before the sign, after the sign, in the whole part, after a point with no
   * digit before it, in the fraction, after the suffix or in the trailing padding.
   */
  datatype ScanState = Lead | Sign | Whole | DotFirst | Fraction | Trail

  /** The number read so far: its sign, the whole part, the fraction digits and their count. */
  datatype Reading = Reading(negative: bool, whole: nat, fraction: nat, places: nat)

  function ReadingValue(r: Reading): real {
    var v := r.whole as real + r.fraction as real / Pow10(r.places) as real;
    if r.negative then -v else v
  }

  const NoReading: Reading := Reading(false, 0, 0, 0)

  /** Reads `s` from position `i` on, in state `st`, with `r` read so far. */
  function Scan(s: string, i: nat, st: ScanState, r: Reading): Option<real>
    requires i <= |s|
    decreases |s| - i
  {
    if i == |s| then
      if st == Whole || st == Fraction || st == Trail then Some(ReadingValue(r)) else None
    else
      var c := s[i];
      match st
      case Lead =>
        if IsPadding(c) then Scan(s, i + 1, Lead, r)
        else if c == '+' || c == '-' then Scan(s, i + 1, Sign, r.(negative := c == '-'))
        else if IsDigit(c) then Scan(s, i + 1, Whole, r.(whole := r.whole * 10 + DigitValue(c)))
        else if c == '.' then Scan(s, i + 1, DotFirst, r)
        else None
      case Sign =>
        if IsDigit(c) then Scan(s, i + 1, Whole, r.(whole := r.whole * 10 + DigitValue(c)))
        else if c == '.' then Scan(s, i + 1, DotFirst, r)
        else None
      case Whole =>
        if IsDigit(c) then Scan(s, i + 1, Whole, r.(whole := r.whole * 10 + DigitValue(c)))
        else if c == '.' then Scan(s, i + 1, Fraction, r)
        else if IsPadding(c) || IsTypeSuffix(c) then Scan(s, i + 1, Trail, r)
        else None
      case DotFirst =>
        if IsDigit(c) then Scan(s, i + 1, Fraction, r.(fraction := DigitValue(c), places := 1))
        else None
      case Fraction =>
        if IsDigit(c) then Scan(s, i + 1, Fraction, r.(fraction := r.fraction * 10 + DigitValue(c), places := r.places + 1))
        else if IsPadding(c) || IsTypeSuffix(c) then Scan(s, i + 1, Trail, r)
        else None
      case Trail =>
        if IsPadding(c) then Scan(s, i + 1, Trail, r) else None
  }

  /**
   * `toDoubleOrNull` (and `toFloatOrNull`, which reads the same texts), on
   * decimal notation: optional padding, an optional sign, digits with an
   * optional point, an optional type suffix, optional padding; the value is
   * read exactly.
   */
  function ParseDecimal(s: string): Option<real> {
    Scan(s, 0, Lead, NoReading)
  }

  /** Nothing is accepted before a digit has been read. */
  lemma {:induction false} ScanNeedsDigit(s: string, i: nat, st: ScanState, r: Reading)
    requires i <= |s| && Scan(s, i, st, r).Some?
    requires st == Lead || st == Sign || st == DotFirst
    ensures exists j :: i <= j < |s| && IsDigit(s[j])
    decreases |s| - i
  {
    if !IsDigit(s[i]) {
      var c := s[i];
      match st
      case Lead =>
        if IsPadding(c) {
          ScanNeedsDigit(s, i + 1, Lead, r);
        } else if c == '+' || c == '-' {
          ScanNeedsDigit(s, i + 1, Sign, r.(negative := c == '-'));
        } else {
          ScanNeedsDigit(s, i + 1, DotFirst, r);
        }
      case Sign =>
        ScanNeedsDigit(s, i + 1, DotFirst, r);
      case DotFirst =>
    }
  }

  lemma {:induction false} ScanDigits(s: string, i: nat)
    requires 1 <= i <= |s| && AllDigits(s)
    ensures Scan(s, i, Whole, Reading(false, DigitsValue(s[..i]), 0, 0)) == Some(DigitsValue(s) as real)
    decreases |s| - i
  {
    if i == |s| {
      assert s[..i] == s;
    } else {
      assert s[..i + 1][..i] == s[..i];
      ScanDigits(s, i + 1);
    }
  }

  lemma ParseDecimalOfNatToString(n: nat)
    ensures ParseDecimal(NatToString(n)) == Some(n as real)
  {
    var s := NatToString(n);
    assert s[..1][..0] == [];
    ScanDigits(s, 1);
    NatToStringValue(n);
  }

  /** Reading the digits of `s` at the front of `s + t` reaches the end of `s` in the whole part, with their value. */
  lemma {:induction false} ScanDigitsThen(s: string, t: string, i: nat)
    requires 1 <= i <= |s| && AllDigits(s)
    ensures Scan(s + t, i, Whole, Reading(false, DigitsValue(s[..i]), 0, 0))
            == Scan(s + t, |s|, Whole, Reading(false, DigitsValue(s), 0, 0))
    decreases |s| - i
  {
    if i == |s| {
      assert s[..i] == s;
    } else {
      assert (s + t)[i] == s[i];
      assert s[..i + 1][..i] == s[..i];
      ScanDigitsThen(s, t, i + 1);
    }
  }

  /** A printed whole number followed by a type suffix (`5f`, `10d`) reads back as that number. */
  lemma ParseDecimalWithSuffix(n: nat, c: char)
    requires IsTypeSuffix(c)
    ensures ParseDecimal(NatToString(n) + [c]) == Some(n as real)
  {
    var s := NatToString(n);
    assert s[..1][..0] == [];
    assert (s + [c])[0] == s[0];
    ScanDigitsThen(s, [c], 1);
    assert (s + [c])[|s|] == c;
    NatToStringValue(n);
  }

  // ---------------------------------------------------------------------------
  // Blank strings: Char.isWhitespace / CharSequence.isBlank

  /** Kotlin's `Char.isWhitespace`: the Unicode space separators and the control characters it names. */
  predicate IsWhitespace(c: char) {
    ('\t' <= c <= '\r') || ('\U{1C}' <= c <= ' ')
    || c == '\U{A0}' || c == '\U{1680}' || ('\U{2000}' <= c <= '\U{200A}')
    || c == '\U{2028}' || c == '\U{2029}' || c == '\U{202F}' || c == '\U{205F}' || c == '\U{3000}'
  }

  predicate IsBlank(s: string) {
    forall i :: 0 <= i < |s| ==> IsWhitespace(s[i])
  }

  /** A text that reads as a number is never blank, so `isNotBlank()` before `toDoubleOrNull()` adds nothing. */
  lemma ParsedIsNotBlank(s: string)
    requires ParseDecimal(s).Some?
    ensures !IsBlank(s)
  {
    ScanNeedsDigit(s, 0, Lead, NoReading);
    var j :| 0 <= j < |s| && IsDigit(s[j]);
    assert !IsWhitespace(s[j]);
  }

  lemma BlankIsNotParsed(s: string)
    requires IsBlank(s)
    ensures ParseDecimal(s) == None
  {
    if ParseDecimal(s).Some? {
      ParsedIsNotBlank(s);
    }
  }

  // ---------------------------------------------------------------------------
  // Searching: String.contains and split(" ")[0]

  /** `s.contains(t)`: `t` occurs in `s` as a contiguous piece. */
  predicate Contains(s: string, t: string) {
    |t| <= |s| && (s[..|t|] == t || Contains(s[1..], t))
  }

  lemma {:induction false} ContainsAt(s: string, t: string, i: nat)
    requires i + |t| <= |s| && s[i..i + |t|] == t
    ensures Contains(s, t)
  {
    if i > 0 {
      assert s[1..][i - 1..i - 1 + |t|] == s[i..i + |t|];
      ContainsAt(s[1..], t, i - 1);
    }
  }

  lemma ContainsMiddle(a: string, t: string, b: string)
    ensures Contains(a + t + b, t)
  {
    assert (a + t + b)[|a|..|a| + |t|] == t;
    ContainsAt(a + t + b, t, |a|);
  }

  lemma {:induction false} MissingCharNotContained(s: string, t: string, k: nat)
    requires k < |t| && t[k] !in s
    ensures !Contains(s, t)
  {
    if |t| <= |s| {
      assert s[..|t|][k] == s[k];
      if |s| > 0 {
        assert forall c :: c in s[1..] ==> c in s;
        MissingCharNotContained(s[1..], t, k);
      }
    }
  }

  /** The first position of `c` in `s`, or `|s|` when it does not occur. */
  function IndexOf(s: string, c: char): (i: nat)
    ensures i <= |s|
    ensures i < |s| ==> s[i] == c
    ensures forall j :: 0 <= j < i ==> s[j] != c
  {
    if s == [] then 0
    else if s[0] == c then 0
    else 1 + IndexOf(s[1..], c)
  }

  /** `s.split(" ")[0]`: everything before the first space. */
  function FirstWord(s: string): (w: string)
    ensures |w| <= |s| && w == s[..|w|] && ' ' !in w
    ensures |w| < |s| ==> s[|w|] == ' '
  {
    s[..IndexOf(s, ' ')]
  }

  lemma FirstWordOfNumber(digits: string, rest: string)
    requires AllDigits(digits)
    requires rest != [] && rest[0] == ' '
    ensures FirstWord(digits + rest) == digits
  {
    var s := digits + rest;
    assert forall j :: 0 <= j < |digits| ==> s[j] != ' ';
    assert s[|digits|] == ' ';
  }
}
