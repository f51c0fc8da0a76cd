/** The JavaScript values that cross the system's boundaries (JSON request
    bodies, query strings, form fields) and the string helpers the source
    applies to them: truthiness, strict equality, template-literal rendering,
    `trim`, `toLowerCase`, `includes` and `parseInt(s, 10)`. */
module JsValues {

  datatype Option<+T> = None | Some(value: T)

  datatype Result<+T, +E> = Ok(value: T) | Err(error: E)

  /** A JSON-ish value as the handlers see it. Strict equality `===` is
      equality of these values, so `Str("3") !== Num(3)`. */
  datatype JsValue = Undefined | Null | Num(n: int) | Str(s: string)

  /** JavaScript truthiness: `undefined`, `null`, `0` and `''` are falsy. */
  predicate Truthy(v: JsValue)
  {
    match v
    case Undefined => false
    case Null => false
    case Num(n) => n != 0
    case Str(s) => s != ""
  }

  /** A query-string parameter (absent, or text) used as a condition: only a
      non-empty string is truthy. */
  predicate Given(q: Option<string>)
  {
    q.Some? && q.value != ""
  }

  /** `v || null`, the idiom the create handlers use for optional ids. */
  function OrNull(v: JsValue): (r: JsValue)
    ensures Truthy(v) ==> r == v
    ensures !Truthy(v) ==> r == Null
  {
    if Truthy(v) then v else Null
  }

  // ---------------------------------------------------------------------------
  // Decimal rendering and parsing

  function DigitChar(d: nat): (c: char)
    requires d < 10
    ensures '0' <= c <= '9'
  {
    ['0', '1', '2', '3', '4', '5', '6', '7', '8', '9'][d]
  }

  predicate IsDigit(c: char)
  {
    '0' <= c <= '9'
  }

  function DigitValue(c: char): (d: nat)
    requires IsDigit(c)
    ensures d < 10
  {
    (c as int) - ('0' as int)
  }

  lemma DigitRoundTrip(d: nat)
    requires d < 10
    ensures DigitValue(DigitChar(d)) == d
  {
  }

  /** The decimal digits of a natural number, most significant first. */
  function NatToString(n: nat): (r: string)
    ensures |r| >= 1
    ensures forall i :: 0 <= i < |r| ==> IsDigit(r[i])
    decreases n
  {
    if n < 10 then [DigitChar(n)] else NatToString(n / 10) + [DigitChar(n % 10)]
  }

  /** `String(n)` for an integer. */
  function IntToString(n: int): (r: string)
    ensures |r| >= 1
  {
    if n < 0 then "-" + NatToString(-n) else NatToString(n)
  }

  /** A non-empty run of decimal digits: the strings an INTEGER column accepts. */
  predicate IsDecimal(s: string)
  {
    |s| > 0 && forall i :: 0 <= i < |s| ==> IsDigit(s[i])
  }

  /** The value of a run of digits, read most significant first. */
  function DigitsValue(s: string): (n: nat)
    requires forall i :: 0 <= i < |s| ==> IsDigit(s[i])
  {
    if s == [] then 0 else DigitsValue(s[..|s| - 1]) * 10 + DigitValue(s[|s| - 1])
  }

  lemma {:induction false} DigitsValueOfNat(n: nat)
    ensures DigitsValue(NatToString(n)) == n
    decreases n
  {
    var r := NatToString(n);
    if n < 10 {
      DigitRoundTrip(n);
    } else {
      DigitsValueOfNat(n / 10);
      DigitRoundTrip(n % 10);
      assert r[..|r| - 1] == NatToString(n / 10);
    }
  }

  /** Rendering a natural number and reading it back gives the number. */
  lemma DecimalRoundTrip(n: nat)
    ensures IsDecimal(NatToString(n))
    ensures DigitsValue(NatToString(n)) == n
  {
    DigitsValueOfNat(n);
  }

  // ---------------------------------------------------------------------------
  // parseInt(s, 10)

  /** The longest prefix of `s` made of digits. */
  function DigitPrefix(s: string): (r: string)
    ensures |r| <= |s| && r == s[..|r|]
    ensures forall i :: 0 <= i < |r| ==> IsDigit(s[i])
    ensures |r| < |s| ==> !IsDigit(s[|r|])
  {
    if s == [] || !IsDigit(s[0]) then [] else [s[0]] + DigitPrefix(s[1..])
  }

  /** `parseInt(s, 10)`: skip leading white space, read an optional sign and
      the longest run of digits; `None` stands for `NaN`. */
  function ParseInt10(s: string): (r: Option<int>)
  {
    var t := TrimStart(s);
    var neg := |t| > 0 && t[0] == '-';
    var body := if |t| > 0 && (t[0] == '-' || t[0] == '+') then t[1..] else t;
    var digits := DigitPrefix(body);
    if digits == [] then None
    else if neg then Some(-(DigitsValue(digits) as int))
    else Some(DigitsValue(digits) as int)
  }

  lemma DigitPrefixOfDigits(s: string)
    requires forall i :: 0 <= i < |s| ==> IsDigit(s[i])
    ensures DigitPrefix(s) == s
  {
    if s != [] {
      DigitPrefixOfDigits(s[1..]);
    }
  }

  /** `parseInt(String(n), 10) == n` for every integer `n`: the ids the
      forms hold as strings come back unchanged. */
  lemma ParseIntRoundTrip(n: int)
    ensures ParseInt10(IntToString(n)) == Some(n)
  {
    var m: nat := if n < 0 then -n else n;
    var digits := NatToString(m);
    DigitsValueOfNat(m);
    if n < 0 {
      ParseNegative(digits);
    } else {
      ParseDigits(digits);
    }
  }

  /** A run of digits reads as its value. */
  lemma ParseDigits(d: string)
    requires IsDecimal(d)
    ensures ParseInt10(d) == Some(DigitsValue(d) as int)
  {
    assert !IsWhitespace(d[0]);
    assert TrimStart(d) == d;
    DigitPrefixOfDigits(d);
  }

  /** A minus sign followed by a run of digits reads as the negated value. */
  lemma ParseNegative(d: string)
    requires IsDecimal(d)
    ensures ParseInt10("-" + d) == Some(-(DigitsValue(d) as int))
  {
    var s := "-" + d;
    assert s[0] == '-' && !IsWhitespace('-');
    var t := TrimStart(s);
    assert t == s;
    var body := t[1..];
    assert body == d;
    DigitPrefixOfDigits(d);
    ParseSigned(s, d);
  }

  /** `parseInt` of a text that starts with a minus sign and no white space
      reads the digits after the sign. */
  lemma ParseSigned(s: string, d: string)
    requires TrimStart(s) == s && |s| > 0 && s[0] == '-'
    requires d != [] && DigitPrefix(s[1..]) == d
    ensures ParseInt10(s) == Some(-(DigitsValue(d) as int))
  {
  }


  // ---------------------------------------------------------------------------
  // Template-literal rendering

  /** `${v}` inside a template literal. */
  function Render(v: JsValue): (r: string)
  {
    match v
    case Undefined => "undefined"
    case Null => "null"
    case Num(n) => IntToString(n)
    case Str(s) => s
  }

  // ---------------------------------------------------------------------------
  // trim, toLowerCase, toUpperCase, includes

  /** The characters `String.prototype.trim` removes: the ECMAScript
      WhiteSpace and LineTerminator code points. */
  predicate IsWhitespace(c: char)
  {
    c == ' ' || c == '\t' || c == '\n' || c == '\r' || c == '\U{B}' || c == '\U{C}'
    || c == '\U{A0}' || c == '\U{1680}' || ('\U{2000}' <= c <= '\U{200A}')
    || c == '\U{2028}' || c == '\U{2029}' || c == '\U{202F}' || c == '\U{205F}'
    || c == '\U{3000}' || c == '\U{FEFF}'
  }

  function TrimStart(s: string): (r: string)
    ensures |r| <= |s| && r == s[|s| - |r|..]
    ensures forall i :: 0 <= i < |s| - |r| ==> IsWhitespace(s[i])
    ensures r == [] || !IsWhitespace(r[0])
  {
    if s != [] && IsWhitespace(s[0]) then TrimStart(s[1..]) else s
  }

  function TrimEnd(s: string): (r: string)
    ensures |r| <= |s| && r == s[..|r|]
    ensures forall i :: |r| <= i < |s| ==> IsWhitespace(s[i])
    ensures r == [] || !IsWhitespace(r[|r| - 1])
  {
    if s != [] && IsWhitespace(s[|s| - 1]) then TrimEnd(s[..|s| - 1]) else s
  }

  /** `r` is `s` with the first `k` characters and some trailing ones
      removed, every one of them white space. */
  predicate StrippedAt(s: string, r: string, k: int)
  {
    && 0 <= k && k + |r| <= |s| && s[k..k + |r|] == r
    && (forall i :: 0 <= i < k ==> IsWhitespace(s[i]))
    && (forall i :: k + |r| <= i < |s| ==> IsWhitespace(s[i]))
  }

  /** `s.trim()`: a slice of `s` that neither starts nor ends with white
      space, obtained by removing only white space (see TrimStart, TrimEnd). */
  function Trim(s: string): (r: string)
    ensures |r| <= |s| && Includes(s, r)
    ensures r == [] || (!IsWhitespace(r[0]) && !IsWhitespace(r[|r| - 1]))
    ensures exists k :: StrippedAt(s, r, k)
  {
    var a := TrimStart(s);
    var r := TrimEnd(a);
    var k := |s| - |a|;
    assert r == s[k..][..|r|];
    assert OccursAt(s, r, k);
    IncludesAt(s, r);
    assert s[k..k + |r|] == r;
    forall i | k + |r| <= i < |s| ensures IsWhitespace(s[i]) {
      assert s[i] == a[i - k];
    }
    assert StrippedAt(s, r, k);
    r
  }

  /** Trimming a string without surrounding white space leaves it as it is. */
  lemma TrimOfTrimmed(s: string)
    requires s == [] || (!IsWhitespace(s[0]) && !IsWhitespace(s[|s| - 1]))
    ensures Trim(s) == s
  {
  }

  function LowerChar(c: char): char
  {
    if 'A' <= c <= 'Z' then ((c as int) + 32) as char else c
  }

  function UpperChar(c: char): char
  {
    if 'a' <= c <= 'z' then ((c as int) - 32) as char else c
  }

  lemma LowerKeepsWhitespace(s: string)
    ensures forall i :: 0 <= i < |s| ==> IsWhitespace(ToLower(s)[i]) == IsWhitespace(s[i])
  {
  }

  /** `s.toLowerCase()` on the ASCII letters. */
  function ToLower(s: string): (r: string)
    ensures |r| == |s|
    ensures forall i :: 0 <= i < |s| ==> r[i] == LowerChar(s[i])
  {
    seq(|s|, i requires 0 <= i < |s| => LowerChar(s[i]))
  }

  /** `s.toUpperCase()` on the ASCII letters. */
  function ToUpper(s: string): (r: string)
    ensures |r| == |s|
    ensures forall i :: 0 <= i < |s| ==> r[i] == UpperChar(s[i])
  {
    seq(|s|, i requires 0 <= i < |s| => UpperChar(s[i]))
  }

  predicate NoUpper(s: string)
  {
    forall i :: 0 <= i < |s| ==> !('A' <= s[i] <= 'Z')
  }

  /** Lower-casing is idempotent, and its result has no upper-case letter. */
  lemma ToLowerIdempotent(s: string)
    ensures NoUpper(ToLower(s))
    ensures ToLower(ToLower(s)) == ToLower(s)
  {
  }

  lemma ToLowerOfLower(s: string)
    requires NoUpper(s)
    ensures ToLower(s) == s
  {
  }

  /** `s.trim().toLowerCase()`, the normalisation applied to plan and priority. */
  function Normalize(s: string): (r: string)
    ensures NoUpper(r)
    ensures r == [] || (!IsWhitespace(r[0]) && !IsWhitespace(r[|r| - 1]))
    ensures |r| == |Trim(s)| && forall i :: 0 <= i < |r| ==> r[i] == LowerChar(Trim(s)[i])
  {
    var t := Trim(s);
    ToLowerIdempotent(t);
    LowerKeepsWhitespace(t);
    ToLower(t)
  }

  /** A lower-case word without surrounding white space is a fixed point of
      the normalisation. */
  lemma NormalizeFixes(s: string)
    requires NoUpper(s)
    requires s == [] || (!IsWhitespace(s[0]) && !IsWhitespace(s[|s| - 1]))
    ensures Normalize(s) == s
  {
    TrimOfTrimmed(s);
    ToLowerOfLower(s);
  }

  /** Normalising twice is normalising once. */
  lemma NormalizeIdempotent(s: string)
    ensures Normalize(Normalize(s)) == Normalize(s)
  {
    NormalizeFixes(Normalize(s));
  }

  predicate IsPrefix(p: string, s: string)
  {
    |p| <= |s| && s[..|p|] == p
  }

  /** `hay.includes(needle)`. */
  predicate Includes(hay: string, needle: string)
    decreases |hay|
  {
    IsPrefix(needle, hay) || (hay != [] && Includes(hay[1..], needle))
  }

  /** `needle` occurs in `hay` at offset `k`. */
  predicate OccursAt(hay: string, needle: string, k: int)
  {
    0 <= k && k + |needle| <= |hay| && hay[k..k + |needle|] == needle
  }

  /** `includes` holds exactly when the needle occurs at some offset. */
  lemma {:induction false} IncludesAt(hay: string, needle: string)
    ensures Includes(hay, needle) <==> exists k :: OccursAt(hay, needle, k)
    decreases |hay|
  {
    if IsPrefix(needle, hay) {
      assert OccursAt(hay, needle, 0);
    } else if hay != [] {
      IncludesAt(hay[1..], needle);
      if Includes(hay[1..], needle) {
        var k :| OccursAt(hay[1..], needle, k);
        assert hay[k + 1..k + 1 + |needle|] == hay[1..][k..k + |needle|];
        assert OccursAt(hay, needle, k + 1);
      }
      if exists k :: OccursAt(hay, needle, k) {
        var k :| OccursAt(hay, needle, k);
        assert hay[1..][k - 1..k - 1 + |needle|] == hay[k..k + |needle|];
        assert OccursAt(hay[1..], needle, k - 1);
      }
    }
  }

  /** Every string includes the empty string. */
  lemma IncludesEmpty(hay: string)
    ensures Includes(hay, "")
  {
  }
}
