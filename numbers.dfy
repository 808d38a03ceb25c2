/** `parseFloat` on decimal text, and the `|| 0` fallback the calculator puts
    after it. Numbers are exact reals. */
module Numbers {

  import opened Wrappers
  import opened Strings

  predicate IsDigit(c: char)
  {
    '0' <= c <= '9'
  }

  predicate AllDigits(ds: string)
  {
    forall k :: 0 <= k < |ds| ==> IsDigit(ds[k])
  }

  function DigitValue(c: char): (d: nat)
    requires IsDigit(c)
    ensures d < 10
  {
    (c as int - '0' as int) as nat
  }

  /** Ten to the power `n`. */
  function Pow10(n: nat): (p: nat)
    ensures p >= 1
  {
    if n == 0 then 1 else 10 * Pow10(n - 1)
  }

  /** The value of a run of decimal digits, most significant first; it has no
      more places than the run has digits. The bound keeps the values of the
      literal numerals in the worked examples cheap to compute. */
  function DigitsValue(ds: string): (v: nat)
    requires AllDigits(ds)
    ensures v < Pow10(|ds|)
  {
    if ds == [] then 0
    else DigitsValue(ds[..|ds| - 1]) * 10 + DigitValue(ds[|ds| - 1])
  }

  /** The value of the digits after a decimal point: the first is tenths, the
      next hundredths, and so on; it is always less than one. */
  function FractionValue(fs: string): (v: real)
    requires AllDigits(fs)
    ensures 0.0 <= v < 1.0
  {
    if fs == [] then 0.0
    else (DigitValue(fs[0]) as real + FractionValue(fs[1..])) / 10.0
  }

  /** The length of the run of digits at the start of `s`. */
  function LeadingDigits(s: string): (n: nat)
    ensures n <= |s| && AllDigits(s[..n])
    ensures n < |s| ==> !IsDigit(s[n])
  {
    if |s| > 0 && IsDigit(s[0]) then
      var n := 1 + LeadingDigits(s[1..]);
      assert s[..n] == [s[0]] + s[1..][..n - 1];
      n
    else 0
  }

  /** The fraction digits of a number whose integer digits have been read: the
      run of digits after a '.', if `rest` starts with one. */
  function FractionDigits(rest: string): (fs: string)
    ensures AllDigits(fs)
  {
    if |rest| > 0 && rest[0] == '.' then rest[1..][..LeadingDigits(rest[1..])] else []
  }

  /** An unsigned decimal number at the start of `u`: integer digits, then
      optionally '.' and fraction digits; None when neither part has a digit. */
  function ParseUnsigned(u: string): Option<real>
  {
    var n := LeadingDigits(u);
    var fs := FractionDigits(u[n..]);
    if n == 0 && fs == [] then None
    else Some(DigitsValue(u[..n]) as real + FractionValue(fs))
  }

  /** `s` holds at least one decimal digit. */
  predicate HasDigit(s: string)
  {
    exists k :: 0 <= k < |s| && IsDigit(s[k])
  }

  /** A number read off the front of `u` was read from at least one digit. */
  lemma UnsignedHasDigit(u: string)
    requires ParseUnsigned(u).Some?
    ensures HasDigit(u)
  {
    var n := LeadingDigits(u);
    if n > 0 {
      assert IsDigit(u[..n][0]);
    } else {
      var fs := FractionDigits(u);
      assert fs != [] && u[0] == '.';
      assert IsDigit(u[1..][..LeadingDigits(u[1..])][0]);
      assert IsDigit(u[1]);
    }
  }

  /** A digit of a suffix is a digit of the whole string. */
  lemma SuffixDigit(s: string, i: nat)
    requires i <= |s| && HasDigit(s[i..])
    ensures HasDigit(s)
  {
    var k :| 0 <= k < |s[i..]| && IsDigit(s[i..][k]);
    assert s[i + k] == s[i..][k];
  }

  /** An optional sign and an unsigned decimal number at the start of `t`. */
  function ParseSigned(t: string): Option<real>
  {
    if |t| > 0 && t[0] == '-' then
      match ParseUnsigned(t[1..])
      case Some(m) => Some(-m)
      case None => None
    else if |t| > 0 && t[0] == '+' then ParseUnsigned(t[1..])
    else ParseUnsigned(t)
  }

  /** A number read off the front of `s` after its leading whitespace was read
      from at least one digit of `s`. */
  lemma SignedHasDigit(s: string)
    ensures ParseSigned(TrimStart(s)).Some? ==> HasDigit(s)
  {
    var t := TrimStart(s);
    TrimStartSpec(s);
    if ParseSigned(t).Some? {
      var i := if |t| > 0 && (t[0] == '-' || t[0] == '+') then |s| - |t| + 1 else |s| - |t|;
      assert s[i..] == (if i == |s| - |t| then t else t[1..]);
      UnsignedHasDigit(s[i..]);
      SuffixDigit(s, i);
    }
  }

  /** `parseFloat(s)`: leading whitespace is skipped, then an optional sign and an
      unsigned decimal number are read as far as they go; whatever follows is
      ignored. None stands for NaN: not a single digit was found, and in
      particular an empty or blank text is NaN. */
  function ParseFloat(s: string): (r: Option<real>)
    ensures TrimStart(s) == [] ==> r == None
    ensures r.Some? ==> HasDigit(s)
  {
    SignedHasDigit(s);
    ParseSigned(TrimStart(s))
  }

  /** Whitespace in front of a number does not change what `parseFloat` reads. */
  lemma ParseSkipsWhitespace(w: string, s: string)
    requires AllWhitespace(w)
    ensures ParseFloat(w + s) == ParseFloat(s)
  {
    TrimStartAfterWhitespace(w, s);
  }

  /** `parseFloat(s) || 0`: NaN (and zero itself) become 0. */
  function ParseOrZero(s: string): real
  {
    match ParseFloat(s)
    case Some(x) => x
    case None => 0.0
  }

  /** The fallback yields 0 exactly when `parseFloat` gives NaN or 0, and leaves
      every other number as it is: NaN cannot be told from a cell that holds 0. */
  lemma ParseOrZeroFallback(s: string)
    ensures ParseOrZero(s) == 0.0 <==> ParseFloat(s) == None || ParseFloat(s) == Some(0.0)
    ensures forall x :: ParseFloat(s) == Some(x) ==> ParseOrZero(s) == x
  {
  }

  /** Text that starts with neither whitespace, a sign, a digit nor a '.' followed
      by a digit holds no number, and so counts as 0. */
  lemma ParseNoDigits(s: string)
    requires s != [] && !IsWhitespace(s[0]) && !IsDigit(s[0]) && s[0] != '-' && s[0] != '+'
    requires s[0] == '.' ==> |s| == 1 || !IsDigit(s[1])
    ensures ParseFloat(s) == None
    ensures ParseOrZero(s) == 0.0
  {
    assert TrimStart(s) == s;
  }

  /** After a '.', the fraction digits are the run of digits that follows it. */
  lemma FractionDigitsOf(fs: string, rest: string)
    requires AllDigits(fs)
    requires rest == [] || !IsDigit(rest[0])
    ensures FractionDigits("." + fs + rest) == fs
  {
    var tail := "." + fs + rest;
    assert tail[1..] == fs + rest;
    LeadingDigitsOf(fs, rest);
    assert (fs + rest)[..|fs|] == fs;
  }

  /** Digits, then '.', then fraction digits, then anything that does not
      continue the number, denote the decimal value of those digits. */
  lemma {:induction false} UnsignedDecimal(ds: string, fs: string, rest: string)
    requires AllDigits(ds) && AllDigits(fs) && (ds != [] || fs != [])
    requires rest == [] || !IsDigit(rest[0])
    ensures ParseUnsigned(ds + "." + fs + rest)
         == Some(DigitsValue(ds) as real + FractionValue(fs))
  {
    var u := ds + "." + fs + rest;
    var tail := "." + fs + rest;
    assert u == ds + tail;
    LeadingDigitsOf(ds, tail);
    assert u[..|ds|] == ds && u[|ds|..] == tail;
    FractionDigitsOf(fs, rest);
  }

  /** A run of digits followed by anything that does not continue the number
      denotes the whole number those digits spell. */
  lemma {:induction false} UnsignedWhole(ds: string, rest: string)
    requires AllDigits(ds) && ds != []
    requires rest == [] || (!IsDigit(rest[0]) && rest[0] != '.')
    ensures ParseUnsigned(ds + rest) == Some(DigitsValue(ds) as real)
  {
    var u := ds + rest;
    LeadingDigitsOf(ds, rest);
    assert u[..|ds|] == ds;
    assert u[|ds|..] == rest;
    assert FractionDigits(rest) == [];
  }

  /** Text that starts with a digit parses as an unsigned number. */
  lemma StartsWithDigit(s: string)
    requires s != [] && IsDigit(s[0])
    ensures ParseFloat(s) == ParseUnsigned(s)
  {
    assert TrimStart(s) == s;
  }

  /** Digits, '.', fraction digits and anything that does not continue the number
      parse to the decimal value they denote. */
  lemma ParseDecimal(ds: string, fs: string, rest: string)
    requires AllDigits(ds) && AllDigits(fs) && ds != []
    requires rest == [] || !IsDigit(rest[0])
    ensures ParseFloat(ds + "." + fs + rest)
         == Some(DigitsValue(ds) as real + FractionValue(fs))
  {
    StartsWithDigit(ds + "." + fs + rest);
    UnsignedDecimal(ds, fs, rest);
  }

  /** A run of digits followed by anything that does not continue the number
      parses to the whole number it denotes. */
  lemma ParseWhole(ds: string, rest: string)
    requires AllDigits(ds) && ds != []
    requires rest == [] || (!IsDigit(rest[0]) && rest[0] != '.')
    ensures ParseFloat(ds + rest) == Some(DigitsValue(ds) as real)
  {
    StartsWithDigit(ds + rest);
    UnsignedWhole(ds, rest);
  }

  /** A plain numeral parses to the whole number it spells. */
  lemma ParseNumeral(ds: string)
    requires AllDigits(ds) && ds != []
    ensures ParseOrZero(ds) == DigitsValue(ds) as real
  {
    ParseWhole(ds, []);
    assert ds + [] == ds;
  }

  /** A leading '-' negates what follows it. */
  lemma {:induction false} ParseNegative(ds: string, rest: string)
    requires AllDigits(ds) && ds != []
    requires rest == [] || (!IsDigit(rest[0]) && rest[0] != '.')
    ensures ParseFloat("-" + ds + rest) == Some(-(DigitsValue(ds) as real))
  {
    var s := "-" + ds + rest;
    assert TrimStart(s) == s;
    assert s[1..] == ds + rest;
    UnsignedWhole(ds, rest);
  }

  /** The run of digits in front of something that is not a digit is the whole run. */
  lemma {:induction false} LeadingDigitsOf(ds: string, rest: string)
    requires AllDigits(ds)
    requires rest == [] || !IsDigit(rest[0])
    ensures LeadingDigits(ds + rest) == |ds|
  {
    if ds != [] {
      assert (ds + rest)[1..] == ds[1..] + rest;
      LeadingDigitsOf(ds[1..], rest);
    } else {
      assert ds + rest == rest;
    }
  }

  /** The decimal numeral of `n`, most significant digit first, as `String(n)`
      writes a non-negative integer. */
  function Decimal(n: nat): (ds: string)
    ensures AllDigits(ds) && ds != []
  {
    var d := ['0' + (n % 10) as char];
    if n < 10 then d else Decimal(n / 10) + d
  }

  /** Reading the numeral of `n` back gives `n`. */
  lemma {:induction false} DecimalValue(n: nat)
    ensures DigitsValue(Decimal(n)) == n
  {
    var ds := Decimal(n);
    if n >= 10 {
      DecimalValue(n / 10);
      assert ds[..|ds| - 1] == Decimal(n / 10);
    }
  }

  /** `parseFloat(String(n)) == n` for every non-negative integer. */
  lemma ParseDecimalRoundTrip(n: nat)
    ensures ParseFloat(Decimal(n)) == Some(n as real)
  {
    ParseWhole(Decimal(n), []);
    assert Decimal(n) + [] == Decimal(n);
    DecimalValue(n);
  }
}
