/** The 256-bit unsigned amounts of the ledger and their decimal text form:
    parsing as `U256::from_dec_str` does it, the lenient "parse failure is
    zero" policy of the net-flow update, and printing as `to_string`. */
module Amount {
  import opened Wrappers

  /** 2^256: the first value a U256 cannot hold. */
  const U256_MODULUS: nat := 0x1_0000_0000_0000_0000_0000_0000_0000_0000_0000_0000_0000_0000_0000_0000_0000_0000

  type U256 = x: nat | x < U256_MODULUS

  predicate IsDigit(c: char) {
    '0' <= c <= '9'
  }

  predicate AllDigits(s: string) {
    forall i | 0 <= i < |s| :: IsDigit(s[i])
  }

  function DigitValue(c: char): (d: nat)
    requires IsDigit(c)
    ensures d < 10
  {
    c as int - '0' as int
  }

  function DigitChar(d: nat): (c: char)
    requires d < 10
    ensures IsDigit(c) && DigitValue(c) == d
  {
    ('0' as int + d) as char
  }

  /** The number a string of decimal digits denotes, most significant digit
      first; the empty string denotes zero. */
  function DecimalValue(s: string): nat
    requires AllDigits(s)
  {
    if |s| == 0 then 0 else DecimalValue(s[..|s| - 1]) * 10 + DigitValue(s[|s| - 1])
  }

  /** Appending one digit shifts the value by one decimal place. */
  lemma DecimalValueSnoc(s: string, c: char)
    requires AllDigits(s) && IsDigit(c)
    ensures AllDigits(s + [c])
    ensures DecimalValue(s + [c]) == DecimalValue(s) * 10 + DigitValue(c)
  {
  }

  /** A prefix of a digit string never denotes more than the whole string. */
  lemma {:induction false} DecimalValuePrefix(s: string, j: nat)
    requires AllDigits(s) && j <= |s|
    ensures DecimalValue(s[..j]) <= DecimalValue(s)
    decreases |s|
  {
    if j < |s| {
      var p := s[..|s| - 1];
      assert p[..j] == s[..j];
      DecimalValuePrefix(p, j);
    } else {
      assert s[..j] == s;
    }
  }

  /** One step of `from_dec_str`'s fold: `acc` is the value of `s[..i]`.
      The step fails on a non-digit, or when `acc * 10` or `acc * 10 + digit`
      would not fit in 256 bits. */
  function FoldDigits(s: string, i: nat, acc: U256): Option<U256>
    requires i <= |s|
    decreases |s| - i
  {
    if i == |s| then Some(acc)
    else if !IsDigit(s[i]) then None
    else if acc * 10 >= U256_MODULUS then None
    else if acc * 10 + DigitValue(s[i]) >= U256_MODULUS then None
    else FoldDigits(s, i + 1, acc * 10 + DigitValue(s[i]))
  }

  lemma {:induction false} FoldDigitsCorrect(s: string, i: nat, acc: U256)
    requires i <= |s| && AllDigits(s[..i]) && acc == DecimalValue(s[..i])
    ensures FoldDigits(s, i, acc).Some? <==> AllDigits(s) && DecimalValue(s) < U256_MODULUS
    ensures FoldDigits(s, i, acc).Some? ==> FoldDigits(s, i, acc).value == DecimalValue(s)
    decreases |s| - i
  {
    if i == |s| {
      assert s[..i] == s;
    } else if !IsDigit(s[i]) {
      assert !AllDigits(s);
    } else {
      var next := s[..i + 1];
      assert next == s[..i] + [s[i]];
      DecimalValueSnoc(s[..i], s[i]);
      assert DecimalValue(next) == acc * 10 + DigitValue(s[i]);
      if acc * 10 + DigitValue(s[i]) >= U256_MODULUS {
        if AllDigits(s) {
          DecimalValuePrefix(s, i + 1);
        }
      } else {
        FoldDigitsCorrect(s, i + 1, acc * 10 + DigitValue(s[i]));
      }
    }
  }

  /** `U256::from_dec_str`: succeeds exactly on strings of decimal digits
      (the empty one included) whose value fits in 256 bits. */
  function FromDecStr(s: string): (r: Option<U256>)
    ensures r.Some? <==> AllDigits(s) && DecimalValue(s) < U256_MODULUS
    ensures r.Some? ==> r.value == DecimalValue(s)
  {
    assert s[..0] == [];
    FoldDigitsCorrect(s, 0, 0);
    FoldDigits(s, 0, 0)
  }

  /** `U256::from_dec_str(s).unwrap_or(U256::zero())`: the lenient parse the
      net-flow update applies to every stored and supplied amount. */
  function ParseOrZero(s: string): (v: U256)
    ensures AllDigits(s) && DecimalValue(s) < U256_MODULUS ==> v == DecimalValue(s)
    ensures !(AllDigits(s) && DecimalValue(s) < U256_MODULUS) ==> v == 0
  {
    match FromDecStr(s)
    case Some(v) => v
    case None => 0
  }

  /** Canonical decimal text: digits only, no leading zero except "0" itself. */
  predicate IsCanonical(s: string) {
    |s| >= 1 && AllDigits(s) && (s[0] == '0' ==> s == "0")
  }

  /** `to_string` of a non-negative integer: its canonical decimal text. */
  function ToDecimal(n: nat): (r: string)
    ensures IsCanonical(r)
    ensures DecimalValue(r) == n
    decreases n
  {
    if n < 10 then [DigitChar(n)]
    else
      var prefix := ToDecimal(n / 10);
      DecimalValueSnoc(prefix, DigitChar(n % 10));
      prefix + [DigitChar(n % 10)]
  }

  /** Printing then parsing gives back every U256. */
  lemma ParseToDecimal(n: U256)
    ensures FromDecStr(ToDecimal(n)) == Some(n)
    ensures ParseOrZero(ToDecimal(n)) == n
  {
  }

  /** A canonical digit string that does not start with '0' denotes a
      positive number. */
  lemma LeadingDigitPositive(s: string)
    requires AllDigits(s) && |s| >= 1 && s[0] != '0'
    ensures DecimalValue(s) >= 1
  {
    DecimalValuePrefix(s, 1);
  }

  /** Parsing then printing gives back every canonical string. */
  lemma {:induction false} ToDecimalOfCanonical(s: string)
    requires IsCanonical(s)
    ensures ToDecimal(DecimalValue(s)) == s
    decreases |s|
  {
    if |s| == 1 {
      assert s[..0] == [];
      assert DigitChar(DigitValue(s[0])) == s[0];
    } else {
      var p := s[..|s| - 1];
      var d := DigitValue(s[|s| - 1]);
      assert p[0] == s[0] && s[0] != '0';
      assert IsCanonical(p);
      LeadingDigitPositive(p);
      var v := DecimalValue(s);
      assert v == DecimalValue(p) * 10 + d;
      assert v / 10 == DecimalValue(p) && v % 10 == d;
      ToDecimalOfCanonical(p);
      assert DigitChar(d) == s[|s| - 1];
      assert s == p + [s[|s| - 1]];
    }
  }

  /** `s` with its leading zeros removed. */
  function StripLeadingZeros(s: string): string
    decreases |s|
  {
    if |s| > 0 && s[0] == '0' then StripLeadingZeros(s[1..]) else s
  }

  /** The canonical form of a digit string: leading zeros dropped, and "0"
      for a string of zeros or the empty string. */
  function CanonicalForm(s: string): (r: string)
  {
    var t := StripLeadingZeros(s);
    if |t| == 0 then "0" else t
  }

  /** A leading zero does not change the value of a digit string. */
  lemma {:induction false} DecimalValueLeadingZero(s: string)
    requires AllDigits(s) && |s| >= 1 && s[0] == '0'
    ensures DecimalValue(s) == DecimalValue(s[1..])
    decreases |s|
  {
    if |s| == 1 {
      assert s[1..] == [];
      assert s[..0] == [];
    } else {
      var p := s[..|s| - 1];
      assert p[0] == '0';
      DecimalValueLeadingZero(p);
      assert p[1..] == s[1..][..|s[1..]| - 1];
    }
  }

  lemma {:induction false} StripLeadingZerosValue(s: string)
    requires AllDigits(s)
    ensures var t := StripLeadingZeros(s);
      AllDigits(t) && DecimalValue(t) == DecimalValue(s) && (|t| > 0 ==> t[0] != '0')
    decreases |s|
  {
    if |s| > 0 && s[0] == '0' {
      DecimalValueLeadingZero(s);
      StripLeadingZerosValue(s[1..]);
    }
  }

  /** The amount round trip: printing the parse of any in-range digit string
      yields that string's canonical form. */
  lemma AmountRoundTrip(s: string)
    requires AllDigits(s) && DecimalValue(s) < U256_MODULUS
    ensures ToDecimal(ParseOrZero(s)) == CanonicalForm(s)
  {
    StripLeadingZerosValue(s);
    var t := StripLeadingZeros(s);
    if |t| == 0 {
      assert DecimalValue(s) == 0;
    } else {
      ToDecimalOfCanonical(t);
    }
  }

  /** Malformed text is read as zero rather than rejected. */
  lemma MalformedIsZero(s: string)
    requires !AllDigits(s)
    ensures FromDecStr(s) == None
    ensures ParseOrZero(s) == 0
  {
  }
}
