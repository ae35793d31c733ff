/** The text handling of the slip verifier: UTF-8, upper case, the last occurrence of a marker, amounts. */
module SlipText {
  import opened Bytes
  import opened Crc16
  import opened Tables
  import opened Text

  // ---------- Bytes ----------

  function Utf8(s: string): seq<Byte> {
    if s == "" then [] else CharBytes(s[0]) + Utf8(s[1..])
  }

  predicate Ascii(s: string) {
    forall k | 0 <= k < |s| :: s[k] < '\U{80}'
  }

  lemma {:induction false} Utf8Appends(s: string, t: string)
    ensures Utf8(s + t) == Utf8(s) + Utf8(t)
  {
    if s == "" {
      assert s + t == t;
    } else {
      assert (s + t)[1..] == s[1..] + t;
      Utf8Appends(s[1..], t);
    }
  }

  lemma {:induction false} AsciiIsInjective(s: string, t: string)
    requires Ascii(s) && Ascii(t) && |s| == |t|
    ensures |Utf8(s)| == |s| == |Utf8(t)| && (Utf8(s) == Utf8(t) ==> s == t)
  {
    if s != "" {
      AsciiIsInjective(s[1..], t[1..]);
      if Utf8(s) == Utf8(t) {
        assert Utf8(s)[0] == Utf8(t)[0] && Utf8(s)[1..] == Utf8(s[1..]) && Utf8(t)[1..] == Utf8(t[1..]);
        LowByteValue(s[0] as nat);
        LowByteValue(t[0] as nat);
      }
    }
  }

  // ---------- Case ----------

  function UpperChar(c: char): char {
    if 'a' <= c <= 'z' then (c as int - 32) as char else c
  }

  /** str.upper on ASCII letters. */
  function Upper(s: string): string {
    seq(|s|, k requires 0 <= k < |s| => UpperChar(s[k]))
  }

  /** Upper case changes the 26 small letters, each into its capital, and nothing else. */
  lemma UpperChanges(s: string, k: nat)
    requires k < |s|
    ensures |Upper(s)| == |s|
    ensures 'a' <= s[k] <= 'z' ==> 'A' <= Upper(s)[k] <= 'Z' && Upper(s)[k] - 'A' == s[k] - 'a'
    ensures !('a' <= s[k] <= 'z') ==> Upper(s)[k] == s[k]
  {
  }

  lemma HexIsUpper(r: Gf2.Register)
    ensures Upper(Hex(r)) == Hex(r)
  {
  }

  lemma DigitsAreUpper(s: string)
    requires AllDigits(s)
    ensures Upper(s) == s
  {
  }

  // ---------- The last occurrence ----------

  /** str.rfind, searching down from an index. */
  function LastFrom(s: string, p: string, from: int): (k: int)
    requires from + |p| <= |s|
    ensures k >= 0 ==> Occurs(s, p, k)
    ensures forall j | k < j <= from :: !Occurs(s, p, j)
    ensures -1 <= k
    decreases from
  {
    if from < 0 then -1 else if Occurs(s, p, from) then from else LastFrom(s, p, from - 1)
  }

  function LastIndex(s: string, p: string): (k: int)
    ensures k >= 0 ==> Occurs(s, p, k)
    ensures forall j | k < j :: !Occurs(s, p, j)
    ensures -1 <= k
  {
    LastFrom(s, p, |s| - |p|)
  }

  // ---------- Amounts ----------

  /** A decimal as Python keeps it: units of ten to the minus decimals. */
  datatype Amount = Amount(units: int, decimals: nat)

  function Power10(n: nat): (p: nat)
    ensures p >= 1
  {
    if n == 0 then 1 else 10 * Power10(n - 1)
  }

  /** The distance of an amount from a number of cents is at most another number of cents. */
  predicate Within(a: Amount, cents: int, tolerance: int) {
    var difference := 100 * a.units - cents * Power10(a.decimals);
    -tolerance * Power10(a.decimals) <= difference <= tolerance * Power10(a.decimals)
  }

  function Dot(s: string): (k: nat)
    ensures k <= |s| && (k < |s| ==> s[k] == '.') && '.' !in s[..k]
  {
    if s == "" || s[0] == '.' then 0 else 1 + Dot(s[1..])
  }

  function Unsigned(s: string): Option<Amount> {
    var whole := s[..Dot(s)];
    var fraction := if Dot(s) < |s| then s[Dot(s)+1..] else "";
    if whole + fraction != "" && AllDigits(whole + fraction)
    then Some(Amount(Number(whole + fraction), |fraction|))
    else None
  }

  /** Decimal(text) for plain decimal notation. */
  function ParseAmount(text: string): Option<Amount> {
    var s := Strip(text);
    if s != "" && s[0] == '-' then
      match Unsigned(s[1..])
      case Some(a) => Some(a.(units := -a.units))
      case None => None
    else if s != "" && s[0] == '+' then Unsigned(s[1..])
    else Unsigned(s)
  }

  function LastTwo(n: nat): (s: string)
    ensures |s| == 2 && AllDigits(s)
  {
    [Digit(n / 10 % 10), Digit(n % 10)]
  }

  function UnsignedCents(n: nat): string {
    Digits(n / 100) + "." + LastTwo(n)
  }

  /** The {:.2f} format of a number of cents. */
  function FormatCents(cents: int): string {
    if cents < 0 then "-" + UnsignedCents(-cents) else UnsignedCents(cents)
  }

  lemma {:induction false} DotAfterDigits(s: string, t: string)
    requires AllDigits(s) && t != "" && t[0] == '.'
    ensures Dot(s + t) == |s|
  {
    if s != "" {
      assert (s + t)[1..] == s[1..] + t;
      DotAfterDigits(s[1..], t);
    } else {
      assert s + t == t;
    }
  }

  lemma NumberWithTwoMore(s: string, a: nat, b: nat)
    requires AllDigits(s) && a < 10 && b < 10
    ensures AllDigits(s + [Digit(a), Digit(b)]) && Number(s + [Digit(a), Digit(b)]) == 100 * Number(s) + 10 * a + b
  {
    var t := s + [Digit(a)];
    assert t[..|t|-1] == s && Number(t) == 10 * Number(s) + a;
    assert s + [Digit(a), Digit(b)] == t + [Digit(b)];
    assert (t + [Digit(b)])[..|t|] == t;
  }

  lemma UnsignedOf(whole: string, fraction: string)
    requires AllDigits(whole) && AllDigits(fraction) && whole + fraction != ""
    ensures Unsigned(whole + "." + fraction) == Some(Amount(Number(whole + fraction), |fraction|))
  {
    var s := whole + "." + fraction;
    assert s == whole + ("." + fraction);
    DotAfterDigits(whole, "." + fraction);
    assert s[..|whole|] == whole && s[|whole|+1..] == fraction;
  }

  lemma CentsSplit(n: nat)
    ensures 100 * (n / 100) + 10 * (n / 10 % 10) + n % 10 == n
  {
  }

  lemma UnsignedReadsBack(n: nat)
    ensures Unsigned(UnsignedCents(n)) == Some(Amount(n, 2))
  {
    var whole, fraction := Digits(n / 100), LastTwo(n);
    UnsignedOf(whole, fraction);
    NumberWithTwoMore(whole, n / 10 % 10, n % 10);
    CentsSplit(n);
  }

  /** Formatting an amount and reading it back loses nothing. */
  lemma AmountReadsBack(cents: int)
    ensures ParseAmount(FormatCents(cents)) == Some(Amount(cents, 2))
  {
    var n: nat := if cents < 0 then -cents else cents;
    var body := UnsignedCents(n);
    UnsignedReadsBack(n);
    assert IsDigit(body[0]) && body[|body|-1] == LastTwo(n)[1];
    ReadWithEitherSign(body, n, 2);
  }

  // ---------- Which texts are amounts ----------

  lemma StripOfStripped(s: string)
    ensures Strip(Strip(s)) == Strip(s)
  {
    var head, tail := StripCuts(s);
  }

  /** Blanks around an amount do not matter. */
  lemma BlanksAround(text: string)
    ensures ParseAmount(text) == ParseAmount(Strip(text))
  {
    StripOfStripped(text);
  }

  lemma {:induction false} DotOfDigits(s: string)
    requires AllDigits(s)
    ensures Dot(s) == |s|
  {
    if s != "" {
      DotOfDigits(s[1..]);
    }
  }

  lemma {:induction false} DotSplits(whole: string, f: string)
    requires AllDigits(whole)
    ensures Dot(whole + ("." + f)) == |whole|
  {
    DotAfterDigits(whole, "." + f);
  }

  /** Digits with or without a point among them. */
  function Written(whole: string, f: string, dotted: bool): string {
    if dotted then whole + "." + f else whole
  }

  /** There are digits, and none behind a point that is not there. */
  predicate Decimal(whole: string, f: string, dotted: bool) {
    AllDigits(whole) && AllDigits(f) && whole + f != "" && (dotted || f == "")
  }

  lemma WrittenIsRead(whole: string, f: string, dotted: bool)
    requires Decimal(whole, f, dotted)
    ensures Unsigned(Written(whole, f, dotted)) == Some(Amount(Number(whole + f), |f|))
  {
    if dotted {
      UnsignedOf(whole, f);
    } else {
      DotOfDigits(whole);
      assert whole[..|whole|] == whole && whole + "" == whole;
    }
  }

  lemma WrittenHasNoBlanks(whole: string, f: string, dotted: bool)
    requires Decimal(whole, f, dotted)
    ensures var s := Written(whole, f, dotted);
            s != "" && !IsSpace(s[0]) && !IsSpace(s[|s|-1]) && s[0] != '-' && s[0] != '+'
  {
    var s := Written(whole, f, dotted);
    assert s[0] == '.' || IsDigit(s[0]);
    assert s[|s|-1] == '.' || IsDigit(s[|s|-1]);
  }

  lemma SignedText(sign: char, s: string)
    requires (sign == '+' || sign == '-') && s != "" && !IsSpace(s[|s|-1])
    ensures sign == '+' ==> ParseAmount([sign] + s) == Unsigned(s)
    ensures sign == '-' && Unsigned(s).Some? ==>
              ParseAmount([sign] + s) == Some(Amount(-Unsigned(s).value.units, Unsigned(s).value.decimals))
  {
    var t := [sign] + s;
    assert t[1..] == s && t[|t|-1] == s[|s|-1] && Strip(t) == t;
  }

  lemma UnsignedText(s: string)
    requires s != "" && !IsSpace(s[0]) && !IsSpace(s[|s|-1]) && s[0] != '-' && s[0] != '+'
    ensures ParseAmount(s) == Unsigned(s)
  {
    assert Strip(s) == s;
  }

  lemma ReadWithEitherSign(s: string, n: int, d: nat)
    requires s != "" && !IsSpace(s[0]) && !IsSpace(s[|s|-1]) && s[0] != '-' && s[0] != '+'
    requires Unsigned(s) == Some(Amount(n, d))
    ensures ParseAmount(s) == Some(Amount(n, d))
    ensures ParseAmount("+" + s) == Some(Amount(n, d))
    ensures ParseAmount("-" + s) == Some(Amount(-n, d))
  {
    UnsignedText(s);
    SignedText('+', s);
    SignedText('-', s);
  }

  /** Digits with a point anywhere or nowhere and with either sign or none are read as the decimal that they write. */
  lemma DecimalsAreRead(whole: string, f: string, dotted: bool, n: int)
    requires Decimal(whole, f, dotted) && n == Number(whole + f)
    ensures ParseAmount(Written(whole, f, dotted)) == Some(Amount(n, |f|))
    ensures ParseAmount("+" + Written(whole, f, dotted)) == Some(Amount(n, |f|))
    ensures ParseAmount("-" + Written(whole, f, dotted)) == Some(Amount(-n, |f|))
  {
    WrittenIsRead(whole, f, dotted);
    WrittenHasNoBlanks(whole, f, dotted);
    ReadWithEitherSign(Written(whole, f, dotted), n, |f|);
  }

  lemma UnsignedIsDecimal(s: string) returns (whole: string, f: string, dotted: bool)
    requires Unsigned(s).Some?
    ensures Decimal(whole, f, dotted) && s == Written(whole, f, dotted)
  {
    var d := Dot(s);
    whole, dotted := s[..d], d < |s|;
    f := if dotted then s[d+1..] else "";
    var all := whole + f;
    forall k | 0 <= k < |whole| ensures IsDigit(whole[k]) {
      assert all[k] == whole[k];
    }
    forall k | 0 <= k < |f| ensures IsDigit(f[k]) {
      assert all[|whole| + k] == f[k];
    }
  }

  /** Nothing else is read: up to blanks around it, an amount is an optional sign and such digits. */
  lemma OnlyDecimalsAreRead(text: string) returns (whole: string, f: string, dotted: bool)
    requires ParseAmount(text).Some?
    ensures Decimal(whole, f, dotted)
    ensures var s := Written(whole, f, dotted); Strip(text) == s || Strip(text) == "+" + s || Strip(text) == "-" + s
  {
    var s := Strip(text);
    if s != "" && (s[0] == '-' || s[0] == '+') {
      whole, f, dotted := UnsignedIsDecimal(s[1..]);
      assert s == [s[0]] + s[1..];
    } else {
      whole, f, dotted := UnsignedIsDecimal(s);
    }
  }
}
