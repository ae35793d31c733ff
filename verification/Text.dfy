/** The string operations the services use. */
module Text {

  /** ASCII characters that str.strip removes. */
  predicate IsSpace(c: char) {
    '\t' <= c <= '\r' || '\U{1C}' <= c <= ' '
  }

  function StripLeft(s: string): string {
    if s != "" && IsSpace(s[0]) then StripLeft(s[1..]) else s
  }

  function StripRight(s: string): string {
    if s != "" && IsSpace(s[|s|-1]) then StripRight(s[..|s|-1]) else s
  }

  function Strip(s: string): string {
    StripRight(StripLeft(s))
  }

  /** The characters that count as blanks. */
  lemma Blanks(c: char)
    ensures IsSpace(c) <==> c in {' ', '\t', '\n', '\r', '\U{0B}', '\U{0C}', '\U{1C}', '\U{1D}', '\U{1E}', '\U{1F}'}
  {
    var n := c as int;
    assert c == n as char;
  }

  lemma {:induction false} StripRightCuts(s: string) returns (tail: string)
    ensures s == StripRight(s) + tail && (forall c | c in tail :: IsSpace(c))
    ensures StripRight(s) != "" ==> !IsSpace(StripRight(s)[|StripRight(s)|-1])
  {
    if s != "" && IsSpace(s[|s|-1]) {
      tail := StripRightCuts(s[..|s|-1]);
      assert s == s[..|s|-1] + [s[|s|-1]];
      tail := tail + [s[|s|-1]];
    } else {
      tail := "";
    }
  }

  lemma {:induction false} StripLeftCuts(s: string) returns (head: string)
    ensures s == head + StripLeft(s) && (forall c | c in head :: IsSpace(c))
    ensures StripLeft(s) != "" ==> !IsSpace(StripLeft(s)[0])
  {
    if s != "" && IsSpace(s[0]) {
      head := StripLeftCuts(s[1..]);
      head := [s[0]] + head;
    } else {
      head := "";
    }
  }

  /** Stripping cuts blanks off both ends and leaves none there. */
  lemma StripCuts(s: string) returns (head: string, tail: string)
    ensures s == head + Strip(s) + tail && (forall c | c in head + tail :: IsSpace(c))
    ensures Strip(s) != "" ==> !IsSpace(Strip(s)[0]) && !IsSpace(Strip(s)[|Strip(s)|-1])
  {
    head := StripLeftCuts(s);
    tail := StripRightCuts(StripLeft(s));
  }

  /** After a word that ends in no blank only the right end is cut. */
  lemma {:induction false} StripAfterWord(word: string, s: string)
    requires word != "" && !IsSpace(word[0]) && !IsSpace(word[|word|-1])
    ensures Strip(word + s) == word + StripRight(s)
  {
    StripRightAfter(word, s);
  }

  lemma {:induction false} StripRightAfter(word: string, s: string)
    requires word != "" && !IsSpace(word[|word|-1])
    ensures StripRight(word + s) == word + StripRight(s)
  {
    if s == "" {
      assert word + s == word;
    } else {
      assert (word + s)[..|word + s|-1] == word + s[..|s|-1];
      if IsSpace(s[|s|-1]) {
        StripRightAfter(word, s[..|s|-1]);
      }
    }
  }

  // ---------- Substrings ----------

  predicate Occurs(s: string, p: string, k: int) {
    0 <= k && k + |p| <= |s| && s[k..k+|p|] == p
  }

  // ---------- Decimal digits ----------

  predicate IsDigit(c: char) {
    '0' <= c <= '9'
  }

  predicate AllDigits(s: string) {
    forall k | 0 <= k < |s| :: IsDigit(s[k])
  }

  function Digit(n: nat): (c: char)
    requires n < 10
    ensures IsDigit(c)
  {
    ('0' as int + n) as char
  }

  function DigitValue(c: char): nat
    requires IsDigit(c)
  {
    c as int - '0' as int
  }

  function Digits(n: nat): (s: string)
    ensures s != "" && AllDigits(s) && Number(s) == n
  {
    if n < 10 then [Digit(n)] else Digits(n / 10) + [Digit(n % 10)]
  }

  function Number(s: string): nat
    requires AllDigits(s)
  {
    if s == "" then 0 else 10 * Number(s[..|s|-1]) + DigitValue(s[|s|-1])
  }

  lemma NumberOfTwo(a: char, b: char)
    requires IsDigit(a) && IsDigit(b)
    ensures Number([a, b]) == 10 * DigitValue(a) + DigitValue(b)
  {
    assert Number([a]) == DigitValue(a);
    assert [a, b][..1] == [a];
  }
}
