/** Tag-length-value text: a tag of two characters, a length of two digits, and a value of that length. */
module Tlv {
  import opened Text

  datatype Entry = Entry(tag: string, value: string)

  datatype Fault = ShortHeader | BadLength | ShortValue

  datatype Parsed = Entries(entries: seq<Entry>) | Broken(fault: Fault, at: nat)

  datatype Result = Tags(tags: map<string, string>) | Malformed(why: Fault, index: nat)

  /** What fits the format: a length of more than two digits does not. */
  predicate Fits(e: Entry) {
    |e.tag| == 2 && |e.value| <= 99
  }

  ghost predicate AllFit(es: seq<Entry>) {
    forall e | e in es :: Fits(e)
  }

  /** The {:02d} format. */
  function TwoDigits(n: nat): (s: string)
    ensures n <= 99 ==> |s| == 2 && AllDigits(s) && Number(s) == n
  {
    if n < 10 then
      NumberOfTwo('0', Digit(n));
      ['0'] + Digits(n)
    else
      assert n <= 99 ==> Digits(n) == [Digit(n / 10), Digit(n % 10)];
      Digits(n)
  }

  lemma TwoDigitsOf(s: string)
    requires |s| == 2 && AllDigits(s)
    ensures Number(s) <= 99 && TwoDigits(Number(s)) == s
  {
    var a, b := DigitValue(s[0]), DigitValue(s[1]);
    assert s == [s[0], s[1]];
    NumberOfTwo(s[0], s[1]);
    assert (10 * a + b) / 10 == a && (10 * a + b) % 10 == b;
    assert Digit(a) == s[0] && Digit(b) == s[1];
  }

  function EncodeEntry(e: Entry): string {
    e.tag + TwoDigits(|e.value|) + e.value
  }

  function Encode(es: seq<Entry>): string {
    if es == [] then "" else EncodeEntry(es[0]) + Encode(es[1..])
  }

  /** The value of the last entry with a tag wins. */
  function LastWins(es: seq<Entry>): map<string, string> {
    if es == [] then map[] else LastWins(es[..|es|-1])[es[|es|-1].tag := es[|es|-1].value]
  }

  // ---------- Reading ----------

  /** The entries from an index on, or the first place where none can be read. */
  function Parse(s: string, i: nat): Parsed
    requires i <= |s|
    decreases |s| - i
  {
    if i == |s| then Entries([])
    else if i + 4 > |s| then Broken(ShortHeader, i)
    else if !AllDigits(s[i+2..i+4]) then Broken(BadLength, i)
    else
      var length := Number(s[i+2..i+4]);
      if i + 4 + length > |s| then Broken(ShortValue, i)
      else Prepend([Entry(s[i..i+2], s[i+4..i+4+length])], Parse(s, i + 4 + length))
  }

  function Prepend(done: seq<Entry>, rest: Parsed): Parsed {
    if rest.Entries? then Entries(done + rest.entries) else rest
  }

  function AsTags(p: Parsed): Result {
    if p.Entries? then Tags(LastWins(p.entries)) else Malformed(p.fault, p.at)
  }

  method ParseTlv(s: string) returns (result: Result)
    ensures result == AsTags(Parse(s, 0))
  {
    var tags: map<string, string> := map[];
    ghost var done: seq<Entry> := [];
    var i := 0;
    while i < |s|
      invariant i <= |s|
      invariant tags == LastWins(done)
      invariant Parse(s, 0) == Prepend(done, Parse(s, i))
    {
      if i + 4 > |s| {
        return Malformed(ShortHeader, i);
      }
      var digits := s[i+2..i+4];
      if !AllDigits(digits) {
        return Malformed(BadLength, i);
      }
      var length := Number(digits);
      if i + 4 + length > |s| {
        return Malformed(ShortValue, i);
      }
      ghost var entry := Entry(s[i..i+2], s[i+4..i+4+length]);
      assert (done + [entry])[..|done|] == done;
      PrependTwice(done, [entry], Parse(s, i + 4 + length));
      tags := tags[s[i..i+2] := s[i+4..i+4+length]];
      done := done + [entry];
      i := i + 4 + length;
    }
    assert Prepend(done, Parse(s, i)) == Entries(done);
    return Tags(tags);
  }

  lemma PrependTwice(a: seq<Entry>, b: seq<Entry>, p: Parsed)
    ensures Prepend(a, Prepend(b, p)) == Prepend(a + b, p)
  {
    if p.Entries? {
      assert a + (b + p.entries) == a + b + p.entries;
    }
  }

  // ---------- Reading inverts writing ----------

  lemma EntryReadsBack(s: string, i: nat, j: nat, e: Entry)
    requires i + 4 <= j <= |s| && AllDigits(s[i+2..i+4]) && j == i + 4 + Number(s[i+2..i+4])
    requires e == Entry(s[i..i+2], s[i+4..j])
    ensures Fits(e) && EncodeEntry(e) + s[j..] == s[i..]
  {
    TwoDigitsOf(s[i+2..i+4]);
    assert TwoDigits(|e.value|) == s[i+2..i+4];
    assert s[i..i+2] + s[i+2..i+4] + s[i+4..j] + s[j..] == s[i..];
  }

  lemma EncodeOne(e: Entry, rest: seq<Entry>)
    ensures Encode([e] + rest) == EncodeEntry(e) + Encode(rest)
  {
    assert ([e] + rest)[1..] == rest;
  }

  lemma {:induction false} ParseReadsBack(s: string, i: nat)
    requires i <= |s| && Parse(s, i).Entries?
    ensures AllFit(Parse(s, i).entries) && Encode(Parse(s, i).entries) == s[i..]
    decreases |s| - i
  {
    if i < |s| {
      var j := i + 4 + Number(s[i+2..i+4]);
      var entry := Entry(s[i..i+2], s[i+4..j]);
      var rest := Parse(s, j).entries;
      ParseReadsBack(s, j);
      EntryReadsBack(s, i, j, entry);
      EncodeOne(entry, rest);
      assert Parse(s, i).entries == [entry] + rest;
    }
  }

  lemma SliceOfSuffix(s: string, i: nat, a: nat, b: nat)
    requires i <= |s| && a <= b <= |s| - i
    ensures s[i..][a..b] == s[i+a..i+b]
  {
  }

  lemma FirstEntry(s: string, i: nat, e: Entry, rest: string)
    requires i <= |s| && Fits(e) && s[i..] == EncodeEntry(e) + rest
    ensures i + 4 + |e.value| <= |s|
    ensures s[i..i+2] == e.tag && s[i+2..i+4] == TwoDigits(|e.value|)
    ensures s[i+4..i+4+|e.value|] == e.value && s[i+4+|e.value|..] == rest
  {
    var n := |e.value|;
    var t := EncodeEntry(e) + rest;
    assert |t| == 4 + n + |rest|;
    assert t[0..2] == e.tag && t[2..4] == TwoDigits(n) && t[4..4+n] == e.value && t[4+n..|t|] == rest;
    SliceOfSuffix(s, i, 0, 2);
    SliceOfSuffix(s, i, 2, 4);
    SliceOfSuffix(s, i, 4, 4 + n);
    SliceOfSuffix(s, i, 4 + n, |t|);
  }

  lemma ReadsOneMore(s: string, i: nat, j: nat, e: Entry, rest: seq<Entry>)
    requires j == i + 4 + |e.value| <= |s| && Fits(e)
    requires s[i..i+2] == e.tag && s[i+2..i+4] == TwoDigits(|e.value|) && s[i+4..j] == e.value
    ensures Parse(s, j).Broken? ==> Parse(s, i) == Parse(s, j)
    ensures Parse(s, j) == Entries(rest) ==> Parse(s, i) == Entries([e] + rest)
  {
  }

  lemma {:induction false} WrittenIsRead(s: string, i: nat, es: seq<Entry>)
    requires i <= |s| && AllFit(es) && s[i..] == Encode(es)
    ensures Parse(s, i) == Entries(es)
    decreases |es|
  {
    if es == [] {
      assert i == |s|;
    } else {
      var e, rest := es[0], es[1..];
      assert Fits(e) && AllFit(rest);
      FirstEntry(s, i, e, Encode(rest));
      var j := i + 4 + |e.value|;
      WrittenIsRead(s, j, rest);
      ReadsOneMore(s, i, j, e, rest);
      assert [e] + rest == es;
    }
  }

  /** A text is read exactly when it is a row of fitting entries, and then there is only one such row. */
  lemma ReadIffWritten(s: string, es: seq<Entry>)
    ensures Parse(s, 0) == Entries(es) <==> AllFit(es) && Encode(es) == s
  {
    assert s[0..] == s;
    if Parse(s, 0) == Entries(es) {
      ParseReadsBack(s, 0);
    }
    if AllFit(es) && Encode(es) == s {
      WrittenIsRead(s, 0, es);
    }
  }

  lemma {:induction false} StopsThere(s: string, i: nat)
    requires i <= |s| && Parse(s, i).Broken?
    ensures i <= Parse(s, i).at <= |s| && Parse(s, Parse(s, i).at) == Parse(s, i)
    decreases |s| - i
  {
    if i + 4 <= |s| && AllDigits(s[i+2..i+4]) && i + 4 + Number(s[i+2..i+4]) <= |s| {
      StopsThere(s, i + 4 + Number(s[i+2..i+4]));
    }
  }

  lemma NothingStartsAt(s: string, i: nat, e: Entry, rest: string)
    requires i <= |s| && Parse(s, i).Broken? && Parse(s, i).at == i && Fits(e)
    ensures s[i..] != EncodeEntry(e) + rest
  {
    if s[i..] == EncodeEntry(e) + rest {
      FirstEntry(s, i, e, rest);
      var j := i + 4 + |e.value|;
      if Parse(s, j).Entries? {
        ReadsOneMore(s, i, j, e, Parse(s, j).entries);
      } else {
        ReadsOneMore(s, i, j, e, []);
        StopsThere(s, j);
      }
    }
  }

  /** Where reading stops: entries write everything before the reported index. */
  lemma {:induction false} ReadableBefore(s: string, i: nat, at: nat) returns (done: seq<Entry>)
    requires i <= |s| && Parse(s, i).Broken? && at == Parse(s, i).at
    ensures i <= at <= |s| && AllFit(done) && Encode(done) == s[i..at]
    decreases |s| - i
  {
    if i + 4 <= |s| && AllDigits(s[i+2..i+4]) && i + 4 + Number(s[i+2..i+4]) <= |s| {
      var j := i + 4 + Number(s[i+2..i+4]);
      var entry := Entry(s[i..i+2], s[i+4..j]);
      var rest := ReadableBefore(s, j, at);
      done := [entry] + rest;
      EntryReadsBack(s, i, j, entry);
      EncodeOne(entry, rest);
      assert s[i..at] == s[i..][..at-i] == EncodeEntry(entry) + s[j..at];
    } else {
      done := [];
    }
  }

  /** A text is refused at the first index where no entry starts: everything before it is entries. */
  lemma RefusedWhere(s: string) returns (done: seq<Entry>)
    requires Parse(s, 0).Broken?
    ensures Parse(s, 0).at <= |s| && AllFit(done) && Encode(done) == s[..Parse(s, 0).at]
    ensures forall e, rest | Fits(e) :: s[Parse(s, 0).at..] != EncodeEntry(e) + rest
  {
    var at := Parse(s, 0).at;
    done := ReadableBefore(s, 0, at);
    assert s[0..at] == s[..at];
    StopsThere(s, 0);
    forall e, rest | Fits(e) ensures s[at..] != EncodeEntry(e) + rest {
      NothingStartsAt(s, at, e, rest);
    }
  }

  lemma {:induction false} LastEntryWins(es: seq<Entry>, k: nat)
    requires k < |es| && (forall j | k < j < |es| :: es[j].tag != es[k].tag)
    ensures es[k].tag in LastWins(es) && LastWins(es)[es[k].tag] == es[k].value
  {
    var n := |es| - 1;
    if k < n {
      LastEntryWins(es[..n], k);
      assert es[n].tag != es[k].tag;
    }
  }

  lemma {:induction false} TagsOf(es: seq<Entry>, tag: string)
    ensures tag in LastWins(es) <==> exists e :: e in es && e.tag == tag
  {
    if es != [] {
      var init, last := es[..|es|-1], es[|es|-1];
      assert es == init + [last];
      TagsOf(init, tag);
    }
  }

  lemma {:induction false} EncodeAppends(xs: seq<Entry>, ys: seq<Entry>)
    ensures Encode(xs + ys) == Encode(xs) + Encode(ys)
  {
    if xs == [] {
      assert xs + ys == ys;
    } else {
      assert (xs + ys)[1..] == xs[1..] + ys;
      EncodeAppends(xs[1..], ys);
      assert EncodeEntry(xs[0]) + (Encode(xs[1..]) + Encode(ys)) == EncodeEntry(xs[0]) + Encode(xs[1..]) + Encode(ys);
    }
  }
}
