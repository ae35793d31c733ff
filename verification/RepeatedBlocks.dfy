/** Collapsing a text that is one block of words repeated. */
module RepeatedBlocks {

  type Words = seq<string>

  /** A block written so many times. */
  function Times(block: Words, k: nat): (w: Words)
    ensures |w| == |block| * k
  {
    if k == 0 then [] else Times(block, k - 1) + block
  }

  /** The text is a repetition of its first p words. */
  predicate Repeats(words: Words, p: nat) {
    0 < p <= |words| && |words| % p == 0 && words == Times(words[..p], |words| / p)
  }

  /** The lengths that are tried: at least four words and at most half of the text. */
  predicate Tried(words: Words, p: nat) {
    4 <= p <= |words| / 2
  }

  /** The block that stands for the text: of the shortest length that repeats, or else the whole text. */
  function Collapsed(words: Words): Words {
    CollapsedFrom(words, 4)
  }

  function CollapsedFrom(words: Words, p: nat): Words
    decreases |words| - p
  {
    if !Tried(words, p) then words
    else if Repeats(words, p) then words[..p]
    else CollapsedFrom(words, p + 1)
  }

  method CollapseBlocks(words: Words) returns (block: Words)
    ensures block == Collapsed(words)
  {
    var n := |words|;
    if n >= 8 {
      var p := 4;
      while p < n / 2 + 1
        invariant 4 <= p <= n / 2 + 1 && CollapsedFrom(words, p) == Collapsed(words)
      {
        if n % p == 0 {
          var k := n / p;
          if words == Times(words[..p], k) {
            return words[..p];
          }
        }
        p := p + 1;
      }
    }
    return words;
  }

  // ---------- The shortest block ----------

  predicate Collapses(words: Words, p: nat) {
    Tried(words, p) && Repeats(words, p)
  }

  lemma {:induction false} FirstThatRepeats(words: Words, p: nat) returns (q: nat)
    requires p >= 4
    ensures forall r | p <= r < q :: !Collapses(words, r)
    ensures q >= p
    ensures if Collapses(words, q) then CollapsedFrom(words, p) == words[..q]
            else CollapsedFrom(words, p) == words && forall r | p <= r :: !Collapses(words, r)
    decreases |words| - p
  {
    q := p;
    if Tried(words, p) && !Repeats(words, p) {
      q := FirstThatRepeats(words, p + 1);
    }
  }

  /** The result is the shortest block of four words or more whose repetition is the text; without one, the text. */
  lemma CollapsedIsShortest(words: Words) returns (q: nat)
    ensures Collapses(words, q) ==> Collapsed(words) == words[..q] && forall r: nat | r < q :: !Collapses(words, r)
    ensures !Collapses(words, q) ==> Collapsed(words) == words && forall r: nat :: !Collapses(words, r)
  {
    q := FirstThatRepeats(words, 4);
  }

  // ---------- Blocks of blocks ----------

  lemma AtLeastOnce(p: nat, d: int)
    requires d >= 1
    ensures p * d >= p
  {
  }

  lemma Divides(a: nat, p: nat, k: nat)
    requires p > 0 && a == p * k
    ensures a % p == 0 && a / p == k
  {
    var d := a / p - k;
    assert a == p * (a / p) + a % p;
    assert p * d == p * (a / p) - p * k;
    if d >= 1 {
      AtLeastOnce(p, d);
    } else if d <= -1 {
      AtLeastOnce(p, -d);
    }
  }

  lemma {:induction false} TimesSum(block: Words, j: nat, k: nat)
    ensures Times(block, j + k) == Times(block, j) + Times(block, k)
    decreases k
  {
    if k > 0 {
      TimesSum(block, j, k - 1);
      assert j + (k - 1) == j + k - 1;
    }
  }

  lemma {:induction false} TimesProduct(block: Words, j: nat, k: nat)
    ensures j * k >= 0 && Times(Times(block, j), k) == Times(block, j * k)
    decreases k
  {
    if k == 0 {
      assert j * k == 0;
    } else {
      TimesProduct(block, j, k - 1);
      assert j * k == j * (k - 1) + j;
      TimesSum(block, j * (k - 1), j);
    }
  }

  lemma {:induction false} StartOfTimes(block: Words, k: nat)
    requires k > 0
    ensures |block| <= |Times(block, k)| && Times(block, k)[..|block|] == block
    decreases k
  {
    if k > 1 {
      StartOfTimes(block, k - 1);
    } else {
      assert Times(block, 1) == Times(block, 0) + block == block;
    }
  }

  /** A repetition of a block that is itself a repetition is a repetition of the smaller block. */
  lemma BlockOfBlock(words: Words, p: nat, q: nat)
    requires Repeats(words, p) && Repeats(words[..p], q)
    ensures Repeats(words, q)
  {
    var j, k := p / q, |words| / p;
    var block, small := words[..p], words[..p][..q];
    assert |words| == p * k && p == q * j;
    TimesProduct(small, j, k);
    assert |words| == q * (j * k);
    Divides(|words|, q, j * k);
    assert small == words[..q];
  }

  /** A shortest block does not collapse any further. */
  lemma CollapsingTwice(words: Words)
    ensures Collapsed(Collapsed(words)) == Collapsed(words)
  {
    var q := CollapsedIsShortest(words);
    if Collapses(words, q) {
      var block := words[..q];
      var r := CollapsedIsShortest(block);
      if Collapses(block, r) {
        BlockOfBlock(words, q, r);
        assert Collapses(words, r);
      }
    } else {
      assert Collapsed(words) == words;
    }
  }

  lemma Remainder(n: nat, q: nat, j: nat)
    requires j < n
    ensures (n * q + j) % n == j
  {
    var m := n * q + j;
    assert m == n * (m / n) + m % n;
    var d := m / n - q;
    assert n * d == n * (m / n) - n * q;
    if d >= 1 {
      AtLeastOnce(n, d);
    } else if d <= -1 {
      AtLeastOnce(n, -d);
    }
  }

  /** Word by word, a repeated text goes round its block. */
  lemma {:induction false} TimesGoesRound(block: Words, k: nat, i: nat)
    requires i < |block| * k
    ensures Times(block, k)[i] == block[i % |block|]
  {
    var n := |block|;
    if i < n * (k - 1) {
      TimesGoesRound(block, k - 1, i);
    } else {
      var j := i - n * (k - 1);
      assert i == n * (k - 1) + j && 0 <= j < n;
      Remainder(n, k - 1, j);
    }
  }

  /** The text is the block written `k` times, with at least four words in the block and at least two copies. */
  predicate BlockTimes(words: Words, block: Words, k: nat) {
    k >= 2 && |block| >= 4 && words == Times(block, k)
  }

  lemma TwiceAtLeast(p: nat, k: nat)
    requires k >= 2
    ensures p * k >= 2 * p
  {
  }

  lemma BlockCollapses(words: Words, block: Words, k: nat)
    requires BlockTimes(words, block, k)
    ensures |block| <= |words| && words[..|block|] == block && Collapses(words, |block|)
  {
    var p := |block|;
    TwiceAtLeast(p, k);
    forall i | 0 <= i < p ensures words[i] == block[i] {
      TimesGoesRound(block, k, i);
    }
    assert words[..p] == block;
    Divides(|words|, p, k);
  }

  lemma CollapseIsBlock(words: Words, q: nat)
    requires Collapses(words, q)
    ensures BlockTimes(words, words[..q], |words| / q)
  {
    assert |words[..q]| == q;
    var k := |words| / q;
    assert |words| == q * k;
  }

  /** A text that can be written as such a block becomes the shortest of them; any other text stays as it is. */
  lemma CollapsesToTheShortestBlock(words: Words)
    ensures (exists block, k :: BlockTimes(words, block, k)) ==> exists k :: BlockTimes(words, Collapsed(words), k)
    ensures forall block, k :: BlockTimes(words, block, k) ==> |Collapsed(words)| <= |block|
    ensures (forall block, k :: !BlockTimes(words, block, k)) ==> Collapsed(words) == words
  {
    var q := CollapsedIsShortest(words);
    forall block, k | BlockTimes(words, block, k) ensures Collapses(words, |block|) && Collapses(words, q) && q <= |block| {
      BlockCollapses(words, block, k);
    }
    if Collapses(words, q) {
      CollapseIsBlock(words, q);
    }
  }
}
