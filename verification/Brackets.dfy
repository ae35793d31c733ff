/** Repairing the brackets of an address: dropping those without a partner. */
module Brackets {
  import opened Tables

  const OPENERS := "([{<（【［｛"
  const CLOSERS := ")]}>）】］｝"

  predicate Opens(c: char) {
    c in OPENERS
  }

  predicate Closes(c: char) {
    c in CLOSERS
  }

  predicate Pair(o: char, c: char) {
    exists k | 0 <= k < 8 :: OPENERS[k] == o && CLOSERS[k] == c
  }

  /** The eight pairs, in ASCII and in full width. */
  lemma EightPairs(o: char, c: char)
    ensures Pair(o, c) <==>
            (o, c) in {('(', ')'), ('[', ']'), ('{', '}'), ('<', '>'), ('（', '）'), ('【', '】'), ('［', '］'), ('｛', '｝')}
    ensures Opens(o) <==> o in {'(', '[', '{', '<', '（', '【', '［', '｛'}
    ensures Closes(c) <==> c in {')', ']', '}', '>', '）', '】', '］', '｝'}
  {
    if (o, c) in {('(', ')'), ('[', ']'), ('{', '}'), ('<', '>'), ('（', '）'), ('【', '】'), ('［', '］'), ('｛', '｝')} {
      var k := if o == '(' then 0 else if o == '[' then 1 else if o == '{' then 2 else if o == '<' then 3
               else if o == '（' then 4 else if o == '【' then 5 else if o == '［' then 6 else 7;
      assert OPENERS[k] == o && CLOSERS[k] == c;
    }
  }

  lemma Kinds(o: char, c: char)
    requires Pair(o, c)
    ensures Opens(o) && Closes(c) && !Opens(c)
  {
  }

  // ---------- Well nested texts ----------

  /** The openers still waiting after a text, or None once a closer has no partner. */
  function Waiting(open: string, s: string): Option<string>
    decreases |s|
  {
    if s == "" then Some(open)
    else if Opens(s[0]) then Waiting(open + [s[0]], s[1..])
    else if Closes(s[0]) then
      if open != "" && Pair(open[|open|-1], s[0]) then Waiting(open[..|open|-1], s[1..]) else None
    else Waiting(open, s[1..])
  }

  predicate WellNested(s: string) {
    Waiting("", s) == Some("")
  }

  lemma {:induction false} WaitingSplits(open: string, s: string, t: string)
    ensures Waiting(open, s + t) ==
            match Waiting(open, s) case None => None case Some(now) => Waiting(now, t)
    decreases |s|
  {
    if s == "" {
      assert s + t == t;
    } else {
      assert (s + t)[0] == s[0] && (s + t)[1..] == s[1..] + t;
      if Opens(s[0]) {
        WaitingSplits(open + [s[0]], s[1..], t);
      } else if Closes(s[0]) {
        if open != "" && Pair(open[|open|-1], s[0]) {
          WaitingSplits(open[..|open|-1], s[1..], t);
        }
      } else {
        WaitingSplits(open, s[1..], t);
      }
    }
  }

  /** Openers below the ones a text needs do not matter to it. */
  lemma {:induction false} WaitingAbove(below: string, open: string, s: string)
    requires Waiting(open, s).Some?
    ensures Waiting(below + open, s) == Some(below + Waiting(open, s).value)
    decreases |s|
  {
    if s != "" {
      if Opens(s[0]) {
        assert below + (open + [s[0]]) == below + open + [s[0]];
        WaitingAbove(below, open + [s[0]], s[1..]);
      } else if Closes(s[0]) {
        assert (below + open)[..|below + open|-1] == below + open[..|open|-1];
        WaitingAbove(below, open[..|open|-1], s[1..]);
      } else {
        WaitingAbove(below, open, s[1..]);
      }
    }
  }

  lemma NestedJoin(s: string, t: string)
    requires WellNested(s) && WellNested(t)
    ensures WellNested(s + t)
  {
    WaitingSplits("", s, t);
  }

  lemma OneWaits(c: char, open: string)
    ensures Waiting(open, [c]) ==
            if Opens(c) then Some(open + [c])
            else if !Closes(c) then Some(open)
            else if open != "" && Pair(open[|open|-1], c) then Some(open[..|open|-1])
            else None
  {
    assert [c][1..] == "";
  }

  lemma NestedWrap(o: char, s: string, c: char)
    requires Pair(o, c) && WellNested(s)
    ensures WellNested([o] + s + [c])
  {
    Kinds(o, c);
    OneWaits(o, "");
    OneWaits(c, [o]);
    WaitingAbove([o], "", s);
    assert [o] + "" == [o] && "" + [o] == [o];
    WaitingSplits("", [o], s);
    WaitingSplits("", [o] + s, [c]);
  }

  // ---------- Pairing ----------

  datatype Open = Open(c: char, at: nat)

  /** The openers on the stack and the positions found to be without a partner. */
  datatype Marks = Marks(stack: seq<Open>, unpaired: set<nat>)

  function Mark(m: Marks, c: char, at: nat): Marks {
    if Opens(c) then m.(stack := m.stack + [Open(c, at)])
    else if Closes(c) then
      if m.stack != [] && Pair(m.stack[|m.stack|-1].c, c) then m.(stack := m.stack[..|m.stack|-1])
      else m.(unpaired := m.unpaired + {at})
    else m
  }

  function Scan(t: string, n: nat): Marks
    requires n <= |t|
  {
    if n == 0 then Marks([], {}) else Mark(Scan(t, n - 1), t[n-1], n - 1)
  }

  function Positions(stack: seq<Open>): set<nat> {
    set k | 0 <= k < |stack| :: stack[k].at
  }

  /** The characters from lo up to hi that are not dropped. */
  function Kept(t: string, lo: nat, hi: nat, dropped: set<nat>): string
    requires hi <= |t|
    decreases hi
  {
    if lo >= hi then ""
    else if hi - 1 in dropped then Kept(t, lo, hi - 1, dropped)
    else Kept(t, lo, hi - 1, dropped) + [t[hi-1]]
  }

  function Dropped(t: string): set<nat> {
    Scan(t, |t|).unpaired + Positions(Scan(t, |t|).stack)
  }

  function Repaired(t: string): string {
    Kept(t, 0, |t|, Dropped(t))
  }

  method RepairBrackets(t: string) returns (r: string)
    ensures r == Repaired(t)
  {
    var stack: seq<Open> := [];
    var unpaired: set<nat> := {};
    var i := 0;
    while i < |t|
      invariant i <= |t| && Marks(stack, unpaired) == Scan(t, i)
    {
      var c := t[i];
      if Opens(c) {
        stack := stack + [Open(c, i)];
      } else if Closes(c) {
        if stack != [] && Pair(stack[|stack|-1].c, c) {
          stack := stack[..|stack|-1];
        } else {
          unpaired := unpaired + {i};
        }
      }
      i := i + 1;
    }
    unpaired := AddWaiting(stack, unpaired);
    if unpaired == {} {
      NothingDropped(t, |t|, unpaired);
      return t;
    }
    r := KeepOthers(t, unpaired);
  }

  /** The openers still on the stack have no partner either. */
  method AddWaiting(stack: seq<Open>, found: set<nat>) returns (unpaired: set<nat>)
    ensures unpaired == found + Positions(stack)
  {
    unpaired := found;
    var k := 0;
    while k < |stack|
      invariant k <= |stack| && unpaired == found + Positions(stack[..k])
    {
      assert Positions(stack[..k+1]) == Positions(stack[..k]) + {stack[k].at};
      unpaired := unpaired + {stack[k].at};
      k := k + 1;
    }
    assert stack[..|stack|] == stack;
  }

  method KeepOthers(t: string, dropped: set<nat>) returns (r: string)
    ensures r == Kept(t, 0, |t|, dropped)
  {
    r := "";
    var i := 0;
    while i < |t|
      invariant i <= |t| && r == Kept(t, 0, i, dropped)
    {
      if i !in dropped {
        r := r + [t[i]];
      }
      i := i + 1;
    }
  }

  lemma {:induction false} NothingDropped(t: string, n: nat, dropped: set<nat>)
    requires n <= |t| && forall i | 0 <= i < n :: i !in dropped
    ensures Kept(t, 0, n, dropped) == t[..n]
  {
    if n > 0 {
      NothingDropped(t, n - 1, dropped);
    }
  }

  // ---------- What is left is well nested ----------

  /** Where the k-th gap between waiting openers starts and ends. */
  function From(stack: seq<Open>, k: nat): nat
    requires k <= |stack|
  {
    if k == 0 then 0 else stack[k-1].at + 1
  }

  function To(stack: seq<Open>, k: nat, n: nat): nat
    requires k <= |stack|
  {
    if k == |stack| then n else stack[k].at
  }

  ghost predicate Placed(t: string, n: nat, m: Marks)
    requires n <= |t|
  {
    && (forall k | 0 <= k < |m.stack| :: m.stack[k].at < n && t[m.stack[k].at] == m.stack[k].c && m.stack[k].at !in m.unpaired)
    && (forall j, k | 0 <= j < k < |m.stack| :: m.stack[j].at < m.stack[k].at)
    && (forall i | i in m.unpaired :: i < n && Closes(t[i]))
    && (forall k | 0 <= k < |m.stack| :: Opens(m.stack[k].c))
  }

  /** The text kept between two waiting openers is well nested, and so are the first and the last part. */
  ghost predicate GapNested(t: string, n: nat, m: Marks, k: nat)
    requires n <= |t| && k <= |m.stack| && Placed(t, n, m)
  {
    WellNested(Kept(t, From(m.stack, k), To(m.stack, k, n), m.unpaired))
  }

  ghost predicate Sound(t: string, n: nat, m: Marks)
    requires n <= |t|
  {
    Placed(t, n, m) && forall k | 0 <= k <= |m.stack| :: GapNested(t, n, m, k)
  }

  lemma {:induction false} KeptIgnoresLater(t: string, lo: nat, hi: nat, dropped: set<nat>, more: set<nat>)
    requires hi <= |t| && forall i | lo <= i < hi :: i in dropped <==> i in more
    ensures Kept(t, lo, hi, dropped) == Kept(t, lo, hi, more)
    decreases hi
  {
    if lo < hi {
      KeptIgnoresLater(t, lo, hi - 1, dropped, more);
    }
  }

  lemma {:induction false} KeptSplits(t: string, lo: nat, mid: nat, hi: nat, dropped: set<nat>)
    requires lo <= mid <= hi <= |t|
    ensures Kept(t, lo, hi, dropped) == Kept(t, lo, mid, dropped) + Kept(t, mid, hi, dropped)
    decreases hi
  {
    if mid < hi {
      KeptSplits(t, lo, mid, hi - 1, dropped);
    }
  }

  lemma Rebracket(a: string, b: string, c: string, d: string)
    ensures a + (b + c) + d == a + (b + c + d)
  {
  }

  /** A matched pair joins the gap before its opener and the gap inside it into one. */
  lemma GapsMerge(t: string, lo: nat, at: nat, n: nat, dropped: set<nat>)
    requires lo <= at < n < |t| && at !in dropped && n !in dropped && Pair(t[at], t[n])
    requires WellNested(Kept(t, lo, at, dropped)) && WellNested(Kept(t, at + 1, n, dropped))
    ensures WellNested(Kept(t, lo, n + 1, dropped))
  {
    var inner := Kept(t, at + 1, n, dropped);
    KeptSplits(t, lo, at, n, dropped);
    KeptSplits(t, at, at + 1, n, dropped);
    assert Kept(t, at, at + 1, dropped) == [t[at]];
    Rebracket(Kept(t, lo, at, dropped), [t[at]], inner, [t[n]]);
    NestedWrap(t[at], inner, t[n]);
    NestedJoin(Kept(t, lo, at, dropped), [t[at]] + inner + [t[n]]);
  }

  lemma SoundAfterOpener(t: string, n: nat, q: nat, m: Marks, next: Marks)
    requires n < |t| && q == n + 1 && Sound(t, n, m) && Opens(t[n]) && next == Mark(m, t[n], n)
    ensures Sound(t, q, next)
  {
    assert Placed(t, q, next);
    forall k | 0 <= k <= |next.stack| ensures GapNested(t, q, next, k) {
      if k <= |m.stack| {
        assert GapNested(t, n, m, k);
      }
    }
  }

  /** Gaps below the matched opener stay, and the two gaps around it become the last one. */
  lemma GapAfterPair(t: string, n: nat, q: nat, m: Marks, next: Marks, k: nat)
    requires n < |t| && q == n + 1 && m.stack != [] && k < |m.stack| && Sound(t, n, m) && Pair(m.stack[|m.stack|-1].c, t[n])
    requires next == m.(stack := m.stack[..|m.stack|-1]) && Placed(t, q, next)
    ensures GapNested(t, q, next, k)
  {
    var last := |m.stack| - 1;
    assert GapNested(t, n, m, k);
    if k < last {
      assert From(next.stack, k) == From(m.stack, k) && To(next.stack, k, q) == To(m.stack, k, n);
    } else {
      assert GapNested(t, n, m, last + 1);
      GapsMerge(t, From(m.stack, last), m.stack[last].at, n, m.unpaired);
    }
  }

  lemma SoundAfterPair(t: string, n: nat, q: nat, m: Marks, next: Marks)
    requires n < |t| && q == n + 1 && Sound(t, n, m) && Closes(t[n]) && !Opens(t[n]) && next == Mark(m, t[n], n)
    requires m.stack != [] && Pair(m.stack[|m.stack|-1].c, t[n])
    ensures Sound(t, q, next)
  {
    assert Placed(t, q, next);
    forall k | 0 <= k <= |next.stack| ensures GapNested(t, q, next, k) {
      GapAfterPair(t, n, q, m, next, k);
    }
  }

  lemma GapAfterLonelyCloser(t: string, n: nat, q: nat, m: Marks, next: Marks, k: nat)
    requires n < |t| && q == n + 1 && Sound(t, n, m) && Closes(t[n]) && next == m.(unpaired := m.unpaired + {n})
    requires Placed(t, q, next) && k <= |next.stack|
    ensures GapNested(t, q, next, k)
  {
    assert GapNested(t, n, m, k);
    KeptIgnoresLater(t, From(m.stack, k), To(m.stack, k, n), m.unpaired, next.unpaired);
  }

  lemma SoundAfterLonelyCloser(t: string, n: nat, q: nat, m: Marks, next: Marks)
    requires n < |t| && q == n + 1 && Sound(t, n, m) && Closes(t[n]) && next == m.(unpaired := m.unpaired + {n})
    ensures Sound(t, q, next)
  {
    assert Placed(t, q, next);
    forall k | 0 <= k <= |next.stack| ensures GapNested(t, q, next, k) {
      GapAfterLonelyCloser(t, n, q, m, next, k);
    }
  }

  lemma SoundAfterPlain(t: string, n: nat, q: nat, m: Marks)
    requires n < |t| && q == n + 1 && Sound(t, n, m) && !Opens(t[n]) && !Closes(t[n])
    ensures Sound(t, q, m)
  {
    assert Placed(t, q, m);
    forall k | 0 <= k <= |m.stack| ensures GapNested(t, q, m, k) {
      assert GapNested(t, n, m, k);
      if k == |m.stack| {
        NestedJoin(Kept(t, From(m.stack, k), n, m.unpaired), [t[n]]);
      }
    }
  }

  lemma {:induction false} ScanIsSound(t: string, n: nat)
    requires n <= |t|
    ensures Sound(t, n, Scan(t, n))
  {
    if n == 0 {
      assert Scan(t, n) == Marks([], {});
      assert Kept(t, 0, 0, {}) == "";
    } else {
      var at := n - 1;
      var m, c, next := Scan(t, at), t[at], Scan(t, n);
      ScanIsSound(t, at);
      assert next == Mark(m, c, at);
      if Opens(c) {
        SoundAfterOpener(t, at, n, m, next);
      } else if !Closes(c) {
        SoundAfterPlain(t, at, n, m);
      } else if m.stack != [] && Pair(m.stack[|m.stack|-1].c, c) {
        SoundAfterPair(t, at, n, m, next);
      } else {
        SoundAfterLonelyCloser(t, at, n, m, next);
      }
    }
  }

  lemma NoOpenerInAGap(t: string, n: nat, m: Marks, k: nat, i: nat)
    requires n <= |t| && k <= |m.stack| && Placed(t, n, m) && From(m.stack, k) <= i < To(m.stack, k, n)
    ensures i !in Positions(m.stack)
  {
    forall j | 0 <= j < |m.stack| ensures m.stack[j].at != i {
      assert j < k ==> m.stack[j].at <= m.stack[k-1].at;
      assert j > k ==> m.stack[k].at < m.stack[j].at;
    }
  }

  /** Dropping the waiting openers too leaves each gap as it is. */
  lemma GapStays(t: string, n: nat, m: Marks, k: nat, dropped: set<nat>)
    requires n <= |t| && k <= |m.stack| && Sound(t, n, m) && dropped == m.unpaired + Positions(m.stack)
    ensures WellNested(Kept(t, From(m.stack, k), To(m.stack, k, n), dropped))
  {
    assert GapNested(t, n, m, k);
    forall i: nat | From(m.stack, k) <= i < To(m.stack, k, n) ensures i in m.unpaired <==> i in dropped {
      NoOpenerInAGap(t, n, m, k, i);
    }
    KeptIgnoresLater(t, From(m.stack, k), To(m.stack, k, n), m.unpaired, dropped);
  }

  /** With the waiting openers dropped too, everything up to the k-th gap's end is well nested. */
  lemma {:induction false} GapsJoin(t: string, n: nat, m: Marks, k: nat, dropped: set<nat>)
    requires n <= |t| && k <= |m.stack| && Sound(t, n, m) && dropped == m.unpaired + Positions(m.stack)
    ensures WellNested(Kept(t, 0, To(m.stack, k, n), dropped))
  {
    var lo, hi := From(m.stack, k), To(m.stack, k, n);
    GapStays(t, n, m, k, dropped);
    if k > 0 {
      GapsJoin(t, n, m, k - 1, dropped);
      assert m.stack[k-1].at in Positions(m.stack);
      KeptSplits(t, 0, lo, hi, dropped);
      NestedJoin(Kept(t, 0, lo, dropped), Kept(t, lo, hi, dropped));
    }
  }

  /** The repaired text is well nested. */
  lemma RepairedIsNested(t: string)
    ensures WellNested(Repaired(t))
  {
    var m := Scan(t, |t|);
    ScanIsSound(t, |t|);
    GapsJoin(t, |t|, m, |m.stack|, Dropped(t));
  }

  // ---------- Only brackets are dropped ----------

  /** A text without its brackets. */
  function Plain(t: string): string {
    if t == "" then ""
    else if Opens(t[|t|-1]) || Closes(t[|t|-1]) then Plain(t[..|t|-1])
    else Plain(t[..|t|-1]) + [t[|t|-1]]
  }

  lemma {:induction false} KeptKeepsPlain(t: string, n: nat, dropped: set<nat>)
    requires n <= |t| && forall i | 0 <= i < n && i in dropped :: Opens(t[i]) || Closes(t[i])
    ensures Plain(Kept(t, 0, n, dropped)) == Plain(t[..n])
  {
    if n > 0 {
      KeptKeepsPlain(t, n - 1, dropped);
      assert t[..n][..n-1] == t[..n-1];
      if n - 1 !in dropped {
        var kept := Kept(t, 0, n - 1, dropped);
        assert (kept + [t[n-1]])[..|kept|] == kept;
      }
    }
  }

  /** Every other character stays, in order. */
  lemma OnlyBracketsAreDropped(t: string)
    ensures Plain(Repaired(t)) == Plain(t)
  {
    ScanIsSound(t, |t|);
    KeptKeepsPlain(t, |t|, Dropped(t));
    assert t[..|t|] == t;
  }

  // ---------- Well nested texts are left alone ----------

  function Chars(stack: seq<Open>): string {
    seq(|stack|, k requires 0 <= k < |stack| => stack[k].c)
  }

  /** Reading one more character with the stack's characters waiting. */
  lemma MarkFollows(m: Marks, c: char, at: nat)
    requires at !in m.unpaired
    ensures Waiting(Chars(m.stack), [c]) ==
            if at in Mark(m, c, at).unpaired then None else Some(Chars(Mark(m, c, at).stack))
  {
    OneWaits(c, Chars(m.stack));
    if Opens(c) {
      assert Chars(m.stack + [Open(c, at)]) == Chars(m.stack) + [c];
    } else if Closes(c) && m.stack != [] && Pair(m.stack[|m.stack|-1].c, c) {
      assert Chars(m.stack[..|m.stack|-1]) == Chars(m.stack)[..|m.stack|-1];
    }
  }

  /** While nothing is unpaired the stack holds what the text still waits for; afterwards it is beyond repair. */
  lemma {:induction false} ScanFollowsWaiting(t: string, n: nat)
    requires n <= |t|
    ensures Waiting("", t[..n]) == if Scan(t, n).unpaired == {} then Some(Chars(Scan(t, n).stack)) else None
  {
    if n > 0 {
      ScanFollowsWaiting(t, n - 1);
      var m, c := Scan(t, n - 1), t[n-1];
      assert t[..n] == t[..n-1] + [c];
      WaitingSplits("", t[..n-1], [c]);
      if m.unpaired == {} {
        MarkFollows(m, c, n - 1);
      }
    } else {
      assert t[..0] == "" && Chars([]) == "";
    }
  }

  lemma {:induction false} DroppingShortens(t: string, n: nat, dropped: set<nat>)
    requires n <= |t|
    ensures |Kept(t, 0, n, dropped)| <= n
    ensures (exists i | 0 <= i < n :: i in dropped) ==> |Kept(t, 0, n, dropped)| < n
  {
    if n > 0 {
      DroppingShortens(t, n - 1, dropped);
    }
  }

  /** A text is left as it is exactly when it was well nested. */
  lemma RepairedIsSameIffNested(t: string)
    ensures Repaired(t) == t <==> WellNested(t)
  {
    var m := Scan(t, |t|);
    assert t[..|t|] == t;
    ScanFollowsWaiting(t, |t|);
    ScanIsSound(t, |t|);
    if WellNested(t) {
      assert |Chars(m.stack)| == |m.stack|;
      assert Dropped(t) == {};
      NothingDropped(t, |t|, {});
    } else {
      assert exists i | 0 <= i < |t| :: i in Dropped(t) by {
        if m.unpaired != {} {
          var i :| i in m.unpaired;
          assert i in Dropped(t);
        } else {
          assert m.stack != [];
          assert m.stack[0].at in Dropped(t);
        }
      }
      DroppingShortens(t, |t|, Dropped(t));
    }
  }
}
