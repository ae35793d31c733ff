/** Candidate places for an address text: the two-character index against a scan of all place names. */
module GeoIndex {
  import opened Text

  datatype GeoRecord = GeoRecord(sub: string, dist: string, prov: string, zip: string)

  /** A place name with its records, as one item of a name map. */
  datatype Place = Place(name: string, records: seq<GeoRecord>)

  type Index = map<string, seq<Place>>

  // ---------- Finding ----------

  predicate Thai(c: char) {
    '\U{0E00}' <= c <= '\U{0E7F}'
  }

  predicate ThaiAt(text: string, i: int) {
    0 <= i < |text| && Thai(text[i])
  }

  /** str.find from an index on. */
  function Find(text: string, part: string, from: nat): (i: int)
    ensures i == -1 || (from <= i && Occurs(text, part, i))
    ensures forall j | from <= j && (i == -1 || j < i) :: !Occurs(text, part, j)
    decreases |text| - from
  {
    if from + |part| > |text| then -1
    else if Occurs(text, part, from) then from
    else Find(text, part, from + 1)
  }

  predicate WordAt(text: string, term: string, i: int) {
    Occurs(text, term, i) && !ThaiAt(text, i - 1) && !ThaiAt(text, i + |term|)
  }

  /** The name stands alone somewhere in the text. */
  ghost predicate WordMatch(term: string, text: string) {
    term != "" && exists i :: WordAt(text, term, i)
  }

  predicate EndsWell(text: string, end: int, follow: seq<string>) {
    !ThaiAt(text, end) || exists f | f in follow :: Occurs(text, f, end)
  }

  predicate PrefixedAt(text: string, full: string, follow: seq<string>, i: int) {
    Occurs(text, full, i) && EndsWell(text, i + |full|, follow)
  }

  ghost predicate FullMatch(text: string, full: string, follow: seq<string>) {
    exists i :: PrefixedAt(text, full, follow, i)
  }

  /** The name stands behind one of the prefixes somewhere in the text. */
  ghost predicate PrefixMatch(name: string, text: string, prefixes: seq<string>, follow: seq<string>) {
    exists p | p in prefixes :: FullMatch(text, p + name, follow)
  }

  ghost predicate Matches(name: string, text: string, prefixes: seq<string>, follow: seq<string>) {
    WordMatch(name, text) || PrefixMatch(name, text, prefixes, follow)
  }

  method WbMatch(term: string, text: string) returns (found: bool)
    ensures found == WordMatch(term, text)
  {
    if term == "" {
      return false;
    }
    var idx := Find(text, term, 0);
    while idx != -1
      invariant idx == -1 || Occurs(text, term, idx)
      invariant forall j | 0 <= j && (idx == -1 || j < idx) :: !WordAt(text, term, j)
      decreases if idx == -1 then 0 else |text| + 1 - idx
    {
      if !ThaiAt(text, idx - 1) && !ThaiAt(text, idx + |term|) {
        assert WordAt(text, term, idx);
        return true;
      }
      idx := Find(text, term, idx + 1);
    }
    return false;
  }

  method FindPrefixed(text: string, full: string, follow: seq<string>) returns (found: bool)
    ensures found == FullMatch(text, full, follow)
  {
    var idx := Find(text, full, 0);
    while idx != -1
      invariant idx == -1 || Occurs(text, full, idx)
      invariant forall j | 0 <= j && (idx == -1 || j < idx) :: !PrefixedAt(text, full, follow, j)
      decreases if idx == -1 then 0 else |text| + 1 - idx
    {
      if EndsWell(text, idx + |full|, follow) {
        assert PrefixedAt(text, full, follow, idx);
        return true;
      }
      idx := Find(text, full, idx + 1);
    }
    return false;
  }

  method PfxMatch(name: string, text: string, prefixes: seq<string>, follow: seq<string>) returns (found: bool)
    ensures found == PrefixMatch(name, text, prefixes, follow)
  {
    var k := 0;
    while k < |prefixes|
      invariant k <= |prefixes|
      invariant forall j | 0 <= j < k :: !FullMatch(text, prefixes[j] + name, follow)
    {
      var here := FindPrefixed(text, prefixes[k] + name, follow);
      if here {
        assert prefixes[k] in prefixes;
        return true;
      }
      k := k + 1;
    }
    return false;
  }

  /** A name stands alone where it occurs and no Thai character touches it on either side. */
  lemma StandsAlone(term: string, text: string)
    ensures WordMatch(term, text) <==>
            term != "" && exists i: nat :: Alone(term, text, i)
  {
    if i :| WordAt(text, term, i) && term != "" {
      assert Alone(term, text, i);
    }
    if i: nat :| Alone(term, text, i) {
      assert WordAt(text, term, i);
    }
  }

  predicate Alone(term: string, text: string, i: nat) {
    && i + |term| <= |text| && text[i..i+|term|] == term
    && (i == 0 || text[i-1] < '\U{0E00}' || text[i-1] > '\U{0E7F}')
    && (i + |term| == |text| || text[i+|term|] < '\U{0E00}' || text[i+|term|] > '\U{0E7F}')
  }

  /** A name stands behind a prefix where both occur and the text ends, no Thai character comes or a following word does. */
  predicate Behind(name: string, text: string, p: string, follow: seq<string>, i: nat) {
    var end := i + |p| + |name|;
    && end <= |text| && text[i..end] == p + name
    && (end == |text| || text[end] < '\U{0E00}' || text[end] > '\U{0E7F}'
        || exists f | f in follow :: end + |f| <= |text| && text[end..end+|f|] == f)
  }

  lemma StandsBehind(name: string, text: string, p: string, follow: seq<string>, i: int)
    ensures PrefixedAt(text, p + name, follow, i) <==> i >= 0 && Behind(name, text, p, follow, i)
  {
    var end := i + |p + name|;
    if 0 <= i && end == |text| {
      assert !ThaiAt(text, end);
    }
  }

  lemma MatchesIff(name: string, text: string, prefixes: seq<string>, follow: seq<string>)
    ensures Matches(name, text, prefixes, follow) <==>
            || (name != "" && exists i: nat :: Alone(name, text, i))
            || exists p, i: nat :: p in prefixes && Behind(name, text, p, follow, i)
  {
    StandsAlone(name, text);
    if PrefixMatch(name, text, prefixes, follow) {
      var p :| p in prefixes && FullMatch(text, p + name, follow);
      var i :| PrefixedAt(text, p + name, follow, i);
      StandsBehind(name, text, p, follow, i);
    }
    if p, i: nat :| p in prefixes && Behind(name, text, p, follow, i) {
      StandsBehind(name, text, p, follow, i);
      assert PrefixedAt(text, p + name, follow, i);
      assert FullMatch(text, p + name, follow);
    }
  }

  // ---------- The index ----------

  /** The first two characters, or fewer of a shorter name. */
  function Gram(name: string): string {
    if |name| < 2 then name else name[..2]
  }

  function Lookup(index: Index, gram: string): seq<Place> {
    if gram in index then index[gram] else []
  }

  ghost predicate Covers(index: Index, places: seq<Place>) {
    forall gram, e :: e in Lookup(index, gram) <==> e in places && Gram(e.name) == gram
  }

  lemma CoversOneMore(index: Index, places: seq<Place>, place: Place)
    requires Covers(index, places)
    ensures Covers(index[Gram(place.name) := Lookup(index, Gram(place.name)) + [place]], places + [place])
  {
    var after := index[Gram(place.name) := Lookup(index, Gram(place.name)) + [place]];
    forall gram, e ensures e in Lookup(after, gram) <==> e in places + [place] && Gram(e.name) == gram {
      assert e in Lookup(index, gram) <==> e in places && Gram(e.name) == gram;
      assert e in places + [place] <==> e in places || e == place;
    }
  }

  method BuildIndex(places: seq<Place>) returns (index: Index)
    ensures Covers(index, places)
  {
    index := map[];
    var k := 0;
    while k < |places|
      invariant k <= |places|
      invariant Covers(index, places[..k])
    {
      var gram := Gram(places[k].name);
      ghost var before := index;
      index := index[gram := Lookup(index, gram) + [places[k]]];
      assert places[..k+1] == places[..k] + [places[k]];
      CoversOneMore(before, places[..k], places[k]);
      k := k + 1;
    }
    assert places[..|places|] == places;
  }

  /** The two-character pieces of a text. */
  function Grams(text: string): set<string> {
    set i | 0 <= i < |text| - 1 :: Piece(text, i)
  }

  function Piece(text: string, i: nat): string
    requires i + 2 <= |text|
  {
    text[i..i+2]
  }

  lemma PieceOf(text: string, part: string, i: nat, k: nat)
    requires Occurs(text, part, i) && k + 2 <= |part|
    ensures part[k..k+2] in Grams(text)
  {
    var piece := part[k..k+2];
    assert text[i..i+|part|] == part;
    assert forall j | 0 <= j < |part| :: part[j] == text[i + j];
    assert Piece(text, i + k) == piece;
  }

  /** A match of a name of at least two characters needs the name's first two characters in the text. */
  lemma MatchNeedsItsGram(name: string, text: string, prefixes: seq<string>, follow: seq<string>)
    requires |name| >= 2 && Matches(name, text, prefixes, follow)
    ensures Gram(name) in Grams(text)
  {
    if WordMatch(name, text) {
      var i :| WordAt(text, name, i);
      PieceOf(text, name, i, 0);
    } else {
      var p :| p in prefixes && FullMatch(text, p + name, follow);
      var i :| PrefixedAt(text, p + name, follow, i);
      PieceOf(text, p + name, i, |p|);
      assert (p + name)[|p|..|p|+2] == name[..2];
    }
  }

  // ---------- The pool ----------

  ghost predicate Found(places: seq<Place>, text: string, prefixes: seq<string>, follow: seq<string>, r: GeoRecord) {
    exists e | e in places :: r in e.records && Matches(e.name, text, prefixes, follow)
  }

  /** The full scan, over names of at least two characters. */
  ghost predicate Scanned(places: seq<Place>, text: string, prefixes: seq<string>, follow: seq<string>, r: GeoRecord) {
    exists e | e in places :: |e.name| >= 2 && r in e.records && Matches(e.name, text, prefixes, follow)
  }

  ghost predicate Distinct(pool: seq<GeoRecord>) {
    forall i, j | 0 <= i < j < |pool| :: pool[i] != pool[j]
  }

  /** A pool without repeats holds no record twice. */
  lemma {:induction false} DistinctHoldsEachOnce(pool: seq<GeoRecord>)
    ensures Distinct(pool) <==> forall r :: multiset(pool)[r] <= 1
  {
    if pool != [] {
      var n := |pool| - 1;
      assert pool == pool[..n] + [pool[n]];
      DistinctHoldsEachOnce(pool[..n]);
      if Distinct(pool) {
        assert pool[n] !in pool[..n];
      } else if Distinct(pool[..n]) {
        assert pool[n] in pool[..n];
        assert multiset(pool)[pool[n]] >= 2;
      } else {
        var r :| multiset(pool[..n])[r] > 1;
        assert multiset(pool)[r] > 1;
      }
    }
  }

  /** Looking up the pieces of the text finds what the scan finds. */
  lemma IndexFindsTheScan(index: Index, places: seq<Place>, text: string, prefixes: seq<string>, follow: seq<string>, r: GeoRecord)
    requires Covers(index, places)
    ensures Scanned(places, text, prefixes, follow, r) <==>
            exists gram | gram in Grams(text) :: Found(Lookup(index, gram), text, prefixes, follow, r)
  {
    if Scanned(places, text, prefixes, follow, r) {
      var e :| e in places && |e.name| >= 2 && r in e.records && Matches(e.name, text, prefixes, follow);
      MatchNeedsItsGram(e.name, text, prefixes, follow);
      assert e in Lookup(index, Gram(e.name));
    }
    if gram :| gram in Grams(text) && Found(Lookup(index, gram), text, prefixes, follow, r) {
      var e :| e in Lookup(index, gram) && r in e.records && Matches(e.name, text, prefixes, follow);
    }
  }

  method AddRecords(records: seq<GeoRecord>, seen: set<GeoRecord>, pool: seq<GeoRecord>)
    returns (seen': set<GeoRecord>, pool': seq<GeoRecord>)
    requires Distinct(pool) && forall r :: r in seen <==> r in pool
    ensures Distinct(pool') && forall r :: r in seen' <==> r in pool'
    ensures forall r :: r in pool' <==> r in pool || r in records
  {
    seen', pool' := seen, pool;
    var k := 0;
    while k < |records|
      invariant k <= |records|
      invariant Distinct(pool') && forall r :: r in seen' <==> r in pool'
      invariant forall r :: r in pool' <==> r in pool || r in records[..k]
    {
      var r := records[k];
      assert records[..k+1] == records[..k] + [r];
      if r !in seen' {
        seen', pool' := seen' + {r}, pool' + [r];
      }
      k := k + 1;
    }
  }

  method AddMatching(places: seq<Place>, text: string, prefixes: seq<string>, follow: seq<string>,
                     seen: set<GeoRecord>, pool: seq<GeoRecord>)
    returns (seen': set<GeoRecord>, pool': seq<GeoRecord>)
    requires Distinct(pool) && forall r :: r in seen <==> r in pool
    ensures Distinct(pool') && forall r :: r in seen' <==> r in pool'
    ensures forall r :: r in pool' <==> r in pool || Found(places, text, prefixes, follow, r)
  {
    seen', pool' := seen, pool;
    var k := 0;
    while k < |places|
      invariant k <= |places|
      invariant Distinct(pool') && forall r :: r in seen' <==> r in pool'
      invariant forall r :: r in pool' <==> r in pool || Found(places[..k], text, prefixes, follow, r)
    {
      var place := places[k];
      var word := WbMatch(place.name, text);
      var prefixed := false;
      if !word {
        prefixed := PfxMatch(place.name, text, prefixes, follow);
      }
      forall r ensures Found(places[..k+1], text, prefixes, follow, r) <==>
          Found(places[..k], text, prefixes, follow, r) || (r in place.records && Matches(place.name, text, prefixes, follow)) {
        assert places[..k+1] == places[..k] + [place];
      }
      if word || prefixed {
        seen', pool' := AddRecords(place.records, seen', pool');
      }
      k := k + 1;
    }
    assert places[..|places|] == places;
  }

  class GeoDatabase {
    var subs: seq<Place>
    var dists: seq<Place>
    var provs: seq<Place>
    var provNames: seq<string>
    var subIndex: Index
    var distIndex: Index
    var provIndex: Index
    var indexed: bool

    ghost predicate Valid()
      reads this
    {
      indexed ==> Covers(subIndex, subs) && Covers(distIndex, dists) && Covers(provIndex, provs)
    }

    constructor ()
      ensures Valid() && !indexed && subs == [] && dists == [] && provs == [] && provNames == []
    {
      subs, dists, provs, provNames := [], [], [], [];
      subIndex, distIndex, provIndex := map[], map[], map[];
      indexed := false;
    }

    method BuildPrefixIndices()
      modifies this`subIndex, this`distIndex, this`provIndex, this`indexed
      ensures Valid() && indexed
    {
      subIndex := BuildIndex(subs);
      distIndex := BuildIndex(dists);
      provIndex := BuildIndex(provs);
      indexed := true;
    }

    /** The records that a scan of every name of at least two characters finds. */
    ghost predicate Candidate(text: string, subPfxs: seq<string>, distPfxs: seq<string>, provPfxs: seq<string>, r: GeoRecord)
      reads this
    {
      || Scanned(subs, text, subPfxs, distPfxs + (provPfxs + provNames), r)
      || Scanned(dists, text, distPfxs, provPfxs + provNames, r)
      || Scanned(provs, text, provPfxs, [], r)
    }

    ghost predicate FoundBy(gram: string, text: string, subPfxs: seq<string>, distPfxs: seq<string>, provPfxs: seq<string>, r: GeoRecord)
      reads this
    {
      || Found(Lookup(subIndex, gram), text, subPfxs, distPfxs + (provPfxs + provNames), r)
      || Found(Lookup(distIndex, gram), text, distPfxs, provPfxs + provNames, r)
      || Found(Lookup(provIndex, gram), text, provPfxs, [], r)
    }

    lemma PiecesFindCandidates(text: string, subPfxs: seq<string>, distPfxs: seq<string>, provPfxs: seq<string>, r: GeoRecord)
      requires Valid() && indexed
      ensures Candidate(text, subPfxs, distPfxs, provPfxs, r) <==>
              exists gram | gram in Grams(text) :: FoundBy(gram, text, subPfxs, distPfxs, provPfxs, r)
    {
      IndexFindsTheScan(subIndex, subs, text, subPfxs, distPfxs + (provPfxs + provNames), r);
      IndexFindsTheScan(distIndex, dists, text, distPfxs, provPfxs + provNames, r);
      IndexFindsTheScan(provIndex, provs, text, provPfxs, [], r);
    }

    /** The pool holds each candidate once, in whatever order the pieces of the text are visited. */
    method BuildCandidatePool(text: string, subPfxs: seq<string>, distPfxs: seq<string>, provPfxs: seq<string>)
      returns (pool: seq<GeoRecord>)
      requires Valid()
      modifies this`subIndex, this`distIndex, this`provIndex, this`indexed
      ensures Valid() && indexed && Distinct(pool)
      ensures forall r :: r in pool <==> Candidate(text, subPfxs, distPfxs, provPfxs, r)
    {
      if !indexed {
        BuildPrefixIndices();
      }
      var provFollow := provPfxs + provNames;
      var seen: set<GeoRecord> := {};
      pool := [];
      var grams := Grams(text);
      var left := grams;
      while left != {}
        invariant left <= grams && Valid() && indexed
        invariant Distinct(pool) && forall r :: r in seen <==> r in pool
        invariant forall r :: r in pool <==>
          exists g | g in grams - left :: FoundBy(g, text, subPfxs, distPfxs, provPfxs, r)
        decreases |left|
      {
        var gram :| gram in left;
        ghost var before := pool;
        seen, pool := AddMatching(Lookup(subIndex, gram), text, subPfxs, distPfxs + provFollow, seen, pool);
        seen, pool := AddMatching(Lookup(distIndex, gram), text, distPfxs, provFollow, seen, pool);
        seen, pool := AddMatching(Lookup(provIndex, gram), text, provPfxs, [], seen, pool);
        assert forall r :: r in pool <==> r in before || FoundBy(gram, text, subPfxs, distPfxs, provPfxs, r);
        assert grams - (left - {gram}) == (grams - left) + {gram};
        left := left - {gram};
      }
      assert grams - left == grams;
      forall r ensures r in pool <==> Candidate(text, subPfxs, distPfxs, provPfxs, r) {
        PiecesFindCandidates(text, subPfxs, distPfxs, provPfxs, r);
      }
    }
  }
}
