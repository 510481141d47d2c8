/** Merging what two searches found, reproducibly: reciprocal rank fusion in exact
    integers, and the plain source order that is its alternative. */
module Fusion {
  import opened Ledger
  import Sorting

  const K: nat := 60

  datatype Source = Vector | Fts

  /** A hit as one search returned it. */
  datatype Hit = Hit(id: Id, from: Source)

  datatype Score = Score(numerator: nat, denominator: nat)

  function ScoreOf(vectorRank: Option<nat>, textRank: Option<nat>): (score: Score)
    ensures score.denominator > 0
  {
    match (vectorRank, textRank)
    case (Some(v), Some(t)) =>
      MulPositive(K + v, K + t);
      Score((K + t) + (K + v), (K + v) * (K + t))
    case (Some(v), None) => Score(1, K + v)
    case (None, Some(t)) => Score(1, K + t)
    case (None, None) => Score(0, 1)
  }

  lemma MulPositive(a: int, b: int)
    requires a > 0 && b > 0
    ensures a * b > 0
  {
  }

  /** Cross-multiplied: negative, zero or positive as `a` is below, at or above `b`. */
  function Compare(a: Score, b: Score): int {
    a.numerator * b.denominator - b.numerator * a.denominator
  }

  // ---------------------------------------------------------------------
  // What the score means
  // ---------------------------------------------------------------------

  /** What a rank is worth; silence is worth nothing. */
  ghost function Share(rank: Option<nat>): real {
    if rank.None? then 0.0 else 1.0 / (K + rank.value) as real
  }

  ghost function Worth(vectorRank: Option<nat>, textRank: Option<nat>): real {
    Share(vectorRank) + Share(textRank)
  }

  /** The fraction `a` is the number `x`. */
  ghost predicate Equals(a: Score, x: real) {
    a.denominator > 0 && a.numerator as real == x * a.denominator as real
  }

  lemma ScoreIsWorth(v: Option<nat>, t: Option<nat>)
    ensures Equals(ScoreOf(v, t), Worth(v, t))
  {
    if v.Some? && t.Some? {
      var x, y := (K + v.value) as real, (K + t.value) as real;
      Shares(x, y);
      assert ((K + v.value) * (K + t.value)) as real == x * y;
    }
  }

  lemma Shares(x: real, y: real)
    requires x > 0.0 && y > 0.0
    ensures (1.0 / x + 1.0 / y) * (x * y) == y + x
  {
    var a, b := 1.0 / x, 1.0 / y;
    assert a * x == 1.0 && b * y == 1.0;
    calc {
      (a + b) * (x * y);
      a * (x * y) + b * (x * y);
      { assert a * (x * y) == (a * x) * y; assert b * (x * y) == (b * y) * x; }
      (a * x) * y + (b * y) * x;
      1.0 * y + 1.0 * x;
      y + x;
    }
  }

  /** The integer comparison is the comparison of the exact sums of reciprocals. */
  lemma CompareIsExact(v1: Option<nat>, t1: Option<nat>, v2: Option<nat>, t2: Option<nat>, a: Score, b: Score)
    requires a == ScoreOf(v1, t1) && b == ScoreOf(v2, t2)
    ensures Compare(a, b) > 0 <==> Worth(v1, t1) > Worth(v2, t2)
    ensures Compare(a, b) == 0 <==> Worth(v1, t1) == Worth(v2, t2)
  {
    assert Equals(a, Worth(v1, t1)) by { ScoreIsWorth(v1, t1); }
    assert Equals(b, Worth(v2, t2)) by { ScoreIsWorth(v2, t2); }
    CrossMultiply(a, b, Worth(v1, t1), Worth(v2, t2));
  }

  lemma CrossMultiply(a: Score, b: Score, x: real, y: real)
    requires Equals(a, x) && Equals(b, y)
    ensures Compare(a, b) > 0 <==> x > y
    ensures Compare(a, b) == 0 <==> x == y
  {
    var c, d := a.denominator as real, b.denominator as real;
    var p := c * d;
    PositiveProduct(c, d);
    calc {
      Compare(a, b) as real;
      (a.numerator * b.denominator) as real - (b.numerator * a.denominator) as real;
      a.numerator as real * d - b.numerator as real * c;
      (x * c) * d - (y * d) * c;
      { assert (x * c) * d == x * p; assert (y * d) * c == y * p; }
      x * p - y * p;
      (x - y) * p;
    }
    SignOfProduct(x - y, p);
  }

  lemma PositiveProduct(c: real, d: real)
    requires c > 0.0 && d > 0.0
    ensures c * d > 0.0
  {
  }

  lemma SignOfProduct(z: real, p: real)
    requires p > 0.0
    ensures z * p > 0.0 <==> z > 0.0
    ensures z * p == 0.0 <==> z == 0.0
  {
  }

  /** The cross products stay inside 128 bits for any rank up to 2^40. */
  lemma NeverOverflows(v1: Option<nat>, t1: Option<nat>, v2: Option<nat>, t2: Option<nat>)
    requires forall rank :: rank in {v1, t1, v2, t2} && rank.Some? ==> rank.value <= 0x100_0000_0000
    ensures ScoreOf(v1, t1).numerator * ScoreOf(v2, t2).denominator < 0x1_0000_0000_0000_0000_0000_0000_0000_0000
  {
    var top := 0x100_0000_0000 + K;
    ScoreBounded(v1, t1, top);
    ScoreBounded(v2, t2, top);
    MulMonotone(ScoreOf(v1, t1).numerator, ScoreOf(v2, t2).denominator, 2 * top, top * top);
  }

  lemma MulMonotone(a: nat, b: nat, c: nat, d: nat)
    requires a <= c && b <= d
    ensures a * b <= c * d
  {
    assert a * b <= c * b;
    assert c * b <= c * d;
  }

  lemma ScoreBounded(v: Option<nat>, t: Option<nat>, top: nat)
    requires (v.Some? ==> K + v.value <= top) && (t.Some? ==> K + t.value <= top) && K <= top
    ensures ScoreOf(v, t).numerator <= 2 * top && ScoreOf(v, t).denominator <= top * top
  {
    if v.Some? && t.Some? {
      MulMonotone(K + v.value, K + t.value, top, top);
    } else {
      MulMonotone(1, top, top, top);
    }
  }

  /** Agreement outranks position exactly as far as this: a record both searches
      found is above every record only one of them found if and only if it is above
      a lone first place. */
  lemma AgreementOutranks(v: nat, t: nat)
    requires v >= 1 && t >= 1
    ensures (forall lone: nat :: lone >= 1 ==>
               && Compare(ScoreOf(Some(v), Some(t)), ScoreOf(Some(lone), None)) > 0
               && Compare(ScoreOf(Some(v), Some(t)), ScoreOf(None, Some(lone))) > 0)
      <==> ((K + v) + (K + t)) * (K + 1) > (K + v) * (K + t)
  {
    var both := ScoreOf(Some(v), Some(t));
    if ((K + v) + (K + t)) * (K + 1) > (K + v) * (K + t) {
      forall lone: nat | lone >= 1
        ensures Compare(both, ScoreOf(Some(lone), None)) > 0 && Compare(both, ScoreOf(None, Some(lone))) > 0
      {
        MulMonotone(both.numerator, K + 1, both.numerator, K + lone);
      }
    } else {
      assert Compare(both, ScoreOf(Some(1), None)) <= 0;
    }
  }

  /** Ranks of 61 or better are enough, and 62 is where it ends: a pair of 62nd
      places only ties with a lone first. */
  lemma SixtyOneIsEnough(v: nat, t: nat, lone: nat)
    requires 1 <= v <= 61 && 1 <= t <= 61 && lone >= 1
    ensures Compare(ScoreOf(Some(v), Some(t)), ScoreOf(Some(lone), None)) > 0
    ensures Compare(ScoreOf(Some(v), Some(t)), ScoreOf(None, Some(lone))) > 0
    ensures Compare(ScoreOf(Some(62), Some(62)), ScoreOf(Some(1), None)) == 0
  {
    var x, y := K + v, K + t;
    assert x * y <= 61 * (x + y) - 1 by {
      SixtyOne(x, y);
    }
    AgreementOutranks(v, t);
  }

  lemma SixtyOne(x: nat, y: nat)
    requires x <= 121 && y <= 121 && x >= 61 && y >= 61
    ensures x * y < 61 * (x + y)
  {
    // (122 - x) and (122 - y) are positive, so neither factor reaches 122.
    assert x * y <= 121 * y by { MulMonotone(x, y, 121, y); }
    assert x * y <= x * 121 by { MulMonotone(x, y, x, 121); }
  }

  // ---------------------------------------------------------------------
  // Fusing two lists
  // ---------------------------------------------------------------------

  /** A record's best place in a list, counted from one. */
  ghost function RankIn(hits: seq<Hit>, id: Id): Option<nat> {
    if hits == [] then None
    else
      var earlier := RankIn(hits[..|hits| - 1], id);
      if earlier.Some? then earlier else if hits[|hits| - 1].id == id then Some(|hits|) else None
  }

  lemma {:induction false} RankIsFirstPlace(hits: seq<Hit>, id: Id)
    ensures RankIn(hits, id).None? <==> forall i :: 0 <= i < |hits| ==> hits[i].id != id
    ensures RankIn(hits, id).Some? ==>
      var rank := RankIn(hits, id).value;
      1 <= rank <= |hits| && hits[rank - 1].id == id && forall i :: 0 <= i < rank - 1 ==> hits[i].id != id
  {
    if hits != [] {
      RankIsFirstPlace(hits[..|hits| - 1], id);
    }
  }

  lemma RankStep(hits: seq<Hit>, hit: Hit, id: Id)
    ensures RankIn(hits + [hit], id) ==
      if RankIn(hits, id).Some? then RankIn(hits, id) else if hit.id == id then Some(|hits| + 1) else None
  {
    assert (hits + [hit])[..|hits|] == hits;
  }

  ghost function WorthOf(vector: seq<Hit>, text: seq<Hit>, id: Id): real {
    Worth(RankIn(vector, id), RankIn(text, id))
  }

  /** The exact order: more worth first, and equal worth by record id. */
  ghost predicate Precedes(vector: seq<Hit>, text: seq<Hit>, a: Id, b: Id) {
    WorthOf(vector, text, a) > WorthOf(vector, text, b)
    || (WorthOf(vector, text, a) == WorthOf(vector, text, b) && a < b)
  }

  ghost predicate Found(vector: seq<Hit>, text: seq<Hit>, id: Id) {
    RankIn(vector, id).Some? || RankIn(text, id).Some?
  }

  /** The copy that is kept: the semantic one when both searches returned one. */
  ghost predicate Kept(vector: seq<Hit>, text: seq<Hit>, hit: Hit) {
    if RankIn(vector, hit.id).Some?
    then RankIn(vector, hit.id).value <= |vector| && RankIn(vector, hit.id).value > 0
         && hit == vector[RankIn(vector, hit.id).value - 1]
    else RankIn(text, hit.id).Some? && 0 < RankIn(text, hit.id).value <= |text|
         && hit == text[RankIn(text, hit.id).value - 1]
  }

  /** Each record either search found, once, in the exact order. */
  ghost predicate IsFusion(out: seq<Hit>, vector: seq<Hit>, text: seq<Hit>) {
    && (forall i, j :: 0 <= i < j < |out| ==> Precedes(vector, text, out[i].id, out[j].id))
    && (forall id :: Found(vector, text, id) <==> exists i :: 0 <= i < |out| && out[i].id == id)
    && (forall i :: 0 <= i < |out| ==> Kept(vector, text, out[i]))
  }

  datatype Standing = Standing(hit: Hit, vectorRank: Option<nat>, textRank: Option<nat>)

  predicate NotAfter(x: Standing, y: Standing) {
    var order := Compare(ScoreOf(x.vectorRank, x.textRank), ScoreOf(y.vectorRank, y.textRank));
    order > 0 || (order == 0 && x.hit.id <= y.hit.id)
  }

  lemma NotAfterIs(x: Standing, y: Standing)
    ensures NotAfter(x, y) <==>
      Worth(x.vectorRank, x.textRank) > Worth(y.vectorRank, y.textRank)
      || (Worth(x.vectorRank, x.textRank) == Worth(y.vectorRank, y.textRank) && x.hit.id <= y.hit.id)
  {
    CompareIsExact(x.vectorRank, x.textRank, y.vectorRank, y.textRank,
                   ScoreOf(x.vectorRank, x.textRank), ScoreOf(y.vectorRank, y.textRank));
  }

  lemma NotAfterIsAnOrder()
    ensures Sorting.TotalPreorder(NotAfter)
  {
    forall x, y ensures NotAfter(x, y) || NotAfter(y, x) {
      NotAfterIs(x, y);
      NotAfterIs(y, x);
    }
    forall x, y, z | NotAfter(x, y) && NotAfter(y, z) ensures NotAfter(x, z) {
      NotAfterIs(x, y);
      NotAfterIs(y, z);
      NotAfterIs(x, z);
    }
  }

  /** The standings after reading the semantic list and some of the text list. */
  ghost predicate Stands(standings: map<Id, Standing>, vector: seq<Hit>, text: seq<Hit>) {
    && (forall id :: id in standings <==> Found(vector, text, id))
    && (forall id :: id in standings ==>
          && standings[id].hit.id == id && Kept(vector, text, standings[id].hit)
          && standings[id].vectorRank == RankIn(vector, id) && standings[id].textRank == RankIn(text, id))
  }

  function OrRank(rank: Option<nat>, place: nat): Option<nat> {
    if rank.Some? then rank else Some(place)
  }

  lemma KeptStep(vector: seq<Hit>, text: seq<Hit>, hit: Hit, kept: Hit)
    requires Kept(vector, text, kept)
    ensures text == [] ==> Kept(vector + [hit], text, kept)
    ensures Kept(vector, text + [hit], kept)
  {
    RankStep(vector, hit, kept.id);
    RankStep(text, hit, kept.id);
  }

  method ReadVector(vector: seq<Hit>) returns (standings: map<Id, Standing>)
    ensures Stands(standings, vector, [])
  {
    standings := map[];
    for position := 0 to |vector|
      invariant Stands(standings, vector[..position], [])
    {
      var hit := vector[position];
      ghost var before := vector[..position];
      assert vector[..position + 1] == before + [hit];
      forall id {
        RankStep(before, hit, id);
      }
      forall id | id in standings {
        KeptStep(before, [], hit, standings[id].hit);
      }
      var entry := if hit.id in standings then standings[hit.id] else Standing(hit, None, None);
      standings := standings[hit.id := entry.(vectorRank := OrRank(entry.vectorRank, position + 1))];
    }
    assert vector[..|vector|] == vector;
  }

  method ReadText(read: map<Id, Standing>, ghost vector: seq<Hit>, text: seq<Hit>)
    returns (standings: map<Id, Standing>)
    requires Stands(read, vector, [])
    ensures Stands(standings, vector, text)
  {
    standings := read;
    for position := 0 to |text|
      invariant Stands(standings, vector, text[..position])
    {
      var hit := text[position];
      ghost var before := text[..position];
      assert text[..position + 1] == before + [hit];
      forall id {
        RankStep(before, hit, id);
      }
      forall id | id in standings {
        KeptStep(vector, before, hit, standings[id].hit);
      }
      var entry := if hit.id in standings then standings[hit.id] else Standing(hit, None, None);
      standings := standings[hit.id := entry.(textRank := OrRank(entry.textRank, position + 1))];
    }
    assert text[..|text|] == text;
  }

  /** The values of a map in whatever order it yields them. */
  method Values(standings: map<Id, Standing>) returns (values: seq<Standing>)
    requires forall id :: id in standings ==> standings[id].hit.id == id
    ensures forall s :: s in values <==> s.hit.id in standings && standings[s.hit.id] == s
    ensures forall i, j :: 0 <= i < j < |values| ==> values[i].hit.id != values[j].hit.id
  {
    values := [];
    var ids := standings.Keys;
    while ids != {}
      invariant ids <= standings.Keys
      invariant forall s :: s in values <==> s.hit.id in standings && s.hit.id !in ids && standings[s.hit.id] == s
      invariant forall i, j :: 0 <= i < j < |values| ==> values[i].hit.id != values[j].hit.id
      decreases ids
    {
      var id :| id in ids;
      forall i | 0 <= i < |values| ensures values[i].hit.id != id {
        assert values[i] in values;
      }
      ids := ids - {id};
      values := values + [standings[id]];
    }
  }

  method Fuse(vector: seq<Hit>, text: seq<Hit>) returns (out: seq<Hit>)
    ensures IsFusion(out, vector, text)
  {
    var standings := ReadVector(vector);
    standings := ReadText(standings, vector, text);
    var values := Values(standings);
    NotAfterIsAnOrder();
    Sorting.SortSorts(values, NotAfter);
    var fused := Sorting.Sort(values, NotAfter);
    Sorting.SameMembers(values, fused);
    out := seq(|fused|, i requires 0 <= i < |fused| => fused[i].hit);
    SortedStandingsFuse(standings, values, fused, out, vector, text);
  }

  lemma {:induction false} PermutedIdsDiffer(values: seq<Standing>, fused: seq<Standing>)
    requires multiset(values) == multiset(fused)
    requires forall i, j :: 0 <= i < j < |values| ==> values[i].hit.id != values[j].hit.id
    ensures forall i, j :: 0 <= i < j < |fused| ==> fused[i].hit.id != fused[j].hit.id
  {
    Sorting.SameMembers(values, fused);
    Sorting.DistinctIsOnce(values);
    forall i, j | 0 <= i < j < |fused| ensures fused[i].hit.id != fused[j].hit.id {
      Sorting.OnceIsDistinct(fused, i, j);
      assert fused[i] in fused && fused[j] in fused;
      assert fused[i] in values && fused[j] in values;
    }
  }

  lemma SortedStandingsFuse(standings: map<Id, Standing>, values: seq<Standing>, fused: seq<Standing>, out: seq<Hit>,
                            vector: seq<Hit>, text: seq<Hit>)
    requires Stands(standings, vector, text)
    requires forall s :: s in values <==> s.hit.id in standings && standings[s.hit.id] == s
    requires forall i, j :: 0 <= i < j < |values| ==> values[i].hit.id != values[j].hit.id
    requires multiset(values) == multiset(fused) && Sorting.Sorted(fused, NotAfter)
    requires |out| == |fused| && forall i :: 0 <= i < |out| ==> out[i] == fused[i].hit
    ensures IsFusion(out, vector, text)
  {
    Sorting.SameMembers(values, fused);
    PermutedIdsDiffer(values, fused);
    forall i | 0 <= i < |out| ensures Kept(vector, text, out[i]) && Found(vector, text, out[i].id) {
      assert fused[i] in fused;
    }
    forall i, j | 0 <= i < j < |out| ensures Precedes(vector, text, out[i].id, out[j].id) {
      assert fused[i] in fused && fused[j] in fused;
      assert NotAfter(fused[i], fused[j]);
      NotAfterIs(fused[i], fused[j]);
    }
    forall id | Found(vector, text, id) ensures exists i :: 0 <= i < |out| && out[i].id == id {
      assert standings[id] in fused;
      var i :| 0 <= i < |fused| && fused[i] == standings[id];
      assert out[i].id == id;
    }
  }

  // ---------------------------------------------------------------------
  // One answer
  // ---------------------------------------------------------------------

  ghost function IdsOf(hits: seq<Hit>): (ids: seq<Id>)
    ensures |ids| == |hits|
    ensures forall i :: 0 <= i < |ids| ==> ids[i] == hits[i].id
  {
    seq(|hits|, i requires 0 <= i < |hits| => hits[i].id)
  }

  lemma FusedIds(out: seq<Hit>, vector: seq<Hit>, text: seq<Hit>)
    requires IsFusion(out, vector, text)
    ensures forall id :: id in IdsOf(out) <==> Found(vector, text, id)
  {
    forall id ensures id in IdsOf(out) <==> Found(vector, text, id) {
      if id in IdsOf(out) {
        var i :| 0 <= i < |IdsOf(out)| && IdsOf(out)[i] == id;
        assert out[i].id == id;
      }
      if Found(vector, text, id) {
        var i :| 0 <= i < |out| && out[i].id == id;
        assert IdsOf(out)[i] == id;
      }
    }
  }

  /** Which list is called which changes nothing about the order: exchanging the two
      gives the same records in the same places. With the lists the right way round
      (`swapped` false) it says the answer is the only one there is. */
  lemma SameOrder(out: seq<Hit>, again: seq<Hit>, vector: seq<Hit>, text: seq<Hit>, swapped: bool)
    requires IsFusion(out, vector, text)
    requires if swapped then IsFusion(again, text, vector) else IsFusion(again, vector, text)
    ensures IdsOf(out) == IdsOf(again)
    ensures !swapped ==> out == again
  {
    FusedIds(out, vector, text);
    if swapped {
      FusedIds(again, text, vector);
    } else {
      FusedIds(again, vector, text);
    }
    forall id ensures Found(text, vector, id) <==> Found(vector, text, id) {
    }
    forall a, b ensures Precedes(text, vector, a, b) <==> Precedes(vector, text, a, b) {
    }
    Sorting.OneArrangement(IdsOf(out), IdsOf(again), (a, b) => Precedes(vector, text, a, b));
    if !swapped {
      forall i | 0 <= i < |out| ensures out[i] == again[i] {
        assert IdsOf(out)[i] == IdsOf(again)[i];
        assert Kept(vector, text, out[i]) && Kept(vector, text, again[i]);
      }
    }
  }

  // ---------------------------------------------------------------------
  // One source after the other
  // ---------------------------------------------------------------------

  function ListOf(source: Source, vector: seq<Hit>, text: seq<Hit>): (hits: seq<Hit>)
    ensures source == Vector ==> hits == vector
    ensures source == Fts ==> hits == text
  {
    match source
    case Vector => vector
    case Fts => text
  }

  function Other(source: Source): (other: Source)
    ensures other != source
  {
    match source
    case Vector => Fts
    case Fts => Vector
  }

  /** `out` is what is left of `offered`: its first occurrences when repeats are
      dropped, cut at the limit. */
  ghost predicate Admits(out: seq<Hit>, offered: seq<Hit>, once: bool, limit: nat) {
    && |out| <= limit
    && var admitted := if once then FirstOccurrences(offered) else offered;
       |out| <= |admitted| && out == admitted[..|out|] && (|out| < limit ==> out == admitted)
  }

  ghost function FirstOccurrences(hits: seq<Hit>): seq<Hit> {
    if hits == [] then []
    else
      var earlier, last := hits[..|hits| - 1], hits[|hits| - 1];
      FirstOccurrences(earlier) + (if RankIn(earlier, last.id).Some? then [] else [last])
  }

  lemma FirstOccurrencesStep(hits: seq<Hit>, hit: Hit)
    ensures FirstOccurrences(hits + [hit]) ==
      FirstOccurrences(hits) + (if RankIn(hits, hit.id).Some? then [] else [hit])
  {
    assert (hits + [hit])[..|hits|] == hits;
  }

  /** Nothing is lost and nothing repeated by dropping repeats. */
  lemma {:induction false} FirstOccurrencesAreASet(hits: seq<Hit>)
    ensures forall id :: RankIn(FirstOccurrences(hits), id).Some? <==> RankIn(hits, id).Some?
    ensures forall i, j :: 0 <= i < j < |FirstOccurrences(hits)| ==>
              FirstOccurrences(hits)[i].id != FirstOccurrences(hits)[j].id
    ensures hits != [] ==> FirstOccurrences(hits) != [] && FirstOccurrences(hits)[0] == hits[0]
  {
    if hits != [] {
      var earlier, last := hits[..|hits| - 1], hits[|hits| - 1];
      FirstOccurrencesAreASet(earlier);
      var kept := FirstOccurrences(earlier);
      assert hits == earlier + [last];
      FirstOccurrencesStep(earlier, last);
      assert kept + [] == kept;
      forall id ensures RankIn(FirstOccurrences(hits), id).Some? <==> RankIn(hits, id).Some? {
        RankStep(earlier, last, id);
        RankStep(kept, last, id);
      }
      RankIsFirstPlace(kept, last.id);
      if |hits| > 1 {
        assert hits[0] == earlier[0];
      }
    }
  }

  /** What is first met first stays first. */
  lemma {:induction false} FirstOccurrencesInOrder(hits: seq<Hit>, a: Id, b: Id)
    requires RankIn(hits, a).Some? && RankIn(hits, b).Some?
    ensures RankIn(FirstOccurrences(hits), a).Some? && RankIn(FirstOccurrences(hits), b).Some?
    ensures RankIn(hits, a).value < RankIn(hits, b).value <==>
      RankIn(FirstOccurrences(hits), a).value < RankIn(FirstOccurrences(hits), b).value
  {
    FirstOccurrencesAreASet(hits);
    if hits != [] {
      var earlier, last := hits[..|hits| - 1], hits[|hits| - 1];
      assert hits == earlier + [last];
      var kept := FirstOccurrences(earlier);
      FirstOccurrencesStep(earlier, last);
      FirstOccurrencesAreASet(earlier);
      assert kept + [] == kept;
      RankStep(earlier, last, a);
      RankStep(earlier, last, b);
      RankStep(kept, last, a);
      RankStep(kept, last, b);
      RankIsFirstPlace(earlier, a);
      RankIsFirstPlace(earlier, b);
      RankIsFirstPlace(kept, a);
      RankIsFirstPlace(kept, b);
      if RankIn(earlier, a).Some? && RankIn(earlier, b).Some? {
        FirstOccurrencesInOrder(earlier, a, b);
      }
    }
  }

  /** The explicit source order. `fillRemaining` decides what the second source is
      for: with it the sources are concatenated, without it the second one speaks
      only when the first yielded nothing. */
  method Ordered(vector: seq<Hit>, text: seq<Hit>, preferred: Source, fillRemaining: bool, deduplicate: bool,
                 limit: nat) returns (out: seq<Hit>, answered: Option<Source>)
    ensures fillRemaining ==>
      Admits(out, ListOf(preferred, vector, text) + ListOf(Other(preferred), vector, text), deduplicate, limit)
    ensures !fillRemaining ==>
      Admits(out,
             if ListOf(preferred, vector, text) != [] then ListOf(preferred, vector, text)
             else ListOf(Other(preferred), vector, text),
             deduplicate, limit)
    ensures answered.None? <==> out == []
    ensures answered.Some? ==>
      answered.value == if ListOf(preferred, vector, text) != [] then preferred else Other(preferred)
  {
    out, answered := [], None;
    var order := [preferred, Other(preferred)];
    var seen: set<Id> := {};
    ghost var offered: seq<Hit> := [];
    for position := 0 to 2
      invariant offered == Offered(position, preferred, vector, text)
      invariant Collected(out, seen, offered, deduplicate, limit)
      invariant position == 2 ==> fillRemaining || ListOf(preferred, vector, text) == [] || limit == 0
      invariant answered.None? <==> out == []
      invariant answered.Some? ==>
        answered.value == if ListOf(preferred, vector, text) != [] then preferred else Other(preferred)
    {
      FirstOccurrencesAreASet(offered);
      if position > 0 && !fillRemaining && out != [] {
        return;
      }
      var hits := ListOf(order[position], vector, text);
      out, seen, answered := Offer(hits, order[position], offered, out, seen, answered, deduplicate, limit);
      offered := offered + hits;
    }
    var first, second := ListOf(preferred, vector, text), ListOf(Other(preferred), vector, text);
    assert first == [] ==> first + second == second;
  }

  /** What the first `sources` of the two put forward. */
  ghost function Offered(sources: nat, preferred: Source, vector: seq<Hit>, text: seq<Hit>): seq<Hit> {
    if sources == 0 then []
    else if sources == 1 then ListOf(preferred, vector, text)
    else ListOf(preferred, vector, text) + ListOf(Other(preferred), vector, text)
  }

  method Offer(hits: seq<Hit>, source: Source, ghost offered: seq<Hit>, out: seq<Hit>, seen: set<Id>,
               answered: Option<Source>, deduplicate: bool, limit: nat)
    returns (newOut: seq<Hit>, newSeen: set<Id>, newAnswered: Option<Source>)
    requires Collected(out, seen, offered, deduplicate, limit)
    requires answered.None? <==> out == []
    ensures Collected(newOut, newSeen, offered + hits, deduplicate, limit)
    ensures newAnswered == if answered.None? && newOut != [] then Some(source) else answered
    ensures newAnswered.None? <==> newOut == []
  {
    newOut, newSeen, newAnswered := out, seen, answered;
    assert offered + hits[..0] == offered;
    for i := 0 to |hits|
      invariant Collected(newOut, newSeen, offered + hits[..i], deduplicate, limit)
      invariant newAnswered == if answered.None? && newOut != [] then Some(source) else answered
      invariant newAnswered.None? <==> newOut == []
    {
      var hit := hits[i];
      CollectedStep(newOut, newSeen, offered + hits[..i], hit, deduplicate, limit);
      assert offered + hits[..i + 1] == offered + hits[..i] + [hit];
      var admit := !deduplicate || hit.id !in newSeen;
      if deduplicate {
        newSeen := newSeen + {hit.id};
      }
      if admit && |newOut| < limit {
        newOut := newOut + [hit];
        if newAnswered.None? {
          newAnswered := Some(source);
        }
      }
    }
    assert hits[..|hits|] == hits;
  }

  lemma CollectedStep(out: seq<Hit>, seen: set<Id>, offered: seq<Hit>, hit: Hit, once: bool, limit: nat)
    requires Collected(out, seen, offered, once, limit)
    ensures
      var admit := !once || hit.id !in seen;
      Collected(if admit && |out| < limit then out + [hit] else out, if once then seen + {hit.id} else seen,
                offered + [hit], once, limit)
  {
    FirstOccurrencesStep(offered, hit);
    assert once ==> (hit.id in seen <==> RankIn(offered, hit.id).Some?);
    AdmitsStep(out, if once then FirstOccurrences(offered) else offered, hit, !once || hit.id !in seen, limit);
    forall id ensures RankIn(offered + [hit], id).Some? <==> RankIn(offered, id).Some? || hit.id == id {
      RankStep(offered, hit, id);
    }
  }

  /** One more admitted, and taken while there is room. */
  lemma AdmitsStep(out: seq<Hit>, admitted: seq<Hit>, hit: Hit, admit: bool, limit: nat)
    requires |out| <= limit && |out| <= |admitted| && out == admitted[..|out|] && (|out| < limit ==> out == admitted)
    ensures
      var more := if admit && |out| < limit then out + [hit] else out;
      var all := admitted + if admit then [hit] else [];
      |more| <= limit && |more| <= |all| && more == all[..|more|] && (|more| < limit ==> more == all)
  {
  }

  ghost predicate Collected(out: seq<Hit>, seen: set<Id>, offered: seq<Hit>, once: bool, limit: nat) {
    Admits(out, offered, once, limit) && (once ==> forall id :: id in seen <==> RankIn(offered, id).Some?)
  }
}
