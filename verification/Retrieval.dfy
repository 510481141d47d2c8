/** Ahead of the budget: what two searches found, which records are candidates, which
    half of a hybrid answer survives, and the order candidates are served in. */
module Retrieval {
  import opened Ledger
  import opened JsonPointer
  import opened Matching
  import Sorting

  datatype Source = Vector | Fulltext

  // ---------------------------------------------------------------------
  // What the searches found
  // ---------------------------------------------------------------------

  datatype RankedIds = RankedIds(ids: set<Id>, ordered: seq<Id>)

  ghost predicate Ranked(found: RankedIds) {
    && (forall id :: id in found.ids <==> id in found.ordered)
    && (forall i, j :: 0 <= i < j < |found.ordered| ==> found.ordered[i] != found.ordered[j])
  }

  ghost predicate Reported(reports: seq<seq<Id>>, id: Id) {
    exists report :: report in reports && id in report
  }

  /** One list out of one report per selector; a repeat keeps its first place. */
  method Gather(reports: seq<seq<Id>>) returns (found: RankedIds)
    ensures Ranked(found)
    ensures forall id :: id in found.ids <==> Reported(reports, id)
  {
    found := RankedIds({}, []);
    for i := 0 to |reports|
      invariant Ranked(found)
      invariant forall id :: id in found.ids <==> Reported(reports[..i], id)
    {
      var report := reports[i];
      assert reports[..i + 1] == reports[..i] + [report];
      ghost var before := found.ids;
      for j := 0 to |report|
        invariant Ranked(found)
        invariant forall id :: id in found.ids <==> id in before || id in report[..j]
      {
        assert report[..j + 1] == report[..j] + [report[j]];
        if report[j] !in found.ids {
          found := RankedIds(found.ids + {report[j]}, found.ordered + [report[j]]);
        }
      }
      assert report[..|report|] == report;
      forall id ensures id in found.ids <==> Reported(reports[..i + 1], id) {
        assert Reported(reports[..i + 1], id) <==> Reported(reports[..i], id) || id in report;
      }
    }
    assert reports[..|reports|] == reports;
  }

  /** `vector` and `ranks` say something only when the two halves are mixed. */
  datatype Hits = Hits(fts: set<Id>, semantic: set<Id>, vector: set<Id>, ranks: map<Id, nat>, mixed: bool)

  ghost predicate PlacedAt(ordered: seq<Id>, id: Id, place: nat) {
    place < |ordered| && ordered[place] == id
  }

  /** A record is ranked where the preferred source put it, or else where the other
      one did. */
  ghost predicate RanksBy(ranks: map<Id, nat>, first: seq<Id>, second: seq<Id>) {
    && (forall id :: id in ranks <==> id in first || id in second)
    && (forall id :: id in ranks ==> PlacedAt(if id in first then first else second, id, ranks[id]))
  }

  method RankBy(ranks: map<Id, nat>, ordered: seq<Id>) returns (more: map<Id, nat>)
    ensures forall id :: id in more <==> id in ranks || id in ordered
    ensures forall id :: id in ranks ==> more[id] == ranks[id]
    ensures forall id :: id in more && id !in ranks ==> PlacedAt(ordered, id, more[id])
  {
    more := ranks;
    for i := 0 to |ordered|
      invariant forall id :: id in more <==> id in ranks || id in ordered[..i]
      invariant forall id :: id in ranks ==> more[id] == ranks[id]
      invariant forall id :: id in more && id !in ranks ==> PlacedAt(ordered, id, more[id])
    {
      assert ordered[..i + 1] == ordered[..i] + [ordered[i]];
      if ordered[i] !in more {
        more := more[ordered[i] := i];
      }
    }
    assert ordered[..|ordered|] == ordered;
  }

  method Collect(text: RankedIds, semantic: RankedIds, mixed: bool, preferred: Source, skipped: bool)
    returns (hits: Hits)
    requires Ranked(text) && Ranked(semantic)
    ensures skipped ==> hits == Hits({}, {}, {}, map[], false)
    ensures !skipped ==> hits.mixed == mixed && hits.fts == text.ids
    ensures !skipped && !mixed ==> hits.semantic == semantic.ids && hits.vector == {} && hits.ranks == map[]
    ensures !skipped && mixed ==>
      && hits.vector == semantic.ids && hits.semantic == semantic.ids + text.ids
      && RanksBy(hits.ranks,
                 if preferred == Vector then semantic.ordered else text.ordered,
                 if preferred == Vector then text.ordered else semantic.ordered)
  {
    if skipped {
      return Hits({}, {}, {}, map[], false);
    }
    if !mixed {
      return Hits(text.ids, semantic.ids, {}, map[], false);
    }
    var ranks := RankBy(map[], if preferred == Vector then semantic.ordered else text.ordered);
    ranks := RankBy(ranks, if preferred == Vector then text.ordered else semantic.ordered);
    hits := Hits(text.ids, semantic.ids + text.ids, semantic.ids, ranks, true);
  }

  predicate Holds(hits: Hits, source: Source, id: Id) {
    match source
    case Vector => id in hits.vector
    case Fulltext => id in hits.fts
  }

  function Other(source: Source): Source {
    if source == Vector then Fulltext else Vector
  }

  function SourceOf(hits: Hits, preferred: Source, id: Id): (from: (Option<Source>, Option<nat>))
    ensures from.0.Some? ==> hits.mixed && Holds(hits, from.0.value, id)
    ensures hits.mixed && Holds(hits, preferred, id) ==> from.0 == Some(preferred)
    ensures !hits.mixed ==> from == (None, None)
    ensures hits.mixed ==>
      && (from.0 == None <==> id !in hits.vector && id !in hits.fts)
      && (from.0 == Some(Vector) <==> id in hits.vector && (preferred == Vector || id !in hits.fts))
      && (from.1.Some? <==> id in hits.ranks) && (from.1.Some? ==> from.1.value == hits.ranks[id])
  {
    if !hits.mixed then (None, None)
    else
      (if Holds(hits, preferred, id) then Some(preferred)
       else if Holds(hits, Other(preferred), id) then Some(Other(preferred))
       else None,
       if id in hits.ranks then Some(hits.ranks[id]) else None)
  }

  // ---------------------------------------------------------------------
  // Candidates
  // ---------------------------------------------------------------------

  datatype Candidate = Candidate(record: Entry, tier: Tier, strategies: seq<Strategy>, score: nat,
                                 rank: Option<int>, source: Option<Source>, searchRank: Option<nat>)

  datatype Exclusion = Exclusion(id: Id, namespace: string, kind: string, reason: Reason)

  /** `passes` is the caller's filter, `mentions` the literal query, `parse` reads a
      timestamp; the searches have run. */
  datatype Setting = Setting(profile: Profile, selectors: seq<Selector>, request: Request, at: int, hits: Hits,
                             preferred: Source, fillRemaining: bool, passes: Entry -> bool, mentions: Entry -> bool,
                             parse: string -> Option<int>)

  ghost predicate LastOfKind(selectors: seq<Selector>, i: nat)
    requires i < |selectors|
  {
    forall j :: i < j < |selectors| ==> selectors[j].kind != selectors[i].kind
  }

  /** The last selector of a type is the one that counts. */
  function SelectorMap(selectors: seq<Selector>): (byKind: map<string, Selector>)
    ensures forall kind :: kind in byKind ==> byKind[kind] in selectors && byKind[kind].kind == kind
  {
    if selectors == [] then map[]
    else
      var last := selectors[|selectors| - 1];
      SelectorMap(selectors[..|selectors| - 1])[last.kind := last]
  }

  lemma {:induction false} LastCounts(selectors: seq<Selector>, i: nat)
    requires i < |selectors| && LastOfKind(selectors, i)
    ensures selectors[i].kind in SelectorMap(selectors) && SelectorMap(selectors)[selectors[i].kind] == selectors[i]
  {
    if i < |selectors| - 1 {
      assert selectors[|selectors| - 1].kind != selectors[i].kind;
      assert LastOfKind(selectors[..|selectors| - 1], i);
      LastCounts(selectors[..|selectors| - 1], i);
    }
  }

  predicate Readable(s: Setting, r: Entry) {
    ReadAuthorized(r, s.profile) && r.kind in SelectorMap(s.selectors)
  }

  function SupersededBy(s: Setting, records: seq<Entry>): set<Id> {
    if s.request.includeSuperseded then {}
    else set r | r in records && Readable(s, r) && r.supersedes.Some? :: r.supersedes.value
  }

  ghost predicate HasSelector(s: Setting, kind: string) {
    exists selector :: selector in s.selectors && selector.kind == kind
  }

  /** With a request that wants the current state, whatever a readable record replaces. */
  lemma SupersededMeans(s: Setting, records: seq<Entry>, id: Id)
    ensures id in SupersededBy(s, records) <==>
      && !s.request.includeSuperseded
      && exists r :: r in records && r.supersedes == Some(id) && Granted(r, s.profile) && HasSelector(s, r.kind)
  {
    forall r
      ensures Readable(s, r)
        <==> Granted(r, s.profile) && HasSelector(s, r.kind)
    {
      if selector :| selector in s.selectors && selector.kind == r.kind {
        HasLast(s.selectors, selector);
      }
    }
  }

  lemma {:induction false} HasLast(selectors: seq<Selector>, selector: Selector)
    requires selector in selectors
    ensures selector.kind in SelectorMap(selectors)
  {
    var front, last := selectors[..|selectors| - 1], selectors[|selectors| - 1];
    assert selectors == front + [last];
    if selector.kind != last.kind {
      HasLast(front, selector);
    }
  }

  function RankOf(record: Entry, selector: Selector): Option<int> {
    if selector.rankPointer.None? then None
    else
      var value := Resolve(record.payload, selector.rankPointer.value);
      if value.Some? && value.value.Number?
      then Some(if selector.rankOrder == Asc then -value.value.value else value.value.value)
      else None
  }

  datatype Judgement = Keep(candidate: Candidate) | Drop(reason: Reason) | Fail

  function Judge(s: Setting, superseded: set<Id>, r: Entry): (j: Judgement)
    ensures j.Keep? ==> j.candidate.record == r && Readable(s, r)
  {
    var byKind := SelectorMap(s.selectors);
    if !s.passes(r) then Drop(FilterMismatch)
    else
      match Gate(r, s.profile, byKind, s.request, s.at, superseded, s.parse)
      case Excluded(reason) => Drop(reason)
      case Malformed => Fail
      case Pass =>
        var selector := byKind[r.kind];
        var found := Classify(r, selector, s.request, s.hits.fts, s.hits.semantic, s.mentions);
        if found.None? then Drop(SelectorMismatch)
        else
          var (tier, matched) := found.value;
          var (source, searchRank) := if tier == Relevant then SourceOf(s.hits, s.preferred, r.id) else (None, None);
          Keep(Candidate(r, tier, matched, |matched|, RankOf(r, selector), source, searchRank))
  }

  function ExclusionOf(r: Entry, reason: Reason): Exclusion {
    Exclusion(r.id, r.namespace, r.kind, reason)
  }

  /** A record is kept exactly when the filter lets it through, it is eligible, and a tag or
      a strategy finds it. What is said of a candidate is scored by how many strategies
      found it and ranked by the number in its payload; where a search found it is said
      only of a relevant one. */
  lemma CandidateMeans(s: Setting, superseded: set<Id>, r: Entry)
    ensures var j := Judge(s, superseded, r);
      var eligible := Eligible(r, s.profile, SelectorMap(s.selectors), s.request, s.at, superseded, s.parse);
      && (j.Keep? <==> s.passes(r) && eligible && Sought(s, SelectorMap(s.selectors)[r.kind], r))
      && (j.Keep? ==> Presented(s, SelectorMap(s.selectors)[r.kind], r, j.candidate))
      && (j == Drop(FilterMismatch) <==> !s.passes(r))
      && (j.Fail? <==> (s.passes(r)
          && Gate(r, s.profile, SelectorMap(s.selectors), s.request, s.at, superseded, s.parse) == Malformed))
      && (j.Drop? && s.passes(r) ==>
            if eligible then j.reason == SelectorMismatch
            else Gate(r, s.profile, SelectorMap(s.selectors), s.request, s.at, superseded, s.parse)
                 == Excluded(j.reason))
  {
    GateIsEligibility(r, s.profile, SelectorMap(s.selectors), s.request, s.at, superseded, s.parse);
    if r.kind in SelectorMap(s.selectors) {
      ClassifyMeans(r, SelectorMap(s.selectors)[r.kind], s.request, s.hits.fts, s.hits.semantic, s.mentions);
      RankMeans(r, SelectorMap(s.selectors)[r.kind]);
    }
  }

  ghost predicate Sought(s: Setting, selector: Selector, r: Entry) {
    || Tagged(r, selector.requiredTags) || Tagged(r, selector.coreTags)
    || SomeFinds(selector, r, s.request, s.hits.fts, s.hits.semantic, s.mentions)
  }

  /** The number at the selector's pointer, negated when lower is better. */
  ghost predicate RankedBy(rank: Option<int>, r: Entry, selector: Selector) {
    match selector.rankPointer
    case None => rank == None
    case Some(pointer) =>
      match Resolve(r.payload, pointer)
      case Some(Number(n)) => rank == Some(if selector.rankOrder == Asc then -n else n)
      case _ => rank == None
  }

  lemma RankMeans(r: Entry, selector: Selector)
    ensures RankedBy(RankOf(r, selector), r, selector)
  {
  }

  ghost predicate Presented(s: Setting, selector: Selector, r: Entry, c: Candidate) {
    && c.record == r
    && (c.tier == Required <==> Tagged(r, selector.requiredTags))
    && (c.tier == Core <==> Tagged(r, selector.coreTags) && c.tier != Required)
    && (c.tier != Relevant ==> c.strategies == [Tag] && c.source == None && c.searchRank == None)
    && (c.tier == Relevant ==>
          && (forall f :: multiset(c.strategies)[f] ==
                if FoundBy(f, r, s.request, s.hits.fts, s.hits.semantic, s.mentions)
                then multiset(selector.strategies)[f] else 0)
          && (!s.hits.mixed ==> c.source == None && c.searchRank == None)
          && (s.hits.mixed ==>
                && (c.source == None <==> r.id !in s.hits.vector && r.id !in s.hits.fts)
                && (c.source == Some(Vector) <==>
                      r.id in s.hits.vector && (s.preferred == Vector || r.id !in s.hits.fts))
                && (c.searchRank.Some? <==> r.id in s.hits.ranks)
                && (c.searchRank.Some? ==> c.searchRank.value == s.hits.ranks[r.id])))
    && c.score == |c.strategies| && RankedBy(c.rank, r, selector)
  }

  /** An ascending selector serves its lower numbers first. */
  lemma RankReads(a: Entry, b: Entry, selector: Selector, pointer: string, x: int, y: int)
    requires selector.rankPointer == Some(pointer)
    requires Resolve(a.payload, pointer) == Some(Number(x)) && Resolve(b.payload, pointer) == Some(Number(y))
    ensures RankOf(a, selector).Some? && RankOf(b, selector).Some?
    ensures RankOf(a, selector).value > RankOf(b, selector).value
      <==> if selector.rankOrder == Asc then x < y else x > y
  {
  }

  // ---------------------------------------------------------------------
  // Which half of a hybrid answer survives
  // ---------------------------------------------------------------------

  predicate OnlyHybrid(c: Candidate) {
    c.tier == Relevant && c.strategies == [Hybrid]
  }

  function StoodIn(s: Setting, c: Candidate): Option<bool> {
    if OnlyHybrid(c) then Some(!Holds(s.hits, s.preferred, c.record.id)) else None
  }

  /** Something the preferred source found is still there. */
  ghost predicate Answered(s: Setting, candidates: seq<Candidate>) {
    exists c :: c in candidates && StoodIn(s, c) == Some(false)
  }

  ghost predicate StoodInFor(s: Setting, candidates: seq<Candidate>, e: Exclusion) {
    exists c ::
      && c in candidates && StoodIn(s, c) == Some(true)
      && e == Exclusion(c.record.id, c.record.namespace, c.record.kind, SelectorMismatch)
  }

  /** No record twice, in one list or across the two. */
  ghost predicate Apart(candidates: seq<Candidate>, excluded: seq<Exclusion>) {
    && (forall i, j :: 0 <= i < j < |candidates| ==> candidates[i].record.id != candidates[j].record.id)
    && (forall i, j :: 0 <= i < j < |excluded| ==> excluded[i].id != excluded[j].id)
    && (forall c, e :: c in candidates && e in excluded ==> c.record.id != e.id)
  }

  method KeepTheFirstSourceThatAnswered(s: Setting, candidates: seq<Candidate>, excluded: seq<Exclusion>)
    returns (kept: seq<Candidate>, more: seq<Exclusion>)
    requires Apart(candidates, excluded)
    ensures Apart(kept, more)
    ensures forall c :: c in kept <==> c in candidates && !(Answered(s, candidates) && StoodIn(s, c) == Some(true))
    ensures forall e :: e in more <==>
      e in excluded || (Answered(s, candidates) && StoodInFor(s, candidates, e))
    ensures |kept| + |more| == |candidates| + |excluded|
  {
    if !(exists c :: c in candidates && StoodIn(s, c) == Some(false)) {
      return candidates, excluded;
    }
    kept, more := [], excluded;
    for i := 0 to |candidates|
      invariant forall c :: c in kept <==> c in candidates[..i] && StoodIn(s, c) != Some(true)
      invariant forall e :: e in more <==> e in excluded || StoodInFor(s, candidates[..i], e)
      invariant |kept| + |more| == i + |excluded|
      invariant Apart(kept, more)
      invariant forall c, k :: c in kept && i <= k < |candidates| ==> c.record.id != candidates[k].record.id
      invariant forall e, k :: e in more && i <= k < |candidates| ==> e.id != candidates[k].record.id
    {
      var candidate := candidates[i];
      assert candidates[..i + 1] == candidates[..i] + [candidate];
      assert forall c :: c in candidates[..i + 1] <==> c in candidates[..i] || c == candidate;
      if StoodIn(s, candidate) == Some(true) {
        more := more + [ExclusionOf(candidate.record, SelectorMismatch)];
      } else {
        kept := kept + [candidate];
      }
    }
    assert candidates[..|candidates|] == candidates;
  }

  // ---------------------------------------------------------------------
  // The order
  // ---------------------------------------------------------------------

  function SourceOrder(source: Option<Source>, preferred: Source): nat {
    if source.None? then 2 else if source.value == preferred then 0 else 1
  }

  /** Ranked candidates come before unranked ones, highest first; unranked ones go by
      how many strategies matched; then the most recent; then the id. */
  predicate NotAfter(preferred: Source, a: Candidate, b: Candidate) {
    if a.tier != b.tier then TierOrder(a.tier) < TierOrder(b.tier)
    else if SourceOrder(a.source, preferred) != SourceOrder(b.source, preferred)
    then SourceOrder(a.source, preferred) < SourceOrder(b.source, preferred)
    else if a.searchRank != b.searchRank
    then a.searchRank.None? || (b.searchRank.Some? && a.searchRank.value < b.searchRank.value)
    else if a.rank.Some? != b.rank.Some? then a.rank.Some?
    else if a.rank.Some? && a.rank != b.rank then a.rank.value > b.rank.value
    else if a.rank.None? && a.score != b.score then a.score > b.score
    else if a.record.observedAt != b.record.observedAt then Sorting.Leq(b.record.observedAt, a.record.observedAt)
    else a.record.id <= b.record.id
  }

  function TierOrder(tier: Tier): nat {
    match tier
    case Required => 0
    case Core => 1
    case Relevant => 2
  }

  /** Which of two goes first, criterion by criterion: each decides only between
      candidates all earlier ones leave level. */
  lemma OrderMeans(preferred: Source, a: Candidate, b: Candidate)
    requires NotAfter(preferred, a, b)
    ensures a.tier == Core ==> b.tier != Required
    ensures a.tier == Relevant ==> b.tier == Relevant
    ensures a.tier == b.tier && b.source == Some(preferred) ==> a.source == Some(preferred)
    ensures a.tier == b.tier && b.source.Some? ==> a.source.Some?
    ensures a.tier == b.tier && a.source == b.source && a.searchRank.Some? ==>
      b.searchRank.Some? && a.searchRank.value <= b.searchRank.value
    ensures Level(a, b) && b.rank.Some? ==> a.rank.Some? && a.rank.value >= b.rank.value
    ensures Level(a, b) && a.rank.None? ==> b.rank.None? && a.score >= b.score
    ensures Level(a, b) && SameStanding(a, b) ==> Sorting.Leq(b.record.observedAt, a.record.observedAt)
    ensures Level(a, b) && SameStanding(a, b) && a.record.observedAt == b.record.observedAt ==>
      a.record.id <= b.record.id
  {
    Sorting.LeqTotal(a.record.observedAt, b.record.observedAt);
  }

  ghost predicate Level(a: Candidate, b: Candidate) {
    a.tier == b.tier && a.source == b.source && a.searchRank == b.searchRank
  }

  ghost predicate SameStanding(a: Candidate, b: Candidate) {
    a.rank == b.rank && (a.rank.None? ==> a.score == b.score)
  }

  lemma NotAfterIsAnOrder(preferred: Source)
    ensures Sorting.TotalPreorder((a, b) => NotAfter(preferred, a, b))
    ensures forall a, b :: NotAfter(preferred, a, b) && NotAfter(preferred, b, a) ==> a.record.id == b.record.id
  {
    forall a, b
      ensures NotAfter(preferred, a, b) || NotAfter(preferred, b, a)
      ensures NotAfter(preferred, a, b) && NotAfter(preferred, b, a) ==> a.record.id == b.record.id
    {
      Sorting.LeqTotal(a.record.observedAt, b.record.observedAt);
    }
    forall a, b, c | NotAfter(preferred, a, b) && NotAfter(preferred, b, c) ensures NotAfter(preferred, a, c) {
      TransitiveStep(preferred, a, b, c);
    }
  }

  lemma TransitiveStep(preferred: Source, a: Candidate, b: Candidate, c: Candidate)
    requires NotAfter(preferred, a, b) && NotAfter(preferred, b, c)
    ensures NotAfter(preferred, a, c)
  {
    var x, y, z := a.record.observedAt, b.record.observedAt, c.record.observedAt;
    Sorting.LeqTotal(x, y);
    Sorting.LeqTotal(y, z);
    if Sorting.Leq(z, y) && Sorting.Leq(y, x) {
      Sorting.LeqTransitive(z, y, x);
    }
  }

  // ---------------------------------------------------------------------
  // What a selector must find
  // ---------------------------------------------------------------------

  ghost function Count(candidates: seq<Candidate>, kind: string): nat {
    if candidates == [] then 0
    else Count(candidates[..|candidates| - 1], kind) + if candidates[|candidates| - 1].record.kind == kind then 1 else 0
  }

  /** None asked for, at least one candidate of the type, or just one. */
  ghost predicate Meets(selector: Selector, candidates: seq<Candidate>) {
    match selector.bound
    case Any => true
    case AtLeastOne => exists i :: 0 <= i < |candidates| && candidates[i].record.kind == selector.kind
    case ExactlyOne => exists i :: 0 <= i < |candidates| && TheOnly(candidates, selector.kind, i)
  }

  ghost predicate TheOnly(candidates: seq<Candidate>, kind: string, i: nat)
    requires i < |candidates|
  {
    forall j :: 0 <= j < |candidates| ==> (candidates[j].record.kind == kind <==> j == i)
  }

  lemma {:induction false} CountMeans(candidates: seq<Candidate>, kind: string)
    ensures Count(candidates, kind) == 0 <==> forall i :: 0 <= i < |candidates| ==> candidates[i].record.kind != kind
    ensures Count(candidates, kind) == 1 <==> exists i :: 0 <= i < |candidates| && TheOnly(candidates, kind, i)
  {
    if candidates != [] {
      var front, n := candidates[..|candidates| - 1], |candidates| - 1;
      CountMeans(front, kind);
      if candidates[n].record.kind == kind {
        assert Count(front, kind) == 0 ==> TheOnly(candidates, kind, n);
        if i :| 0 <= i < |candidates| && TheOnly(candidates, kind, i) {
          assert i == n;
          assert forall j :: 0 <= j < n ==> front[j].record.kind != kind;
        }
      } else {
        if i :| 0 <= i < |front| && TheOnly(front, kind, i) {
          assert TheOnly(candidates, kind, i);
        }
        if i :| 0 <= i < |candidates| && TheOnly(candidates, kind, i) {
          assert TheOnly(front, kind, i);
        }
      }
    }
  }

  ghost predicate FirstUnmet(selectors: seq<Selector>, i: nat, unmet: Selector, candidates: seq<Candidate>)
    requires i < |selectors|
  {
    selectors[i] == unmet && forall k :: 0 <= k < i ==> Meets(selectors[k], candidates)
  }

  method Require(candidates: seq<Candidate>, selectors: seq<Selector>) returns (unmet: Option<Selector>)
    ensures unmet.None? <==> forall i :: 0 <= i < |selectors| ==> Meets(selectors[i], candidates)
    ensures unmet.Some? ==> unmet.value in selectors && !Meets(unmet.value, candidates)
    ensures unmet.Some? ==> exists i :: 0 <= i < |selectors| && FirstUnmet(selectors, i, unmet.value, candidates)
  {
    for i := 0 to |selectors|
      invariant forall k :: 0 <= k < i ==> Meets(selectors[k], candidates)
    {
      var selector := selectors[i];
      var found := 0;
      for j := 0 to |candidates|
        invariant found == Count(candidates[..j], selector.kind)
      {
        assert candidates[..j + 1][..j] == candidates[..j];
        found := found + if candidates[j].record.kind == selector.kind then 1 else 0;
      }
      assert candidates[..|candidates|] == candidates;
      CountMeans(candidates, selector.kind);
      var met := match selector.bound
        case Any => true
        case AtLeastOne => found >= 1
        case ExactlyOne => found == 1;
      if !met {
        assert FirstUnmet(selectors, i, selector, candidates);
        return Some(selector);
      }
    }
    unmet := None;
  }

  // ---------------------------------------------------------------------
  // The answer
  // ---------------------------------------------------------------------

  ghost predicate UniqueEntries(records: seq<Entry>) {
    forall i, j :: 0 <= i < j < |records| ==> records[i].id != records[j].id
  }

  /** Judged to be a candidate, before any fallback. */
  ghost predicate Kept(s: Setting, records: seq<Entry>, c: Candidate) {
    c.record in records && Judge(s, SupersededBy(s, records), c.record) == Keep(c)
  }

  ghost predicate PreferredAnswers(s: Setting, records: seq<Entry>) {
    !s.fillRemaining && exists c :: Kept(s, records, c) && StoodIn(s, c) == Some(false)
  }

  ghost predicate Displaced(s: Setting, records: seq<Entry>, c: Candidate) {
    PreferredAnswers(s, records) && StoodIn(s, c) == Some(true)
  }

  ghost predicate Dropped(s: Setting, records: seq<Entry>, e: Exclusion) {
    exists r :: r in records && e == Exclusion(r.id, r.namespace, r.kind, e.reason) &&
      var j := Judge(s, SupersededBy(s, records), r);
      j == Drop(e.reason) || (j.Keep? && Displaced(s, records, j.candidate) && e.reason == SelectorMismatch)
  }

  /** Candidates and exclusions, each in the order they are served. */
  ghost predicate IsAnswer(candidates: seq<Candidate>, excluded: seq<Exclusion>, s: Setting, records: seq<Entry>) {
    && Survivors(candidates, s, records) && Omissions(excluded, s, records)
    && (forall i, j :: 0 <= i < j < |candidates| ==>
          NotAfter(s.preferred, candidates[i], candidates[j]) && candidates[i] != candidates[j])
    && (forall i, j :: 0 <= i < j < |excluded| ==> excluded[i].id < excluded[j].id)
  }

  ghost predicate Survivors(candidates: seq<Candidate>, s: Setting, records: seq<Entry>) {
    forall c :: c in candidates <==> Kept(s, records, c) && !Displaced(s, records, c)
  }

  ghost predicate Omissions(excluded: seq<Exclusion>, s: Setting, records: seq<Entry>) {
    forall e :: e in excluded <==> Dropped(s, records, e)
  }

  lemma SameSurvivors(a: seq<Candidate>, b: seq<Candidate>, x: seq<Exclusion>, y: seq<Exclusion>, s: Setting,
                      records: seq<Entry>)
    requires forall c :: c in a <==> c in b
    requires forall e :: e in x <==> e in y
    requires Survivors(a, s, records) && Omissions(x, s, records)
    ensures Survivors(b, s, records) && Omissions(y, s, records)
  {
    forall c ensures c in b <==> Kept(s, records, c) && !Displaced(s, records, c) {
      assert c in a <==> c in b;
    }
    forall e ensures e in y <==> Dropped(s, records, e) {
      assert e in x <==> e in y;
    }
  }

  ghost predicate NoneFail(s: Setting, records: seq<Entry>) {
    forall r :: r in records ==> !Judge(s, SupersededBy(s, records), r).Fail?
  }

  lemma ById(records: seq<Entry>, a: Entry, b: Entry)
    requires UniqueEntries(records) && a in records && b in records && a.id == b.id
    ensures a == b
  {
    var i :| 0 <= i < |records| && records[i] == a;
    var j :| 0 <= j < |records| && records[j] == b;
    assert i == j;
  }

  /** Nothing is lost and nothing is in both: each record is a candidate or an
      exclusion. */
  lemma EachRecordOnce(candidates: seq<Candidate>, excluded: seq<Exclusion>, s: Setting, records: seq<Entry>, r: Entry)
    requires IsAnswer(candidates, excluded, s, records) && UniqueEntries(records) && NoneFail(s, records)
    requires r in records
    ensures (exists c :: c in candidates && c.record == r) <==> !(exists e :: e in excluded && e.id == r.id)
  {
    if e :| e in excluded && e.id == r.id {
      ExcludedIsJudged(s, records, r, e);
    } else {
      forall reason ensures !Dropped(s, records, Exclusion(r.id, r.namespace, r.kind, reason)) {
        assert Exclusion(r.id, r.namespace, r.kind, reason) !in excluded;
      }
      UndroppedIsKept(s, records, r);
      assert Judge(s, SupersededBy(s, records), r).candidate in candidates;
    }
  }

  lemma ExcludedIsJudged(s: Setting, records: seq<Entry>, r: Entry, e: Exclusion)
    requires UniqueEntries(records) && r in records && Dropped(s, records, e) && e.id == r.id
    ensures var j := Judge(s, SupersededBy(s, records), r);
      j == Drop(e.reason) || (j.Keep? && Displaced(s, records, j.candidate))
  {
    var other :| other in records && e == Exclusion(other.id, other.namespace, other.kind, e.reason) &&
      var k := Judge(s, SupersededBy(s, records), other);
      k == Drop(e.reason) || (k.Keep? && Displaced(s, records, k.candidate) && e.reason == SelectorMismatch);
    ById(records, other, r);
  }

  lemma UndroppedIsKept(s: Setting, records: seq<Entry>, r: Entry)
    requires r in records && NoneFail(s, records)
    requires forall reason :: !Dropped(s, records, Exclusion(r.id, r.namespace, r.kind, reason))
    ensures var j := Judge(s, SupersededBy(s, records), r);
      j.Keep? && Kept(s, records, j.candidate) && !Displaced(s, records, j.candidate)
  {
    match Judge(s, SupersededBy(s, records), r)
    case Drop(reason) => DropIsDropped(s, records, r, reason);
    case Keep(_) => assert !Dropped(s, records, Exclusion(r.id, r.namespace, r.kind, SelectorMismatch));
    case Fail =>
  }

  lemma DropIsDropped(s: Setting, records: seq<Entry>, r: Entry, reason: Reason)
    requires r in records && Judge(s, SupersededBy(s, records), r) == Drop(reason)
    ensures Dropped(s, records, Exclusion(r.id, r.namespace, r.kind, reason))
  {
  }

  lemma OnlyRecords(candidates: seq<Candidate>, excluded: seq<Exclusion>, s: Setting, records: seq<Entry>)
    requires IsAnswer(candidates, excluded, s, records) && UniqueEntries(records)
    ensures forall c :: c in candidates ==> c.record in records
    ensures forall i, j :: 0 <= i < j < |candidates| ==> candidates[i].record.id != candidates[j].record.id
  {
    forall i, j | 0 <= i < j < |candidates| ensures candidates[i].record.id != candidates[j].record.id {
      assert candidates[i] in candidates && candidates[j] in candidates;
      if candidates[i].record.id == candidates[j].record.id {
        ById(records, candidates[i].record, candidates[j].record);
      }
    }
  }

  /** With the second source not a top-up, the hybrid-only matches that survive are
      all the preferred source's, or none of them is. */
  lemma OneSourceAnswers(candidates: seq<Candidate>, excluded: seq<Exclusion>, s: Setting, records: seq<Entry>)
    requires IsAnswer(candidates, excluded, s, records) && !s.fillRemaining
    ensures var found := if s.preferred == Vector then s.hits.vector else s.hits.fts;
      && ((forall c :: c in candidates && c.tier == Relevant && c.strategies == [Hybrid] ==> c.record.id in found)
          || (forall c :: c in candidates && c.tier == Relevant && c.strategies == [Hybrid] ==> c.record.id !in found))
      // What the preferred source found, and what is not hybrid-only, is never displaced.
      && (forall c :: Kept(s, records, c) && !(c.tier == Relevant && c.strategies == [Hybrid] && c.record.id !in found)
            ==> c in candidates)
      && ((forall c :: Kept(s, records, c) && c.tier == Relevant && c.strategies == [Hybrid] ==> c.record.id !in found)
          ==> forall c :: Kept(s, records, c) ==> c in candidates)
  {
    var found := if s.preferred == Vector then s.hits.vector else s.hits.fts;
    assert forall id :: Holds(s.hits, s.preferred, id) <==> id in found;
    if PreferredAnswers(s, records) {
      forall c | c in candidates && OnlyHybrid(c) ensures Holds(s.hits, s.preferred, c.record.id) {
        assert !Displaced(s, records, c);
      }
    } else {
      forall c | c in candidates && OnlyHybrid(c) ensures !Holds(s.hits, s.preferred, c.record.id) {
        assert Kept(s, records, c);
        assert StoodIn(s, c) != Some(false);
      }
    }
  }

  /** In a mixed search what is not the preferred source's is the other one's. */
  lemma TheOtherSourceAnswers(s: Setting, records: seq<Entry>, c: Candidate, text: RankedIds, semantic: RankedIds)
    requires Kept(s, records, c) && OnlyHybrid(c) && !Holds(s.hits, s.preferred, c.record.id)
    requires s.hits.fts == text.ids && s.hits.vector == semantic.ids && s.hits.semantic == semantic.ids + text.ids
    requires s.hits.mixed
    ensures Holds(s.hits, Other(s.preferred), c.record.id) && c.source == Some(Other(s.preferred))
  {
    assert c.record.id in s.hits.semantic;
  }

  /** Neither the order of the ledger nor anything the profile may not read shows in
      the candidates: two ledgers with the same readable records give the same list. */
  lemma CandidatesAreDetermined(candidates: seq<Candidate>, excluded: seq<Exclusion>, records: seq<Entry>,
                                others: seq<Candidate>, omitted: seq<Exclusion>, ledger: seq<Entry>, s: Setting)
    requires UniqueEntries(records) && UniqueEntries(ledger)
    requires forall r :: Readable(s, r) ==> (r in records <==> r in ledger)
    requires IsAnswer(candidates, excluded, s, records) && IsAnswer(others, omitted, s, ledger)
    ensures candidates == others
  {
    assert SupersededBy(s, records) == SupersededBy(s, ledger);
    forall c ensures Kept(s, records, c) <==> Kept(s, ledger, c) {
    }
    forall c ensures c in candidates <==> c in others {
      assert Displaced(s, records, c) <==> Displaced(s, ledger, c);
    }
    NotAfterIsAnOrder(s.preferred);
    OnlyRecords(candidates, excluded, s, records);
    OnlyRecords(others, omitted, s, ledger);
    var before := (a: Candidate, b: Candidate) => NotAfter(s.preferred, a, b) && a.record.id != b.record.id;
    Sorting.OneArrangement(candidates, others, before);
  }

  /** And the exclusions of one ledger do not depend on the order it was read in. */
  lemma ExclusionsAreDetermined(candidates: seq<Candidate>, excluded: seq<Exclusion>, records: seq<Entry>,
                                others: seq<Candidate>, omitted: seq<Exclusion>, ledger: seq<Entry>, s: Setting)
    requires forall r :: r in records <==> r in ledger
    requires IsAnswer(candidates, excluded, s, records) && IsAnswer(others, omitted, s, ledger)
    ensures excluded == omitted
  {
    assert SupersededBy(s, records) == SupersededBy(s, ledger);
    forall c ensures Kept(s, records, c) <==> Kept(s, ledger, c) {
    }
    forall c ensures Displaced(s, records, c) <==> Displaced(s, ledger, c) {
    }
    forall e ensures e in excluded <==> e in omitted {
      assert Dropped(s, records, e) <==> Dropped(s, ledger, e);
    }
    Sorting.OneArrangement(excluded, omitted, (a: Exclusion, b: Exclusion) => a.id < b.id);
  }

  // ---------------------------------------------------------------------
  // Retrieving
  // ---------------------------------------------------------------------

  datatype Error = BadTimestamp(id: Id) | Unmet(selector: Selector)
  datatype Result<+T> = Ok(value: T) | Err(error: Error)

  predicate IdOrder(a: Entry, b: Entry) {
    a.id <= b.id
  }

  predicate ExclusionOrder(a: Exclusion, b: Exclusion) {
    a.id <= b.id
  }

  /** The answer there would have been does not meet the selector's bound. */
  ghost predicate FallsShort(selector: Selector, s: Setting, records: seq<Entry>) {
    exists candidates, excluded :: IsAnswer(candidates, excluded, s, records) && !Meets(selector, candidates)
  }

  ghost predicate FirstFailing(s: Setting, superseded: set<Id>, records: seq<Entry>, i: nat, id: Id)
    requires i < |records|
  {
    && records[i].id == id && Judge(s, superseded, records[i]).Fail?
    && forall k :: 0 <= k < i ==> !Judge(s, superseded, records[k]).Fail?
  }

  /** The record a request fails on is the first by id that cannot be judged. */
  ghost predicate FailsOn(s: Setting, records: seq<Entry>, id: Id) {
    && (exists r :: r in records && r.id == id && Judge(s, SupersededBy(s, records), r).Fail?)
    && forall r :: r in records && Judge(s, SupersededBy(s, records), r).Fail? ==> id <= r.id
  }

  lemma FirstFailingById(s: Setting, records: seq<Entry>, sorted: seq<Entry>, i: nat, id: Id)
    requires (forall r :: r in records <==> r in sorted) && Sorting.Sorted(sorted, IdOrder) && i < |sorted|
    requires FirstFailing(s, SupersededBy(s, records), sorted, i, id)
    ensures FailsOn(s, records, id)
  {
    assert sorted[i] in records;
    forall r | r in records && Judge(s, SupersededBy(s, records), r).Fail? ensures id <= r.id {
      var k :| 0 <= k < |sorted| && sorted[k] == r;
      assert k == i || IdOrder(sorted[i], sorted[k]);
    }
  }

  method Split(s: Setting, records: seq<Entry>, superseded: set<Id>)
    returns (candidates: seq<Candidate>, excluded: seq<Exclusion>, failed: Option<Id>)
    requires UniqueEntries(records)
    ensures failed.None? <==> forall r :: r in records ==> !Judge(s, superseded, r).Fail?
    ensures failed.Some? ==> exists i :: 0 <= i < |records| && FirstFailing(s, superseded, records, i, failed.value)
    ensures failed.None? ==>
      && (forall c :: c in candidates <==> c.record in records && Judge(s, superseded, c.record) == Keep(c))
      && (forall e :: e in excluded <==> DroppedAtOnce(s, superseded, records, e))
      && |candidates| + |excluded| == |records| && Apart(candidates, excluded)
  {
    candidates, excluded := [], [];
    for i := 0 to |records|
      invariant SplitAs(s, superseded, records[..i], candidates, excluded)
    {
      var record := records[i];
      assert records[..i + 1] == records[..i] + [record];
      match Judge(s, superseded, record)
      case Fail =>
        assert record in records;
        assert FirstFailing(s, superseded, records, i, record.id);
        return candidates, excluded, Some(record.id);
      case Drop(reason) =>
        SplitDrop(s, superseded, records[..i], record, candidates, excluded, reason);
        excluded := excluded + [ExclusionOf(record, reason)];
      case Keep(candidate) =>
        SplitKeep(s, superseded, records[..i], record, candidates, excluded, candidate);
        candidates := candidates + [candidate];
    }
    assert records[..|records|] == records;
    failed := None;
  }

  /** Every record so far is judged, and in exactly one of the two lists. */
  ghost predicate SplitAs(s: Setting, superseded: set<Id>, records: seq<Entry>,
                          candidates: seq<Candidate>, excluded: seq<Exclusion>) {
    && (forall r :: r in records ==> !Judge(s, superseded, r).Fail?)
    && (forall c :: c in candidates <==> c.record in records && Judge(s, superseded, c.record) == Keep(c))
    && (forall e :: e in excluded <==> DroppedAtOnce(s, superseded, records, e))
    && |candidates| + |excluded| == |records| && Apart(candidates, excluded)
  }

  ghost predicate NewTo(records: seq<Entry>, record: Entry) {
    forall r :: r in records ==> r.id != record.id
  }

  lemma SplitDrop(s: Setting, superseded: set<Id>, records: seq<Entry>, record: Entry,
                  candidates: seq<Candidate>, excluded: seq<Exclusion>, reason: Reason)
    requires SplitAs(s, superseded, records, candidates, excluded) && NewTo(records, record)
    requires Judge(s, superseded, record) == Drop(reason)
    ensures SplitAs(s, superseded, records + [record], candidates, excluded + [ExclusionOf(record, reason)])
  {
    assert forall r :: r in records + [record] <==> r in records || r == record;
    forall e | e in excluded ensures e.id != record.id {
      assert DroppedAtOnce(s, superseded, records, e);
    }
    DroppedStep(s, superseded, records, record);
  }

  lemma SplitKeep(s: Setting, superseded: set<Id>, records: seq<Entry>, record: Entry,
                  candidates: seq<Candidate>, excluded: seq<Exclusion>, candidate: Candidate)
    requires SplitAs(s, superseded, records, candidates, excluded) && NewTo(records, record)
    requires Judge(s, superseded, record) == Keep(candidate)
    ensures SplitAs(s, superseded, records + [record], candidates + [candidate], excluded)
  {
    assert forall r :: r in records + [record] <==> r in records || r == record;
    forall e | e in excluded ensures e.id != record.id {
      assert DroppedAtOnce(s, superseded, records, e);
    }
    DroppedStep(s, superseded, records, record);
  }

  lemma DroppedStep(s: Setting, superseded: set<Id>, records: seq<Entry>, record: Entry)
    ensures forall e :: DroppedAtOnce(s, superseded, records + [record], e) <==>
      DroppedAtOnce(s, superseded, records, e)
      || (e == ExclusionOf(record, e.reason) && Judge(s, superseded, record) == Drop(e.reason))
  {
    assert forall r :: r in records + [record] <==> r in records || r == record;
  }

  ghost predicate DroppedAtOnce(s: Setting, superseded: set<Id>, records: seq<Entry>, e: Exclusion) {
    exists r :: r in records && e == ExclusionOf(r, e.reason) && Judge(s, superseded, r) == Drop(e.reason)
  }

  /** `answering` is whether anybody asked: only then does a selector's bound apply. */
  method Retrieve(s: Setting, records: seq<Entry>, answering: bool)
    returns (result: Result<(seq<Candidate>, seq<Exclusion>)>)
    requires UniqueEntries(records)
    ensures result.Ok? ==> NoneFail(s, records) && IsAnswer(result.value.0, result.value.1, s, records)
    ensures result.Ok? ==> |result.value.0| + |result.value.1| == |records|
    ensures result.Ok? && answering ==> forall i :: 0 <= i < |s.selectors| ==> Meets(s.selectors[i], result.value.0)
    ensures result.Err? && result.error.BadTimestamp? <==> !NoneFail(s, records)
    ensures result.Err? && result.error.BadTimestamp? ==> FailsOn(s, records, result.error.id)
    ensures result.Err? && result.error.Unmet? ==>
      answering && result.error.selector in s.selectors && FallsShort(result.error.selector, s, records)
  {
    var sorted := Sorting.Sort(records, IdOrder);
    Sorting.SameMembers(records, sorted);
    Sorting.SortSorts(records, IdOrder);
    PermutedIdsDiffer(records, sorted);
    var superseded := SupersededBy(s, sorted);
    assert superseded == SupersededBy(s, records);
    var candidates, excluded, failed := Split(s, sorted, superseded);
    if failed.Some? {
      ghost var i :| 0 <= i < |sorted| && FirstFailing(s, superseded, sorted, i, failed.value);
      FirstFailingById(s, records, sorted, i, failed.value);
      return Err(BadTimestamp(failed.value));
    }
    assert forall c :: c in candidates <==> Kept(s, records, c);
    if !s.fillRemaining {
      candidates, excluded := KeepTheFirstSourceThatAnswered(s, candidates, excluded);
    }
    Serve(s, records, candidates, excluded);
    var served := Sorting.Sort(candidates, (a, b) => NotAfter(s.preferred, a, b));
    if answering {
      var unmet := Require(served, s.selectors);
      if unmet.Some? {
        assert IsAnswer(served, Sorting.Sort(excluded, ExclusionOrder), s, records);
        return Err(Unmet(unmet.value));
      }
    }
    result := Ok((served, Sorting.Sort(excluded, ExclusionOrder)));
  }

  lemma PermutedIdsDiffer(records: seq<Entry>, sorted: seq<Entry>)
    requires multiset(records) == multiset(sorted) && UniqueEntries(records)
    ensures UniqueEntries(sorted)
  {
    Sorting.SameMembers(records, sorted);
    Sorting.DistinctIsOnce(records);
    forall i, j | 0 <= i < j < |sorted| ensures sorted[i].id != sorted[j].id {
      Sorting.OnceIsDistinct(sorted, i, j);
      assert sorted[i] in records && sorted[j] in records;
      if sorted[i].id == sorted[j].id {
        ById(records, sorted[i], sorted[j]);
      }
    }
  }

  lemma Serve(s: Setting, records: seq<Entry>, candidates: seq<Candidate>, excluded: seq<Exclusion>)
    requires Apart(candidates, excluded)
    requires Survivors(candidates, s, records) && Omissions(excluded, s, records)
    ensures IsAnswer(Sorting.Sort(candidates, (a, b) => NotAfter(s.preferred, a, b)),
                     Sorting.Sort(excluded, ExclusionOrder), s, records)
    ensures |Sorting.Sort(candidates, (a, b) => NotAfter(s.preferred, a, b))| == |candidates|
    ensures |Sorting.Sort(excluded, ExclusionOrder)| == |excluded|
  {
    ServedInOrder(s.preferred, candidates);
    OmittedInOrder(excluded);
    SameSurvivors(candidates, Sorting.Sort(candidates, (a, b) => NotAfter(s.preferred, a, b)),
                  excluded, Sorting.Sort(excluded, ExclusionOrder), s, records);
  }

  lemma ServedInOrder(preferred: Source, candidates: seq<Candidate>)
    requires forall i, j :: 0 <= i < j < |candidates| ==> candidates[i].record.id != candidates[j].record.id
    ensures var served := Sorting.Sort(candidates, (a, b) => NotAfter(preferred, a, b));
      && |served| == |candidates|
      && (forall c :: c in served <==> c in candidates)
      && (forall i, j :: 0 <= i < j < |served| ==> NotAfter(preferred, served[i], served[j]) && served[i] != served[j])
  {
    var le := (a, b) => NotAfter(preferred, a, b);
    NotAfterIsAnOrder(preferred);
    var served := Sorting.Sort(candidates, le);
    Sorting.SortSorts(candidates, le);
    Sorting.SameMembers(candidates, served);
    Sorting.DistinctIsOnce(candidates);
    forall i, j | 0 <= i < j < |served| ensures NotAfter(preferred, served[i], served[j]) && served[i] != served[j] {
      assert le(served[i], served[j]);
      Sorting.OnceIsDistinct(served, i, j);
    }
  }

  lemma OmittedInOrder(excluded: seq<Exclusion>)
    requires forall i, j :: 0 <= i < j < |excluded| ==> excluded[i].id != excluded[j].id
    ensures var omitted := Sorting.Sort(excluded, ExclusionOrder);
      && |omitted| == |excluded|
      && (forall e :: e in omitted <==> e in excluded)
      && (forall i, j :: 0 <= i < j < |omitted| ==> omitted[i].id < omitted[j].id)
  {
    var omitted := Sorting.Sort(excluded, ExclusionOrder);
    Sorting.SortSorts(excluded, ExclusionOrder);
    Sorting.SameMembers(excluded, omitted);
    Sorting.DistinctIsOnce(excluded);
    forall i, j | 0 <= i < j < |omitted| ensures omitted[i].id < omitted[j].id {
      assert ExclusionOrder(omitted[i], omitted[j]);
      Sorting.OnceIsDistinct(omitted, i, j);
      assert omitted[i] in excluded && omitted[j] in excluded;
      var m :| 0 <= m < |excluded| && excluded[m] == omitted[i];
      var n :| 0 <= n < |excluded| && excluded[n] == omitted[j];
    }
  }
}
