/** What a native compaction removes, severs and keeps, and the two other readers
    of the same liveness rule: the status counts and the vector corpus. */
module CompactionPlan {
  import opened Ledger
  import Sorting

  // ---------------------------------------------------------------------
  // The compaction plan (projections::build) and the rewrite it drives
  // ---------------------------------------------------------------------

  datatype Removal = SupersededRecord | Revoked

  datatype Removed = Removed(id: Id, kind: string, reason: Removal)

  datatype Severed = Severed(id: Id, kind: string, was: Id)

  datatype Plan = Plan(removed: seq<Removed>, severed: seq<Severed>, retained: nat)

  ghost function PickRemoved(dead: set<Id>): Record -> Option<Removed> {
    (r: Record) =>
      if r.id !in dead then None
      else Some(Removed(r.id, r.kind, if Withdrawn(r) then Revoked else SupersededRecord))
  }

  ghost function PickSevered(dead: set<Id>): Record -> Option<Severed> {
    (r: Record) =>
      if r.id !in dead && r.supersedes.Some? && r.supersedes.value in dead
      then Some(Severed(r.id, r.kind, r.supersedes.value))
      else None
  }

  /** Each dead record once, and each kept one whose link is cut, in ledger order. */
  ghost predicate Describes(plan: Plan, rs: seq<Record>) {
    && plan.removed == Picked(rs, PickRemoved(DeadIds(rs)))
    && plan.severed == Picked(rs, PickSevered(DeadIds(rs)))
  }

  lemma {:induction false} RemovedOrLive(all: seq<Record>, rs: seq<Record>)
    requires UniqueIds(all) && forall r :: r in rs ==> r in all
    ensures |Picked(rs, PickRemoved(DeadIds(all)))| + |LiveIn(all, rs)| == |rs|
  {
    if rs != [] {
      var front, last := rs[..|rs| - 1], rs[|rs| - 1];
      assert rs == front + [last];
      RemovedOrLive(all, front);
      LiveInStep(all, front, last);
      DeadById(all, last);
    }
  }

  /** The lists by what is in the ledger: which record each item stands for, and why. */
  ghost predicate Reasoned(plan: Plan, rs: seq<Record>) {
    && (forall item: Removed :: item in plan.removed <==> item.id in DeadIds(rs) && RemovedFrom(rs, item))
    && (forall item: Severed :: item in plan.severed <==>
          item.id !in DeadIds(rs) && item.was in DeadIds(rs) && SeveredFrom(rs, item))
  }

  ghost predicate RemovedFrom(rs: seq<Record>, item: Removed) {
    exists r :: r in rs && item == Removed(r.id, r.kind, if Tombstoned(r) then Revoked else SupersededRecord)
  }

  ghost predicate SeveredFrom(rs: seq<Record>, item: Severed) {
    exists r :: r in rs && r.supersedes == Some(item.was) && item == Severed(r.id, r.kind, item.was)
  }

  lemma DescribedIsReasoned(plan: Plan, rs: seq<Record>)
    requires Describes(plan, rs)
    ensures Reasoned(plan, rs)
  {
    var dead := DeadIds(rs);
    DeadMeans(rs);
    PickedMeans(rs, PickRemoved(dead));
    PickedMeans(rs, PickSevered(dead));
    forall r | r in rs && r.id in dead
      ensures PickRemoved(dead)(r) ==
        Some(Removed(r.id, r.kind, if Tombstoned(r) then Revoked else SupersededRecord)) {}
    forall r, was | r in rs && r.id !in dead && was in dead && r.supersedes == Some(was)
      ensures PickSevered(dead)(r) == Some(Severed(r.id, r.kind, was)) {}
  }

  method Build(records: seq<Record>) returns (plan: Plan)
    ensures Describes(plan, records) && Reasoned(plan, records)
    ensures |plan.removed| + plan.retained == |records|
    ensures UniqueIds(records) ==> plan.retained == |Live(records)|
  {
    plan := Divide(records, DeadIds(records));
    DescribedIsReasoned(plan, records);
    if UniqueIds(records) {
      RemovedOrLive(records, records);
    }
  }

  method Divide(records: seq<Record>, dead: set<Id>) returns (plan: Plan)
    ensures plan.removed == Picked(records, PickRemoved(dead))
    ensures plan.severed == Picked(records, PickSevered(dead))
    ensures |plan.removed| + plan.retained == |records|
  {
    var removed: seq<Removed> := [];
    var severed: seq<Severed> := [];
    var retained := 0;
    for i := 0 to |records|
      invariant |removed| + retained == i
      invariant removed == Picked(records[..i], PickRemoved(dead))
      invariant severed == Picked(records[..i], PickSevered(dead))
    {
      var record := records[i];
      assert records[..i + 1] == records[..i] + [record];
      PickedStep(records[..i], record, PickRemoved(dead));
      PickedStep(records[..i], record, PickSevered(dead));
      if record.id in dead {
        removed := removed + [Removed(record.id, record.kind, if Withdrawn(record) then Revoked else SupersededRecord)];
        continue;
      }
      retained := retained + 1;
      if record.supersedes.Some? && record.supersedes.value in dead {
        severed := severed + [Severed(record.id, record.kind, record.supersedes.value)];
      }
    }
    assert records[..|records|] == records;
    plan := Plan(removed, severed, retained);
  }

  function CutLink(r: Record, removed: set<Id>): (now: Record)
    ensures Carries(r, now)
  {
    if r.supersedes.Some? && r.supersedes.value in removed then Unlinked(r) else r
  }

  /** The ledger after compaction: dead records gone, links into them cut. */
  function RewriteBy(rs: seq<Record>, removed: set<Id>): (kept: seq<Record>)
    ensures forall r :: r in kept ==> exists was :: was in rs && was.id !in removed && Carries(was, r)
  {
    if rs == [] then []
    else
      var record := rs[0];
      var rest := RewriteBy(rs[1..], removed);
      if record.id in removed then rest
      else [CutLink(record, removed)] + rest
  }

  function Rewrite(rs: seq<Record>): seq<Record> {
    RewriteBy(rs, DeadIds(rs))
  }

  lemma {:induction false} RewriteByMembers(rs: seq<Record>, removed: set<Id>, r: Record)
    requires r in rs && r.id !in removed
    ensures CutLink(r, removed) in RewriteBy(rs, removed)
  {
    if rs[0] != r {
      RewriteByMembers(rs[1..], removed, r);
    }
  }

  lemma {:induction false} RewriteByCuts(rs: seq<Record>, removed: set<Id>)
    ensures forall now :: now in RewriteBy(rs, removed) ==>
      now.id !in removed && (now.supersedes.Some? ==> now.supersedes.value !in removed)
    ensures forall now :: now in RewriteBy(rs, removed) && now.supersedes.Some? ==>
      exists was :: was in rs && was == now
  {
    if rs != [] {
      RewriteByCuts(rs[1..], removed);
      assert forall was :: was in rs[1..] ==> was in rs;
    }
  }

  /** The ids kept are exactly the ids not removed. */
  lemma RewriteIds(rs: seq<Record>)
    ensures Ids(Rewrite(rs)) == Ids(rs) - DeadIds(rs)
  {
    var dead := DeadIds(rs);
    RewriteByCuts(rs, dead);
    forall id | id in Ids(rs) - dead ensures id in Ids(Rewrite(rs)) {
      var r :| r in rs && r.id == id;
      RewriteByMembers(rs, dead, r);
    }
  }

  lemma {:induction false} RewriteByLive(all: seq<Record>, rs: seq<Record>)
    requires UniqueIds(all) && KnownLinks(all)
    requires forall r :: r in rs ==> r in all
    ensures RewriteBy(rs, DeadIds(all)) == UnlinkAll(LiveIn(all, rs))
  {
    if rs != [] {
      var r := rs[0];
      DeadById(all, r);
      RewriteByLive(all, rs[1..]);
      if r.supersedes.Some? {
        var target :| target in all && target.id == r.supersedes.value;
        assert Dead(all, target);
        assert r.supersedes.value in DeadIds(all);
      } else {
        assert Unlinked(r) == r;
      }
      var live := LiveIn(all, rs);
      if !Dead(all, r) {
        assert live[1..] == LiveIn(all, rs[1..]);
      }
    }
  }

  /** Compaction keeps exactly the live records, in order, payloads untouched,
      and leaves no link at all. */
  lemma KeepsExactlyTheLive(rs: seq<Record>)
    requires UniqueIds(rs) && KnownLinks(rs)
    ensures Rewrite(rs) == UnlinkAll(Live(rs))
    ensures |Rewrite(rs)| == |Live(rs)|
    ensures forall i :: 0 <= i < |Live(rs)| ==>
      var was, now := Live(rs)[i], Rewrite(rs)[i];
      && now.id == was.id && now.kind == was.kind && now.month == was.month && now.payload == was.payload
      && now.tags == was.tags && now.supersedes == None
  {
    RewriteByLive(rs, rs);
  }

  /** A kept link survives exactly when it points outside the ledger, so the
      promise of no dangling link is the promise of no unknown target. */
  lemma LinkSurvivesIffUnknown(rs: seq<Record>, r: Record)
    requires r in rs && r.id !in DeadIds(rs) && r.supersedes.Some?
    ensures r in Rewrite(rs) <==> r.supersedes.value !in Ids(rs)
  {
    var dead := DeadIds(rs);
    var target := r.supersedes.value;
    assert Superseded(rs, target);
    RewriteByCuts(rs, dead);
    if target in Ids(rs) {
      var t :| t in rs && t.id == target;
      assert Dead(rs, t);
      assert target in dead;
    } else {
      RewriteByMembers(rs, dead, r);
    }
  }

  /** A compacted ledger has nothing dead in it, whatever it was made from. */
  lemma NothingDeadAfterRewrite(rs: seq<Record>)
    ensures DeadIds(Rewrite(rs)) == {}
  {
    var kept, dead := Rewrite(rs), DeadIds(rs);
    RewriteByCuts(rs, dead);
    forall now | now in kept ensures !Dead(kept, now) {
      var was :| was in rs && was.id !in dead && Carries(was, now);
      assert !Dead(rs, was);
      assert Withdrawn(now) == Withdrawn(was);
      assert forall later :: later in kept && later.supersedes.Some? ==> later in rs;
      assert !Superseded(rs, was.id);
    }
  }

  /** Compacting twice removes and severs nothing the second time. */
  lemma SecondPlanIsEmpty(rs: seq<Record>, plan: Plan)
    requires Describes(plan, Rewrite(rs))
    ensures plan.removed == [] && plan.severed == []
  {
    NothingDeadAfterRewrite(rs);
    NonePicked(Rewrite(rs), PickRemoved({}));
    NonePicked(Rewrite(rs), PickSevered({}));
  }

  lemma {:induction false} RewriteByUnique(rs: seq<Record>, removed: set<Id>)
    requires UniqueIds(rs)
    ensures UniqueIds(RewriteBy(rs, removed))
  {
    if rs != [] {
      assert forall i, j :: 0 <= i < j < |rs[1..]| ==> rs[1..][i].id != rs[1..][j].id;
      RewriteByUnique(rs[1..], removed);
      var rest, out := RewriteBy(rs[1..], removed), RewriteBy(rs, removed);
      if rs[0].id !in removed {
        forall j | 1 <= j < |out| ensures out[0].id != out[j].id {
          assert out[j] == rest[j - 1] && rest[j - 1] in rest;
          var was :| was in rs[1..] && was.id == rest[j - 1].id;
          var k :| 0 <= k < |rs[1..]| && rs[1..][k] == was;
          assert rs[0].id != rs[k + 1].id;
        }
        assert forall i, j :: 1 <= i < j < |out| ==> out[i] == rest[i - 1] && out[j] == rest[j - 1];
      }
    }
  }

  /** The graph a compaction leaves is again one lifecycle validation accepts. */
  lemma RewriteIsWellFormed(rs: seq<Record>)
    requires UniqueIds(rs) && KnownLinks(rs)
    ensures UniqueIds(Rewrite(rs)) && KnownLinks(Rewrite(rs))
  {
    RewriteByUnique(rs, DeadIds(rs));
    KeepsExactlyTheLive(rs);
    assert forall r :: r in Rewrite(rs) ==> r.supersedes == None;
  }

  // ---------------------------------------------------------------------
  // Status counts (command/status/counts)
  // ---------------------------------------------------------------------

  datatype Counts = Counts(records: nat, live: nat, dead: nat, superseded: nat, revoked: nat, overlap: nat)

  ghost function Tally(rs: seq<Record>, p: Record -> bool): nat {
    if rs == [] then 0 else Tally(rs[..|rs| - 1], p) + if p(rs[|rs| - 1]) then 1 else 0
  }

  lemma TallyStep(rs: seq<Record>, r: Record, p: Record -> bool)
    ensures Tally(rs + [r], p) == Tally(rs, p) + if p(r) then 1 else 0
  {
    assert (rs + [r])[..|rs|] == rs;
  }

  lemma LiveGrows(records: seq<Record>, i: nat)
    requires i < |records|
    ensures |LiveIn(records, records[..i + 1])| == |LiveIn(records, records[..i])| +
      if records[i].id in Replaced(records) || Withdrawn(records[i]) then 0 else 1
  {
    assert records[..i + 1] == records[..i] + [records[i]];
    LiveInStep(records, records[..i], records[i]);
  }

  method CountsOf(records: seq<Record>) returns (counts: Counts)
    ensures counts.records == |records|
    ensures counts.live == |Live(records)| && counts.live + counts.dead == |records|
    ensures counts.superseded == Tally(records, (r: Record) => r.id in Replaced(records))
    ensures counts.revoked == Tally(records, (r: Record) => Withdrawn(r))
    ensures counts.overlap == Tally(records, (r: Record) => r.id in Replaced(records) && Withdrawn(r))
  {
    var replaced := Replaced(records);
    ghost var isReplaced := (r: Record) => r.id in Replaced(records);
    ghost var isWithdrawn := (r: Record) => Withdrawn(r);
    ghost var isBoth := (r: Record) => r.id in Replaced(records) && Withdrawn(r);
    var superseded, revoked, overlap := 0, 0, 0;
    for i := 0 to |records|
      invariant overlap <= superseded && overlap <= revoked
      invariant superseded == Tally(records[..i], isReplaced)
      invariant revoked == Tally(records[..i], isWithdrawn)
      invariant overlap == Tally(records[..i], isBoth)
      invariant superseded + revoked - overlap + |LiveIn(records, records[..i])| == i
    {
      LiveGrows(records, i);
      var record := records[i];
      var isSuperseded := record.id in replaced;
      var isRevoked := Withdrawn(record);
      assert records[..i + 1] == records[..i] + [record];
      TallyStep(records[..i], record, isReplaced);
      TallyStep(records[..i], record, isWithdrawn);
      TallyStep(records[..i], record, isBoth);
      superseded := superseded + if isSuperseded then 1 else 0;
      revoked := revoked + if isRevoked then 1 else 0;
      overlap := overlap + if isSuperseded && isRevoked then 1 else 0;
    }
    assert records[..|records|] == records;
    var dead := superseded + revoked - overlap;
    counts := Counts(|records|, |records| - dead, dead, superseded, revoked, overlap);
  }

  /** The status report and the compaction report name the same numbers. */
  method PlanAgreesWithStatus(records: seq<Record>) returns (plan: Plan, counts: Counts)
    requires UniqueIds(records)
    ensures Describes(plan, records)
    ensures |plan.removed| == counts.dead && plan.retained == counts.live
  {
    plan := Build(records);
    counts := CountsOf(records);
  }

  // ---------------------------------------------------------------------
  // Vector corpus (vector/coverage)
  // ---------------------------------------------------------------------

  predicate Embeddable(r: Record) {
    r.kind != AUDIT_TYPE && r.kind != AUDIT_TYPE_V2
  }

  /** An empty filter is the absence of one. */
  predicate Wanted(embedTypes: seq<string>, kind: string) {
    embedTypes == [] || kind in embedTypes
  }

  /** Whether a record is indexed, given which ids are dead. */
  predicate Indexed(dead: set<Id>, embedTypes: seq<string>, r: Record) {
    r.id !in dead && Embeddable(r) && Wanted(embedTypes, r.kind)
  }

  ghost predicate InCorpus(rs: seq<Record>, embedTypes: seq<string>, r: Record) {
    r in rs && Indexed(DeadIds(rs), embedTypes, r)
  }

  /** Some live record of this id is of a type the filter leaves out. */
  ghost predicate Skipped(rs: seq<Record>, dead: set<Id>, embedTypes: seq<string>, id: Id) {
    exists r :: r in rs && r.id == id && id !in dead && Embeddable(r) && !Wanted(embedTypes, r.kind)
  }

  datatype Corpus = Corpus(records: seq<(Record, string)>, history: set<Id>, skippedByType: nat)

  /** A record the index may hold: of a type named by the filter, when there is one, and
      never one of the two audit types. */
  ghost predicate MayIndex(embedTypes: seq<string>, r: Record) {
    && r.kind != "equill.governance.v1" && r.kind != "equill.governance.v2"
    && (embedTypes == [] || r.kind in embedTypes)
  }

  ghost predicate FilteredOut(embedTypes: seq<string>, r: Record) {
    && r.kind != "equill.governance.v1" && r.kind != "equill.governance.v2"
    && embedTypes != [] && r.kind !in embedTypes
  }

  /** The corpus of a ledger without repeats: the live records the index may hold, with
      their digests; the history is what is dead and what the filter leaves out, and the
      latter are counted. */
  ghost predicate CorpusIs(corpus: Corpus, all: seq<Record>, digests: map<Id, string>, embedTypes: seq<string>) {
    && (forall r, digest :: (r, digest) in corpus.records <==>
          r in all && Alive(all, r) && MayIndex(embedTypes, r) && r.id in digests && digest == digests[r.id])
    && (forall r :: r in all ==>
          (r.id in corpus.history <==> !Alive(all, r) || FilteredOut(embedTypes, r)))
    && corpus.skippedByType == |set r | r in all && Alive(all, r) && FilteredOut(embedTypes, r)|
  }

  ghost predicate ById(entries: seq<(Record, string)>) {
    forall i, j :: 0 <= i < j < |entries| ==> entries[i].0.id <= entries[j].0.id
  }

  /** A type added to a filter adds exactly the live records of that type. */
  lemma FilterGrows(all: seq<Record>, digests: map<Id, string>, embedTypes: seq<string>, kind: string,
                    was: Corpus, now: Corpus)
    requires CorpusIs(was, all, digests, embedTypes) && CorpusIs(now, all, digests, embedTypes + [kind])
    requires embedTypes != [] && kind != "equill.governance.v1" && kind != "equill.governance.v2"
    ensures forall r, digest :: (r, digest) in now.records <==>
      (r, digest) in was.records
      || (r in all && Alive(all, r) && r.kind == kind && r.id in digests && digest == digests[r.id])
  {
    assert forall name :: name in embedTypes + [kind] <==> name in embedTypes || name == kind;
  }

  lemma AliveById(all: seq<Record>, r: Record)
    requires UniqueIds(all) && r in all
    ensures Alive(all, r) <==> r.id !in DeadIds(all)
  {
    DeadMeans(all);
    DeadById(all, r);
  }

  ghost function ChosenOf(all: seq<Record>, pick: Record -> Option<Record>): set<Record> {
    set r | r in all && pick(r).Some?
  }

  lemma ChosenStep(init: seq<Record>, last: Record, pick: Record -> Option<Record>)
    ensures ChosenOf(init + [last], pick) == ChosenOf(init, pick) + if pick(last).Some? then {last} else {}
  {
  }

  lemma {:induction false} PickedOnce(all: seq<Record>, pick: Record -> Option<Record>)
    requires UniqueIds(all)
    ensures |Picked(all, pick)| == |ChosenOf(all, pick)|
  {
    if all != [] {
      var init, last := all[..|all| - 1], all[|all| - 1];
      assert all == init + [last];
      PickedOnce(init, pick);
      forall i | 0 <= i < |init| ensures init[i] != last {
        assert all[i].id != all[|all| - 1].id;
      }
      ChosenStep(init, last, pick);
    }
  }

  lemma CorpusIsSo(all: seq<Record>, digests: map<Id, string>, embedTypes: seq<string>, corpus: Corpus)
    requires UniqueIds(all)
    requires forall r, digest :: (r, digest) in corpus.records <==>
      InCorpus(all, embedTypes, r) && r.id in digests && digest == digests[r.id]
    requires forall id :: id in corpus.history <==> id in DeadIds(all) || Skipped(all, DeadIds(all), embedTypes, id)
    requires corpus.skippedByType == |Picked(all, PickSkipped(DeadIds(all), embedTypes))|
    ensures CorpusIs(corpus, all, digests, embedTypes)
  {
    var dead, pick := DeadIds(all), PickSkipped(DeadIds(all), embedTypes);
    forall r | r in all ensures Alive(all, r) <==> r.id !in dead {
      AliveById(all, r);
    }
    PickedOnce(all, pick);
    assert ChosenOf(all, pick) == (set r | r in all && Alive(all, r) && FilteredOut(embedTypes, r));
    forall r | r in all ensures r.id in corpus.history <==> !Alive(all, r) || FilteredOut(embedTypes, r) {
      if Skipped(all, dead, embedTypes, r.id) {
        var q :| q in all && q.id == r.id && r.id !in dead && Embeddable(q) && !Wanted(embedTypes, q.kind);
        SameRecord(all, q, r);
      }
    }
  }

  lemma SameRecord(all: seq<Record>, a: Record, b: Record)
    requires UniqueIds(all) && a in all && b in all && a.id == b.id
    ensures a == b
  {
    var i :| 0 <= i < |all| && all[i] == a;
    var j :| 0 <= j < |all| && all[j] == b;
    assert i == j;
  }

  predicate IdOrder(x: (Record, string), y: (Record, string)) {
    x.0.id <= y.0.id
  }

  ghost function PickIndexed(dead: set<Id>, embedTypes: seq<string>): Record -> Option<Record> {
    (r: Record) => if Indexed(dead, embedTypes, r) then Some(r) else None
  }

  ghost function PickSkipped(dead: set<Id>, embedTypes: seq<string>): Record -> Option<Record> {
    (r: Record) => if r.id !in dead && Embeddable(r) && !Wanted(embedTypes, r.kind) then Some(r) else None
  }

  ghost function PickDigested(digests: map<Id, string>): Record -> Option<(Record, string)> {
    (r: Record) => if r.id in digests then Some((r, digests[r.id])) else None
  }

  /** An indexed line with its digest. */
  ghost function PickEntry(dead: set<Id>, embedTypes: seq<string>, digests: map<Id, string>)
    : Record -> Option<(Record, string)>
  {
    (r: Record) => if Indexed(dead, embedTypes, r) && r.id in digests then Some((r, digests[r.id])) else None
  }

  lemma EntriesMean(all: seq<Record>, embedTypes: seq<string>, digests: map<Id, string>, entries: seq<(Record, string)>)
    requires multiset(entries) == multiset(Picked(all, PickEntry(DeadIds(all), embedTypes, digests)))
    ensures forall r, digest :: (r, digest) in entries <==>
      InCorpus(all, embedTypes, r) && r.id in digests && digest == digests[r.id]
  {
    var pick := PickEntry(DeadIds(all), embedTypes, digests);
    PickedMeans(all, pick);
    Sorting.SameMembers(entries, Picked(all, pick));
    forall r, digest
      ensures (r, digest) in Picked(all, pick) <==>
        InCorpus(all, embedTypes, r) && r.id in digests && digest == digests[r.id]
    {
      assert r in all && pick(r) == Some((r, digest)) ==> (r, digest) in Picked(all, pick);
    }
  }

  lemma IndexedMeans(all: seq<Record>, embedTypes: seq<string>)
    ensures forall r :: r in Picked(all, PickIndexed(DeadIds(all), embedTypes)) <==> InCorpus(all, embedTypes, r)
  {
    var pick := PickIndexed(DeadIds(all), embedTypes);
    PickedMeans(all, pick);
    forall r ensures r in Picked(all, pick) <==> InCorpus(all, embedTypes, r) {
      assert r in all && pick(r) == Some(r) ==> r in Picked(all, pick);
    }
  }

  lemma SkippedMeans(all: seq<Record>, embedTypes: seq<string>)
    ensures forall id ::
      id in Ids(Picked(all, PickSkipped(DeadIds(all), embedTypes))) <==> Skipped(all, DeadIds(all), embedTypes, id)
  {
    var pick := PickSkipped(DeadIds(all), embedTypes);
    PickedMeans(all, pick);
    forall id ensures id in Ids(Picked(all, pick)) <==> Skipped(all, DeadIds(all), embedTypes, id) {
      forall r | r in all && pick(r) == Some(r) ensures r in Picked(all, pick) {}
    }
  }

  /** Takes the corpus from a snapshot: each indexed line once, by id, with its digest;
      None when one of them has none. */
  method FromSnapshot(all: seq<Record>, digests: map<Id, string>, embedTypes: seq<string>)
    returns (corpus: Option<Corpus>)
    ensures corpus.None? <==> exists r :: InCorpus(all, embedTypes, r) && r.id !in digests
    ensures corpus.Some? ==>
      && Sorting.Sorted(corpus.value.records, IdOrder)
      && multiset(corpus.value.records) == multiset(Picked(all, PickEntry(DeadIds(all), embedTypes, digests)))
    ensures corpus.Some? ==>
      forall r, digest :: (r, digest) in corpus.value.records <==>
        InCorpus(all, embedTypes, r) && r.id in digests && digest == digests[r.id]
    ensures corpus.Some? ==>
      forall id :: id in corpus.value.history <==> id in DeadIds(all) || Skipped(all, DeadIds(all), embedTypes, id)
    ensures corpus.Some? ==> corpus.value.skippedByType == |Picked(all, PickSkipped(DeadIds(all), embedTypes))|
    ensures corpus.Some? && UniqueIds(all) ==> CorpusIs(corpus.value, all, digests, embedTypes)
    ensures corpus.Some? ==> ById(corpus.value.records)
  {
    var dead := DeadIds(all);
    var validated, history, skipped := Sift(all, dead, embedTypes);
    IndexedMeans(all, embedTypes);
    SkippedMeans(all, embedTypes);
    var records := Digested(validated, digests);
    if records.None? {
      return None;
    }
    PickedTwice(all, PickIndexed(dead, embedTypes), PickDigested(digests), PickEntry(dead, embedTypes, digests));
    var sorted := Sorting.Sort(records.value, IdOrder);
    Sorting.SortSorts(records.value, IdOrder);
    EntriesMean(all, embedTypes, digests, sorted);
    corpus := Some(Corpus(sorted, history, skipped));
    assert forall i, j :: 0 <= i < j < |sorted| ==> IdOrder(sorted[i], sorted[j]);
    if UniqueIds(all) {
      CorpusIsSo(all, digests, embedTypes, corpus.value);
    }
  }

  method Sift(all: seq<Record>, dead: set<Id>, embedTypes: seq<string>)
    returns (validated: seq<Record>, history: set<Id>, skipped: nat)
    ensures validated == Picked(all, PickIndexed(dead, embedTypes))
    ensures skipped == |Picked(all, PickSkipped(dead, embedTypes))|
    ensures history == dead + Ids(Picked(all, PickSkipped(dead, embedTypes)))
  {
    validated, history, skipped := [], dead, 0;
    for i := 0 to |all|
      invariant validated == Picked(all[..i], PickIndexed(dead, embedTypes))
      invariant skipped == |Picked(all[..i], PickSkipped(dead, embedTypes))|
      invariant history == dead + Ids(Picked(all[..i], PickSkipped(dead, embedTypes)))
    {
      var record := all[i];
      assert all[..i + 1] == all[..i] + [record];
      PickedStep(all[..i], record, PickIndexed(dead, embedTypes));
      PickedStep(all[..i], record, PickSkipped(dead, embedTypes));
      if Embeddable(record) && record.id !in dead {
        if Wanted(embedTypes, record.kind) {
          validated := validated + [record];
        } else {
          skipped := skipped + 1;
          history := history + {record.id};
        }
      }
    }
    assert all[..|all|] == all;
  }

  method Digested(validated: seq<Record>, digests: map<Id, string>) returns (records: Option<seq<(Record, string)>>)
    ensures records.None? <==> exists r :: r in validated && r.id !in digests
    ensures records.Some? ==> records.value == Picked(validated, PickDigested(digests))
  {
    var done: seq<(Record, string)> := [];
    for i := 0 to |validated|
      invariant done == Picked(validated[..i], PickDigested(digests))
      invariant forall k :: 0 <= k < i ==> validated[k].id in digests
    {
      assert validated[..i + 1] == validated[..i] + [validated[i]];
      PickedStep(validated[..i], validated[i], PickDigested(digests));
      if validated[i].id !in digests {
        return None;
      }
      done := done + [(validated[i], digests[validated[i].id])];
    }
    assert validated[..|validated|] == validated;
    records := Some(done);
  }

  ghost function CorpusIds(rs: seq<Record>, embedTypes: seq<string>): set<Id> {
    var dead := DeadIds(rs);
    set r | r in rs && Indexed(dead, embedTypes, r) :: r.id
  }

  /** The index is asked for the same records before and after a compaction, so
      no surviving point is lost and none is recomputed under a new id. */
  lemma CorpusSurvivesCompaction(rs: seq<Record>, embedTypes: seq<string>)
    ensures CorpusIds(Rewrite(rs), embedTypes) == CorpusIds(rs, embedTypes)
  {
    var dead, kept := DeadIds(rs), Rewrite(rs);
    NothingDeadAfterRewrite(rs);
    RewriteByCuts(rs, dead);
    forall r | r in rs && Indexed(dead, embedTypes, r) ensures r.id in CorpusIds(kept, embedTypes) {
      RewriteByMembers(rs, dead, r);
      assert Indexed({}, embedTypes, CutLink(r, dead));
    }
    forall now | now in kept && Indexed({}, embedTypes, now) ensures now.id in CorpusIds(rs, embedTypes) {
      var was :| was in rs && was.id !in dead && Carries(was, now);
      assert Indexed(dead, embedTypes, was);
    }
  }
}
