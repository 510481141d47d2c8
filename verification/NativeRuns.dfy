/** What every run of compactions, crashes, recoveries and writers keeps. */
module NativeRuns {
  import opened Ledger
  import opened CompactionPlan
  import opened Shards
  import opened NativeDisk

  // ---------------------------------------------------------------------
  // One step
  // ---------------------------------------------------------------------

  lemma {:induction false} RewriteByMonths(rs: seq<Record>, removed: set<Id>)
    requires MonthOrdered(rs)
    ensures MonthOrdered(RewriteBy(rs, removed))
  {
    if rs != [] {
      assert MonthOrdered(rs[1..]);
      RewriteByMonths(rs[1..], removed);
      var rest := RewriteBy(rs[1..], removed);
      forall j | 0 <= j < |rest| ensures rs[0].month <= rest[j].month {
        assert rest[j] in rest;
        var was :| was in rs[1..] && Carries(was, rest[j]);
        var k :| 0 <= k < |rs[1..]| && rs[1..][k] == was;
        assert rs[k + 1] == was;
      }
    }
  }

  /** Reading the staged copy back gives exactly the rewritten ledger. */
  lemma StagedReadsBack(files: Directory)
    requires Filed(files)
    ensures Contents(StagedRecords(files)) == Rewrite(Contents(files))
  {
    BeforeOrdered(files, Beyond(files.Keys));
    RewriteByMonths(Contents(files), DeadIds(Contents(files)));
    GroupedReadsBack(Rewrite(Contents(files)));
  }

  lemma AppendKeepsSound(files: Directory, r: Record)
    requires Filed(files) && Sound(Contents(files))
    requires r.id !in Ids(Contents(files))
    requires r.supersedes.Some? ==> r.supersedes.value in Ids(Contents(files))
    ensures Filed(AppendTo(files, r)) && Sound(Contents(AppendTo(files, r)))
    ensures forall q :: q in Contents(AppendTo(files, r)) <==> q in Contents(files) || q == r
  {
    var front, back := AppendSplits(files, r);
    var before, after := front + back, front + [r] + back;
    assert forall q :: q in after <==> q in before || q == r;
    InsertKeepsUnique(front, back, r);
    assert forall id :: id in Ids(before) ==> id in Ids(after);
  }

  lemma InsertKeepsUnique(front: seq<Record>, back: seq<Record>, r: Record)
    requires UniqueIds(front + back) && r.id !in Ids(front + back)
    ensures UniqueIds(front + [r] + back)
  {
    var before, after := front + back, front + [r] + back;
    forall i, j | 0 <= i < j < |after| ensures after[i].id != after[j].id {
      if i != |front| && j != |front| {
        assert before[if i < |front| then i else i - 1].id != before[if j < |front| then j else j - 1].id;
      } else {
        assert after[if i == |front| then j else i] in before;
      }
    }
  }

  lemma GrowsWithAppend(base: Directory, files: Directory, r: Record)
    requires Grows(base, files)
    ensures Grows(base, AppendTo(files, r))
  {
  }

  lemma AppendKeepsInv(d: Disk, r: Record, d': Disk)
    requires Inv(d) && Next(d, Append(r), d')
    ensures Inv(d')
  {
    var files := d.records.current.value;
    AppendKeepsSound(files, r);
    if d.journal.Some? {
      if RecordsPending(d) {
        GrowsWithAppend(d.origin.records, files, r);
        assert RecordsPending(d');
      } else {
        GrowsWithAppend(StagedRecords(d.origin.records), files, r);
        assert RecordsPublished(d');
      }
    }
  }

  lemma AttestKeepsInv(d: Disk, id: Id, receipt: Receipt, d': Disk)
    requires Inv(d) && Next(d, Attest(id, receipt), d')
    ensures Inv(d')
  {
    if d.journal.Some? {
      if ReceiptsPending(d) {
        assert ReceiptsPending(d');
      } else if ReceiptsBetween(d) {
        assert ReceiptsBetween(d');
      } else {
        assert ReceiptsPublished(d');
      }
      assert RecordsPublished(d) ==> RecordsPublished(d');
    }
  }

  lemma JournalKeepsInv(d: Disk, condemned: seq<Id>, d': Disk)
    requires Inv(d) && Next(d, WriteJournal(condemned), d')
    ensures Inv(d')
  {
    assert RecordsPending(d');
    if d.receipts.current.Some? {
      assert ReceiptsPending(d');
    } else {
      assert ReceiptsAbsent(d');
    }
  }

  lemma AsideKeepsInv(d: Disk, step: Step, d': Disk)
    requires Inv(d) && Next(d, Aside(step), d')
    ensures Inv(d')
  {
    match step
    case RecordsStep =>
      MeasureRevealsAppends(d.origin.records, d.records.current.value);
      assert RecordsBetween(d');
      assert ReceiptsPending(d) ==> ReceiptsPending(d');
    case ReceiptsStep =>
      MeasureRevealsReceipts(d.origin.receipts.value, d.receipts.current.value);
      assert ReceiptsBetween(d') && RecordsPublished(d');
  }

  lemma ArriveKeepsInv(d: Disk, step: Step, d': Disk)
    requires Inv(d) && Next(d, Arrive(step), d')
    ensures Inv(d')
  {
    match step
    case RecordsStep =>
      StagedReadsBack(d.origin.records);
      RewriteIsWellFormed(Contents(d.origin.records));
      assert RecordsPublished(d');
    case ReceiptsStep =>
      assert ReceiptsPublished(d') && RecordsPublished(d');
  }

  lemma RestoreKeepsInv(d: Disk, step: Step, d': Disk)
    requires Inv(d) && Next(d, Restore(step), d')
    ensures Inv(d')
  {
    match step
    case RecordsStep => assert RecordsPending(d');
    case ReceiptsStep => assert ReceiptsPending(d') && RecordsPublished(d');
  }

  lemma StepKeepsInv(d: Disk, e: Event, d': Disk)
    requires Inv(d) && Next(d, e, d')
    ensures Inv(d')
  {
    match e
    case Append(r) => AppendKeepsInv(d, r, d');
    case Attest(id, receipt) => AttestKeepsInv(d, id, receipt, d');
    case WriteJournal(condemned) => JournalKeepsInv(d, condemned, d');
    case Aside(step) => AsideKeepsInv(d, step, d');
    case Arrive(step) => ArriveKeepsInv(d, step, d');
    case Restore(step) => RestoreKeepsInv(d, step, d');
    case _ =>
  }

  // ---------------------------------------------------------------------
  // Whole runs
  // ---------------------------------------------------------------------

  /** A store nobody has compacted yet. */
  ghost predicate Fresh(d: Disk) {
    && d.journal.None?
    && d.records.current.Some? && Filed(d.records.current.value) && Sound(Contents(d.records.current.value))
    && d.records.backup.None? && d.receipts.backup.None?
  }

  lemma FreshIsSound(d: Disk)
    requires Fresh(d)
    ensures Inv(d)
  {
  }

  /** `history[i]` is the disk before `events[i]`; the last entry is the disk now. */
  ghost predicate Run(history: seq<Disk>, events: seq<Event>) {
    && |history| == |events| + 1
    && Fresh(history[0])
    && forall i :: 0 <= i < |events| ==> StepAt(history, events, i)
  }

  ghost predicate StepAt(history: seq<Disk>, events: seq<Event>, i: nat)
    requires i < |events| && |history| == |events| + 1
  {
    Next(history[i], events[i], history[i + 1])
  }

  lemma {:induction false} RunKeepsInv(history: seq<Disk>, events: seq<Event>, i: nat)
    requires Run(history, events) && i < |history|
    ensures Inv(history[i])
  {
    if i == 0 {
      FreshIsSound(history[0]);
    } else {
      RunKeepsInv(history, events, i - 1);
      assert StepAt(history, events, i - 1);
      StepKeepsInv(history[i - 1], events[i - 1], history[i]);
    }
  }

  /** Without a journal the ledger is live and nothing is set aside; and new
      receipts are never live beside the old ledger. */
  lemma WholeOrJournaled(history: seq<Disk>, events: seq<Event>, i: nat)
    requires Run(history, events) && i < |history|
    ensures history[i].journal.None? ==>
      history[i].records.current.Some? && history[i].records.backup.None? && history[i].receipts.backup.None?
    ensures history[i].journal.Some? && history[i].origin.receipts.Some? && Published(history[i].receipts) ==>
      Published(history[i].records)
  {
    RunKeepsInv(history, events, i);
  }

  /** The record is in the ledger, its link at most cut. */
  ghost predicate Held(d: Disk, r: Record) {
    exists now :: now in LedgerOf(d) && Carries(r, now)
  }

  /** This step publishes a compaction that finds the record dead. */
  ghost predicate PublishedDead(history: seq<Disk>, events: seq<Event>, k: nat, r: Record)
    requires k < |events| && |history| == |events| + 1
  {
    events[k] == Arrive(RecordsStep) &&
    exists was :: was in LedgerOf(history[k]) && Carries(r, was) && Dead(LedgerOf(history[k]), was)
  }

  /** One step loses a record only by publishing a ledger it was dead in. */
  lemma StepLosesOnlyTheDead(d: Disk, e: Event, d': Disk, r: Record)
    requires Inv(d) && Next(d, e, d') && r in LedgerOf(d)
    ensures Held(d', r) || (e == Arrive(RecordsStep) && Dead(LedgerOf(d), r))
  {
    match e
    case Append(q) =>
      AppendKeepsSound(d.records.current.value, q);
      assert r in LedgerOf(d') && Carries(r, r);
    case Arrive(RecordsStep) =>
      var rs := Contents(d.origin.records);
      StagedReadsBack(d.origin.records);
      DeadById(rs, r);
      if r.id !in DeadIds(rs) {
        RewriteByMembers(rs, DeadIds(rs), r);
        assert CutLink(r, DeadIds(rs)) in LedgerOf(d');
      }
    case Aside(RecordsStep) =>
      MeasureRevealsAppends(d.origin.records, d.records.current.value);
      assert r in LedgerOf(d') && Carries(r, r);
    case _ =>
      assert LedgerOf(d') == LedgerOf(d);
      assert r in LedgerOf(d') && Carries(r, r);
  }

  lemma LosesOnlyTheDeadAt(history: seq<Disk>, events: seq<Event>, k: nat, r: Record)
    requires Run(history, events) && k < |events| && r in LedgerOf(history[k])
    ensures Held(history[k + 1], r) || (events[k] == Arrive(RecordsStep) && Dead(LedgerOf(history[k]), r))
  {
    RunKeepsInv(history, events, k);
    assert StepAt(history, events, k);
    StepLosesOnlyTheDead(history[k], events[k], history[k + 1], r);
  }

  /** No record is ever lost: over any run, with crashes and writers anywhere,
      a record the ledger held is still there - its link at most cut - unless a
      compaction published at a moment it was superseded or withdrawn. */
  lemma {:induction false} NoRecordIsLost(history: seq<Disk>, events: seq<Event>, i: nat, j: nat, r: Record)
    requires Run(history, events) && i <= j < |history|
    requires r in LedgerOf(history[i])
    ensures Held(history[j], r) || exists k :: i <= k < j && PublishedDead(history, events, k, r)
    decreases j - i
  {
    if i == j {
      assert Carries(r, r);
    } else {
      NoRecordIsLost(history, events, i, j - 1, r);
      if Held(history[j - 1], r) {
        HeldUnlessCondemned(history, events, j - 1, r);
      }
    }
  }

  lemma HeldUnlessCondemned(history: seq<Disk>, events: seq<Event>, k: nat, r: Record)
    requires Run(history, events) && k < |events| && Held(history[k], r)
    ensures Held(history[k + 1], r) || PublishedDead(history, events, k, r)
  {
    var now :| now in LedgerOf(history[k]) && Carries(r, now);
    LosesOnlyTheDeadAt(history, events, k, now);
    if Held(history[k + 1], now) {
      var later :| later in LedgerOf(history[k + 1]) && Carries(now, later);
      assert Carries(r, later);
    }
  }
}
