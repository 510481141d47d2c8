/** When an interrupted compaction can be finished, and what finishing it yields. */
module NativeRecovery {
  import opened Ledger
  import opened CompactionPlan
  import opened Shards
  import opened NativeDisk
  import opened NativeRuns

  /** One directory's publication as recovery reads it from disk. */
  datatype Standing = Pending | Done | Interrupted | Unclear

  function StandingOf<D>(slot: Slot<D>): Standing {
    match (slot.current.Some?, slot.incoming.Some?, slot.backup.Some?)
    case (true, true, false) => Pending
    case (true, true, true) => Unclear
    case (true, false, _) => Done
    case (false, true, _) => Interrupted
    case (false, false, _) => Unclear
  }

  ghost predicate RecordsResumable(d: Disk)
    requires d.journal.Some?
  {
    match StandingOf(d.records)
    case Pending => MeasureRecords(d.records.current.value) == d.journal.value.source.records
    case Unclear => false
    case _ => true
  }

  ghost predicate ReceiptsResumable(d: Disk)
    requires d.journal.Some?
  {
    match StandingOf(d.receipts)
    case Pending => MeasureReceipts(d.receipts.current.value) == d.journal.value.source.receipts
    case Unclear => false
    case _ => true
  }

  ghost predicate Resumable(d: Disk) {
    d.journal.Some? && RecordsResumable(d) && ReceiptsResumable(d)
  }

  /** A writer touched a directory whose replacement is prepared but not live. */
  ghost predicate WritesUnpublished(d: Disk, e: Event) {
    || (e.Append? && d.records.incoming.Some?)
    || (e.Attest? && d.receipts.incoming.Some?)
  }

  /** Renames still owed before both directories are published. */
  ghost function Owed<D>(slot: Slot<D>): nat {
    if slot.incoming.None? then 0 else if slot.backup.Some? then 1 else 2
  }

  ghost function RenamesLeft(d: Disk): nat {
    Owed(d.records) + Owed(d.receipts)
  }

  lemma RecordsResumableIs(d: Disk)
    requires Inv(d) && d.journal.Some?
    ensures RecordsResumable(d) <==>
      (d.records.current.Some? && d.records.incoming.Some? ==> d.records.current.value == d.origin.records)
  {
    if RecordsPending(d) {
      MeasureRevealsAppends(d.origin.records, d.records.current.value);
    }
  }

  lemma ReceiptsResumableIs(d: Disk)
    requires Inv(d) && d.journal.Some? && d.origin.receipts.Some?
    ensures ReceiptsResumable(d) <==>
      (d.receipts.current.Some? && d.receipts.incoming.Some? ==>
         d.receipts.backup.None? && d.receipts.current == d.origin.receipts)
  {
    if ReceiptsPending(d) {
      MeasureRevealsReceipts(d.origin.receipts.value, d.receipts.current.value);
    }
  }

  lemma StepRecordsResumable(d: Disk, e: Event, d': Disk)
    requires Inv(d) && Next(d, e, d') && d.journal.Some? && d'.journal.Some?
    ensures RecordsResumable(d') <==> RecordsResumable(d) && !(e.Append? && d.records.incoming.Some?)
  {
    StepKeepsInv(d, e, d');
    RecordsResumableIs(d);
    RecordsResumableIs(d');
    if e.Append? && RecordsPending(d) {
      AppendOutgrows(d.origin.records, d.records.current.value, e.record);
    }
  }

  lemma StepReceiptsResumable(d: Disk, e: Event, d': Disk)
    requires Inv(d) && Next(d, e, d') && d.journal.Some? && d'.journal.Some? && d.origin.receipts.Some?
    ensures ReceiptsResumable(d') <==> ReceiptsResumable(d) && !(e.Attest? && d.receipts.incoming.Some?)
  {
    StepKeepsInv(d, e, d');
    ReceiptsResumableIs(d);
    ReceiptsResumableIs(d');
    if e.Attest? && ReceiptsPending(d) {
      AttestOutgrows(d.origin.receipts.value, d.receipts.current.value, e.id, e.receipt);
    }
  }

  lemma AppendOutgrows(base: Directory, files: Directory, r: Record)
    requires Grows(base, files)
    ensures AppendTo(files, r) != base
  {
    if r.month in base && r.month in files {
      assert |AppendTo(files, r)[r.month]| > |base[r.month]|;
    }
  }

  lemma AttestOutgrows(base: ReceiptFiles, files: ReceiptFiles, id: Id, receipt: Receipt)
    requires Gains(base, files) && id !in files
    ensures files[id := receipt] != base
  {
    assert id !in base;
  }

  lemma ResumableAt(history: seq<Disk>, events: seq<Event>, k: nat)
    requires Run(history, events) && k < |events|
    requires history[k].journal.Some? && history[k + 1].journal.Some? && history[k].origin.receipts.Some?
    ensures history[k + 1].origin == history[k].origin
    ensures Resumable(history[k + 1]) <==> Resumable(history[k]) && !WritesUnpublished(history[k], events[k])
  {
    RunKeepsInv(history, events, k);
    assert StepAt(history, events, k);
    StepRecordsResumable(history[k], events[k], history[k + 1]);
    StepReceiptsResumable(history[k], events[k], history[k + 1]);
  }

  lemma ResumableOnceWritten(history: seq<Disk>, events: seq<Event>, k: nat)
    requires Run(history, events) && k < |events| && events[k].WriteJournal? && history[k + 1].origin.receipts.Some?
    ensures Resumable(history[k + 1])
  {
    RunKeepsInv(history, events, k);
    assert StepAt(history, events, k);
  }

  /** Recovery can finish exactly when no writer reached a directory that was
      still waiting for its replacement. Writes to what is already published
      never stand in the way. */
  lemma {:induction false} ResumableIffNoLateWrite(history: seq<Disk>, events: seq<Event>, i: nat, j: nat)
    requires Run(history, events) && i <= j < |history|
    requires i > 0 && events[i - 1].WriteJournal? && history[i].origin.receipts.Some?
    requires forall k :: i <= k <= j ==> history[k].journal.Some?
    ensures history[j].origin == history[i].origin
    ensures Resumable(history[j]) <==> forall k :: i <= k < j ==> !WritesUnpublished(history[k], events[k])
    decreases j - i
  {
    if i == j {
      ResumableOnceWritten(history, events, i - 1);
    } else {
      ResumableIffNoLateWrite(history, events, i, j - 1);
      ResumableAt(history, events, j - 1);
    }
  }

  /** A store that had no receipts directory when it was staged is the one case with
      no late write where recovery does not know: it stays unclear until some
      receipt is committed, and that is all it then takes. */
  lemma WithoutReceiptsDirectory(d: Disk)
    requires Inv(d) && d.journal.Some? && d.origin.receipts.None?
    ensures StandingOf(d.receipts) == Unclear <==> d.receipts.current.None?
    ensures Resumable(d) <==> RecordsResumable(d) && d.receipts.current.Some?
  {
  }

  /** And it is reached by the shortest of runs: stage, journal, die. */
  lemma ReceiptlessStoreIsUnclear(d: Disk, condemned: seq<Id>) returns (history: seq<Disk>, events: seq<Event>)
    requires Fresh(d) && d.receipts == Slot(None, None, None) && d.records.incoming.None?
    requires (set id | id in condemned) == DeadIds(LedgerOf(d))
    ensures Run(history, events) && history[0] == d && |events| == 2
    ensures history[2].journal.Some? && !Resumable(history[2])
  {
    var shadow := StagedRecords(d.records.current.value);
    events := [Prepare(shadow, None), WriteJournal(condemned)];
    var staged := Apply(d, events[0]);
    history := [d, staged, Apply(staged, events[1])];
    assert StepAt(history, events, 0);
    assert StepAt(history, events, 1);
  }

  /** Every rename a recovery makes brings it one closer, nothing but an undone
      rename takes it further away, and with none left both directories are out. */
  lemma RenamesOnlyRunOut(d: Disk, e: Event, d': Disk)
    requires Inv(d) && Next(d, e, d') && d.journal.Some?
    ensures e.Aside? || e.Arrive? ==> RenamesLeft(d') == RenamesLeft(d) - 1
    ensures !e.Aside? && !e.Arrive? && !e.Restore? ==> RenamesLeft(d') == RenamesLeft(d)
    ensures Resumable(d) && RenamesLeft(d) == 0 ==> Published(d.records) && Published(d.receipts)
  {
    match e
    case Aside(step) =>
    case Arrive(step) =>
    case _ =>
  }

  /** A resumable store always has a rename it can make, until there is none left. */
  lemma NeverStuck(d: Disk)
    requires Inv(d) && Resumable(d) && RenamesLeft(d) > 0
    ensures exists step :: Enabled(d, Aside(step)) || Enabled(d, Arrive(step))
  {
    if d.records.incoming.Some? {
      assert Enabled(d, Aside(RecordsStep)) || Enabled(d, Arrive(RecordsStep));
    } else {
      assert Enabled(d, Aside(ReceiptsStep)) || Enabled(d, Arrive(ReceiptsStep));
    }
  }

  /** The records appended by `events[i..j]`. */
  ghost function Appended(events: seq<Event>, i: nat, j: nat): multiset<Record>
    requires i <= j <= |events|
    decreases j - i
  {
    if i == j then multiset{}
    else Appended(events, i, j - 1) + if events[j - 1].Append? then multiset{events[j - 1].record} else multiset{}
  }

  lemma StepLedger(d: Disk, e: Event, d': Disk)
    requires Inv(d) && Next(d, e, d')
    ensures e == Arrive(RecordsStep) ==> LedgerOf(d') == Rewrite(LedgerOf(d))
    ensures e.Append? ==> multiset(LedgerOf(d')) == multiset(LedgerOf(d)) + multiset{e.record}
    ensures e != Arrive(RecordsStep) && !e.Append? ==> LedgerOf(d') == LedgerOf(d)
  {
    match e
    case Append(q) =>
      var front, back := AppendSplits(d.records.current.value, q);
    case Arrive(RecordsStep) => StagedReadsBack(d.origin.records);
    case Aside(RecordsStep) => MeasureRevealsAppends(d.origin.records, d.records.current.value);
    case _ =>
  }

  lemma LedgerAt(history: seq<Disk>, events: seq<Event>, k: nat)
    requires Run(history, events) && k < |events|
    ensures events[k] == Arrive(RecordsStep) ==>
      LedgerOf(history[k + 1]) == Rewrite(LedgerOf(history[k])) && Sound(LedgerOf(history[k]))
    ensures events[k].Append? ==>
      multiset(LedgerOf(history[k + 1])) == multiset(LedgerOf(history[k])) + multiset{events[k].record}
    ensures events[k] != Arrive(RecordsStep) && !events[k].Append? ==> LedgerOf(history[k + 1]) == LedgerOf(history[k])
  {
    RunKeepsInv(history, events, k);
    assert StepAt(history, events, k);
    StepLedger(history[k], events[k], history[k + 1]);
  }

  /** Publishing replaces the ledger by its live records, their links cut. */
  lemma PublishingCompacts(history: seq<Disk>, events: seq<Event>, k: nat)
    requires Run(history, events) && k < |events| && events[k] == Arrive(RecordsStep)
    ensures LedgerOf(history[k + 1]) == UnlinkAll(Live(LedgerOf(history[k])))
  {
    LedgerAt(history, events, k);
    KeepsExactlyTheLive(LedgerOf(history[k]));
  }

  /** From the moment a compacted ledger is published - or from any other moment
      on, until the next one is - the ledger is what it was plus exactly the
      records appended since. */
  lemma {:induction false} ExactlyTheAppends(history: seq<Disk>, events: seq<Event>, i: nat, j: nat)
    requires Run(history, events) && i <= j < |history|
    requires forall k :: i <= k < j ==> events[k] != Arrive(RecordsStep)
    ensures multiset(LedgerOf(history[j])) == multiset(LedgerOf(history[i])) + Appended(events, i, j)
    decreases j - i
  {
    if i < j {
      ExactlyTheAppends(history, events, i, j - 1);
      LedgerAt(history, events, j - 1);
    }
  }

  // ---------------------------------------------------------------------
  // Receipts
  // ---------------------------------------------------------------------

  lemma {:induction false} ReattestedIs(kept: seq<Record>, r: Record, receipt: Receipt)
    requires UniqueIds(kept) && r in kept
    ensures Reattested(kept, r.id, receipt) == receipt.(attests := Sha256(r))
  {
    var last := kept[|kept| - 1];
    if last.id != r.id {
      assert r in kept[..|kept| - 1] by {
        var k :| 0 <= k < |kept| && kept[k] == r;
        assert kept[..|kept| - 1][k] == r;
      }
      ReattestedIs(kept[..|kept| - 1], r, receipt);
    } else {
      var k :| 0 <= k < |kept| && kept[k] == r;
      assert k == |kept| - 1;
    }
  }

  /** Staging leaves every kept receipt attesting the line now in the ledger, and
      no receipt for a record that is gone. */
  lemma StagedReceiptsAgree(files: Directory, receipts: ReceiptFiles)
    requires Filed(files) && Sound(Contents(files))
    ensures forall r :: r in Contents(StagedRecords(files)) && r.id in receipts ==>
      r.id in StagedReceipts(files, receipts)
      && StagedReceipts(files, receipts)[r.id] == receipts[r.id].(attests := Sha256(r))
    ensures forall id :: id in DeadIds(Contents(files)) ==> id !in StagedReceipts(files, receipts)
  {
    var rs := Contents(files);
    var kept := Rewrite(rs);
    StagedReadsBack(files);
    RewriteIsWellFormed(rs);
    RewriteByCuts(rs, DeadIds(rs));
    forall r | r in kept && r.id in receipts
      ensures StagedReceipts(files, receipts)[r.id] == receipts[r.id].(attests := Sha256(r))
    {
      ReattestedIs(kept, r, receipts[r.id]);
    }
  }

  /** After publication - however many crashes it took, and whatever was appended
      since - the receipt of every survivor attests the line the ledger holds. */
  lemma SurvivorsAgreeWithReceipts(d: Disk, r: Record)
    requires Inv(d) && d.journal.Some? && Published(d.records) && Published(d.receipts) && d.origin.receipts.Some?
    requires r in LedgerOf(d) && r.id in Ids(Contents(d.origin.records)) && r.id !in DeadIds(Contents(d.origin.records))
    requires r.id in d.origin.receipts.value
    ensures r.id in d.receipts.current.value && d.receipts.current.value[r.id].attests == Sha256(r)
  {
    SurvivorAgrees(d.origin.records, d.origin.receipts.value, d.records.current.value, d.receipts.current.value, r);
  }

  lemma SurvivorAgrees(base: Directory, attested: ReceiptFiles, now: Directory, receipts: ReceiptFiles, r: Record)
    requires Filed(base) && Sound(Contents(base)) && UniqueIds(Contents(now))
    requires Grows(StagedRecords(base), now) && Gains(StagedReceipts(base, attested), receipts)
    requires r in Contents(now) && r.id in Ids(Contents(base)) - DeadIds(Contents(base)) && r.id in attested
    ensures r.id in receipts && receipts[r.id].attests == Sha256(r)
  {
    SurvivorIsStaged(base, now, r);
    StagedReceiptsAgree(base, attested);
    assert r.id in StagedReceipts(base, attested);
  }

  lemma SurvivorIsStaged(base: Directory, now: Directory, r: Record)
    requires Filed(base) && UniqueIds(Contents(now)) && Grows(StagedRecords(base), now)
    requires r in Contents(now) && r.id in Ids(Contents(base)) - DeadIds(Contents(base))
    ensures r in Contents(StagedRecords(base))
  {
    StagedReadsBack(base);
    RewriteIds(Contents(base));
    KeptInPlace(StagedRecords(base), now, r);
  }

  lemma KeptInPlace(staged: Directory, now: Directory, r: Record)
    requires Grows(staged, now) && UniqueIds(Contents(now))
    requires r in Contents(now) && r.id in Ids(Contents(staged))
    ensures r in Contents(staged)
  {
    var kept :| kept in Contents(staged) && kept.id == r.id;
    GrownContents(staged, now, kept);
    OneRecordPerId(Contents(now), kept, r);
  }

  lemma GrownContents(base: Directory, now: Directory, r: Record)
    requires Grows(base, now) && r in Contents(base)
    ensures r in Contents(now)
  {
    ContentsMembers(base);
    ContentsMembers(now);
    var m :| m in base && r in base[m];
    assert base[m] <= now[m];
  }

  lemma OneRecordPerId(rs: seq<Record>, a: Record, b: Record)
    requires UniqueIds(rs) && a in rs && b in rs && a.id == b.id
    ensures a == b
  {
    var i :| 0 <= i < |rs| && rs[i] == a;
    var j :| 0 <= j < |rs| && rs[j] == b;
  }
}
