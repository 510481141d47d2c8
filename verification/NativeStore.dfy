/** The compaction and recovery commands themselves, as they change the store.

    Every method leaves a history that is a run of `NativeDisk`, so each of its
    intermediate states - each point it could die at - satisfies the invariant. */
module NativeStore {
  import opened Ledger
  import opened CompactionPlan
  import opened Shards
  import opened NativeDisk
  import opened NativeRuns
  import opened NativeRecovery

  /** The order the directories are published in; recovery walks the same list. */
  const STEPS: seq<Step> := [RecordsStep, ReceiptsStep]

  lemma RunExtends(history: seq<Disk>, events: seq<Event>, e: Event, d': Disk)
    requires Run(history, events) && Next(history[|history| - 1], e, d')
    ensures Run(history + [d'], events + [e])
  {
    var h, es := history + [d'], events + [e];
    forall i | 0 <= i < |es| ensures StepAt(h, es, i) {
      if i < |events| {
        assert StepAt(history, events, i);
      }
    }
  }

  lemma SubsetOfSameSize<T>(a: set<T>, b: set<T>)
    requires a <= b && |a| == |b|
    ensures a == b
  {
    assert |b - a| == |b| - |a|;
  }

  /** What is left of `changed_since_staging` once a directory is measured. */
  method Differs(now: map<nat, nat>, before: map<nat, nat>) returns (changed: bool)
    ensures changed <==> now != before
  {
    if |now| != |before| {
      return true;
    }
    changed := exists name :: name in now && (name !in before || before[name] != now[name]);
    if !changed {
      assert now.Keys <= before.Keys;
      assert |now.Keys| == |now| && |before.Keys| == |before|;
      SubsetOfSameSize(now.Keys, before.Keys);
      assert now == before;
    }
  }

  datatype Outcome = NothingToDo | Refused | Unsettled | Finished

  class Store {
    var records: Slot<Directory>
    var receipts: Slot<ReceiptFiles>
    var journal: Option<Journal>
    ghost var origin: Origin
    ghost var history: seq<Disk>
    ghost var events: seq<Event>

    ghost function OnDisk(): Disk
      reads this
    {
      Disk(records, receipts, journal, origin)
    }

    ghost predicate Valid()
      reads this
    {
      Run(history, events) && history[|history| - 1] == OnDisk()
    }

    /** Nothing that happened is rewritten. */
    twostate predicate Continues()
      reads this
    {
      old(history) <= history && old(events) <= events
    }

    lemma Holds()
      requires Valid()
      ensures Inv(OnDisk())
    {
      RunKeepsInv(history, events, |history| - 1);
    }

    constructor (files: Directory, attested: Option<ReceiptFiles>)
      requires Filed(files) && Sound(Contents(files))
      ensures Valid()
      ensures records == Slot(Some(files), None, None) && receipts == Slot(attested, None, None) && journal == None
    {
      records := Slot(Some(files), None, None);
      receipts := Slot(attested, None, None);
      journal := None;
      origin := Origin(map[], None);
      history := [Disk(Slot(Some(files), None, None), Slot(attested, None, None), None, Origin(map[], None))];
      events := [];
    }

    ghost method Log(e: Event)
      requires Run(history, events) && Next(history[|history| - 1], e, OnDisk())
      modifies this`history, this`events
      ensures Valid() && Continues()
      ensures history == old(history) + [OnDisk()] && events == old(events) + [e]
    {
      RunExtends(history, events, e, OnDisk());
      history := history + [OnDisk()];
      events := events + [e];
    }

    /** fs::rename(current, backup) */
    method SetAsideStep(step: Step)
      requires Valid() && Enabled(OnDisk(), Aside(step))
      modifies this
      ensures Valid() && Continues() && OnDisk() == Apply(old(OnDisk()), Aside(step))
    {
      match step {
        case RecordsStep => records := SetAside(records);
        case ReceiptsStep => receipts := SetAside(receipts);
      }
      Log(Aside(step));
    }

    /** fs::rename(incoming, current) */
    method ArriveStep(step: Step)
      requires Valid() && Enabled(OnDisk(), Arrive(step))
      modifies this
      ensures Valid() && Continues() && OnDisk() == Apply(old(OnDisk()), Arrive(step))
    {
      match step {
        case RecordsStep => records := Arrived(records);
        case ReceiptsStep => receipts := Arrived(receipts);
      }
      Log(Arrive(step));
    }

    /** Which of the three directories exist is all it looks at, and all it takes: the
        standing says which step of the journaled publication the directory is at. The
        ledger is never unclear. The receipts are when the store had none to stage, or
        when one was committed between the two renames and made the directory again. */
    method Inspect(step: Step) returns (standing: Standing)
      requires Valid() && journal.Some?
      ensures match step
        case RecordsStep =>
          && standing == StandingOf(records) && standing != Unclear
          && (standing == Pending <==> RecordsPending(OnDisk()))
          && (standing == Interrupted <==> RecordsBetween(OnDisk()))
          && (standing == Done <==> RecordsPublished(OnDisk()))
        case ReceiptsStep =>
          && standing == StandingOf(receipts)
          && (standing == Pending <==> ReceiptsPending(OnDisk()))
          && (standing == Interrupted <==> ReceiptsBetween(OnDisk()) && receipts.current.None?)
          && (standing == Done <==> ReceiptsPublished(OnDisk()))
          && (standing == Unclear <==>
                ReceiptsAbsent(OnDisk()) || (ReceiptsBetween(OnDisk()) && receipts.current.Some?))
    {
      Holds();
      var current, incoming, backup;
      match step {
        case RecordsStep =>
          current, incoming, backup := records.current.Some?, records.incoming.Some?, records.backup.Some?;
        case ReceiptsStep =>
          current, incoming, backup := receipts.current.Some?, receipts.incoming.Some?, receipts.backup.Some?;
      }
      if current && !incoming {
        return Done;
      }
      if current && !backup {
        return Pending;
      }
      standing := if !current && incoming then Interrupted else Unclear;
    }

    method ChangedSinceStaging(step: Step) returns (changed: bool)
      requires journal.Some?
      requires match step case RecordsStep => records.current.Some? case ReceiptsStep => receipts.current.Some?
      ensures changed <==> match step
        case RecordsStep => MeasureRecords(records.current.value) != journal.value.source.records
        case ReceiptsStep => MeasureReceipts(receipts.current.value) != journal.value.source.receipts
    {
      match step {
        case RecordsStep => changed := Differs(MeasureRecords(records.current.value), journal.value.source.records);
        case ReceiptsStep => changed := Differs(MeasureReceipts(receipts.current.value), journal.value.source.receipts);
      }
    }

    ghost predicate StepResumable(step: Step)
      requires journal.Some?
      reads this
    {
      match step case RecordsStep => RecordsResumable(OnDisk()) case ReceiptsStep => ReceiptsResumable(OnDisk())
    }

    ghost predicate StepPublished(step: Step)
      reads this
    {
      match step case RecordsStep => Published(records) case ReceiptsStep => Published(receipts)
    }

    /** Moves the prepared directory into place; nothing is deleted. */
    method PublishStep(step: Step)
      requires Valid() && journal.Some? && StepResumable(step)
      requires step == ReceiptsStep ==> Published(records)
      modifies this
      ensures Valid() && Continues() && journal == old(journal)
      ensures StepPublished(step)
      ensures step == RecordsStep ==> receipts == old(receipts) && origin == old(origin)
      ensures step == ReceiptsStep ==> records == old(records)
      ensures step == RecordsStep ==>
        LedgerOf(OnDisk())
        == if old(Published(records)) then old(LedgerOf(OnDisk())) else Rewrite(old(LedgerOf(OnDisk())))
    {
      Holds();
      var current := match step case RecordsStep => records.current.Some? case ReceiptsStep => receipts.current.Some?;
      var incoming :=
        match step case RecordsStep => records.incoming.Some? case ReceiptsStep => receipts.incoming.Some?;
      if current && incoming {
        ghost var before := OnDisk();
        SetAsideStep(step);
        StepLedger(before, Aside(step), OnDisk());
        Holds();
      }
      if incoming {
        ghost var before := OnDisk();
        ArriveStep(step);
        StepLedger(before, Arrive(step), OnDisk());
      }
    }

    /** Completes an interrupted publication, always forward. It succeeds exactly
        when no newer write would be carried away, and when it refuses, the
        directory holding the newer write has not moved. */
    method Resume() returns (ok: bool)
      requires Valid() && journal.Some?
      modifies this
      ensures Valid() && Continues() && journal == old(journal)
      ensures ok <==> old(Resumable(OnDisk()))
      ensures ok ==> Published(records) && Published(receipts)
      ensures ok ==>
        LedgerOf(OnDisk())
        == if old(Published(records)) then old(LedgerOf(OnDisk())) else Rewrite(old(LedgerOf(OnDisk())))
      ensures old(!RecordsResumable(OnDisk())) ==> records == old(records) && receipts == old(receipts)
      ensures old(!ReceiptsResumable(OnDisk())) ==> receipts == old(receipts)
    {
      for index := 0 to |STEPS|
        invariant Valid() && Continues() && journal == old(journal)
        invariant index == 0 ==> OnDisk() == old(OnDisk())
        invariant index >= 1 ==> old(RecordsResumable(OnDisk())) && Published(records)
        invariant index >= 1 ==>
          LedgerOf(OnDisk())
          == if old(Published(records)) then old(LedgerOf(OnDisk())) else Rewrite(old(LedgerOf(OnDisk())))
        invariant index == 1 ==> receipts == old(receipts)
        invariant index == 2 ==> old(ReceiptsResumable(OnDisk())) && Published(receipts)
      {
        var step := STEPS[index];
        var standing := Inspect(step);
        match standing {
          case Done =>
          case Pending =>
            var changed := ChangedSinceStaging(step);
            if changed {
              return false;
            }
            PublishStep(step);
          case Interrupted =>
            PublishStep(step);
          case Unclear =>
            return false;
        }
      }
      ok := true;
    }

    /** Reads every ledger file, oldest month first. */
    method ReadLedger() returns (rs: seq<Record>)
      requires records.current.Some?
      ensures rs == Contents(records.current.value)
    {
      var files := records.current.value;
      var months: set<nat>, bound: nat := files.Keys, 0;
      while months != {}
        invariant forall m :: m in files ==> m in months || m < bound
        decreases months
      {
        var m :| m in months;
        months := months - {m};
        bound := if m < bound then bound else m + 1;
      }
      rs := [];
      for month := 0 to bound
        invariant rs == Before(files, month)
      {
        rs := rs + if month in files then files[month] else [];
      }
      ContentsIs(files, bound);
    }

    /** fs::rename(backup, current): undoing the first half of a pair. */
    method RestoreStep(step: Step)
      requires Valid() && Enabled(OnDisk(), Restore(step))
      modifies this
      ensures Valid() && Continues() && OnDisk() == Apply(old(OnDisk()), Restore(step))
    {
      match step {
        case RecordsStep => records := Restored(records);
        case ReceiptsStep => receipts := Restored(receipts);
      }
      Log(Restore(step));
    }

    /** The rename pair of a publication. When the second rename fails the first is
        undone, and the journal stays. */
    method Swap(step: Step, arrivalFails: bool) returns (ok: bool)
      requires Valid() && Enabled(OnDisk(), Aside(step))
      modifies this
      ensures Valid() && Continues() && ok == !arrivalFails
      ensures OnDisk() == if ok then Apply(Apply(old(OnDisk()), Aside(step)), Arrive(step)) else old(OnDisk())
    {
      Holds();
      SetAsideStep(step);
      if arrivalFails {
        RestoreStep(step);
        return false;
      }
      ArriveStep(step);
      ok := true;
    }

    method AdvanceTo(phase: Phase)
      requires Valid() && journal.Some?
      modifies this
      ensures Valid() && Continues()
      ensures journal == Some(old(journal).value.(phase := phase))
      ensures records == old(records) && receipts == old(receipts) && origin == old(origin)
    {
      journal := Some(journal.value.(phase := phase));
      Log(Advance(phase));
    }

    /** Builds the prepared copy beside the store; nothing a reader sees changes. */
    method Stage(kept: seq<Record>, dead: set<Id>)
      requires Valid() && journal.None? && records.current.Some?
      requires kept == Rewrite(Contents(records.current.value)) && dead == DeadIds(Contents(records.current.value))
      modifies this
      ensures Valid() && Continues() && journal.None? && origin == old(origin)
      ensures records == old(records).(incoming := Some(StagedRecords(old(records).current.value)))
      ensures receipts == old(receipts).(incoming :=
        if old(receipts).current.None? then None
        else Some(StagedReceipts(old(records).current.value, old(receipts).current.value)))
    {
      var shadow := StageRecords(kept);
      var shadowReceipts := if receipts.current.None? then None
        else Some(map id | id in receipts.current.value && id !in dead ::
                    Reattested(kept, id, receipts.current.value[id]));
      records := records.(incoming := Some(shadow));
      receipts := receipts.(incoming := shadowReceipts);
      Log(Prepare(shadow, shadowReceipts));
    }

    /** Journal::write, after staging and before the first rename. */
    method Begin(condemned: seq<Id>)
      requires Valid() && Enabled(OnDisk(), WriteJournal(condemned))
      modifies this
      ensures Valid() && Continues() && OnDisk() == Apply(old(OnDisk()), WriteJournal(condemned))
    {
      journal := Some(Journal(Staged, condemned, Measured(records.current.value, receipts.current)));
      origin := Origin(records.current.value, receipts.current);
      Log(WriteJournal(condemned));
    }

    method StageAndJournal(ledger: seq<Record>, plan: Plan)
      requires Valid() && journal.None? && records.current.Some?
      requires ledger == Contents(records.current.value) && Describes(plan, ledger)
      modifies this
      ensures Valid() && Continues()
      ensures Enabled(OnDisk(), Aside(RecordsStep)) && Contents(records.incoming.value) == Rewrite(ledger)
      ensures journal.value.phase == Staged
      ensures receipts.current == old(receipts.current)
      ensures receipts.current.Some? ==> StandingOf(receipts) == Pending && ReceiptsResumable(OnDisk())
    {
      Holds();
      Stage(Rewrite(ledger), DeadIds(ledger));
      CondemnedIsDead(plan, ledger);
      Begin(Condemned(plan));
      StagedReadsBack(records.current.value);
    }

    /** Publishes one prepared directory and records how far publication got: the
        phase is written after the rename it describes. */
    method PublishNext(step: Step, arrivalFails: bool) returns (ok: bool)
      requires Valid() && Enabled(OnDisk(), Aside(step))
      modifies this
      ensures Valid() && Continues() && ok == !arrivalFails
      ensures !ok ==> OnDisk() == old(OnDisk())
      ensures ok ==>
        journal == Some(old(journal).value.(phase := if step == RecordsStep then RecordsSwapped else ReceiptsSwapped))
      ensures ok ==> match step
        case RecordsStep => records == Arrived(SetAside(old(records))) && receipts == old(receipts)
        case ReceiptsStep => records == old(records) && receipts == Arrived(SetAside(old(receipts)))
    {
      ok := Swap(step, arrivalFails);
      if ok {
        AdvanceTo(if step == RecordsStep then RecordsSwapped else ReceiptsSwapped);
      }
    }

    /** The loop over both directories. A store that never committed a receipt has
        no second directory to set aside, and the rename says so. */
    method Publish(failing: Option<Step>) returns (ok: bool)
      requires Valid() && Enabled(OnDisk(), Aside(RecordsStep))
      requires receipts.current.Some? ==> StandingOf(receipts) == Pending && ReceiptsResumable(OnDisk())
      modifies this
      ensures Valid() && Continues() && journal.Some?
      ensures ok <==> failing.None? && old(receipts.current.Some?)
      ensures ok ==>
        && Published(records) && Published(receipts)
        && LedgerOf(OnDisk()) == Contents(old(records.incoming).value)
      ensures !ok && old(receipts.current.Some?) ==> Resumable(OnDisk())
      ensures journal.value.phase == if ok then ReceiptsSwapped
        else if failing == Some(RecordsStep) then old(journal.value.phase) else RecordsSwapped
    {
      ok := PublishNext(RecordsStep, failing == Some(RecordsStep));
      if !ok {
        return;
      }
      assert failing.Some? ==> failing.value.ReceiptsStep?;
      if receipts.current.None? {
        return false;
      }
      ok := PublishNext(ReceiptsStep, failing == Some(ReceiptsStep));
    }

    /** Everything compaction does under the writer lock: read, plan, stage,
        journal, publish. `failing` is the directory whose second rename fails. */
    method CompactLocked(failing: Option<Step>) returns (outcome: Outcome)
      requires Valid() && journal.None?
      modifies this
      ensures Valid() && Continues()
      ensures outcome == NothingToDo <==> DeadIds(old(LedgerOf(OnDisk()))) == {}
      ensures outcome == NothingToDo ==> OnDisk() == old(OnDisk())
      ensures outcome == Finished <==>
        DeadIds(old(LedgerOf(OnDisk()))) != {} && failing.None? && old(receipts.current.Some?)
      ensures outcome == Finished || outcome == NothingToDo || outcome == Refused
      ensures outcome != NothingToDo ==> journal.Some?
      ensures outcome == Finished ==> Published(records) && Published(receipts)
      ensures outcome == Finished ==> LedgerOf(OnDisk()) == Rewrite(old(LedgerOf(OnDisk())))
      ensures outcome == Refused && old(receipts.current.Some?) ==> Resumable(OnDisk())
      // The journal says how far it got.
      ensures outcome != NothingToDo ==>
        journal.value.phase == if outcome == Finished then ReceiptsSwapped
          else if failing == Some(RecordsStep) then Staged else RecordsSwapped
    {
      Holds();
      var ledger := ReadLedger();
      var plan := Build(ledger);
      RemovedMeansDead(plan, ledger);
      if |plan.removed| == 0 {
        return NothingToDo;
      }
      StageAndJournal(ledger, plan);
      var ok := Publish(failing);
      outcome := if ok then Finished else Refused;
    }

    /** After the projections agree, the backups go and then the journal. */
    method Settle(settled: bool) returns (outcome: Outcome)
      requires Valid() && journal.Some? && Published(records) && Published(receipts)
      modifies this
      ensures Valid() && Continues()
      ensures LedgerOf(OnDisk()) == old(LedgerOf(OnDisk())) && receipts.current == old(receipts.current)
      ensures outcome == if settled then Finished else Unsettled
      ensures Published(records) && Published(receipts)
      ensures settled ==> journal.None? && records.backup.None? && receipts.backup.None?
      ensures !settled ==> OnDisk() == old(OnDisk())
    {
      if !settled {
        return Unsettled;
      }
      records := records.(backup := None);
      Log(DropBackup(RecordsStep));
      receipts := receipts.(backup := None);
      Log(DropBackup(ReceiptsStep));
      journal := None;
      Log(ClearJournal);
      outcome := Finished;
    }

    method RecoverPrevious(settled: bool) returns (outcome: Outcome)
      requires Valid()
      modifies this
      ensures Valid() && Continues()
      ensures outcome == NothingToDo <==> old(journal.None?)
      ensures outcome == NothingToDo ==> OnDisk() == old(OnDisk())
      ensures outcome == Refused <==> old(journal.Some? && !Resumable(OnDisk()))
      ensures outcome == Finished <==> old(Resumable(OnDisk())) && settled
      ensures outcome == Finished ==> journal.None? && Published(receipts)
      ensures outcome == Unsettled || outcome == Refused ==> journal == old(journal)
      ensures outcome != Refused && outcome != NothingToDo ==>
        LedgerOf(OnDisk())
        == if old(Published(records)) then old(LedgerOf(OnDisk())) else Rewrite(old(LedgerOf(OnDisk())))
    {
      if journal.None? {
        return NothingToDo;
      }
      var ok := Resume();
      if !ok {
        return Refused;
      }
      outcome := Settle(settled);
    }

    /** `equill compact`: a dry run changes nothing, not even to finish somebody
        else's transaction; applying finishes that first, then compacts. */
    method RunCompaction(apply: bool, settled: bool) returns (outcome: Outcome)
      requires Valid()
      modifies this
      ensures Valid() && Continues()
      ensures !apply ==>
        OnDisk() == old(OnDisk()) && outcome == if old(journal.Some?) then Refused else NothingToDo
      // What an earlier run left comes first, and can end this one.
      ensures apply && old(journal.Some? && !Resumable(OnDisk())) ==> outcome == Refused
      ensures apply && old(Resumable(OnDisk())) && !settled ==>
        outcome == Unsettled && LedgerOf(OnDisk()) == old(Recovered(OnDisk()))
      // Then the ledger that leaves is compacted, if anything in it is dead.
      ensures apply && old(journal.None? || (Resumable(OnDisk()) && settled)) ==>
        var found := old(Recovered(OnDisk()));
        if DeadIds(found) == {} then outcome == NothingToDo && LedgerOf(OnDisk()) == found
        else if old(journal.None? && receipts.current.None?) then outcome == Refused && journal.Some?
        else LedgerOf(OnDisk()) == Rewrite(found) && outcome == if settled then Finished else Unsettled
      ensures old(journal.None? && DeadIds(LedgerOf(OnDisk())) == {}) ==> OnDisk() == old(OnDisk())
      ensures apply && settled && old(receipts.current.Some?) && old(journal.None? || Resumable(OnDisk())) ==>
        journal.None? && DeadIds(LedgerOf(OnDisk())) == {}
    {
      if !apply {
        return if journal.Some? then Refused else NothingToDo;
      }
      outcome := RecoverPrevious(settled);
      if outcome == Refused || outcome == Unsettled {
        return;
      }
      Holds();
      ghost var before := LedgerOf(OnDisk());
      outcome := CompactLocked(None);
      if outcome == Finished {
        outcome := Settle(settled);
      }
      NothingDeadAfterRewrite(before);
    }
  }

  /** The ledger a recovery leaves: the one that is live, if it was published. */
  ghost function Recovered(d: Disk): seq<Record> {
    if d.journal.None? || (d.records.current.Some? && d.records.incoming.None?) then LedgerOf(d)
    else Rewrite(LedgerOf(d))
  }

  lemma RemovedMeansDead(plan: Plan, rs: seq<Record>)
    requires Describes(plan, rs)
    ensures plan.removed == [] <==> DeadIds(rs) == {}
  {
    PickedMeans(rs, PickRemoved(DeadIds(rs)));
    if plan.removed != [] {
      assert plan.removed[0] in plan.removed;
    }
    if DeadIds(rs) != {} {
      var id :| id in DeadIds(rs);
      var r :| r in rs && r.id == id && Dead(rs, r);
      assert PickRemoved(DeadIds(rs))(r).value in plan.removed;
    }
  }

  /** The ids whose points still have to be dropped. */
  function Condemned(plan: Plan): (ids: seq<Id>)
    ensures |ids| == |plan.removed|
    ensures forall i :: 0 <= i < |ids| ==> ids[i] == plan.removed[i].id
  {
    seq(|plan.removed|, i requires 0 <= i < |plan.removed| => plan.removed[i].id)
  }

  lemma CondemnedIsDead(plan: Plan, rs: seq<Record>)
    requires Describes(plan, rs)
    ensures (set id | id in Condemned(plan)) == DeadIds(rs)
  {
    var dead := DeadIds(rs);
    PickedMeans(rs, PickRemoved(dead));
    forall id | id in Condemned(plan) ensures id in dead {
      var i :| 0 <= i < |Condemned(plan)| && Condemned(plan)[i] == id;
      assert plan.removed[i] in plan.removed;
    }
    forall id | id in dead ensures id in Condemned(plan) {
      var r :| r in rs && r.id == id && Dead(rs, r);
      var item := PickRemoved(dead)(r).value;
      assert item in plan.removed;
      var i :| 0 <= i < |plan.removed| && plan.removed[i] == item;
      assert Condemned(plan)[i] == id;
    }
  }
}
