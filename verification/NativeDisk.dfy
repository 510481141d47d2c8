/** Native compaction as it looks from the disk: two directories published by
    rename pairs, a journal, and the writers that carry on regardless.

    `Next` lists every atomic change anyone makes, each guarded by what is on disk
    alone. A crash is a process that takes no further step, so whatever holds after
    every step of every run holds at every point a process can die. */
module NativeDisk {
  import opened Ledger
  import opened CompactionPlan
  import opened Shards

  /** SHA-256 of a ledger line: a free constructor is injective by construction. */
  datatype Digest = Sha256(line: Record)

  datatype Receipt = Receipt(attests: Digest, rest: string)

  type ReceiptFiles = map<Id, Receipt>

  datatype Slot<D> = Slot(current: Option<D>, incoming: Option<D>, backup: Option<D>)

  datatype Step = RecordsStep | ReceiptsStep

  datatype Phase = Staged | RecordsSwapped | ReceiptsSwapped

  /** File lengths by name, one map for each published directory. */
  datatype Source = Source(records: map<nat, nat>, receipts: map<Id, nat>)

  datatype Journal = Journal(phase: Phase, condemned: seq<Id>, source: Source)

  /** What the live directories held when the journal was written. No code reads
      it; it is the reference the journal's lengths are compared against. */
  datatype Origin = Origin(records: Directory, receipts: Option<ReceiptFiles>)

  datatype Disk = Disk(
    records: Slot<Directory>,
    receipts: Slot<ReceiptFiles>,
    journal: Option<Journal>,
    origin: Origin)

  // ---------------------------------------------------------------------
  // Measuring a directory (journal::measure)
  // ---------------------------------------------------------------------

  /** The length of one line. Only its being positive is used. */
  function LineLength(r: Record): (n: nat)
    ensures n > 0
  {
    |r.payload| + (if r.supersedes.Some? then 2 else 1)
  }

  function FileLength(lines: seq<Record>): nat {
    if lines == [] then 0 else FileLength(lines[..|lines| - 1]) + LineLength(lines[|lines| - 1])
  }

  function MeasureRecords(files: Directory): map<nat, nat> {
    map m | m in files :: FileLength(files[m])
  }

  function MeasureReceipts(files: ReceiptFiles): map<Id, nat> {
    map id | id in files :: 64 + |files[id].rest|
  }

  /** The append-only history of a ledger directory: every file keeps its lines. */
  ghost predicate Grows(base: Directory, now: Directory) {
    forall m :: m in base ==> m in now && base[m] <= now[m]
  }

  ghost predicate Gains(base: ReceiptFiles, now: ReceiptFiles) {
    forall id :: id in base ==> id in now && now[id] == base[id]
  }

  lemma {:induction false} LongerIsLonger(base: seq<Record>, now: seq<Record>)
    requires base <= now
    ensures FileLength(base) <= FileLength(now)
    ensures FileLength(base) == FileLength(now) ==> base == now
  {
    if |base| < |now| {
      assert base <= now[..|now| - 1];
      LongerIsLonger(base, now[..|now| - 1]);
    } else {
      assert base == now;
    }
  }

  /** Lengths alone reveal every append: a directory that has only ever been
      appended to measures the same exactly when nothing was appended. */
  lemma MeasureRevealsAppends(base: Directory, now: Directory)
    requires Grows(base, now)
    ensures MeasureRecords(now) == MeasureRecords(base) <==> now == base
  {
    if MeasureRecords(now) == MeasureRecords(base) {
      assert now.Keys == MeasureRecords(now).Keys == MeasureRecords(base).Keys == base.Keys;
      forall m | m in base ensures now[m] == base[m] {
        assert MeasureRecords(now)[m] == MeasureRecords(base)[m];
        LongerIsLonger(base[m], now[m]);
      }
      assert now == base;
    }
  }

  lemma MeasureRevealsReceipts(base: ReceiptFiles, now: ReceiptFiles)
    requires Gains(base, now)
    ensures MeasureReceipts(now) == MeasureReceipts(base) <==> now == base
  {
    if MeasureReceipts(now) == MeasureReceipts(base) {
      assert now.Keys == MeasureReceipts(now).Keys == MeasureReceipts(base).Keys == base.Keys;
      assert now == base;
    }
  }

  // ---------------------------------------------------------------------
  // Staging (apply::stage_records, drop_receipts, reconcile_receipts)
  // ---------------------------------------------------------------------

  ghost function StagedRecords(files: Directory): Directory {
    Grouped(Rewrite(Contents(files)))
  }

  /** The receipt of a kept record attests the line now in the ledger. */
  function Reattested(kept: seq<Record>, id: Id, receipt: Receipt): Receipt {
    if kept == [] then receipt
    else if kept[|kept| - 1].id == id then receipt.(attests := Sha256(kept[|kept| - 1]))
    else Reattested(kept[..|kept| - 1], id, receipt)
  }

  ghost function StagedReceipts(files: Directory, receipts: ReceiptFiles): ReceiptFiles {
    var rs := Contents(files);
    map id | id in receipts && id !in DeadIds(rs) :: Reattested(Rewrite(rs), id, receipts[id])
  }

  // ---------------------------------------------------------------------
  // Events
  // ---------------------------------------------------------------------

  datatype Event =
    | Append(record: Record)
    | Attest(id: Id, receipt: Receipt)
    | Prepare(shadow: Directory, shadowReceipts: Option<ReceiptFiles>)
    | WriteJournal(condemned: seq<Id>)
    | Aside(step: Step)
    | Arrive(step: Step)
    | Restore(step: Step)
    | Advance(phase: Phase)
    | DropBackup(step: Step)
    | ClearJournal

  ghost predicate Published<D>(slot: Slot<D>) {
    slot.current.Some? && slot.incoming.None?
  }

  /** What a reader finds: the live directory or, inside a rename pair, the one
      just set aside. */
  ghost function LedgerOf(d: Disk): seq<Record> {
    if d.records.current.Some? then Contents(d.records.current.value)
    else if d.records.backup.Some? then Contents(d.records.backup.value)
    else []
  }

  ghost predicate CanSetAside(d: Disk, step: Step) {
    d.journal.Some? &&
    match step
    case RecordsStep =>
      && d.records.current.Some? && d.records.incoming.Some? && d.records.backup.None?
      && MeasureRecords(d.records.current.value) == d.journal.value.source.records
    case ReceiptsStep =>
      && Published(d.records)
      && d.receipts.current.Some? && d.receipts.incoming.Some? && d.receipts.backup.None?
      && MeasureReceipts(d.receipts.current.value) == d.journal.value.source.receipts
  }

  ghost predicate CanArrive(d: Disk, step: Step) {
    d.journal.Some? &&
    match step
    case RecordsStep => d.records.current.None? && d.records.incoming.Some?
    case ReceiptsStep => Published(d.records) && d.receipts.current.None? && d.receipts.incoming.Some?
  }

  ghost predicate CanRestore(d: Disk, step: Step) {
    CanArrive(d, step) &&
    match step case RecordsStep => d.records.backup.Some? case ReceiptsStep => d.receipts.backup.Some?
  }

  /** When each change may happen, from what is on disk. */
  ghost predicate Enabled(d: Disk, e: Event) {
    match e
    case Append(r) =>
      && d.records.current.Some?
      && r.id !in Ids(LedgerOf(d))
      && (r.supersedes.Some? ==> r.supersedes.value in Ids(LedgerOf(d)))
    case Attest(id, _) => d.receipts.current.Some? ==> id !in d.receipts.current.value
    case Prepare(_, _) => d.journal.None?
    case WriteJournal(condemned) =>
      && d.journal.None? && d.records.current.Some?
      && d.records.incoming == Some(StagedRecords(d.records.current.value))
      && d.receipts.incoming == (if d.receipts.current.None? then None
                                 else Some(StagedReceipts(d.records.current.value, d.receipts.current.value)))
      && (set id | id in condemned) == DeadIds(LedgerOf(d))
    case Aside(step) => CanSetAside(d, step)
    case Arrive(step) => CanArrive(d, step)
    case Restore(step) => CanRestore(d, step)
    case Advance(_) => d.journal.Some?
    case DropBackup(_) => d.journal.Some? && Published(d.records) && Published(d.receipts)
    case ClearJournal =>
      && d.journal.Some? && Published(d.records) && Published(d.receipts)
      && d.records.backup.None? && d.receipts.backup.None?
  }

  function SetAside<D>(slot: Slot<D>): Slot<D> {
    slot.(current := None, backup := slot.current)
  }

  function Arrived<D>(slot: Slot<D>): Slot<D> {
    slot.(current := slot.incoming, incoming := None)
  }

  function Restored<D>(slot: Slot<D>): Slot<D> {
    slot.(current := slot.backup, backup := None)
  }

  function Apply(d: Disk, e: Event): Disk {
    match e
    case Append(r) =>
      if d.records.current.Some?
      then d.(records := d.records.(current := Some(AppendTo(d.records.current.value, r))))
      else d
    case Attest(id, receipt) =>
      var files := if d.receipts.current.Some? then d.receipts.current.value else map[];
      d.(receipts := d.receipts.(current := Some(files[id := receipt])))
    case Prepare(shadow, shadowReceipts) =>
      d.(records := d.records.(incoming := Some(shadow)), receipts := d.receipts.(incoming := shadowReceipts))
    case WriteJournal(condemned) =>
      if d.records.current.None? then d
      else
        var records, receipts := d.records.current.value, d.receipts.current;
        d.(journal := Some(Journal(Staged, condemned, Measured(records, receipts))),
           origin := Origin(records, receipts))
    case Aside(step) =>
      (match step
       case RecordsStep => d.(records := SetAside(d.records))
       case ReceiptsStep => d.(receipts := SetAside(d.receipts)))
    case Arrive(step) =>
      (match step
       case RecordsStep => d.(records := Arrived(d.records))
       case ReceiptsStep => d.(receipts := Arrived(d.receipts)))
    case Restore(step) =>
      (match step
       case RecordsStep => d.(records := Restored(d.records))
       case ReceiptsStep => d.(receipts := Restored(d.receipts)))
    case Advance(phase) =>
      if d.journal.Some? then d.(journal := Some(d.journal.value.(phase := phase))) else d
    case DropBackup(step) =>
      (match step
       case RecordsStep => d.(records := d.records.(backup := None))
       case ReceiptsStep => d.(receipts := d.receipts.(backup := None)))
    case ClearJournal => d.(journal := None)
  }

  function Measured(records: Directory, receipts: Option<ReceiptFiles>): Source {
    Source(MeasureRecords(records), if receipts.Some? then MeasureReceipts(receipts.value) else map[])
  }

  ghost predicate Next(d: Disk, e: Event, d': Disk) {
    Enabled(d, e) && d' == Apply(d, e)
  }

  // ---------------------------------------------------------------------
  // The invariant
  // ---------------------------------------------------------------------

  ghost predicate Sound(rs: seq<Record>) {
    UniqueIds(rs) && KnownLinks(rs)
  }

  ghost predicate RecordsPending(d: Disk) {
    && d.records.current.Some? && Grows(d.origin.records, d.records.current.value)
    && d.records.incoming == Some(StagedRecords(d.origin.records))
    && d.records.backup.None?
  }

  ghost predicate RecordsBetween(d: Disk) {
    d.records == Slot(None, Some(StagedRecords(d.origin.records)), Some(d.origin.records))
  }

  ghost predicate RecordsPublished(d: Disk) {
    && Published(d.records) && Grows(StagedRecords(d.origin.records), d.records.current.value)
    && (d.records.backup.Some? ==> d.records.backup.value == d.origin.records)
  }

  ghost predicate ReceiptsPending(d: Disk) {
    && d.origin.receipts.Some?
    && d.receipts.current.Some? && Gains(d.origin.receipts.value, d.receipts.current.value)
    && d.receipts.incoming == Some(StagedReceipts(d.origin.records, d.origin.receipts.value))
    && d.receipts.backup.None?
  }

  /** Set aside and not yet replaced; `current` is there only if a receipt was
      committed in the gap and made the directory again. */
  ghost predicate ReceiptsBetween(d: Disk) {
    && d.origin.receipts.Some?
    && d.receipts.incoming == Some(StagedReceipts(d.origin.records, d.origin.receipts.value))
    && d.receipts.backup == d.origin.receipts
  }

  /** The store had no receipts directory to stage. */
  ghost predicate ReceiptsAbsent(d: Disk) {
    d.origin.receipts.None? && d.receipts == Slot(None, None, None)
  }

  ghost predicate ReceiptsPublished(d: Disk) {
    && Published(d.receipts)
    && (d.origin.receipts.Some? ==>
          Gains(StagedReceipts(d.origin.records, d.origin.receipts.value), d.receipts.current.value))
    && (d.receipts.backup.Some? ==> d.receipts.backup == d.origin.receipts)
  }

  ghost predicate Inv(d: Disk) {
    && Sound(LedgerOf(d))
    && (d.records.current.Some? ==> Filed(d.records.current.value))
    && match d.journal
       case None =>
         && d.records.current.Some?
         && d.records.backup.None? && d.receipts.backup.None?
       case Some(journal) =>
         && Filed(d.origin.records) && Sound(Contents(d.origin.records))
         && journal.source == Measured(d.origin.records, d.origin.receipts)
         && (set id | id in journal.condemned) == DeadIds(Contents(d.origin.records))
         && (RecordsPending(d) || RecordsBetween(d) || RecordsPublished(d))
         && (ReceiptsPending(d) || ReceiptsBetween(d) || ReceiptsAbsent(d) || ReceiptsPublished(d))
         // The ledger goes first: new receipts are never live beside the old one.
         && (ReceiptsPending(d) || ReceiptsAbsent(d) || d.origin.receipts.None? || RecordsPublished(d))
  }
}
