/** Manifest compaction: sources replaced by rename, four directories swapped in, a
    receipt to close it - and everything undone when any step before the end fails. */
module ManifestTransaction {
  import opened Ledger

  type Content = string

  /** The four directories a store's truth is made of, in the order they are swapped. */
  const DIRECTORIES := ["records", "projections", "receipts/writes", "receipts/imports"]

  /** Every name the transaction touches. Sources are numbered as the plan lists them,
      directories as DIRECTORIES does; staging and backup names carry the
      transaction's id. */
  datatype Path =
    | Source(i: nat) | Staged(i: nat) | Aside(i: nat)
    | Current(d: nat) | Incoming(d: nat) | Backup(d: nat)
    | TemporaryReceipt | Receipt

  type Files = map<Path, Content>

  datatype Input = Input(before: Content, after: Content)

  /** `built` is what the shadow store holds for each directory. */
  datatype Job = Job(inputs: seq<Input>, built: seq<Content>, receipt: Content)

  predicate WellFormed(job: Job) {
    |job.built| == |DIRECTORIES|
  }

  predicate Changed(job: Job, i: nat)
    requires i < |job.inputs|
  {
    job.inputs[i].before != job.inputs[i].after
  }

  datatype Step =
    | OpenStage(i: nat) | WriteStage(i: nat)
    | BuildShadow
    | ReceiptCollision | OpenReceipt | WriteReceipt
    | ReadSource(i: nat) | SourceEdited(i: nat) | SetSourceAside(i: nat) | PlaceSource(i: nat)
    | SetDirectoryAside(d: nat) | PlaceDirectory(d: nat)
    | Doctor | PlaceReceipt

  /** The file a failing step leaves behind: created, and not yet in the hands of
      anything that would remove it - or already out of them. */
  function LeftBy(step: Step): Option<Path> {
    match step
    case WriteStage(i) => Some(Staged(i))
    case WriteReceipt => Some(TemporaryReceipt)
    case PlaceReceipt => Some(TemporaryReceipt)
    case _ => None
  }

  // ---------------------------------------------------------------------
  // Which step fails
  // ---------------------------------------------------------------------

  /** Where a step stands in the transaction of n sources. */
  function Turn(step: Step, n: nat): nat {
    match step
    case OpenStage(i) => 2 * i
    case WriteStage(i) => 2 * i + 1
    case BuildShadow => 2 * n
    case ReceiptCollision => 2 * n + 1
    case OpenReceipt => 2 * n + 2
    case WriteReceipt => 2 * n + 3
    case ReadSource(i) => 2 * n + 4 + 4 * i
    case SourceEdited(i) => 2 * n + 5 + 4 * i
    case SetSourceAside(i) => 2 * n + 6 + 4 * i
    case PlaceSource(i) => 2 * n + 7 + 4 * i
    case SetDirectoryAside(d) => 6 * n + 4 + 2 * d
    case PlaceDirectory(d) => 6 * n + 5 + 2 * d
    case Doctor => 6 * n + 4 + 2 * |DIRECTORIES|
    case PlaceReceipt => 6 * n + 5 + 2 * |DIRECTORIES|
  }

  /** Whether a step that is come to fails: `faults` are the steps the machine fails, and
      the rest is what the directory holds. A source that does not change has no steps,
      and a receipt already there is not written again. */
  ghost predicate Fails(step: Step, job: Job, was: Files, faults: set<Step>) {
    match step
    case OpenStage(i) => i < |job.inputs| && Changed(job, i) && step in faults
    case WriteStage(i) => i < |job.inputs| && Changed(job, i) && step in faults
    case BuildShadow => step in faults
    case ReceiptCollision => Receipt in was && was[Receipt] != job.receipt
    case OpenReceipt => Receipt !in was && (step in faults || TemporaryReceipt in was)
    case WriteReceipt => Receipt !in was && step in faults
    case ReadSource(i) => i < |job.inputs| && Changed(job, i) && (step in faults || Source(i) !in was)
    case SourceEdited(i) => i < |job.inputs| && Changed(job, i) && Lookup(was, Source(i)) != Some(job.inputs[i].before)
    case SetSourceAside(i) => i < |job.inputs| && Changed(job, i) && step in faults
    case PlaceSource(i) => i < |job.inputs| && Changed(job, i) && step in faults
    case SetDirectoryAside(d) => d < |DIRECTORIES| && (step in faults || Current(d) !in was)
    case PlaceDirectory(d) => d < |DIRECTORIES| && step in faults
    case Doctor => step in faults
    case PlaceReceipt => Receipt !in was && step in faults
  }

  /** No step before this turn fails. */
  ghost predicate ClearTo(turn: int, job: Job, was: Files, faults: set<Step>) {
    forall step :: Turn(step, |job.inputs|) < turn ==> !Fails(step, job, was, faults)
  }

  ghost predicate FailsFirst(step: Step, job: Job, was: Files, faults: set<Step>) {
    Fails(step, job, was, faults) && ClearTo(Turn(step, |job.inputs|), job, was, faults)
  }

  // ---------------------------------------------------------------------
  // How far it has got, and what the directory then looks like
  // ---------------------------------------------------------------------

  /** A shadow is whole until it is consumed or given up; then nothing relies on it. */
  datatype Shadow = Absent | Whole | Partial

  /** Sources up to `staged` have a staged copy, of which those up to `taken` are used
      up; sources up to `committed` and directories up to `swapped` are new. */
  datatype Progress = Progress(staged: nat, taken: nat, committed: nat, swapped: nat, shadow: Shadow, receipt: bool)

  const NOTHING := Progress(0, 0, 0, 0, Absent, false)

  function Lookup(files: Files, p: Path): Option<Content> {
    if p in files then Some(files[p]) else None
  }

  ghost function View(p: Path, job: Job, was: Files, at: Progress): Option<Content>
    requires WellFormed(job)
  {
    match p
    case Source(i) =>
      if i < at.committed && i < |job.inputs| && Changed(job, i) then Some(job.inputs[i].after) else Lookup(was, p)
    case Staged(i) =>
      if at.taken <= i < at.staged && i < |job.inputs| && Changed(job, i) then Some(job.inputs[i].after) else None
    case Aside(i) =>
      if i < at.committed && i < |job.inputs| && Changed(job, i) then Lookup(was, Source(i)) else None
    case Current(d) => if d < at.swapped && d < |job.built| then Some(job.built[d]) else Lookup(was, p)
    case Incoming(d) => if at.shadow.Whole? && at.swapped <= d < |job.built| then Some(job.built[d]) else None
    case Backup(d) => if d < at.swapped && d < |job.built| then Lookup(was, Current(d)) else None
    case TemporaryReceipt => if at.receipt then Some(job.receipt) else Lookup(was, p)
    case Receipt => Lookup(was, p)
  }

  ghost predicate Loose(p: Path, at: Progress) {
    at.shadow.Partial? && p.Incoming? && p.d < |DIRECTORIES|
  }

  /** The files are as `at` says, save for at most one left behind. */
  ghost predicate Shows(files: Files, job: Job, was: Files, at: Progress, left: Option<Path>)
    requires WellFormed(job)
  {
    && (forall p :: Some(p) != left && !Loose(p, at) ==> Lookup(files, p) == View(p, job, was, at))
    && (left.Some? ==> left.value in files)
  }

  /** No name of this transaction is taken yet. */
  ghost predicate Untouched(was: Files) {
    forall p :: p in was ==> !p.Staged? && !p.Aside? && !p.Incoming? && !p.Backup?
  }

  lemma BeforeAnything(was: Files, job: Job)
    requires WellFormed(job) && Untouched(was)
    ensures Shows(was, job, was, NOTHING, None)
  {
  }

  /** With everything undone, what is left is what there was. */
  lemma AfterEverythingUndone(files: Files, was: Files, job: Job, left: Option<Path>)
    requires WellFormed(job) && Untouched(was)
    requires Shows(files, job, was, NOTHING, left)
    ensures forall p :: Some(p) != left ==> Lookup(files, p) == Lookup(was, p)
    ensures left == None ==> files == was
  {
    forall p | Some(p) != left ensures Lookup(files, p) == Lookup(was, p) {
      assert Lookup(files, p) == View(p, job, was, NOTHING);
    }
    if left == None {
      forall p ensures p in files <==> p in was {
        assert Lookup(files, p) == Lookup(was, p);
      }
      forall p | p in files ensures files[p] == was[p] {
        assert Lookup(files, p) == Lookup(was, p);
      }
    }
  }

  /** What success leaves at each name. */
  ghost function Final(p: Path, job: Job, was: Files): Option<Content>
    requires WellFormed(job)
  {
    match p
    case Source(i) =>
      if i < |job.inputs| && job.inputs[i].before != job.inputs[i].after then Some(job.inputs[i].after)
      else Lookup(was, p)
    case Current(d) => if d < 4 then Some(job.built[d]) else Lookup(was, p)
    case Receipt => Some(job.receipt)
    case _ => Lookup(was, p)
  }

  datatype Creation = Created | NotOpened | NotWritten

  /** A stage that has not been committed is removed when the transaction is given up. */
  datatype Stage = Stage(changed: bool, committed: bool)

  class Transaction {
    var files: Files
    var stages: seq<Stage>
    /** Whether the staged receipt still has its temporary file to drop. */
    var holdsReceipt: bool

    constructor (found: Files)
      ensures files == found && stages == [] && !holdsReceipt
    {
      files, stages, holdsReceipt := found, [], false;
    }

    // ---- what the file system does ----

    method Rename(from: Path, to: Path, fault: bool) returns (ok: bool)
      modifies this`files
      ensures ok <==> from in old(files) && from != to && !fault
      ensures files == if ok then old(files)[to := old(files)[from]] - {from} else old(files)
    {
      ok := !fault && from in files && from != to;
      if ok {
        files := files[to := files[from]] - {from};
      }
    }

    /** An undoing rename, whose result nobody looks at. */
    method Restore(from: Path, to: Path)
      requires from != to
      modifies this`files
      ensures files == if from in old(files) then old(files)[to := old(files)[from]] - {from} else old(files)
    {
      if from in files {
        files := files[to := files[from]] - {from};
      }
    }

    method Remove(p: Path)
      modifies this`files
      ensures files == old(files) - {p}
    {
      files := files - {p};
    }

    /** A new file, written and synced; a failed write leaves whatever it managed. */
    method Create(p: Path, content: Content, unopened: bool, unwritten: bool) returns (done: Creation)
      modifies this`files
      ensures done ==
        if unopened || p in old(files) then NotOpened else if unwritten then NotWritten else Created
      ensures done == Created ==> p !in old(files) && files == old(files)[p := content]
      ensures done == NotOpened ==> files == old(files)
      ensures done == NotWritten ==> p in files && files == old(files)[p := files[p]] && p !in old(files)
    {
      if unopened || p in files {
        return NotOpened;
      }
      if unwritten {
        var torn: Content := *;
        files := files[p := torn];
        return NotWritten;
      }
      files := files[p := content];
      done := Created;
    }

    // ---- what the stages say ----

    ghost predicate Flags(job: Job, staged: nat, committed: nat)
      reads this`stages
    {
      && |stages| == staged <= |job.inputs|
      && forall i :: 0 <= i < staged ==> stages[i] == Stage(Changed(job, i), i < committed && Changed(job, i))
    }

    // ---- staging ----

    method StageSources(job: Job, faults: set<Step>, ghost was: Files) returns (failed: Option<Step>)
      requires WellFormed(job) && stages == [] && Shows(files, job, was, NOTHING, None)
      modifies this`files, this`stages
      ensures failed.None? ==>
        Flags(job, |job.inputs|, 0) && Shows(files, job, was, NOTHING.(staged := |job.inputs|), None)
      ensures failed.Some? ==> Shows(files, job, was, NOTHING, LeftBy(failed.value))
      ensures failed.Some? ==> failed.value.OpenStage? || failed.value.WriteStage?
      ensures if failed.None? then ClearTo(2 * |job.inputs|, job, was, faults)
              else FailsFirst(failed.value, job, was, faults)
    {
      for i := 0 to |job.inputs|
        invariant Flags(job, i, 0) && Shows(files, job, was, NOTHING.(staged := i), None)
        invariant ClearTo(2 * i, job, was, faults)
      {
        failed := StageOne(job, i, faults, was, NOTHING.(staged := i));
        if failed.Some? {
          CleanupSources(job, was, NOTHING.(staged := i), LeftBy(failed.value));
          return;
        }
        stages := stages + [Stage(job.inputs[i].before != job.inputs[i].after, false)];
      }
      failed := None;
    }

    method StageOne(job: Job, i: nat, faults: set<Step>, ghost was: Files, ghost at: Progress)
      returns (failed: Option<Step>)
      requires WellFormed(job) && i < |job.inputs| && at == NOTHING.(staged := i)
      requires Shows(files, job, was, at, None) && ClearTo(2 * i, job, was, faults)
      modifies this`files
      ensures failed.None? ==> Shows(files, job, was, at.(staged := i + 1), None)
      ensures failed.Some? ==> Shows(files, job, was, at, LeftBy(failed.value))
      ensures failed.Some? ==> failed == Some(OpenStage(i)) || failed == Some(WriteStage(i))
      ensures if failed.None? then ClearTo(2 * (i + 1), job, was, faults)
              else FailsFirst(failed.value, job, was, faults)
    {
      assert Lookup(files, Staged(i)) == View(Staged(i), job, was, at);
      var input := job.inputs[i];
      if input.before != input.after {
        var created := Create(Staged(i), input.after, OpenStage(i) in faults, WriteStage(i) in faults);
        match created
        case NotOpened => return Some(OpenStage(i));
        case NotWritten =>
          Passed(OpenStage(i), job, was, faults);
          return Some(WriteStage(i));
        case Created =>
      }
      StagePasses(job, i, was, faults);
      failed := None;
    }

    /** Removes the staged copy of every stage it is shown that is not committed. */
    method CleanupSources(job: Job, ghost was: Files, ghost at: Progress, ghost left: Option<Path>)
      requires WellFormed(job) && Flags(job, at.staged, 0) && at.committed == 0
      requires Shows(files, job, was, at, left)
      requires left.Some? && left.value.Staged? ==> left.value.i >= at.staged
      modifies this`files
      ensures Shows(files, job, was, at.(staged := 0, taken := 0), left)
    {
      ghost var before := files;
      for i := 0 to |stages|
        invariant forall p :: Lookup(files, p) == if p.Staged? && p.i < i then None else Lookup(before, p)
      {
        if !stages[i].committed {
          Remove(Staged(i));
        }
      }
      assert left.Some? ==> Lookup(files, left.value) == Lookup(before, left.value);
    }

    // ---- committing the sources ----

    /** A source is replaced only if it still is what was planned. */
    method CheckSource(job: Job, i: nat, faults: set<Step>, ghost was: Files) returns (failed: Option<Step>)
      requires i < |job.inputs| && Changed(job, i) && Lookup(files, Source(i)) == Lookup(was, Source(i))
      requires ClearTo(SourceTurn(job, i), job, was, faults)
      ensures failed.None? ==> Lookup(was, Source(i)) == Some(job.inputs[i].before)
      ensures failed.None? ==> ClearTo(SourceTurn(job, i) + 2, job, was, faults)
      ensures failed.Some? ==> FailsFirst(failed.value, job, was, faults) && LeftBy(failed.value) == None
    {
      if ReadSource(i) in faults || Source(i) !in files {
        return Some(ReadSource(i));
      }
      Passed(ReadSource(i), job, was, faults);
      if files[Source(i)] != job.inputs[i].before {
        return Some(SourceEdited(i));
      }
      Passed(SourceEdited(i), job, was, faults);
      failed := None;
    }

    method CommitSource(job: Job, i: nat, faults: set<Step>, ghost was: Files, ghost at: Progress)
      returns (failed: Option<Step>)
      requires WellFormed(job) && i < |job.inputs| && Changed(job, i)
      requires at.committed == at.taken == i && at.staged == |job.inputs|
      requires Flags(job, |job.inputs|, i) && Shows(files, job, was, at, None)
      requires ClearTo(SourceTurn(job, i), job, was, faults)
      modifies this`files, this`stages
      ensures failed.None? ==> Flags(job, |job.inputs|, i + 1)
      ensures failed.None? ==> Shows(files, job, was, at.(committed := i + 1, taken := i + 1), None)
      ensures failed.None? ==> Lookup(was, Source(i)) == Some(job.inputs[i].before)
      ensures failed.Some? ==> stages == old(stages) && files == old(files) && LeftBy(failed.value) == None
      ensures if failed.None? then ClearTo(SourceTurn(job, i + 1), job, was, faults)
              else FailsFirst(failed.value, job, was, faults)
    {
      assert Lookup(files, Source(i)) == View(Source(i), job, was, at);
      assert Lookup(files, Staged(i)) == View(Staged(i), job, was, at);
      assert Lookup(files, Aside(i)) == View(Aside(i), job, was, at);
      failed := CheckSource(job, i, faults, was);
      if failed.Some? {
        return;
      }
      failed := MoveSource(job, i, faults, was);
      if failed.None? {
        stages := stages[i := stages[i].(committed := true)];
      }
    }

    /** The old file aside, the staged one in its place; a failing second rename undoes
        the first. */
    method MoveSource(job: Job, i: nat, faults: set<Step>, ghost was: Files) returns (failed: Option<Step>)
      requires i < |job.inputs| && Changed(job, i) && ClearTo(SourceTurn(job, i) + 2, job, was, faults)
      requires Source(i) in files && Staged(i) in files && Aside(i) !in files
      modifies this`files
      ensures failed.None? ==>
        files == old(files)[Aside(i) := old(files)[Source(i)]][Source(i) := old(files)[Staged(i)]] - {Staged(i)}
      ensures failed.Some? ==> files == old(files) && LeftBy(failed.value) == None
      ensures if failed.None? then ClearTo(SourceTurn(job, i + 1), job, was, faults)
              else FailsFirst(failed.value, job, was, faults)
    {
      var ok := Rename(Source(i), Aside(i), SetSourceAside(i) in faults);
      if !ok {
        return Some(SetSourceAside(i));
      }
      Passed(SetSourceAside(i), job, was, faults);
      ok := Rename(Staged(i), Source(i), PlaceSource(i) in faults);
      if !ok {
        Restore(Aside(i), Source(i));
        return Some(PlaceSource(i));
      }
      Passed(PlaceSource(i), job, was, faults);
      failed := None;
    }

    method CommitSources(job: Job, faults: set<Step>, ghost was: Files, ghost at: Progress)
      returns (failed: Option<Step>)
      requires WellFormed(job) && at.committed == at.taken == 0 && at.staged == |job.inputs|
      requires at.swapped == 0
      requires Flags(job, |job.inputs|, 0) && Shows(files, job, was, at, None)
      requires ClearTo(SourceTurn(job, 0), job, was, faults)
      modifies this`files, this`stages
      ensures if failed.None? then ClearTo(SourceTurn(job, |job.inputs|), job, was, faults)
              else FailsFirst(failed.value, job, was, faults)
      ensures failed.None? ==>
        && Flags(job, |job.inputs|, |job.inputs|)
        && Shows(files, job, was, at.(committed := |job.inputs|, taken := |job.inputs|), None)
        && forall i :: 0 <= i < |job.inputs| && Changed(job, i) ==> Lookup(was, Source(i)) == Some(job.inputs[i].before)
      ensures failed.Some? ==> LeftBy(failed.value) == None && Flags(job, |job.inputs|, 0)
      ensures failed.Some? ==> exists taken :: Shows(files, job, was, at.(taken := taken), None)
    {
      for i := 0 to |job.inputs|
        invariant Flags(job, |job.inputs|, i)
        invariant Shows(files, job, was, at.(committed := i, taken := i), None)
        invariant ClearTo(SourceTurn(job, i), job, was, faults)
        invariant forall k :: 0 <= k < i && Changed(job, k) ==> Lookup(was, Source(k)) == Some(job.inputs[k].before)
      {
        if !stages[i].changed {
          Skips(files, job, was, at.(committed := i, taken := i), i);
          SkippedPasses(job, i, was, faults);
          continue;
        }
        failed := CommitSource(job, i, faults, was, at.(committed := i, taken := i));
        if failed.Some? {
          RollbackSources(job, was, at.(committed := i, taken := i));
          return;
        }
      }
      failed := None;
    }

    // ---- undoing the sources ----

    method RollbackSources(job: Job, ghost was: Files, ghost at: Progress)
      requires WellFormed(job) && at.committed == at.taken <= |job.inputs| && at.staged == |job.inputs|
      requires Flags(job, |job.inputs|, at.committed) && Shows(files, job, was, at, None)
      requires forall i :: 0 <= i < at.committed && Changed(job, i) ==> Source(i) in was
      modifies this`files, this`stages
      ensures Flags(job, |job.inputs|, 0) && Shows(files, job, was, at.(committed := 0), None)
    {
      var i := |stages|;
      while i > 0
        invariant 0 <= i <= |job.inputs|
        invariant Flags(job, |job.inputs|, if i < at.committed then i else at.committed)
        invariant Shows(files, job, was, at.(committed := if i < at.committed then i else at.committed), None)
      {
        i := i - 1;
        if stages[i].committed {
          assert i < at.committed && Changed(job, i);
          Undo(job, i, was, at.(committed := i + 1));
          stages := stages[i := stages[i].(committed := false)];
        } else if i < at.committed {
          Unskips(files, job, was, at.(committed := i + 1), i);
        }
      }
    }

    method Undo(job: Job, i: nat, ghost was: Files, ghost at: Progress)
      requires WellFormed(job) && i < |job.inputs| && Changed(job, i) && at.committed == i + 1
      requires Shows(files, job, was, at, None) && Source(i) in was
      modifies this`files
      ensures Shows(files, job, was, at.(committed := i), None)
    {
      assert Lookup(files, Source(i)) == View(Source(i), job, was, at);
      assert Lookup(files, Aside(i)) == View(Aside(i), job, was, at);
      Remove(Source(i));
      Restore(Aside(i), Source(i));
    }

    // ---- swapping the directories ----

    method Swap(job: Job, d: nat, faults: set<Step>, ghost was: Files, ghost at: Progress)
      returns (failed: Option<Step>)
      requires WellFormed(job) && d < |DIRECTORIES| && at.swapped == d && at.shadow.Whole?
      requires Shows(files, job, was, at, None) && ClearTo(SwapTurn(job, d), job, was, faults)
      modifies this`files
      ensures failed.None? ==> Shows(files, job, was, at.(swapped := d + 1), None) && Current(d) in was
      ensures failed.Some? ==> files == old(files) && LeftBy(failed.value) == None
      ensures if failed.None? then ClearTo(SwapTurn(job, d + 1), job, was, faults)
              else FailsFirst(failed.value, job, was, faults)
    {
      assert Lookup(files, Current(d)) == View(Current(d), job, was, at);
      assert Lookup(files, Incoming(d)) == View(Incoming(d), job, was, at);
      assert Lookup(files, Backup(d)) == View(Backup(d), job, was, at);
      ghost var before := files;
      var ok := Rename(Current(d), Backup(d), SetDirectoryAside(d) in faults);
      if !ok {
        return Some(SetDirectoryAside(d));
      }
      Passed(SetDirectoryAside(d), job, was, faults);
      ok := Rename(Incoming(d), Current(d), PlaceDirectory(d) in faults);
      if !ok {
        Restore(Backup(d), Current(d));
        assert files == before;
        return Some(PlaceDirectory(d));
      }
      Passed(PlaceDirectory(d), job, was, faults);
      failed := None;
    }

    method RollbackSwaps(job: Job, ghost was: Files, ghost at: Progress, swapped: nat)
      requires WellFormed(job) && at.swapped == swapped <= |DIRECTORIES|
      requires Shows(files, job, was, at, None)
      requires forall d :: 0 <= d < swapped ==> Current(d) in was
      modifies this`files
      ensures Shows(files, job, was, at.(swapped := 0, shadow := Partial), None)
    {
      GiveUpShadow(files, job, was, at);
      var d := swapped;
      while d > 0
        invariant 0 <= d <= swapped
        invariant Shows(files, job, was, at.(swapped := d, shadow := Partial), None)
      {
        d := d - 1;
        SwapBack(job, d, was, at.(swapped := d + 1, shadow := Partial));
      }
    }

    method SwapBack(job: Job, d: nat, ghost was: Files, ghost at: Progress)
      requires WellFormed(job) && d < |DIRECTORIES| && at.swapped == d + 1 && at.shadow.Partial?
      requires Shows(files, job, was, at, None) && Current(d) in was
      modifies this`files
      ensures Shows(files, job, was, at.(swapped := d), None)
    {
      assert Lookup(files, Backup(d)) == View(Backup(d), job, was, at);
      Remove(Current(d));
      Restore(Backup(d), Current(d));
    }

    // ---- the shadow and the receipt ----

    method BuildTheShadow(job: Job, faults: set<Step>, ghost was: Files, ghost at: Progress)
      returns (failed: Option<Step>)
      requires WellFormed(job) && at.shadow.Absent? && at.swapped == 0 && Shows(files, job, was, at, None)
      modifies this`files
      ensures failed.None? ==> Shows(files, job, was, at.(shadow := Whole), None)
      ensures failed.Some? ==> failed == Some(BuildShadow) && Shows(files, job, was, at.(shadow := Partial), None)
      ensures failed.Some? <==> BuildShadow in faults
    {
      ghost var before := files;
      var reach :| 0 <= reach < |DIRECTORIES|;
      for d := 0 to |DIRECTORIES|
        invariant BuiltUpTo(before, files, job, d) && (BuildShadow in faults ==> d <= reach)
      {
        if BuildShadow in faults && d == reach {
          ShadowOf(before, files, job, was, at, d);
          return Some(BuildShadow);
        }
        files := files[Incoming(d) := job.built[d]];
      }
      ShadowOf(before, files, job, was, at, |DIRECTORIES|);
      failed := None;
    }

    method CleanupShadow(job: Job, ghost was: Files, ghost at: Progress, ghost left: Option<Path>)
      requires WellFormed(job) && Shows(files, job, was, at, left)
      requires left.Some? ==> !left.value.Incoming?
      modifies this`files
      ensures Shows(files, job, was, at.(shadow := Absent), left)
    {
      ghost var before := files;
      for d := 0 to |DIRECTORIES|
        invariant forall p: Path ::
          Lookup(files, p) == if p.Incoming? && p.d < d then None else Lookup(before, p)
      {
        Remove(Incoming(d));
      }
    }

    method StageReceipt(job: Job, faults: set<Step>, ghost was: Files, ghost at: Progress)
      returns (failed: Option<Step>)
      requires WellFormed(job) && !at.receipt && !holdsReceipt && Shows(files, job, was, at, None)
      requires ClearTo(2 * |job.inputs| + 1, job, was, faults)
      modifies this`files, this`holdsReceipt
      ensures failed.None? ==> Shows(files, job, was, at.(receipt := holdsReceipt), None)
      ensures failed.None? ==> if holdsReceipt then Receipt !in was && TemporaryReceipt !in was
                               else Lookup(was, Receipt) == Some(job.receipt)
      ensures failed.Some? ==> Shows(files, job, was, at, LeftBy(failed.value)) && !holdsReceipt
      ensures failed.Some? && LeftBy(failed.value).Some? ==>
        LeftBy(failed.value) == Some(TemporaryReceipt) && TemporaryReceipt !in was
      ensures if failed.None? then ClearTo(SourceTurn(job, 0), job, was, faults)
              else FailsFirst(failed.value, job, was, faults)
    {
      assert Lookup(files, Receipt) == View(Receipt, job, was, at);
      assert Lookup(files, TemporaryReceipt) == View(TemporaryReceipt, job, was, at);
      if Receipt in files && files[Receipt] != job.receipt {
        return Some(ReceiptCollision);
      }
      Passed(ReceiptCollision, job, was, faults);
      if Receipt in files {
        Passed(OpenReceipt, job, was, faults);
        Passed(WriteReceipt, job, was, faults);
        return None;
      }
      var created := Create(TemporaryReceipt, job.receipt, OpenReceipt in faults, WriteReceipt in faults);
      match created
      case NotOpened => return Some(OpenReceipt);
      case NotWritten =>
        Passed(OpenReceipt, job, was, faults);
        return Some(WriteReceipt);
      case Created =>
        Passed(OpenReceipt, job, was, faults);
        Passed(WriteReceipt, job, was, faults);
        holdsReceipt := true;
        failed := None;
    }

    /** The receipt goes out of scope: its temporary file goes with it, if it still
        holds one. */
    method DropReceipt(job: Job, ghost was: Files, ghost at: Progress)
      requires WellFormed(job) && at.receipt == holdsReceipt && Shows(files, job, was, at, None)
      requires holdsReceipt ==> TemporaryReceipt !in was
      modifies this`files, this`holdsReceipt
      ensures !holdsReceipt && Shows(files, job, was, at.(receipt := false), None)
    {
      if holdsReceipt {
        Remove(TemporaryReceipt);
        holdsReceipt := false;
      }
    }

    // ---- committing, finishing, giving up ----

    method Commit(job: Job, faults: set<Step>, ghost was: Files, ghost at: Progress) returns (failed: Option<Step>)
      requires WellFormed(job) && at.committed == at.taken == at.swapped == 0 && at.staged == |job.inputs|
      requires at.shadow.Whole? && Flags(job, |job.inputs|, 0) && Shows(files, job, was, at, None)
      requires ClearTo(SourceTurn(job, 0), job, was, faults)
      modifies this`files, this`stages
      ensures if failed.None? then ClearTo(SwapTurn(job, |DIRECTORIES|), job, was, faults)
              else FailsFirst(failed.value, job, was, faults)
      ensures failed.None? ==>
        && Flags(job, |job.inputs|, |job.inputs|) && Possible(was, job)
        && Shows(files, job, was, Done(job, at), None)
      ensures failed.Some? ==> LeftBy(failed.value) == None && Flags(job, |job.inputs|, 0)
      ensures failed.Some? ==>
        exists taken, shadow ::
          Shows(files, job, was, at.(taken := taken, shadow := shadow), None)
    {
      var n := |job.inputs|;
      failed := CommitSources(job, faults, was, at);
      if failed.Some? {
        ghost var taken :| Shows(files, job, was, at.(taken := taken), None);
        assert at.(taken := taken) == at.(taken := taken, shadow := at.shadow);
        return;
      }
      ghost var committed := at.(committed := n, taken := n);
      for d := 0 to |DIRECTORIES|
        invariant Flags(job, n, n)
        invariant Shows(files, job, was, committed.(swapped := d), None)
        invariant ClearTo(SwapTurn(job, d), job, was, faults)
        invariant forall k :: 0 <= k < d ==> Current(k) in was
      {
        failed := Swap(job, d, faults, was, committed.(swapped := d));
        if failed.Some? {
          RollbackSwaps(job, was, committed.(swapped := d), d);
          RollbackSources(job, was, committed.(shadow := Partial));
          assert Shows(files, job, was, at.(taken := n, shadow := Partial), None);
          return;
        }
      }
      failed := None;
    }

    method Finish(job: Job, faults: set<Step>, ghost was: Files, ghost at: Progress) returns (failed: Option<Step>)
      requires WellFormed(job) && at.committed == at.taken == at.swapped == 0 && at.staged == |job.inputs|
      requires at.shadow.Whole? && at.receipt == holdsReceipt && Untouched(was)
      requires Flags(job, |job.inputs|, |job.inputs|) && Possible(was, job)
      requires Shows(files, job, was, Done(job, at), None)
      requires if holdsReceipt then Receipt !in was && TemporaryReceipt !in was
               else Lookup(was, Receipt) == Some(job.receipt)
      requires ClearTo(SwapTurn(job, |DIRECTORIES|), job, was, faults)
      modifies this
      ensures if failed.None? then forall step :: !Fails(step, job, was, faults)
              else FailsFirst(failed.value, job, was, faults)
      ensures failed.None? ==> forall p :: Lookup(files, p) == Final(p, job, was)
      ensures failed.Some? ==> (failed == Some(Doctor) || failed == Some(PlaceReceipt)) && Flags(job, |job.inputs|, 0)
      ensures failed == Some(PlaceReceipt) ==> TemporaryReceipt !in was
      ensures failed.Some? ==>
        Shows(files, job, was, at.(taken := |job.inputs|, shadow := Partial, receipt := false), LeftBy(failed.value))
    {
      ghost var now, before := Done(job, at), files;
      if Doctor in faults {
        DropReceipt(job, was, now);
        RollbackAll(job, was, at.(receipt := false));
        return Some(Doctor);
      }
      Passed(Doctor, job, was, faults);
      if holdsReceipt {
        holdsReceipt := false;
        assert Lookup(files, TemporaryReceipt) == View(TemporaryReceipt, job, was, now);
        var ok := Rename(TemporaryReceipt, Receipt, PlaceReceipt in faults);
        if !ok {
          RollbackAll(job, was, at);
          LetGo(files, job, was, at.(taken := |job.inputs|, shadow := Partial));
          return Some(PlaceReceipt);
        }
      }
      Passed(PlaceReceipt, job, was, faults);
      LastPassed(job, was, faults);
      OnlyBackupsLeft(before, files, job, was, at);
      DiscardBackups(job, was);
      failed := None;
    }

    method RollbackAll(job: Job, ghost was: Files, ghost at: Progress)
      requires WellFormed(job) && at.committed == at.taken == at.swapped == 0 && at.staged == |job.inputs|
      requires at.shadow.Whole? && Flags(job, |job.inputs|, |job.inputs|) && Possible(was, job)
      requires Shows(files, job, was, Done(job, at), None)
      modifies this`files, this`stages
      ensures Flags(job, |job.inputs|, 0)
      ensures Shows(files, job, was, at.(taken := |job.inputs|, shadow := Partial), None)
    {
      RollbackSwaps(job, was, Done(job, at), |DIRECTORIES|);
      RollbackSources(job, was, Done(job, at).(swapped := 0, shadow := Partial));
      assert Done(job, at).(swapped := 0, shadow := Partial, committed := 0)
        == at.(taken := |job.inputs|, shadow := Partial);
    }

    method DiscardBackups(job: Job, ghost was: Files)
      requires WellFormed(job) && Untouched(was) && Flags(job, |job.inputs|, |job.inputs|)
      requires forall p: Path :: !p.Aside? && !p.Backup? ==> Lookup(files, p) == Final(p, job, was)
      requires forall p: Path :: p.Aside? && p.i >= |job.inputs| ==> Lookup(files, p) == None
      requires forall i :: 0 <= i < |job.inputs| && !Changed(job, i) ==> Lookup(files, Aside(i)) == None
      requires forall p: Path :: p.Backup? && p.d >= |DIRECTORIES| ==> Lookup(files, p) == None
      modifies this`files, this`stages
      ensures forall p :: Lookup(files, p) == Final(p, job, was)
    {
      ghost var before := files;
      for d := 0 to |DIRECTORIES|
        invariant stages == old(stages)
        invariant forall p: Path :: Lookup(files, p) == if p.Backup? && p.d < d then None else Lookup(before, p)
      {
        Remove(Backup(d));
      }
      ghost var between := files;
      for i := 0 to |stages|
        invariant |stages| == |job.inputs|
        invariant forall k :: i <= k < |stages| ==> stages[k].committed == Changed(job, k)
        invariant forall p: Path ::
          Lookup(files, p) == if p.Aside? && p.i < i then None else Lookup(between, p)
      {
        if stages[i].committed {
          Remove(Aside(i));
          stages := stages[i := stages[i].(committed := false)];
        }
      }
    }

    method Abort(job: Job, ghost was: Files, ghost at: Progress, ghost left: Option<Path>)
      requires WellFormed(job) && at.committed == at.swapped == 0 && !at.receipt
      requires Flags(job, at.staged, 0) && Shows(files, job, was, at, left)
      requires left == None || left == Some(TemporaryReceipt)
      modifies this`files
      ensures Shows(files, job, was, NOTHING, left)
    {
      CleanupSources(job, was, at, left);
      CleanupShadow(job, was, at.(staged := 0, taken := 0), left);
    }

    // ---- the whole of it ----

    /** All or nothing: on success every changed source and all four directories are
        new, the receipt exists and no other name is touched; whichever step fails,
        every name is as it was, save for the file LeftBy names. */
    method Execute(job: Job, faults: set<Step>) returns (failed: Option<Step>)
      requires WellFormed(job) && Untouched(files) && stages == [] && !holdsReceipt
      modifies this
      // It succeeds exactly when no step fails, and otherwise stops at the first that does.
      ensures failed.None? <==> forall step :: !Fails(step, job, old(files), faults)
      ensures failed.Some? ==> FailsFirst(failed.value, job, old(files), faults)
      ensures failed.None? ==> Possible(old(files), job)
      ensures failed.None? ==> forall p :: Lookup(files, p) == Final(p, job, old(files))
      ensures failed.Some? ==>
        match LeftBy(failed.value)
        case None => files == old(files)
        case Some(p) => p !in old(files) && p in files && files - {p} == old(files)
    {
      ghost var was := files;
      BeforeAnything(was, job);
      failed := StageSources(job, faults, was);
      if failed.Some? {
        Undone(files, was, job, LeftBy(failed.value));
        return;
      }
      ghost var at := NOTHING.(staged := |job.inputs|);
      failed := BuildTheShadow(job, faults, was, at);
      if failed.Some? {
        assert FailsFirst(BuildShadow, job, was, faults);
        Abort(job, was, at.(shadow := Partial), None);
        Undone(files, was, job, None);
        return;
      }
      Passed(BuildShadow, job, was, faults);
      at := at.(shadow := Whole);
      failed := StageReceipt(job, faults, was, at);
      if failed.Some? {
        Abort(job, was, at, LeftBy(failed.value));
        Undone(files, was, job, LeftBy(failed.value));
        return;
      }
      at := at.(receipt := holdsReceipt);
      failed := Commit(job, faults, was, at);
      if failed.Some? {
        ghost var taken, shadow :| Shows(files, job, was, at.(taken := taken, shadow := shadow), None);
        DropReceipt(job, was, at.(taken := taken, shadow := shadow));
        Abort(job, was, at.(taken := taken, shadow := shadow, receipt := false), None);
        Undone(files, was, job, None);
        return;
      }
      failed := Finish(job, faults, was, at);
      if failed.Some? {
        Abort(job, was, at.(taken := |job.inputs|, shadow := Partial, receipt := false), LeftBy(failed.value));
        Undone(files, was, job, LeftBy(failed.value));
        return;
      }
    }
  }

  lemma Undone(files: Files, was: Files, job: Job, left: Option<Path>)
    requires WellFormed(job) && Untouched(was) && Shows(files, job, was, NOTHING, left)
    requires left.Some? ==> left.value !in was
    ensures match left
            case None => files == was
            case Some(p) => p !in was && p in files && files - {p} == was
  {
    AfterEverythingUndone(files, was, job, left);
    if left.Some? {
      var rest := files - {left.value};
      forall p ensures p in rest <==> p in was {
        assert p != left.value ==> Lookup(files, p) == Lookup(was, p);
      }
      forall p | p in rest ensures rest[p] == was[p] {
        assert Lookup(files, p) == Lookup(was, p);
      }
    }
  }

  // ---- whose turn it is ----

  ghost function SourceTurn(job: Job, i: nat): nat {
    2 * |job.inputs| + 4 + 4 * i
  }

  ghost function SwapTurn(job: Job, d: nat): nat {
    6 * |job.inputs| + 4 + 2 * d
  }

  ghost predicate InRange(step: Step, n: nat) {
    match step
    case OpenStage(i) => i < n
    case WriteStage(i) => i < n
    case ReadSource(i) => i < n
    case SourceEdited(i) => i < n
    case SetSourceAside(i) => i < n
    case PlaceSource(i) => i < n
    case SetDirectoryAside(d) => d < |DIRECTORIES|
    case PlaceDirectory(d) => d < |DIRECTORIES|
    case _ => true
  }

  lemma OneAtATurn(a: Step, b: Step, n: nat)
    requires InRange(a, n) && InRange(b, n) && Turn(a, n) == Turn(b, n)
    ensures a == b
  {
  }

  /** A step that does not fail hands on to the next. */
  lemma Passed(step: Step, job: Job, was: Files, faults: set<Step>)
    requires ClearTo(Turn(step, |job.inputs|), job, was, faults) && InRange(step, |job.inputs|)
    requires !Fails(step, job, was, faults)
    ensures ClearTo(Turn(step, |job.inputs|) + 1, job, was, faults)
  {
    forall other | Turn(other, |job.inputs|) < Turn(step, |job.inputs|) + 1 ensures !Fails(other, job, was, faults) {
      FailsInRange(other, job, was, faults);
      if InRange(other, |job.inputs|) && Turn(other, |job.inputs|) == Turn(step, |job.inputs|) {
        OneAtATurn(step, other, |job.inputs|);
      }
    }
  }

  lemma FailsInRange(step: Step, job: Job, was: Files, faults: set<Step>)
    ensures Fails(step, job, was, faults) ==> InRange(step, |job.inputs|)
  {
  }

  lemma LastPassed(job: Job, was: Files, faults: set<Step>)
    requires ClearTo(SwapTurn(job, |DIRECTORIES|) + 2, job, was, faults)
    ensures forall step :: !Fails(step, job, was, faults)
  {
    forall step ensures !Fails(step, job, was, faults) {
      FailsInRange(step, job, was, faults);
    }
  }

  lemma StagePasses(job: Job, i: nat, was: Files, faults: set<Step>)
    requires i < |job.inputs| && ClearTo(2 * i, job, was, faults)
    requires !Fails(OpenStage(i), job, was, faults) && !Fails(WriteStage(i), job, was, faults)
    ensures ClearTo(2 * (i + 1), job, was, faults)
  {
    Passed(OpenStage(i), job, was, faults);
    Passed(WriteStage(i), job, was, faults);
  }

  lemma SkippedPasses(job: Job, i: nat, was: Files, faults: set<Step>)
    requires i < |job.inputs| && ClearTo(SourceTurn(job, i), job, was, faults) && !Changed(job, i)
    ensures ClearTo(SourceTurn(job, i + 1), job, was, faults)
  {
    Passed(ReadSource(i), job, was, faults);
    Passed(SourceEdited(i), job, was, faults);
    Passed(SetSourceAside(i), job, was, faults);
    Passed(PlaceSource(i), job, was, faults);
  }

  ghost function Done(job: Job, at: Progress): Progress {
    at.(committed := |job.inputs|, taken := |job.inputs|, swapped := |DIRECTORIES|)
  }

  /** What a compaction cannot do without: the sources as they were planned, and the
      four directories. */
  ghost predicate Possible(was: Files, job: Job) {
    && (forall i :: 0 <= i < |job.inputs| && job.inputs[i].before != job.inputs[i].after ==>
          Lookup(was, Source(i)) == Some(job.inputs[i].before))
    && (forall d :: 0 <= d < 4 ==> Current(d) in was)
  }

  ghost predicate BuiltUpTo(before: Files, files: Files, job: Job, d: nat)
    requires WellFormed(job) && d <= |DIRECTORIES|
  {
    forall p: Path ::
      Lookup(files, p) == if p.Incoming? && p.d < d then Some(job.built[p.d]) else Lookup(before, p)
  }

  lemma ShadowOf(before: Files, files: Files, job: Job, was: Files, at: Progress, d: nat)
    requires WellFormed(job) && d <= |DIRECTORIES| && BuiltUpTo(before, files, job, d)
    requires at.shadow.Absent? && at.swapped == 0 && Shows(before, job, was, at, None)
    ensures Shows(files, job, was, at.(shadow := Partial), None)
    ensures d == |DIRECTORIES| ==> Shows(files, job, was, at.(shadow := Whole), None)
  {
  }

  /** A staged receipt nothing will remove any more. */
  lemma LetGo(files: Files, job: Job, was: Files, at: Progress)
    requires WellFormed(job) && at.receipt && Shows(files, job, was, at, None)
    ensures Shows(files, job, was, at.(receipt := false), Some(TemporaryReceipt))
  {
    assert Lookup(files, TemporaryReceipt) == View(TemporaryReceipt, job, was, at);
  }

  /** With the receipt in place, only what was set aside is still in the way. */
  lemma OnlyBackupsLeft(before: Files, files: Files, job: Job, was: Files, at: Progress)
    requires WellFormed(job) && at.staged == |job.inputs| && at.shadow.Whole? && Untouched(was)
    requires Shows(before, job, was, Done(job, at), None)
    requires if at.receipt then TemporaryReceipt !in was else Lookup(was, Receipt) == Some(job.receipt)
    requires at.receipt ==>
      TemporaryReceipt in before && files == before[Receipt := before[TemporaryReceipt]] - {TemporaryReceipt}
    requires !at.receipt ==> files == before
    ensures forall p: Path ::
      Lookup(files, p) == if p.Aside? || p.Backup? then View(p, job, was, Done(job, at)) else Final(p, job, was)
  {
    var now := Done(job, at);
    assert Lookup(before, TemporaryReceipt) == View(TemporaryReceipt, job, was, now);
    forall p: Path
      ensures Lookup(files, p) == if p.Aside? || p.Backup? then View(p, job, was, now) else Final(p, job, was)
    {
      assert Lookup(before, p) == View(p, job, was, now);
    }
  }

  lemma GiveUpShadow(files: Files, job: Job, was: Files, at: Progress)
    requires WellFormed(job) && Shows(files, job, was, at, None)
    ensures Shows(files, job, was, at.(shadow := Partial), None)
  {
  }

  /** A source that does not change looks the same committed or not. */
  lemma Skips(files: Files, job: Job, was: Files, at: Progress, i: nat)
    requires WellFormed(job) && i < |job.inputs| && !Changed(job, i)
    requires at.committed == at.taken == i && Shows(files, job, was, at, None)
    ensures Shows(files, job, was, at.(committed := i + 1, taken := i + 1), None)
  {
    forall p ensures View(p, job, was, at) == View(p, job, was, at.(committed := i + 1, taken := i + 1)) {
    }
  }

  lemma Unskips(files: Files, job: Job, was: Files, at: Progress, i: nat)
    requires WellFormed(job) && i < |job.inputs| && !Changed(job, i)
    requires at.committed == i + 1 && Shows(files, job, was, at, None)
    ensures Shows(files, job, was, at.(committed := i), None)
  {
    forall p ensures View(p, job, was, at) == View(p, job, was, at.(committed := i)) {
    }
  }
}
