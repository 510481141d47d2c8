/** Exactly once, over every run of invocations, crashes and recoveries. */
module AuditRuns {
  import opened Ledger
  import opened AuditEvent
  import opened AuditDisk

  lemma TextStep(events: seq<Event>, e: Event, month: nat)
    ensures Text(events + [e], month) == Text(events, month) + if e.month == month then Line(e) else ""
    ensures forall id :: Times(events + [e], id) == Times(events, id) + if e.id == id then 1 else 0
  {
    assert (events + [e])[..|events|] == events;
  }

  lemma JournalKeepsInv(d: Disk, e: Event, d': Disk)
    requires Inv(d) && d.pending.None? && e.id in d.requests && Captured(e)
    requires d' == d.(pending := Some(PendingFor(d, e)))
    ensures Inv(d')
  {
    assert WholeAt(d, e.month);
    forall month ensures WholeAt(d', month) {
      assert WholeAt(d, month);
    }
    forall id ensures AccountedOnce(d', id) {
      assert AccountedOnce(d, id);
    }
  }

  lemma MoreOfTheLine(text: string, line: string, have: nat, n: nat)
    requires have + n <= |line|
    ensures (text + line[..have]) + line[have..have + n] == text + line[..have + n]
  {
  }

  lemma WriteKeepsFiles(d: Disk, n: nat, d': Disk)
    requires FilesWhole(d) && Next(d, Write(n), d')
    ensures FilesWhole(d')
  {
    var p := d.pending.value;
    forall month ensures WholeAt(d', month) {
      assert WholeAt(d, month);
      if month == p.month {
        MoreOfTheLine(Text(d.written, month), p.line, Landed(d, p), n);
      }
    }
  }

  lemma WriteKeepsInv(d: Disk, n: nat, d': Disk)
    requires Inv(d) && Next(d, Write(n), d')
    ensures Inv(d')
  {
    WriteKeepsFiles(d, n, d');
    forall id ensures AccountedOnce(d', id) {
      assert AccountedOnce(d, id);
    }
  }

  lemma ClearKeepsFiles(d: Disk, d': Disk)
    requires FilesWhole(d) && PendingSound(d) && Next(d, ClearPending, d')
    ensures FilesWhole(d')
  {
    var p := d.pending.value;
    assert p.line[..|p.line|] == p.line;
    forall month ensures WholeAt(d', month) {
      assert WholeAt(d, month);
      TextStep(d.written, p.parsed.value, month);
      assert FileOf(d', month) == FileOf(d, month);
      if month == p.month {
        assert PendingPart(d, month) == p.line;
      }
    }
  }

  lemma ClearKeepsAccounts(d: Disk, d': Disk, id: Id)
    requires AccountedOnce(d, id) && PendingSound(d) && Next(d, ClearPending, d')
    ensures AccountedOnce(d', id)
  {
    TextStep(d.written, d.pending.value.parsed.value, 0);
  }

  lemma ClearKeepsInv(d: Disk, d': Disk)
    requires Inv(d) && Next(d, ClearPending, d')
    ensures Inv(d')
  {
    ClearKeepsFiles(d, d');
    forall id ensures AccountedOnce(d', id) {
      ClearKeepsAccounts(d, d', id);
    }
  }

  /** The set of invocations the ledger must have by now. */
  ghost predicate Due(d: Disk, id: Id) {
    id in d.published && id !in d.requests && !PendingIs(d, id)
  }

  lemma SameLedgerKeepsInv(d: Disk, d': Disk)
    requires Inv(d) && RequestsSound(d')
    requires d'.files == d.files && d'.pending == d.pending && d'.written == d.written && d.published <= d'.published
    requires forall id :: Due(d', id) <==> Due(d, id)
    requires d.pending.Some? && d.pending.value.reservation.Some? && d.pending.value.reservation.value in d.requests ==>
      d.pending.value.reservation.value in d'.requests || WholeLineLanded(d)
    ensures Inv(d')
  {
    forall month ensures WholeAt(d', month) {
      assert WholeAt(d, month);
    }
    forall id ensures AccountedOnce(d', id) {
      assert AccountedOnce(d, id);
      assert Due(d', id) <==> Due(d, id);
    }
  }

  /** Changes that touch neither the ledger nor the journal. */
  lemma SideKeepsInv(d: Disk, c: Change, d': Disk)
    requires Inv(d) && Next(d, c, d')
    requires !c.Finish? && !c.Reclaim? && !c.Write? && !c.ClearPending?
    ensures Inv(d')
  {
    SideKeepsRequests(d, c, d');
    SameLedgerKeepsInv(d, d');
  }

  lemma SideKeepsRequests(d: Disk, c: Change, d': Disk)
    requires Inv(d) && Next(d, c, d')
    requires !c.Finish? && !c.Reclaim? && !c.Write? && !c.ClearPending?
    ensures RequestsSound(d') && forall id :: Due(d', id) <==> Due(d, id)
  {
  }

  lemma StepKeepsInv(d: Disk, c: Change, d': Disk)
    requires Inv(d) && Next(d, c, d')
    ensures Inv(d')
  {
    match c
    case Finish(e) => JournalKeepsInv(d, e, d');
    case Reclaim(id) =>
      CapturedFits(SourceOf(d, id));
      JournalKeepsInv(d, Interrupted(SourceOf(d, id)), d');
    case Write(n) => WriteKeepsInv(d, n, d');
    case ClearPending => ClearKeepsInv(d, d');
    case _ => SideKeepsInv(d, c, d');
  }

  const EMPTY := Disk(map[], None, map[], map[], {}, {}, {}, [])

  ghost predicate Run(history: seq<Disk>, changes: seq<Change>) {
    && |history| == |changes| + 1
    && history[0] == EMPTY
    && forall i :: 0 <= i < |changes| ==> StepAt(history, changes, i)
  }

  ghost predicate StepAt(history: seq<Disk>, changes: seq<Change>, i: nat)
    requires i < |changes| && |history| == |changes| + 1
  {
    Next(history[i], changes[i], history[i + 1])
  }

  lemma {:induction false} RunKeepsInv(history: seq<Disk>, changes: seq<Change>, i: nat)
    requires Run(history, changes) && i < |history|
    ensures Inv(history[i])
  {
    if i > 0 {
      RunKeepsInv(history, changes, i - 1);
      assert StepAt(history, changes, i - 1);
      StepKeepsInv(history[i - 1], changes[i - 1], history[i]);
    }
  }

  /** The ledger is always whole lines, followed at most by the beginning of the
      line the journal holds; nothing ever shortens it. */
  lemma WholeLinesAndAPrefix(history: seq<Disk>, changes: seq<Change>, i: nat, month: nat)
    requires Run(history, changes) && i < |history|
    ensures FileOf(history[i], month) == Text(history[i].written, month) + PendingPart(history[i], month)
    ensures PendingPart(history[i], month) != "" ==>
      history[i].pending.Some? && PendingPart(history[i], month) <= history[i].pending.value.line
    ensures history[i].pending.None? ==> FileOf(history[i], month) == Text(history[i].written, month)
  {
    RunKeepsInv(history, changes, i);
    assert WholeAt(history[i], month);
  }

  lemma AppendOnlyAt(history: seq<Disk>, changes: seq<Change>, k: nat, month: nat)
    requires Run(history, changes) && k < |changes|
    ensures FileOf(history[k], month) <= FileOf(history[k + 1], month)
    ensures history[k].written <= history[k + 1].written
  {
    assert StepAt(history, changes, k);
  }

  lemma {:induction false} AppendOnly(history: seq<Disk>, changes: seq<Change>, i: nat, j: nat, month: nat)
    requires Run(history, changes) && i <= j < |history|
    ensures FileOf(history[i], month) <= FileOf(history[j], month)
    ensures history[i].written <= history[j].written
    decreases j - i
  {
    if i < j {
      AppendOnly(history, changes, i, j - 1, month);
      AppendOnlyAt(history, changes, j - 1, month);
    }
  }

  /** Exactly once: with nothing in flight, every invocation whose request was ever
      published is either still waiting with its request on disk, or stands in the
      ledger once and only once; and nothing else stands there. */
  lemma ExactlyOnce(history: seq<Disk>, changes: seq<Change>, i: nat, id: Id)
    requires Run(history, changes) && i < |history| && history[i].pending.None?
    ensures id in history[i].published && id !in history[i].requests ==> Times(history[i].written, id) == 1
    ensures id in history[i].requests || id !in history[i].published ==> Times(history[i].written, id) == 0
  {
    RunKeepsInv(history, changes, i);
    assert AccountedOnce(history[i], id);
  }

  /** At most once, in flight or not. */
  lemma NeverTwice(history: seq<Disk>, changes: seq<Change>, i: nat, id: Id)
    requires Run(history, changes) && i < |history|
    ensures Times(history[i].written, id) <= 1
    ensures PendingIs(history[i], id) ==> Times(history[i].written, id) == 0
  {
    RunKeepsInv(history, changes, i);
    assert AccountedOnce(history[i], id);
  }

  // ---------------------------------------------------------------------
  // Who wrote a line
  // ---------------------------------------------------------------------

  /** The line its own invocation finished with, while it was running. */
  ghost predicate FinishedAt(history: seq<Disk>, changes: seq<Change>, j: nat, e: Event)
    requires j < |changes| < |history|
  {
    changes[j] == Finish(e) && e.id in history[j].leases
  }

  /** The line a recovery wrote for an invocation that was gone. */
  ghost predicate ReclaimedAt(history: seq<Disk>, changes: seq<Change>, j: nat, e: Event)
    requires j < |changes| < |history|
  {
    && changes[j] == Reclaim(e.id) && e.id !in history[j].leases && e.id in history[j].requests
    && WrittenOff(e, if e.id in history[j].outcomes then history[j].outcomes[e.id] else history[j].requests[e.id])
  }

  /** In the ledger, or on its way there. */
  ghost predicate Spoken(d: Disk, e: Event) {
    e in d.written || (d.pending.Some? && d.pending.value.parsed == Some(e))
  }

  lemma SpokenAt(history: seq<Disk>, changes: seq<Change>, k: nat, e: Event)
    requires Run(history, changes) && k < |changes| && Spoken(history[k + 1], e)
    ensures Spoken(history[k], e) || FinishedAt(history, changes, k, e) || ReclaimedAt(history, changes, k, e)
  {
    RunKeepsInv(history, changes, k);
    assert StepAt(history, changes, k);
    if !Spoken(history[k], e) {
      SpokenStep(history[k], changes[k], history[k + 1], e);
    }
  }

  lemma SpokenStep(d: Disk, c: Change, d': Disk, e: Event)
    requires RequestsSound(d) && Next(d, c, d') && Spoken(d', e) && !Spoken(d, e)
    ensures (c == Finish(e) && e.id in d.leases)
      || (c == Reclaim(e.id) && e.id !in d.leases && e.id in d.requests
          && WrittenOff(e, if e.id in d.outcomes then d.outcomes[e.id] else d.requests[e.id]))
  {
    match c
    case Finish(_) =>
    case Reclaim(_) =>
    case _ =>
  }

  /** Every line has one of the two causes. */
  lemma {:induction false} EveryLineHasACause(history: seq<Disk>, changes: seq<Change>, k: nat, e: Event)
    requires Run(history, changes) && k < |history| && Spoken(history[k], e)
    ensures exists j :: 0 <= j < k && (FinishedAt(history, changes, j, e) || ReclaimedAt(history, changes, j, e))
  {
    if k > 0 {
      SpokenAt(history, changes, k - 1, e);
      if Spoken(history[k - 1], e) {
        EveryLineHasACause(history, changes, k - 1, e);
      }
    }
  }

  /** An invocation that never finished by itself is never said to have succeeded, or to
      have failed of anything else. */
  lemma UnfinishedIsNoSuccess(history: seq<Disk>, changes: seq<Change>, k: nat, e: Event)
    requires Run(history, changes) && k < |history| && Spoken(history[k], e)
    requires forall j, f: Event :: 0 <= j < k && f.id == e.id ==> changes[j] != Finish(f)
    ensures e.outcome == "error" && e.errorClass == Some("interrupted")
  {
    EveryLineHasACause(history, changes, k, e);
  }

  lemma ReleasedAt(history: seq<Disk>, changes: seq<Change>, k: nat, id: Id)
    requires Run(history, changes) && k < |changes|
    requires id in history[k].published && id !in history[k].leases
    ensures id in history[k + 1].published && id !in history[k + 1].leases
  {
    assert StepAt(history, changes, k);
  }

  /** A lease let go is never taken again. */
  lemma {:induction false} ReleasedForGood(history: seq<Disk>, changes: seq<Change>, j: nat, k: nat, id: Id)
    requires Run(history, changes) && j <= k < |history|
    requires id in history[j].published && id !in history[j].leases
    ensures id !in history[k].leases && id in history[k].published
    decreases k - j
  {
    if j < k {
      ReleasedForGood(history, changes, j, k - 1, id);
      ReleasedAt(history, changes, k - 1, id);
    }
  }

  /** An invocation that is still running has never been written off. Over the whole run
      up to now no recovery reclaimed it, and whatever line of it stands in the ledger or
      is on its way there is the one it finished with itself. */
  lemma HeldIsNeverInterrupted(history: seq<Disk>, changes: seq<Change>, k: nat, id: Id)
    requires Run(history, changes) && k < |history| && id in history[k].leases
    ensures forall j :: 0 <= j < k ==> changes[j] != Reclaim(id)
    ensures forall e: Event :: e.id == id && Spoken(history[k], e) ==>
      exists j :: 0 <= j < k && FinishedAt(history, changes, j, e)
  {
    forall j | 0 <= j < k ensures changes[j] != Reclaim(id) {
      if changes[j] == Reclaim(id) {
        assert StepAt(history, changes, j);
        RunKeepsInv(history, changes, j);
        ReleasedForGood(history, changes, j, k, id);
      }
    }
    forall e: Event | e.id == id && Spoken(history[k], e)
      ensures exists j :: 0 <= j < k && FinishedAt(history, changes, j, e)
    {
      EveryLineHasACause(history, changes, k, e);
      var j :| 0 <= j < k && (FinishedAt(history, changes, j, e) || ReclaimedAt(history, changes, j, e));
      assert FinishedAt(history, changes, j, e);
    }
  }
}
