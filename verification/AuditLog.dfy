/** The audit writer itself: the pending journal, the append that goes through it,
    reservations and their recovery. */
module AuditLog {
  import opened Ledger
  import opened AuditEvent
  import opened AuditDisk
  import opened AuditRuns

  datatype Outcome = Recorded | Refused | Died

  /** The line is the one the journal attests, ends where it should, and is an
      event of the month and the invocation it claims. */
  predicate LineOk(p: Pending) {
    && 0 < |p.line| <= MAX_EVENT && p.line[|p.line| - 1] == '\n'
    && p.digest == Sha256(p.line)
    && p.parsed.Some? && ValidEvent(p.parsed.value) && p.parsed.value.month == p.month
    && (p.reservation.Some? ==> p.reservation.value == p.parsed.value.id)
  }

  /** Past the offset the file holds the beginning of the line and nothing else. */
  predicate TailOk(file: string, p: Pending) {
    p.offset <= |file| <= p.offset + |p.line| && file[p.offset..] <= p.line
  }

  /** How much of the journaled line is not in its file yet. */
  ghost function Missing(d: Disk): int
    requires d.pending.Some?
  {
    d.pending.value.offset + |d.pending.value.line| - |FileOf(d, d.pending.value.month)|
  }

  /** A journal recovery may act on, and a file it may complete: the line is one line of
      bounded length with the digest the journal attests, an event the ledger accepts, of
      the month and the invocation the journal names; and from the offset on the file holds
      its first characters and nothing else. */
  ghost predicate Replayable(d: Disk) {
    d.pending.Some? ==>
      var p, file := d.pending.value, FileOf(d, d.pending.value.month);
      && 0 < |p.line| <= 8192 && p.line[|p.line| - 1] == '\n' && p.digest == Sha256(p.line)
      && p.parsed.Some? && (forall f: Field :: Accepted(p.parsed.value, f)) && p.parsed.value.month == p.month
      && (p.reservation == None || p.reservation == Some(p.parsed.value.id))
      && p.offset <= |file| <= p.offset + |p.line|
      && forall i :: p.offset <= i < |file| ==> file[i] == p.line[i - p.offset]
  }

  lemma ReplayableIs(d: Disk)
    requires d.pending.Some?
    ensures Replayable(d) <==>
      LineOk(d.pending.value) && TailOk(FileOf(d, d.pending.value.month), d.pending.value)
  {
    var p, file := d.pending.value, FileOf(d, d.pending.value.month);
    if p.offset <= |file| <= p.offset + |p.line| {
      var tail := file[p.offset..];
      assert forall i :: 0 <= i < |tail| ==> tail[i] == file[p.offset + i];
      assert forall i :: p.offset <= i < |file| ==> file[i] == tail[i - p.offset];
    }
  }

  lemma SoundIsReplayable(d: Disk)
    requires Inv(d)
    ensures Replayable(d)
  {
    if d.pending.Some? {
      var p := d.pending.value;
      LineIsShort(p.parsed.value);
      assert WholeAt(d, p.month);
      assert FileOf(d, p.month)[p.offset..] == PendingPart(d, p.month);
      ReplayableIs(d);
    }
  }

  ghost predicate Connected(trail: seq<Disk>) {
    forall i :: 0 < i < |trail| ==> StepsAt(trail, i)
  }

  ghost predicate StepsAt(trail: seq<Disk>, i: nat)
    requires 0 < i < |trail|
  {
    OneStep(trail[i - 1], trail[i])
  }

  ghost predicate OneStep(d: Disk, d': Disk) {
    exists c :: Next(d, c, d')
  }

  lemma ConnectedExtends(trail: seq<Disk>, d: Disk)
    requires trail != [] && Connected(trail) && OneStep(trail[|trail| - 1], d)
    ensures Connected(trail + [d])
  {
    forall i | 0 < i < |trail| + 1 ensures StepsAt(trail + [d], i) {
      if i < |trail| {
        assert StepsAt(trail, i);
      }
    }
  }

  class Log {
    var files: map<nat, string>
    var pending: Option<Pending>
    var requests: map<Id, Event>
    var outcomes: map<Id, Event>
    var stages: set<Id>
    var leases: set<Id>
    ghost var published: set<Id>
    ghost var written: seq<Event>
    ghost var trail: seq<Disk>

    ghost function OnDisk(): Disk
      reads this
    {
      Disk(files, pending, requests, outcomes, stages, leases, published, written)
    }

    ghost predicate Valid()
      reads this
    {
      trail != [] && trail[|trail| - 1] == OnDisk()
    }

    /** Everything this log has been through is a run. */
    ghost predicate Sound()
      reads this
    {
      Valid() && Inv(OnDisk()) && Connected(trail)
    }

    twostate predicate Lawfully()
      reads this
    {
      old(trail) <= trail && (old(Sound()) ==> Sound())
    }

    constructor ()
      ensures Sound() && OnDisk() == EMPTY
    {
      files, pending, requests, outcomes, stages, leases := map[], None, map[], map[], {}, {};
      published, written := {}, [];
      trail := [EMPTY];
      new;
      assert Inv(EMPTY);
    }

    /** Records one durable change in the history. */
    ghost method Note(c: Change)
      requires trail != []
      requires Connected(trail) && Inv(trail[|trail| - 1]) ==> Next(trail[|trail| - 1], c, OnDisk())
      modifies this`trail
      ensures Valid() && trail == old(trail) + [OnDisk()]
      ensures old(Connected(trail)) && Inv(old(trail)[|old(trail)| - 1]) ==> Sound()
    {
      if Connected(trail) && Inv(trail[|trail| - 1]) {
        StepKeepsInv(trail[|trail| - 1], c, OnDisk());
        ConnectedExtends(trail, OnDisk());
      }
      trail := trail + [OnDisk()];
    }

    /** Appends to the month file, and only that. */
    method WriteBytes(n: nat)
      requires Valid() && Enabled(OnDisk(), Write(n))
      modifies this
      ensures Valid() && Lawfully() && OnDisk() == Apply(old(OnDisk()), Write(n))
    {
      ghost var before := OnDisk();
      var p := pending.value;
      var file := if p.month in files then files[p.month] else "";
      var have := |file| - p.offset;
      files := files[p.month := file + p.line[have..have + n]];
      assert OnDisk() == Apply(before, Write(n));
      Note(Write(n));
    }

    /** Removes everything kept for an invocation: its outcome, then its request. */
    method RemoveReservation(id: Id)
      requires Valid() && WholeLineLanded(OnDisk()) && pending.value.reservation == Some(id)
      modifies this
      ensures Valid() && Lawfully()
      ensures OnDisk() == old(OnDisk()).(requests := old(requests) - {id}, outcomes := old(outcomes) - {id})
    {
      outcomes := outcomes - {id};
      Note(DropOutcome);
      requests := requests - {id};
      Note(DropRequest);
    }

    /** Once the line is whole: the request goes, then the journal. */
    method Settle()
      requires Valid() && WholeLineLanded(OnDisk()) && pending.value.parsed.Some?
      modifies this
      ensures Valid() && Lawfully() && pending.None?
      ensures files == old(files) && leases == old(leases) && stages == old(stages) && published == old(published)
      ensures written == old(written) + [old(pending).value.parsed.value]
      ensures var gone := if old(pending).value.reservation.Some? then {old(pending).value.reservation.value} else {};
        requests == old(requests) - gone && outcomes == old(outcomes) - gone
    {
      var p := pending.value;
      if p.reservation.Some? {
        RemoveReservation(p.reservation.value);
      }
      pending := None;
      written := written + [p.parsed.value];
      Note(ClearPending);
    }

    /** Finishes an interrupted append. Only the missing suffix is ever written, the
        request goes before the journal, and a journal or file that disagrees is
        refused untouched. `dies` cuts the write short after that many bytes. */
    method RecoverTransaction(dies: Option<nat>) returns (outcome: Outcome)
      requires Valid()
      modifies this
      ensures Valid() && Lawfully()
      ensures outcome == Refused <==> old(!Replayable(OnDisk()))
      ensures outcome == Died <==>
        old(Replayable(OnDisk()) && pending.Some?) && dies.Some? && dies.value < old(Missing(OnDisk()))
      ensures outcome == Refused ==> OnDisk() == old(OnDisk())
      ensures outcome == Died ==>
        && old(pending.Some?) && dies.Some? && requests == old(requests) && pending == old(pending)
        && CutShort(old(OnDisk()), OnDisk(), dies.value)
      ensures outcome == Recorded ==> pending.None?
      ensures outcome == Recorded && old(pending.None?) ==> OnDisk() == old(OnDisk())
      ensures outcome == Recorded && old(pending.Some?) ==> Replayed(old(OnDisk()), OnDisk())
      ensures leases == old(leases) && stages == old(stages) && published == old(published)
    {
      if pending.None? {
        return Recorded;
      }
      var p := pending.value;
      ReplayableIs(OnDisk());
      if !LineOk(p) {
        return Refused;
      }
      var file := if p.month in files then files[p.month] else "";
      if !TailOk(file, p) {
        return Refused;
      }
      var missing := |p.line| - (|file| - p.offset);
      if dies.Some? && dies.value < missing {
        WriteBytes(dies.value);
        return Died;
      }
      Replay();
      outcome := Recorded;
    }

    method Replay()
      requires Valid() && pending.Some? && Replayable(OnDisk())
      modifies this
      ensures Valid() && Lawfully() && pending.None? && Replayed(old(OnDisk()), OnDisk())
      ensures leases == old(leases) && stages == old(stages) && published == old(published)
    {
      var p := pending.value;
      var file := if p.month in files then files[p.month] else "";
      var missing := |p.line| - (|file| - p.offset);
      ghost var before := OnDisk();
      LandsWhole(before, p);
      WriteBytes(missing);
      assert OnDisk() == before.(files := before.files[p.month := FileOf(before, p.month)[..p.offset] + p.line]);
      Settle();
    }

    ghost predicate MayJournal(e: Event, abandoned: bool)
      reads this
    {
      && pending.None? && e.id in requests
      && if abandoned then e.id !in leases && e == Interrupted(SourceOf(OnDisk(), e.id)) else e.id in leases
    }

    method SetPending(p: Pending)
      requires Sound()
      requires Inv(OnDisk().(pending := Some(p))) && OneStep(OnDisk(), OnDisk().(pending := Some(p)))
      modifies this
      ensures Sound() && Lawfully() && OnDisk() == old(OnDisk()).(pending := Some(p))
    {
      ghost var before := OnDisk();
      pending := Some(p);
      ConnectedExtends(trail, before.(pending := Some(p)));
      trail := trail + [before.(pending := Some(p))];
    }

    method JournalLine(e: Event, offset: nat, abandoned: bool)
      requires Sound() && MayJournal(e, abandoned) && Captured(e) && offset == |FileOf(OnDisk(), e.month)|
      modifies this
      ensures Sound() && Lawfully()
      ensures OnDisk() == old(OnDisk()).(pending := Some(PendingFor(old(OnDisk()), e)))
    {
      ghost var before := OnDisk();
      var p := Pending(e.month, offset, Sha256(Line(e)), Line(e), Some(e), Some(e.id));
      assert p == PendingFor(before, e);
      JournalSteps(before, e, abandoned, p);
      SetPending(p);
    }

    /** Journals one event's line and replays the journal. `dies` cuts the append
        short. An abandoned invocation is rewritten as interrupted; one that is
        finishing supplies its own event. */
    method Append(e: Event, abandoned: bool, dies: Option<nat>) returns (outcome: Outcome)
      requires Sound() && MayJournal(e, abandoned) && Bounded(e)
      modifies this
      ensures Sound() && Lawfully()
      ensures outcome == Refused <==> !ValidEvent(e)
      ensures outcome == Died <==> ValidEvent(e) && dies.Some? && dies.value < |Line(e)|
      ensures outcome == Refused ==> OnDisk() == old(OnDisk())
      ensures outcome == Recorded ==> pending.None?
      ensures outcome == Recorded ==> requests == old(requests) - {e.id} && outcomes == old(outcomes) - {e.id}
      ensures outcome == Recorded ==> written == old(written) + [e]
      ensures outcome == Died ==> dies.Some? && PendingIs(OnDisk(), e.id) && requests == old(requests)
      ensures leases == old(leases) && stages == old(stages) && published == old(published)
    {
      if !ValidEvent(e) {
        return Refused;
      }
      LineIsShort(e);
      if |Line(e)| > MAX_EVENT {
        return Refused;
      }
      outcome := AppendCaptured(e, abandoned, dies);
    }

    method AppendCaptured(e: Event, abandoned: bool, dies: Option<nat>) returns (outcome: Outcome)
      requires Sound() && MayJournal(e, abandoned) && Captured(e)
      modifies this
      ensures Sound() && Lawfully() && outcome != Refused
      ensures outcome == Died <==> dies.Some? && dies.value < |Line(e)|
      ensures outcome == Recorded ==> pending.None?
      ensures outcome == Recorded ==> requests == old(requests) - {e.id} && outcomes == old(outcomes) - {e.id}
      ensures outcome == Recorded ==> written == old(written) + [e]
      ensures outcome == Died ==> dies.Some? && PendingIs(OnDisk(), e.id) && requests == old(requests)
      ensures leases == old(leases) && stages == old(stages) && published == old(published)
    {
      ghost var before := OnDisk();
      var file := if e.month in files then files[e.month] else "";
      WholeFile(before, e.month);
      if |file| > 0 && file[|file| - 1] != '\n' {
        return Refused;
      }
      JournalLine(e, |file|, abandoned);
      SoundIsReplayable(OnDisk());
      outcome := RecoverTransaction(dies);
      if outcome == Recorded {
        JournaledReplay(before, e, OnDisk());
      }
    }

    /** Clears what was staged and never published. */
    method DropAbandonedStages()
      requires Sound()
      modifies this
      ensures Sound() && Lawfully()
      ensures OnDisk() == old(OnDisk()).(stages := old(stages) * old(leases))
    {
      var todo := stages;
      while todo != {}
        invariant Sound() && Lawfully()
        invariant todo <= stages <= old(stages) && old(stages) * old(leases) <= stages <= todo + leases
        invariant OnDisk() == old(OnDisk()).(stages := stages)
        decreases todo
      {
        var id :| id in todo;
        todo := todo - {id};
        if id !in leases {
          stages := stages - {id};
          Note(DropStage(id));
        }
      }
    }

    /** Accounts for one request, unless its lease is held. What it reads back is looked
        at before it is rewritten; on anything an invocation stored, that never fails. */
    method ReclaimOne(id: Id) returns (ok: bool)
      requires Sound() && pending.None? && id in requests
      modifies this
      ensures Sound() && Lawfully() && pending.None? && ok
      ensures id in leases ==> OnDisk() == old(OnDisk())
      ensures id !in leases ==> requests == old(requests) - {id} && outcomes == old(outcomes) - {id}
      ensures id !in leases ==>
        && |written| == |old(written)| + 1 && written[..|old(written)|] == old(written)
        && WrittenOff(written[|old(written)|], if id in old(outcomes) then old(outcomes)[id] else old(requests)[id])
      ensures leases == old(leases) && published == old(published) && stages == old(stages)
    {
      if id in leases {
        return true;
      }
      SourceIsCaptured(OnDisk(), id);
      var event := if id in outcomes then outcomes[id] else requests[id];
      if event.id != id || !ValidEvent(event) {
        return false;
      }
      CapturedFits(event);
      event := Interrupted(event);
      var outcome := Append(event, true, None);
      ok := outcome == Recorded;
    }

    /** Accounts for every invocation whose process is gone. A held lease is left
        alone; a line that could not be journaled would stop the recovery, and none is. */
    method RecoverReservations() returns (ok: bool)
      requires Sound() && pending.None?
      modifies this
      ensures Sound() && Lawfully() && pending.None? && ok
      ensures forall id :: id in requests <==> id in old(requests) && id in leases
      ensures leases == old(leases) && published == old(published) && stages <= old(stages)
      // What is written is one line for each that is gone, from what it had stored.
      ensures old(written) <= written
      ensures forall k :: |old(written)| <= k < |written| ==> GoneFrom(old(OnDisk()), written[k])
      ensures forall id :: id in old(requests) && id !in leases ==>
        exists e: Event :: e in written[|old(written)|..] && e.id == id && GoneFrom(old(OnDisk()), e)
    {
      DropAbandonedStages();
      ghost var start := OnDisk();
      var todo := requests.Keys;
      while todo != {}
        invariant Sound() && Lawfully() && pending.None?
        invariant leases == old(leases) && published == old(published) && stages <= old(stages)
        invariant Progress(start, OnDisk(), todo) && WrittenSoFar(start, OnDisk(), todo)
        decreases todo
      {
        var id :| id in todo;
        ghost var before := OnDisk();
        ok := ReclaimOne(id);
        if !ok {
          return false;
        }
        ProgressDone(start, before, todo, id, OnDisk());
        WrittenDone(start, before, todo, id, OnDisk());
        todo := todo - {id};
      }
      ok := true;
    }

    /** The order of the two recoveries: the journal first. It always succeeds, and
        afterwards every invocation whose process is gone is in the ledger, once. */
    method Recover() returns (ok: bool)
      requires Sound()
      modifies this
      ensures Sound() && Lawfully() && pending.None? && ok
      ensures leases == old(leases) && published == old(published) && stages <= old(stages)
      ensures forall id :: id in published && id !in leases ==> id !in requests && Times(written, id) == 1
      ensures Recovered(old(OnDisk()), written)
    {
      SoundIsReplayable(OnDisk());
      ghost var found := OnDisk();
      var outcome := RecoverTransaction(None);
      ghost var replayed := OnDisk();
      ok := RecoverReservations();
      RecoveredInOrder(found, replayed, OnDisk());
      forall id | id in published && id !in leases ensures id !in requests && Times(written, id) == 1 {
        assert AccountedOnce(OnDisk(), id);
      }
    }

    /** Admits an invocation: nothing of the domain may run before its request is
        published, and nothing is published before the past is accounted for. */
    method Begin(e: Event) returns (ok: bool)
      requires Sound() && e.id !in published && e.id !in stages && Captured(e)
      modifies this
      ensures Sound() && Lawfully() && ok
      ensures e.id in requests && requests[e.id] == e && e.id in leases
      ensures published == old(published) + {e.id} && leases == old(leases) + {e.id}
      ensures forall id :: id in old(published) && id !in old(leases) && id != e.id ==>
        id !in requests && Times(written, id) == 1
      ensures Recovered(old(OnDisk()), written)
    {
      ok := Recover();
      Publish(e);
    }

    /** Stages the request under a lease, then renames it into place. */
    method Publish(e: Event)
      requires Sound() && e.id !in published && e.id !in stages && Captured(e)
      modifies this
      ensures Sound() && Lawfully() && written == old(written) && pending == old(pending)
      ensures requests == old(requests)[e.id := e]
      ensures published == old(published) + {e.id} && leases == old(leases) + {e.id}
    {
      stages, leases := stages + {e.id}, leases + {e.id};
      Note(StageIntent(e.id));
      stages, requests, published := stages - {e.id}, requests[e.id := e], published + {e.id};
      Note(Change.Publish(e));
    }

    /** Saves the domain outcome, so that a crash from here on cannot forget it. */
    method SaveOutcome(e: Event) returns (ok: bool)
      requires Sound() && e.id in requests && e.id in leases && !PendingIs(OnDisk(), e.id) && Bounded(e)
      modifies this
      ensures Sound() && Lawfully()
      ensures ok <==> ValidEvent(e)
      ensures OnDisk() == if ok then old(OnDisk()).(outcomes := old(outcomes)[e.id := e]) else old(OnDisk())
    {
      if !ValidEvent(e) {
        return false;
      }
      outcomes := outcomes[e.id := e];
      Note(Checkpoint(e));
      ok := true;
    }

    /** Records the event of an invocation that finished: any interrupted append
        first, then its own, exactly once. */
    method FinishInvocation(e: Event) returns (ok: bool)
      requires Sound() && e.id in requests && e.id in leases && !PendingIs(OnDisk(), e.id) && Bounded(e)
      modifies this
      ensures Sound() && Lawfully()
      ensures ok <==> ValidEvent(e)
      ensures ok ==> e.id !in requests && Times(written, e.id) == 1 && e in written
      ensures leases == old(leases) && published == old(published)
    {
      if !ValidEvent(e) {
        return false;
      }
      SoundIsReplayable(OnDisk());
      var recovered := RecoverTransaction(None);
      var outcome := Append(e, false, None);
      ok := outcome == Recorded;
      assert AccountedOnce(OnDisk(), e.id);
    }

    /** The process ends, however it ends, and its lease with it. */
    method Leave(id: Id)
      requires Sound() && id in leases
      modifies this
      ensures Sound() && Lawfully() && OnDisk() == old(OnDisk()).(leases := old(leases) - {id})
    {
      leases := leases - {id};
      Note(Exit(id));
    }
  }

  /** How far a pass over the requests has come: what is left to look at is as it
      was, and what has been looked at is held or accounted for. */
  ghost predicate Progress(start: Disk, d: Disk, todo: set<Id>) {
    && d.leases == start.leases
    && (forall id :: id in d.requests <==> id in start.requests && (id in todo || id in start.leases))
    && (forall id :: id in d.requests ==> SourceOf(d, id) == SourceOf(start, id))
    && todo <= start.requests.Keys
  }

  /** The line of an invocation whose process was gone and whose request was there: cut
      off, and otherwise what it had checkpointed, or else intended. */
  ghost predicate GoneFrom(d: Disk, e: Event) {
    e.id in d.requests && e.id !in d.leases
    && WrittenOff(e, if e.id in d.outcomes then d.outcomes[e.id] else d.requests[e.id])
  }

  /** The same pass by what it has written. */
  ghost predicate WrittenSoFar(start: Disk, d: Disk, todo: set<Id>) {
    && start.written <= d.written
    && (forall k :: |start.written| <= k < |d.written| ==> GoneFrom(start, d.written[k]))
    && (forall id :: id in start.requests && id !in start.leases && id !in todo ==> HasLine(start, d, id))
  }

  ghost predicate HasLine(start: Disk, d: Disk, id: Id) {
    exists k :: |start.written| <= k < |d.written| && d.written[k].id == id && GoneFrom(start, d.written[k])
  }

  lemma WrittenDone(start: Disk, d: Disk, todo: set<Id>, id: Id, d': Disk)
    requires WrittenSoFar(start, d, todo) && Progress(start, d, todo) && id in todo && id in d.requests
    requires d.requests[id].id == id && (id in d.outcomes ==> d.outcomes[id].id == id)
    requires id in d.leases ==> d'.written == d.written
    requires id !in d.leases ==>
      && |d'.written| == |d.written| + 1 && d'.written[..|d.written|] == d.written
      && WrittenOff(d'.written[|d.written|], SourceOf(d, id))
    ensures WrittenSoFar(start, d', todo - {id})
  {
    assert SourceOf(d, id) == SourceOf(start, id);
    if id !in d.leases {
      assert GoneFrom(start, d'.written[|d.written|]);
      assert forall k :: 0 <= k < |d.written| ==> d'.written[k] == d.written[k];
      assert HasLine(start, d', id);
    }
    forall other | other in start.requests && other !in start.leases && other !in todo
      ensures HasLine(start, d', other)
    {
      assert HasLine(start, d, other);
      var k :| |start.written| <= k < |d.written| && d.written[k].id == other && GoneFrom(start, d.written[k]);
      assert d'.written[k] == d.written[k];
    }
  }

  /** What a recovery writes: the line that was on its way when its process died, and then
      one for each invocation that is gone, from what it had stored; nothing else. */
  ghost predicate Recovered(found: Disk, written: seq<Event>) {
    && found.written <= written
    && (found.pending.Some? ==>
          |written| > |found.written| && Some(written[|found.written|]) == found.pending.value.parsed)
    && (forall k :: |found.written| + (if found.pending.Some? then 1 else 0) <= k < |written| ==>
          GoneFrom(found, written[k]))
    && forall id :: id in found.requests && id !in found.leases && !PendingIs(found, id) ==>
         exists e: Event :: e in written && e.id == id && GoneFrom(found, e)
  }

  /** After a replay the requests left are the others, as they were. */
  lemma RecoveredInOrder(found: Disk, replayed: Disk, now: Disk)
    requires found.pending.None? ==> replayed == found
    requires found.pending.Some? ==> Replayable(found) && Replayed(found, replayed)
    requires replayed.leases == found.leases && replayed.written <= now.written
    requires forall k :: |replayed.written| <= k < |now.written| ==> GoneFrom(replayed, now.written[k])
    requires forall id :: id in replayed.requests && id !in replayed.leases ==>
      exists e: Event :: e in now.written[|replayed.written|..] && e.id == id && GoneFrom(replayed, e)
    ensures Recovered(found, now.written)
  {
    forall e: Event | GoneFrom(replayed, e) ensures GoneFrom(found, e) {
    }
    forall id | id in found.requests && id !in found.leases && !PendingIs(found, id)
      ensures exists e: Event :: e in now.written && e.id == id && GoneFrom(found, e)
    {
      assert id in replayed.requests;
      var e: Event :| e in now.written[|replayed.written|..] && e.id == id && GoneFrom(replayed, e);
      assert e in now.written;
    }
  }

  lemma ProgressDone(start: Disk, d: Disk, todo: set<Id>, id: Id, d': Disk)
    requires Progress(start, d, todo) && id in todo && d'.leases == d.leases
    requires if id in d.leases then d'.requests == d.requests && d'.outcomes == d.outcomes
             else d'.requests == d.requests - {id} && d'.outcomes == d.outcomes - {id}
    ensures Progress(start, d', todo - {id})
  {
  }

  lemma SourceIsCaptured(d: Disk, id: Id)
    requires Inv(d) && id in d.requests
    ensures SourceOf(d, id).id == id && Captured(SourceOf(d, id))
  {
  }

  lemma {:induction false} TextEndsWhole(events: seq<Event>, month: nat)
    ensures Text(events, month) == "" || Text(events, month)[|Text(events, month)| - 1] == '\n'
  {
    if events != [] {
      TextEndsWhole(events[..|events| - 1], month);
    }
  }

  lemma WholeFile(d: Disk, month: nat)
    requires Inv(d) && d.pending.None?
    ensures FileOf(d, month) == "" || FileOf(d, month)[|FileOf(d, month)| - 1] == '\n'
  {
    assert WholeAt(d, month);
    TextEndsWhole(d.written, month);
  }

  /** A replay leaves the whole line after what the journal found there, and takes
      the reservation with it. */
  ghost predicate Replayed(d: Disk, d': Disk)
    requires d.pending.Some? && Replayable(d)
  {
    var p := d.pending.value;
    var gone := if p.reservation.Some? then {p.reservation.value} else {};
    && d'.files == d.files[p.month := FileOf(d, p.month)[..p.offset] + p.line]
    && d'.requests == d.requests - gone && d'.outcomes == d.outcomes - gone
    && d'.written == d.written + [p.parsed.value]
  }

  lemma CompletedLine(d: Disk, p: Pending)
    requires TailOk(FileOf(d, p.month), p)
    ensures FileOf(d, p.month) + p.line[Landed(d, p)..|p.line|] == FileOf(d, p.month)[..p.offset] + p.line
  {
    var file := FileOf(d, p.month);
    Complete(file, p.offset, p.line);
  }

  lemma Complete(file: string, offset: nat, line: string)
    requires offset <= |file| <= offset + |line| && file[offset..] <= line
    ensures file + line[|file| - offset..|line|] == file[..offset] + line
  {
    var tail := file[offset..];
    assert file == file[..offset] + tail;
    assert line == tail + line[|tail|..];
  }

  /** Journalling a line, one's own or an abandoned one, is a step of the run. */
  lemma JournalSteps(d: Disk, e: Event, abandoned: bool, p: Pending)
    requires Inv(d) && d.pending.None? && e.id in d.requests && Captured(e) && p == PendingFor(d, e)
    requires if abandoned then e.id !in d.leases && e == Interrupted(SourceOf(d, e.id)) else e.id in d.leases
    ensures Inv(d.(pending := Some(p))) && OneStep(d, d.(pending := Some(p)))
  {
    var c := if abandoned then Reclaim(e.id) else Finish(e);
    assert Next(d, c, d.(pending := Some(p)));
    JournalKeepsInv(d, e, d.(pending := Some(p)));
  }

  /** Some of the line reached the file, and nothing else happened. */
  ghost predicate CutShort(d: Disk, d': Disk, bytes: nat) {
    d' == Apply(d, Write(bytes))
  }

  /** What is missing of the line, and no more, makes it whole. */
  lemma LandsWhole(d: Disk, p: Pending)
    requires d.pending == Some(p) && Replayable(d)
    ensures Enabled(d, Write(|p.line| - Landed(d, p)))
    ensures Apply(d, Write(|p.line| - Landed(d, p)))
      == d.(files := d.files[p.month := FileOf(d, p.month)[..p.offset] + p.line])
    ensures WholeLineLanded(d.(files := d.files[p.month := FileOf(d, p.month)[..p.offset] + p.line]))
  {
    ReplayableIs(d);
    CompletedLine(d, p);
  }

  lemma JournaledReplay(before: Disk, e: Event, now: Disk)
    requires Replayable(before.(pending := Some(PendingFor(before, e))))
    requires Replayed(before.(pending := Some(PendingFor(before, e))), now)
    ensures now.requests == before.requests - {e.id} && now.outcomes == before.outcomes - {e.id}
    ensures now.written == before.written + [e]
  {
  }
}
