/** The governance commands as they change the store: one transaction from start to
    finish, and the recovery that settles an interrupted one. */
module GovernanceStore {
  import opened Ledger
  import opened Authority
  import opened AuthorityRuns
  import opened GovernanceDisk

  datatype Settlement = Nothing | Abandoned | AlreadyApplied | Completed

  datatype Outcome = Refused(error: Error) | Unchanged | Died | NotRecorded | Done

  /** Where the process of a transaction dies, if it does. Appending the audit line
      begins by settling a batch that died. Inside the line it leaves part of the line,
      or all of it but the newline. */
  datatype Death = Survives | AfterJournal | BeforeAudit | InsideAudit(whole: bool) | AfterAudit | AfterCommit

  /** When recovery can settle a journal: it reads, the ledger reads, the bytes are
      loadable metadata with the digest they claim, and either nothing announced
      them and nothing moved, or exactly one audit record says all the journal says
      and the live metadata is at one end of the change. */
  ghost predicate Recoverable(d: Disk) {
    match d.journal
    case None => true
    case Some(Garbled) => false
    case Some(Readable(p)) =>
      && !Unreadable(d)
      && Usable(p.bytes) && p.after == Sha256(p.bytes)
      && (|| (Seen(d, p.tx) == [] && Sha256(d.store) == p.before)
          || (Seen(d, p.tx) == [AuditOf(p)] && (Sha256(d.store) == p.before || Sha256(d.store) == p.after)))
  }

  /** What recovery says when it cannot: that the evidence disagrees, or which rule the
      bytes it was to apply break. */
  ghost function RecoveryFault(d: Disk): Error {
    match d.journal
    case Some(Readable(p)) =>
      var seen := Seen(d, p.tx);
      var attested := if seen != [] && seen[0].Audit? && seen[0].after.Some? then seen[0].after.value else p.after;
      if !Unreadable(d) && |seen| <= 1 && Sha256(p.bytes) == attested && p.bytes.parsed.Some?
         && Fault(p.bytes.parsed.value).Some?
      then Fault(p.bytes.parsed.value).value
      else Integrity
    case _ => Integrity
  }

  /** Something recovery cannot get past: a last line that does not read, no line that
      names the transaction after the change was made - they are set aside, or a
      compaction removed them - or lines that are more than its own one. */
  ghost predicate InTheWay(d: Disk, p: Pending) {
    || Unreadable(d)
    || (Seen(d, p.tx) == [] && Sha256(d.store) != p.before)
    || (Seen(d, p.tx) != [] && Seen(d, p.tx) != [AuditOf(p)])
  }

  lemma RecoverableIff(d: Disk, origin: Digest)
    requires Inv(d, origin)
    ensures Recoverable(d) <==> d.journal.None? || (d.journal.value.Readable? && !InTheWay(d, d.journal.value.pending))
  {
  }

  /** At any moment of any run recovery fails exactly then, whoever wrote the lines and
      whatever became of them. */
  lemma StuckIffSomethingIsInTheWay(history: seq<Disk>, events: seq<Event>, origin: Digest, i: nat)
    requires Run(history, events, origin) && i < |history|
    ensures var d := history[i];
      Recoverable(d) <==> d.journal.None? || (d.journal.value.Readable? && !InTheWay(d, d.journal.value.pending))
  {
    RunKeepsInv(history, events, origin, i);
    RecoverableIff(history[i], origin);
  }

  /** Each way to fail is reachable. An audit append cut short: */
  lemma TornAuditIsStuck(d: Disk, p: Pending, d': Disk, origin: Digest)
    requires Inv(d, origin) && Next(d, AnnounceTorn(p, Torn), d')
    ensures !Recoverable(d')
  {
  }

  /** a line somebody else files under the transaction's name, unless it is to the
      letter the one the transaction would have written and stands alone: */
  lemma ForeignLineIsStuckIff(d: Disk, p: Pending, line: Line, d': Disk)
    requires PendingNow(d, p) && Recoverable(d) && Next(d, Elsewhere(line), d')
    requires line.Audit? && line.tx == p.tx
    ensures Recoverable(d') <==> Announced(d, p.tx) == [] && line == AuditOf(p)
  {
    NamedOnce(d, p.tx, line, d');
    var was := Announced(d, p.tx);
    assert was + [line] == [AuditOf(p)] <==> was == [] && line == AuditOf(p);
  }

  lemma NamedOnce(d: Disk, tx: TxId, line: Line, d': Disk)
    requires Next(d, Elsewhere(line), d') && line.Audit? && line.tx == tx
    ensures Seen(d', tx) == Announced(d, tx) + [line] && !Unreadable(d') && d'.store == d.store
  {
    LinesAppend(d, Elsewhere(line), d');
    NamingStep(Lines(d), line, tx);
  }

  /** and a compaction that dies between its renames after the change was made. */
  lemma AwayAfterTheChangeIsStuck(d: Disk, p: Pending, d': Disk, origin: Digest)
    requires Inv(d, origin) && PendingNow(d, p) && Sha256(d.store) == p.after && Next(d, SetAway, d')
    ensures !Recoverable(d')
  {
  }

  const UNWRITTEN := Book([], [], 0, false)

  function NewStore(store: Bytes): Disk {
    Disk(store, None, [], None, None, false, UNWRITTEN)
  }

  /** Any change anybody may make can end in each: the process dies inside the audit
      line, or right after the journal and somebody else names the transaction. */
  lemma StuckRuns(store: Bytes, p: Pending, action: Action, actor: string, foreign: bool)
    returns (history: seq<Disk>, events: seq<Event>)
    requires Usable(store) && Lawful(store, p, action, actor)
    ensures Run(history, events, Sha256(store)) && |events| == 2 && history[0] == NewStore(store)
    ensures history[2].fragment == (if foreign then None else Some(Torn)) && !Recoverable(history[2])
  {
    JournalStep(store, p, action, actor);
    var line := Audit(p.tx, None, None, None, None);
    var journaled := Announcing(store, p, [], []);
    var e := if foreign then Elsewhere(line) else AnnounceTorn(p, Torn);
    history, events := RunStarts(store);
    history, events := RunGrows(history, events, Sha256(store), WriteJournal(p, action, actor), journaled);
    history, events := RunGrows(history, events, Sha256(store), e, Apply(journaled, e));
    if foreign {
      ForeignLineIsStuckIff(journaled, p, line, history[2]);
    }
  }

  /** At any moment of any run a successful recovery makes the change live exactly when a
      line that announces it is still seen. A change announced is dropped when its line is
      not: while the ledger is set aside - by a compaction that died between two renames,
      which does not settle governance first - and once a compaction has removed it,
      superseded or revoked. */
  lemma WordIsKeptIffTheLineIsSeen(history: seq<Disk>, events: seq<Event>, origin: Digest, i: nat, p: Pending)
    requires Run(history, events, origin) && i < |history|
    requires PendingNow(history[i], p) && Recoverable(history[i]) && Sha256(history[i].store) == p.before
    ensures SettledStore(history[i]) == p.bytes <==> AuditOf(p) in Seen(history[i], p.tx)
    ensures SettledStore(history[i]) == p.bytes <==> AuditOf(p) in Lines(history[i]) && !history[i].away
  {
    RunKeepsInv(history, events, origin, i);
    NamedIsInLines(history[i], p);
  }

  /** A new store with a change journaled, and with lines written that announce it. */
  function Announcing(live: Bytes, p: Pending, lines: seq<Line>, ran: seq<Line>): Disk {
    Disk(live, Some(Readable(p)), lines, None, None, false, Book(lines, ran, 0, lines != []))
  }

  lemma JournalStep(store: Bytes, p: Pending, action: Action, actor: string)
    requires Usable(store) && Lawful(store, p, action, actor)
    ensures Next(NewStore(store), WriteJournal(p, action, actor), Announcing(store, p, [], []))
    ensures Usable(p.bytes) && store != p.bytes && p.before == Sha256(store) && p.after == Sha256(p.bytes)
  {
    EffectiveChanges(store.parsed.value, action);
    GovernKeepsValid(store.parsed.value, action, actor);
  }

  lemma AnnounceStep(store: Bytes, p: Pending)
    requires p.before == Sha256(store)
    ensures Next(Announcing(store, p, [], []), Announce(p), Announcing(store, p, [AuditOf(p)], []))
  {
  }

  lemma CommitStep(store: Bytes, p: Pending)
    requires p.before == Sha256(store)
    ensures Next(Announcing(store, p, [AuditOf(p)], []), Commit, Announcing(p.bytes, p, [AuditOf(p)], [AuditOf(p)]))
  {
    assert Lines(Announcing(store, p, [AuditOf(p)], [])) == [AuditOf(p)];
  }

  /** What is left of an announced change when its lines are compacted away. */
  function Compacted(live: Bytes, p: Pending, ran: seq<Line>): Disk {
    Announcing(live, p, [AuditOf(p), AuditOf(p)], ran).(ledger := [])
  }

  /** The tombstone of an audit record repeats its payload. */
  lemma RevokeAndCompactSteps(live: Bytes, p: Pending, ran: seq<Line>)
    ensures Next(Announcing(live, p, [AuditOf(p)], ran), Elsewhere(AuditOf(p)),
                 Announcing(live, p, [AuditOf(p), AuditOf(p)], ran))
    ensures Next(Announcing(live, p, [AuditOf(p), AuditOf(p)], ran), Compact([]), Compacted(live, p, ran))
    ensures Lines(Compacted(live, p, ran)) == []
  {
  }

  lemma RunStarts(store: Bytes) returns (history: seq<Disk>, events: seq<Event>)
    requires Usable(store)
    ensures Run(history, events, Sha256(store)) && history == [NewStore(store)] && events == []
  {
    history, events := [NewStore(store)], [];
  }

  lemma RunGrows(past: seq<Disk>, done: seq<Event>, origin: Digest, e: Event, d: Disk)
    returns (history: seq<Disk>, events: seq<Event>)
    requires Run(past, done, origin) && Next(past[|done|], e, d)
    ensures Run(history, events, origin) && history == past + [d] && events == done + [e]
    ensures history[|events|] == d
  {
    history, events := past + [d], done + [e];
    forall i | 0 <= i < |events| ensures StepAt(history, events, i) {
      assert i < |done| ==> StepAt(past, done, i);
    }
  }

  lemma AnnouncedRun(store: Bytes, p: Pending, action: Action, actor: string)
    returns (history: seq<Disk>, events: seq<Event>)
    requires Usable(store) && Lawful(store, p, action, actor)
    ensures Run(history, events, Sha256(store)) && events == [WriteJournal(p, action, actor), Announce(p)]
    ensures history[2] == Announcing(store, p, [AuditOf(p)], [])
  {
    JournalStep(store, p, action, actor);
    AnnounceStep(store, p);
    history, events := RunStarts(store);
    history, events := RunGrows(history, events, Sha256(store), WriteJournal(p, action, actor),
                                Announcing(store, p, [], []));
    history, events := RunGrows(history, events, Sha256(store), Announce(p),
                                Announcing(store, p, [AuditOf(p)], []));
  }

  /** A run whose transaction was announced, its audit record revoked, and both lines
      removed by a compaction. */
  lemma CompactedRun(past: seq<Disk>, done: seq<Event>, origin: Digest, live: Bytes, p: Pending, ran: seq<Line>)
    returns (history: seq<Disk>, events: seq<Event>)
    requires Run(past, done, origin) && past[|done|] == Announcing(live, p, [AuditOf(p)], ran)
    ensures Run(history, events, origin) && events == done + [Elsewhere(AuditOf(p)), Compact([])]
    ensures history[|events|] == Compacted(live, p, ran)
  {
    RevokeAndCompactSteps(live, p, ran);
    history, events := RunGrows(past, done, origin, Elsewhere(AuditOf(p)),
                                Announcing(live, p, [AuditOf(p), AuditOf(p)], ran));
    history, events := RunGrows(history, events, origin, Compact([]), Compacted(live, p, ran));
  }

  /** The first is three steps away from a new store, */
  lemma AnnouncedAndSetAside(store: Bytes, p: Pending, action: Action, actor: string)
    returns (history: seq<Disk>, events: seq<Event>)
    requires Usable(store) && Lawful(store, p, action, actor)
    ensures Run(history, events, Sha256(store)) && |events| == 3
    ensures history[3] == Announcing(store, p, [AuditOf(p)], []).(away := true)
    ensures Recoverable(history[3]) && SettledStore(history[3]) == store && store != p.bytes
  {
    JournalStep(store, p, action, actor);
    history, events := AnnouncedRun(store, p, action, actor);
    history, events := RunGrows(history, events, Sha256(store), SetAway, history[2].(away := true));
  }

  /** the second four: the audit record is revoked and a compaction removes it, its
      tombstone too. Recovery drops what was announced; */
  lemma LineIsCompactedAway(store: Bytes, p: Pending, action: Action, actor: string)
    returns (history: seq<Disk>, events: seq<Event>)
    requires Usable(store) && Lawful(store, p, action, actor)
    ensures Run(history, events, Sha256(store)) && |events| == 4 && history[4] == Compacted(store, p, [])
    ensures Recoverable(history[4]) && SettledStore(history[4]) == store && store != p.bytes
  {
    JournalStep(store, p, action, actor);
    RevokeAndCompactSteps(store, p, []);
    history, events := AnnouncedRun(store, p, action, actor);
    history, events := CompactedRun(history, events, Sha256(store), store, p, []);
  }

  /** and if the change was made by then, recovery is stuck. */
  lemma CompactedAfterTheChangeIsStuck(store: Bytes, p: Pending, action: Action, actor: string)
    returns (history: seq<Disk>, events: seq<Event>)
    requires Usable(store) && Lawful(store, p, action, actor)
    ensures Run(history, events, Sha256(store)) && |events| == 5
    ensures history[5] == Compacted(p.bytes, p, [AuditOf(p)]) && !Recoverable(history[5])
  {
    JournalStep(store, p, action, actor);
    CommitStep(store, p);
    RevokeAndCompactSteps(p.bytes, p, [AuditOf(p)]);
    history, events := AnnouncedRun(store, p, action, actor);
    history, events := RunGrows(history, events, Sha256(store), Commit,
                                Announcing(p.bytes, p, [AuditOf(p)], [AuditOf(p)]));
    history, events := CompactedRun(history, events, Sha256(store), p.bytes, p, [AuditOf(p)]);
  }

  /** What a finished transaction leaves when its lines are compacted away. */
  function Finished(p: Pending, lines: seq<Line>): Disk {
    Announcing(p.bytes, p, lines, [AuditOf(p)]).(journal := None)
  }

  lemma FinishedSteps(p: Pending)
    requires p.after == Sha256(p.bytes)
    ensures Next(Announcing(p.bytes, p, [AuditOf(p)], [AuditOf(p)]), Clear, Finished(p, [AuditOf(p)]))
    ensures Next(Finished(p, [AuditOf(p)]), Elsewhere(AuditOf(p)), Finished(p, [AuditOf(p), AuditOf(p)]))
    ensures Next(Finished(p, [AuditOf(p), AuditOf(p)]), Compact([]),
                 Finished(p, [AuditOf(p), AuditOf(p)]).(ledger := []))
  {
    assert Lines(Announcing(p.bytes, p, [AuditOf(p)], [AuditOf(p)])) == [AuditOf(p)];
  }

  /** Nor is a finished transaction's line safe: the metadata can be settled on a change
      that no line in the ledger speaks of. */
  lemma AuditIsCompactedAway(store: Bytes, p: Pending, action: Action, actor: string)
    returns (history: seq<Disk>, events: seq<Event>)
    requires Usable(store) && Lawful(store, p, action, actor)
    ensures Run(history, events, Sha256(store)) && |events| == 6
    ensures history[6].journal.None? && history[6].store == p.bytes && p.bytes != store && Lines(history[6]) == []
    ensures !Threads(history[6].book.ran, Lines(history[6]))
  {
    var line := AuditOf(p);
    JournalStep(store, p, action, actor);
    CommitStep(store, p);
    FinishedSteps(p);
    history, events := AnnouncedRun(store, p, action, actor);
    history, events := RunGrows(history, events, Sha256(store), Commit, Announcing(p.bytes, p, [line], [line]));
    history, events := RunGrows(history, events, Sha256(store), Clear, Finished(p, [line]));
    history, events := RunGrows(history, events, Sha256(store), Elsewhere(line), Finished(p, [line, line]));
    history, events := RunGrows(history, events, Sha256(store), Compact([]),
                                Finished(p, [line, line]).(ledger := []));
    assert Lines(history[6]) == [];
  }

  lemma AgentIsDenied(config: StoreConfig, next: StoreConfig)
    requires config == StoreConfig("owner", ["memory"], [], [], [], "") && next == Change(config, Deny("agent"))
    ensures ValidConfig(config) && Govern(config, Deny("agent"), "owner") == Ok(next)
  {
    assert !Whitespace("owner"[0]) && !Whitespace("agent"[0]);
    assert ValidIdentity("owner");
    assert ValidIdentity("agent");
    assert ValidConfig(config);
    ChangeStaysValid(config, Deny("agent"));
  }

  /** There are such changes: the owner of a new store denies an agent. */
  lemma DenyingAnAgent() returns (store: Bytes, p: Pending)
    ensures Usable(store) && Lawful(store, p, Deny("agent"), "owner")
  {
    var config := StoreConfig("owner", ["memory"], [], [], [], "");
    var next := Change(config, Deny("agent"));
    AgentIsDenied(config, next);
    store := Serialize(config);
    p := Pending(1, "deny", "agent", Sha256(store), Sha256(Serialize(next)), Serialize(next));
  }

  /** The metadata a recovery settles on. */
  ghost function SettledStore(d: Disk): (b: Bytes)
    ensures InRun(d) ==> Usable(b)
  {
    if d.journal.Some? && d.journal.value.Readable? && Seen(d, d.journal.value.pending.tx) != []
    then d.journal.value.pending.bytes
    else d.store
  }

  ghost predicate Connected(trail: seq<Disk>) {
    forall i :: 0 < i < |trail| ==> StepsAt(trail, i)
  }

  ghost predicate StepsAt(trail: seq<Disk>, i: nat)
    requires 0 < i < |trail|
  {
    OneStep(trail[i - 1], trail[i])
  }

  ghost predicate OneStep(d: Disk, d': Disk) {
    exists e :: Next(d, e, d')
  }

  /** Some crash-only run passes through this state. */
  ghost predicate InRun(d: Disk) {
    exists origin :: Inv(d, origin)
  }

  lemma ConnectedExtends(trail: seq<Disk>, d: Disk)
    requires trail != [] && Connected(trail) && OneStep(trail[|trail| - 1], d)
    ensures Connected(trail + [d])
  {
    forall i | 0 < i < |trail| + 1 ensures StepsAt(trail + [d], i) {
      if i < |trail| {
        assert StepsAt(trail, i);
      }
    }
  }

  lemma SoundStep(trail: seq<Disk>, d: Disk, e: Event)
    requires trail != [] && trail[|trail| - 1] == d && Connected(trail) && InRun(d) && Enabled(d, e)
    ensures Connected(trail + [Apply(d, e)]) && InRun(Apply(d, e))
  {
    var origin :| Inv(d, origin);
    assert Next(d, e, Apply(d, e));
    StepKeepsInv(d, e, Apply(d, e), origin);
    ConnectedExtends(trail, Apply(d, e));
  }

  /** A line that names the transaction is one recovery is shown. */
  lemma NamedIsInLines(d: Disk, p: Pending)
    ensures AuditOf(p) in Announced(d, p.tx) <==> AuditOf(p) in Lines(d)
  {
  }

  /** What a process leaves of its transaction, wherever it dies. */
  ghost predicate LeftBy(before: Disk, p: Pending, dies: Death, d: Disk) {
    && d.journal == Some(Readable(p)) && d.away == before.away
    && d.store == (if dies == AfterCommit then p.bytes else before.store)
    && d.ledger == before.ledger + (if dies == AfterAudit || dies == AfterCommit then [AuditOf(p)] else [])
    && d.batch == (if dies == AfterJournal then before.batch else None)
    && d.fragment == match dies
         case AfterJournal => before.fragment
         case InsideAudit(whole) => Some(if whole then Unterminated(AuditOf(p)) else Torn)
         case _ => None
  }

  lemma {:induction false} NothingNamed(part: seq<Line>, whole: seq<Line>, tx: TxId)
    requires Naming(whole, tx) == [] && forall line :: line in part ==> line in whole
    ensures Naming(part, tx) == []
  {
    if part != [] {
      var last := part[|part| - 1];
      NothingNamed(part[..|part| - 1], whole, tx);
      assert last !in Naming(whole, tx);
    }
  }

  /** A name no line ever carried is in none that stands. */
  lemma NewNameIsUnseen(d: Disk, tx: TxId)
    requires Threads(Lines(d), d.book.log) && Naming(d.book.log, tx) == []
    ensures Announced(d, tx) == []
  {
    forall line | line in Lines(d) ensures line in d.book.log {
      ThreadsMember(Lines(d), d.book.log, line);
    }
    NothingNamed(Lines(d), d.book.log, tx);
  }

  /** The audit line was not written, or not in full. */
  predicate Unsaid(dies: Death) {
    dies.AfterJournal? || dies.BeforeAudit? || dies == InsideAudit(false)
  }

  lemma LinesAtDeath(before: Disk, p: Pending, dies: Death, d: Disk)
    requires dies != Survives && LeftBy(before, p, dies, d)
    ensures dies == AfterJournal ==> Lines(d) == Lines(before)
    ensures dies != AfterJournal ==> Lines(d) == before.ledger + if Unsaid(dies) then [] else [AuditOf(p)]
  {
  }

  lemma SaidAtDeath(before: Disk, p: Pending, dies: Death, d: Disk)
    requires Announced(before, p.tx) == [] && dies != Survives && LeftBy(before, p, dies, d)
    requires dies != AfterJournal ==> Appendable(before)
    ensures Seen(d, p.tx) == if Unsaid(dies) then [] else [AuditOf(p)]
  {
    LinesAtDeath(before, p, dies, d);
    NothingNamed(before.ledger, Lines(before), p.tx);
    NamingStep(before.ledger, AuditOf(p), p.tx);
    assert before.ledger + [] == before.ledger;
  }

  lemma LawfulIsUsable(store: Bytes, p: Pending, action: Action, actor: string)
    requires Usable(store) && Lawful(store, p, action, actor)
    ensures Usable(p.bytes) && p.after == Sha256(p.bytes) && p.before == Sha256(store)
  {
    GovernKeepsValid(store.parsed.value, action, actor);
  }

  /** Whether what a transaction leaves has a last line that does not read: because it
      died in the middle of its own, or because of one that was there and it did not get
      as far as the append that would have settled it. */
  predicate LeavesUnreadable(before: Disk, dies: Death) {
    if dies == AfterJournal || !Appendable(before) then Unreadable(before) else dies == InsideAudit(false)
  }

  /** Wherever it dies, recovery settles what is left, save for such a line. */
  lemma DeathIsSettledIff(before: Disk, p: Pending, dies: Death, d: Disk)
    requires Usable(p.bytes) && p.after == Sha256(p.bytes) && p.before == Sha256(before.store)
    requires Announced(before, p.tx) == [] && dies != Survives && LeftBy(before, p, dies, d)
    requires dies != AfterJournal ==> Appendable(before)
    ensures Recoverable(d) <==> !LeavesUnreadable(before, dies)
  {
    SaidAtDeath(before, p, dies, d);
  }

  class Store {
    var store: Bytes
    var journal: Option<JournalFile>
    var ledger: seq<Line>
    var batch: Option<seq<Line>>
    var fragment: Option<Fragment>
    var away: bool
    ghost var book: Book
    ghost var trail: seq<Disk>

    ghost function OnDisk(): Disk
      reads this
    {
      Disk(store, journal, ledger, batch, fragment, away, book)
    }

    ghost predicate Valid()
      reads this
    {
      trail != [] && trail[|trail| - 1] == OnDisk()
    }

    /** Everything this store has been through is a crash-only run. */
    ghost predicate Sound()
      reads this
    {
      Valid() && InRun(OnDisk()) && Connected(trail)
    }

    constructor (found: Disk)
      ensures Valid() && OnDisk() == found
    {
      store, journal, ledger, batch := found.store, found.journal, found.ledger, found.batch;
      fragment, away, book := found.fragment, found.away, found.book;
      trail := [found];
    }

    /** What every method promises about the states it passed through: from a sound
        state, each change is one a crash-only run makes. */
    twostate predicate Lawfully()
      reads this
    {
      old(trail) <= trail && (old(Sound()) ==> Sound())
    }

    /** Nothing happens to the ledger. */
    twostate predicate LedgerAsItWas()
      reads this
    {
      ledger == old(ledger) && batch == old(batch) && fragment == old(fragment) && away == old(away)
      && book.log == old(book).log
    }

    /** One durable change. */
    method Do(e: Event)
      requires Valid() && (Sound() ==> Enabled(OnDisk(), e))
      modifies this
      ensures Valid() && Lawfully() && OnDisk() == Apply(old(OnDisk()), e)
    {
      ghost var before := OnDisk();
      Write(e);
      if old(Sound()) {
        SoundStep(trail, before, e);
      }
      trail := trail + [OnDisk()];
    }

    method Write(e: Event)
      modifies this`store, this`journal, this`ledger, this`batch, this`fragment, this`away, this`book
      ensures OnDisk() == Apply(old(OnDisk()), e)
    {
      ghost var before := OnDisk();
      book := Apply(before, e).book;
      match e {
        case WriteJournal(p, _, _) => journal := Some(Readable(p));
        case Announce(p) => ledger := ledger + [AuditOf(p)];
        case AnnounceTorn(_, left) => fragment := Some(left);
        case Commit =>
          if journal.Some? && journal.value.Readable? {
            store := journal.value.pending.bytes;
          }
        case Clear => journal := None;
        case Elsewhere(line) => ledger := ledger + [line];
        case ElsewhereTorn(left) => fragment := Some(left);
        case BatchCut(whole, rest) => batch, fragment := Some(whole), rest;
        case Repair => batch, fragment := None, None;
        case SetAway => away := true;
        case BringBack => away := false;
        case Compact(kept) => ledger, fragment, away := kept, None, false;
      }
      assert OnDisk() == Apply(before, e);
    }

    /** Every audit record that names this transaction; an unreadable line anywhere
        in the ledger is an error rather than an absence, but a directory that cannot
        be listed is an absence. */
    method ForTransaction(tx: TxId) returns (found: Result<seq<Line>>)
      ensures found.Err? <==> Unreadable(OnDisk())
      ensures found.Err? ==> found.error == Integrity
      ensures found.Ok? ==> found.value == Seen(OnDisk(), tx)
    {
      if away {
        return Ok([]);
      }
      if fragment == Some(Torn) {
        return Err(Integrity);
      }
      var whole := if batch.Some? then batch.value else [];
      var naming := NamedIn(ledger + whole + Said(fragment), tx);
      found := Ok(naming);
    }

    method NamedIn(lines: seq<Line>, tx: TxId) returns (naming: seq<Line>)
      ensures naming == Naming(lines, tx)
    {
      naming := [];
      for i := 0 to |lines|
        invariant naming == Naming(lines[..i], tx)
      {
        assert lines[..i + 1] == lines[..i] + [lines[i]];
        NamingStep(lines[..i], lines[i], tx);
        if lines[i].Audit? && lines[i].tx == tx {
          naming := naming + [lines[i]];
        }
      }
      assert lines[..|lines|] == lines;
    }

    /** The bytes are the bytes they claim to be, and metadata this store can load. */
    method Vet(p: Pending, attested: Option<Digest>) returns (error: Option<Error>)
      ensures error.None? <==>
        Sha256(p.bytes) == (if attested.Some? then attested.value else p.after) && Usable(p.bytes)
      ensures error.Some? ==>
        if Sha256(p.bytes) == (if attested.Some? then attested.value else p.after) && p.bytes.parsed.Some?
        then error == Fault(p.bytes.parsed.value)
        else error.value == Integrity
    {
      var expected := if attested.Some? then attested.value else p.after;
      if Sha256(p.bytes) != expected || p.bytes.parsed.None? {
        return Some(Integrity);
      }
      error := Validate(p.bytes.parsed.value);
    }

    /** Finishes or discards an interrupted transaction. It starts from whatever the
        journal and the ledger happen to say, forged or not. */
    method Recover() returns (settled: Result<Settlement>)
      requires Valid()
      modifies this
      ensures Valid() && Lawfully() && LedgerAsItWas()
      // It succeeds exactly when there is something it may act on.
      ensures settled.Ok? <==> old(Recoverable(OnDisk()))
      ensures settled.Err? ==> settled.error == old(RecoveryFault(OnDisk()))
      // A success leaves nothing pending, so a second run finds nothing.
      ensures settled.Ok? ==> journal.None?
      ensures old(journal.None?) ==> settled == Ok(Nothing) && OnDisk() == old(OnDisk())
      // A refusal leaves the evidence, and the metadata, in place.
      ensures settled.Err? ==> OnDisk() == old(OnDisk())
      // Metadata is written only on the ledger's word.
      ensures store != old(store) ==>
        && store == old(journal).value.pending.bytes && Usable(store)
        && Seen(old(OnDisk()), old(journal).value.pending.tx) == [AuditOf(old(journal).value.pending)]
        && Describes(AuditOf(old(journal).value.pending), old(store), store)
      // And what it finds announced is what ends up live.
      ensures settled.Ok? ==> store == old(SettledStore(OnDisk()))
    {
      if journal.None? {
        return Ok(Nothing);
      }
      if journal.value.Garbled? {
        return Err(Integrity);
      }
      var p := journal.value.pending;
      var announced := ForTransaction(p.tx);
      if announced.Err? || |announced.value| > 1 {
        return Err(Integrity);
      }
      var attested := if announced.value == [] then None else announced.value[0].after;
      var fault := Vet(p, attested);
      if fault.Some? {
        return Err(fault.value);
      }
      var live := Sha256(store);
      if announced.value == [] {
        if live == p.before {
          Do(Clear);
          return Ok(Abandoned);
        }
        return Err(Integrity);
      }
      var line := announced.value[0];
      assert line in announced.value;
      var agrees := line.action == Some(p.action) && line.subject == Some(p.subject)
        && line.before == Some(p.before) && line.after == Some(p.after);
      if !agrees {
        return Err(Integrity);
      }
      assert line == AuditOf(p) && announced.value == [AuditOf(p)];
      NamedIsInLines(OnDisk(), p);
      if live == p.after {
        if Sha256(p.bytes) != live {
          return Err(Integrity);
        }
        Do(Clear);
        return Ok(AlreadyApplied);
      }
      if live != p.before {
        return Err(Integrity);
      }
      settled := Complete(p);
    }

    method Complete(p: Pending) returns (settled: Result<Settlement>)
      requires Valid() && journal == Some(Readable(p)) && Sha256(p.bytes) == p.after
      requires AuditOf(p) in Lines(OnDisk()) && Sha256(store) == p.before
      modifies this
      ensures Valid() && Lawfully() && LedgerAsItWas()
      ensures settled == Ok(Completed) && store == p.bytes && journal.None?
    {
      Do(Commit);
      assert Lines(OnDisk()) == Lines(old(OnDisk()));
      var reached := Sha256(store);
      if reached != p.after {
        return Err(Integrity);
      }
      Do(Clear);
      settled := Ok(Completed);
    }

    /** Works out what a change would produce, without writing it. */
    method Plan(action: Action, actor: string) returns (planned: Result<Bytes>)
      requires store.parsed.Some? && ValidConfig(store.parsed.value)
      requires Refusal(store.parsed.value, action).None? && Effective(store.parsed.value, action)
      requires RequireRoot(store.parsed.value, actor) == Granted
      ensures planned.Ok? <==> Govern(store.parsed.value, action, actor).Ok?
      ensures planned.Ok? ==> planned.value == Serialize(Govern(store.parsed.value, action, actor).value)
      ensures planned.Err? ==> Govern(store.parsed.value, action, actor) == Err(planned.error)
    {
      var config := MakeChange(store.parsed.value, action);
      var error := Validate(config);
      planned := if error.None? then Ok(Serialize(config)) else Err(error.value);
    }

    /** The second half of a transaction: ledger, metadata, journal. */
    method Land(p: Pending, dies: Death) returns (outcome: Outcome)
      requires Sound() && Enabled(OnDisk(), Announce(p)) && p.after == Sha256(p.bytes)
      requires dies == Survives || dies == AfterAudit || dies == AfterCommit
      modifies this
      ensures Sound() && Lawfully() && outcome == if dies == Survives then Done else Died
      ensures ledger == old(ledger) + [AuditOf(p)] && batch.None? && fragment.None? && !away
      ensures store == if dies == AfterAudit then old(store) else p.bytes
      ensures journal == if dies == Survives then None else old(journal)
    {
      Do(Announce(p));
      assert AuditOf(p) in Lines(OnDisk());
      if dies == AfterAudit {
        return Died;
      }
      ghost var announced := OnDisk();
      Do(Commit);
      assert Lines(OnDisk()) == Lines(announced);
      if dies == AfterCommit {
        return Died;
      }
      Do(Clear);
      outcome := Done;
    }

    /** One governance transaction: journal, then ledger, then metadata, then the
        journal goes. It says what is left wherever the process dies, or the ledger
        cannot be appended to. */
    method Transact(p: Pending, action: Action, actor: string, dies: Death) returns (outcome: Outcome)
      requires Valid() && Sound()
      requires Enabled(OnDisk(), WriteJournal(p, action, actor))
      modifies this
      ensures Valid() && Lawfully()
      ensures outcome ==
        if dies == AfterJournal then Died
        else if !old(Appendable(OnDisk())) then NotRecorded
        else if dies == Survives then Done
        else Died
      ensures outcome == Done ==>
        store == p.bytes && journal.None? && ledger == old(ledger) + [AuditOf(p)] && batch.None? && fragment.None?
      ensures outcome == NotRecorded ==> LeftBy(old(OnDisk()), p, AfterJournal, OnDisk())
      ensures outcome == Died ==> LeftBy(old(OnDisk()), p, dies, OnDisk())
      ensures away == old(away)
    {
      Do(WriteJournal(p, action, actor));
      if dies == AfterJournal {
        return Died;
      }
      outcome := Record(p, dies);
    }

    /** What follows the journal. The append settles another writer's batch first. */
    method Record(p: Pending, dies: Death) returns (outcome: Outcome)
      requires Sound() && PendingNow(OnDisk(), p) && !book.spoken
      requires Sha256(store) == p.before && p.after == Sha256(p.bytes) && dies != AfterJournal
      modifies this
      ensures Sound() && Lawfully() && away == old(away)
      ensures outcome ==
        if !old(Appendable(OnDisk())) then NotRecorded else if dies == Survives then Done else Died
      ensures outcome == Done ==>
        store == p.bytes && journal.None? && ledger == old(ledger) + [AuditOf(p)] && batch.None? && fragment.None?
      ensures outcome == NotRecorded ==> OnDisk() == old(OnDisk())
      ensures outcome == Died ==> LeftBy(old(OnDisk()), p, dies, OnDisk())
    {
      if away || (fragment.Some? && batch.None?) {
        return NotRecorded;
      }
      if batch.Some? {
        Do(Repair);
      }
      if dies == BeforeAudit {
        return Died;
      }
      if dies.InsideAudit? {
        Do(AnnounceTorn(p, if dies.whole then Unterminated(AuditOf(p)) else Torn));
        return Died;
      }
      outcome := Land(p, dies);
    }

    /** A whole command: settle what is pending, then ask who governs, then act on what
        that left - or say what keeps the past from being settled. */
    method Perform(action: Action, actor: string, tx: TxId, dies: Death) returns (outcome: Outcome)
      requires Valid() && Sound() && Naming(book.log, tx) == []
      modifies this
      ensures Valid() && Lawfully()
      ensures old(!Recoverable(OnDisk())) ==>
        outcome == Refused(old(RecoveryFault(OnDisk()))) && OnDisk() == old(OnDisk())
      ensures old(Recoverable(OnDisk())) ==> Acted(old(Quiet(OnDisk())), OnDisk(), action, actor, tx, dies, outcome)
      ensures outcome.Refused? && old(journal.None?) ==> OnDisk() == old(OnDisk())
    {
      ghost var found := OnDisk();
      var settled := Recover();
      if settled.Err? {
        return Refused(settled.error);
      }
      ghost var quiet := OnDisk();
      assert quiet.(book := found.book) == Quiet(found) && Usable(quiet.store);
      outcome := Act(action, actor, tx, dies);
      ActedAlike(quiet, Quiet(found), OnDisk(), action, actor, tx, dies, outcome);
    }

    /** The command proper, with nothing pending. */
    method Act(action: Action, actor: string, tx: TxId, dies: Death) returns (outcome: Outcome)
      requires Valid() && Sound() && journal.None? && Usable(store) && Naming(book.log, tx) == []
      modifies this
      ensures Valid() && Lawfully() && Acted(old(OnDisk()), OnDisk(), action, actor, tx, dies, outcome)
      ensures outcome.Refused? || outcome == Unchanged ==> OnDisk() == old(OnDisk())
    {
      var answer := Consider(action, actor);
      match answer {
        case Err(error) => return Refused(error);
        case Ok(None) => return Unchanged;
        case Ok(Some(bytes)) => outcome := CarryOut(action, actor, tx, bytes, dies);
      }
    }

    /** Whether a command may do what it asks, and what the metadata would be; None when
        it would change nothing. */
    method Consider(action: Action, actor: string) returns (answer: Result<Option<Bytes>>)
      requires Usable(store)
      ensures var config := store.parsed.value; var governed := Govern(config, action, actor);
        match answer
        case Err(error) => governed == Err(error)
        case Ok(None) => governed == Ok(config)
        case Ok(Some(bytes)) =>
          && governed.Ok? && governed.value != config && bytes == Serialize(governed.value)
          && Effective(config, action)
    {
      var config := store.parsed.value;
      match RequireRoot(config, actor) {
        case Granted =>
        case HeldToReading => return Err(ReadOnlyActor);
        case Denied => return Err(PermissionDenied);
      }
      var refusal := Refusal(config, action);
      if refusal.Some? {
        return Err(refusal.value);
      }
      if !Effective(config, action) {
        return Ok(None);
      }
      EffectiveChanges(config, action);
      var planned := Plan(action, actor);
      answer := if planned.Ok? then Ok(Some(planned.value)) else Err(planned.error);
    }

    method CarryOut(action: Action, actor: string, tx: TxId, bytes: Bytes, dies: Death) returns (outcome: Outcome)
      requires Valid() && Sound() && journal.None? && Usable(store) && Naming(book.log, tx) == []
      requires Govern(store.parsed.value, action, actor).Ok? && Effective(store.parsed.value, action)
      requires bytes == Serialize(Govern(store.parsed.value, action, actor).value)
      modifies this
      ensures Valid() && Lawfully() && Made(old(OnDisk()), OnDisk(), action, tx, bytes, dies, outcome)
    {
      var (name, subject) := Named(action);
      var p := Pending(tx, name, subject, Sha256(store), Sha256(bytes), bytes);
      ghost var before := OnDisk();
      NewNameIsUnseen(before, tx);
      outcome := Transact(p, action, actor, dies);
      if outcome == Died || outcome == NotRecorded {
        LawfulIsUsable(before.store, p, action, actor);
        DeathIsSettledIff(before, p, if outcome == Died then dies else AfterJournal, OnDisk());
      }
    }
  }

  /** A change is made, unless the process dies first or the ledger cannot be appended to:
      with one audit record that says which command it was, about whom, and what bytes it
      moved between. A death after the change leaves it made; any other leaves it to
      recovery, which can settle it unless the last line does not read. */
  ghost predicate Made(was: Disk, now: Disk, action: Action, tx: TxId, bytes: Bytes, dies: Death, outcome: Outcome) {
    && outcome == (if dies == AfterJournal then Died
                   else if was.away || (was.fragment.Some? && was.batch.None?) then NotRecorded
                   else if dies == Survives then Done
                   else Died)
    && now.store == (if outcome == Done || (outcome == Died && dies == AfterCommit) then bytes else was.store)
    && (outcome == Done ==>
          && now.journal.None? && now.batch.None? && now.fragment.None?
          && now.ledger == was.ledger + [Attesting(tx, action, was.store, bytes)])
    && (outcome != Done ==> now.journal.Some? && (Recoverable(now) <==> !LeavesUnreadable(was, dies)))
  }

  /** What a command comes to on metadata nothing is pending for: the error governance
      gives, nothing when it gives the metadata back, and otherwise the change. */
  ghost predicate Acted(was: Disk, now: Disk, action: Action, actor: string, tx: TxId, dies: Death, outcome: Outcome) {
    was.store.parsed.Some? &&
    var config := was.store.parsed.value;
    match Govern(config, action, actor)
    case Err(error) => outcome == Refused(error) && now.(book := was.book) == was
    case Ok(next) =>
      if next == config then outcome == Unchanged && now.(book := was.book) == was
      else Made(was, now, action, tx, Bytes(Some(next), "pretty"), dies, outcome)
  }

  lemma ActedAlike(a: Disk, b: Disk, now: Disk, action: Action, actor: string, tx: TxId, dies: Death, outcome: Outcome)
    requires a.(book := b.book) == b && Acted(a, now, action, actor, tx, dies, outcome)
    ensures Acted(b, now, action, actor, tx, dies, outcome)
  {
  }

  /** What a recovery that succeeds leaves. */
  ghost function Quiet(d: Disk): Disk {
    d.(store := SettledStore(d), journal := None)
  }

  /** How a command is called in its audit record, and whom it names. */
  function Named(action: Action): (string, string) {
    match action
    case Transfer(heir) => ("owner-transfer", heir)
    case AddGrant(subject, _, _, _) => ("grant-add", subject)
    case Revoke(subject) => ("grant-revoke", subject)
    case Deny(subject) => ("reader-add", subject)
    case Allow(subject) => ("reader-revoke", subject)
  }

  /** The audit record of a command: which it was, about whom, and the bytes it moved
      between. */
  ghost function Attesting(tx: TxId, action: Action, was: Bytes, now: Bytes): Line {
    var name :=
      if action.Transfer? then "owner-transfer" else if action.AddGrant? then "grant-add"
      else if action.Revoke? then "grant-revoke" else if action.Deny? then "reader-add" else "reader-revoke";
    var about := if action.Transfer? then action.newOwner else action.subject;
    Audit(tx, Some(name), Some(about), Some(Sha256(was)), Some(Sha256(now)))
  }
}
