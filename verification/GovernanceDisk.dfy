/** A governance transaction as it looks from the disk: a journal, an audit record
    in the immutable ledger, and a compare-and-swap of the store metadata. */
module GovernanceDisk {
  import opened Ledger
  import opened Authority
  import opened AuthorityRuns

  /** The bytes of a metadata file: what they parse to, if anything, and how they
      are spelled. Two spellings of one configuration are different bytes. */
  datatype Bytes = Bytes(parsed: Option<StoreConfig>, spelling: string)

  /** SHA-256 of a metadata file, or a digest that is nobody's. */
  datatype Digest = Sha256(of: Bytes) | Forged(text: string)

  /** serde_json::to_vec_pretty, the one spelling this build writes. */
  function Serialize(config: StoreConfig): Bytes {
    Bytes(Some(config), "pretty")
  }

  type TxId = nat

  datatype Pending = Pending(tx: TxId, action: string, subject: string, before: Digest, after: Digest, bytes: Bytes)

  /** The journal is a plain file: anything may have been written into it. */
  datatype JournalFile = Readable(pending: Pending) | Garbled

  /** A ledger line. An audit record names its transaction; any other field of its
      payload may be missing in a line this build did not write. */
  datatype Line =
    | Audit(tx: TxId, action: Option<string>, subject: Option<string>, before: Option<Digest>, after: Option<Digest>)
    | Other(id: nat)

  /** What a writer that died inside a line left after the last newline: part of a
      line, or all of it but the newline. */
  datatype Fragment = Torn | Unterminated(line: Line)

  /** No code reads this. `log` is every line anybody ever wrote, `ran` the audit lines
      of the transactions that took effect, in the order they did; `since` is how many
      lines had been written when the pending one was journaled, and `spoken` whether
      its process announced it. */
  datatype Book = Book(log: seq<Line>, ran: seq<Line>, since: nat, spoken: bool)

  /** `batch` are the whole lines of a batch whose writer died in it and whose own journal
      still stands; `fragment` is whatever follows the last newline. `away` while the
      ledger directory stands set aside, between the two renames of a compaction. */
  datatype Disk = Disk(
    store: Bytes,
    journal: Option<JournalFile>,
    ledger: seq<Line>,
    batch: Option<seq<Line>>,
    fragment: Option<Fragment>,
    away: bool,
    book: Book)

  function AuditOf(p: Pending): Line {
    Audit(p.tx, Some(p.action), Some(p.subject), Some(p.before), Some(p.after))
  }

  /** `str::lines` yields an unterminated line too, and it parses. */
  function Said(left: Option<Fragment>): seq<Line> {
    if left.Some? && left.value.Unterminated? then [left.value.line] else []
  }

  /** Every line the ledger yields that parses, those of an unsettled batch included. */
  function Lines(d: Disk): seq<Line> {
    d.ledger + (if d.batch.Some? then d.batch.value else []) + Said(d.fragment)
  }

  function Naming(lines: seq<Line>, tx: TxId): (found: seq<Line>)
    ensures forall line :: line in found <==> line in lines && line.Audit? && line.tx == tx
  {
    if lines == [] then []
    else
      var last := lines[|lines| - 1];
      assert lines == lines[..|lines| - 1] + [last];
      Naming(lines[..|lines| - 1], tx) + if last.Audit? && last.tx == tx then [last] else []
  }

  function Announced(d: Disk, tx: TxId): seq<Line> {
    Naming(Lines(d), tx)
  }

  /** What recovery is shown: a directory that cannot be listed has no lines. */
  function Seen(d: Disk, tx: TxId): seq<Line> {
    if d.away then [] else Announced(d, tx)
  }

  /** The last line does not read, and somebody will try. */
  predicate Unreadable(d: Disk) {
    !d.away && d.fragment == Some(Torn)
  }

  ghost predicate Usable(b: Bytes) {
    b.parsed.Some? && ValidConfig(b.parsed.value)
  }

  // ---------------------------------------------------------------------
  // Events of a crash-only run
  // ---------------------------------------------------------------------

  datatype Event =
    | WriteJournal(pending: Pending, action: Action, actor: string)
    | Announce(pending: Pending)
    | AnnounceTorn(pending: Pending, left: Fragment)
    | Commit
    | Clear
    | Elsewhere(line: Line)      // another writer appends a whole line, of any type
    | ElsewhereTorn(left: Fragment)
    | BatchCut(whole: seq<Line>, rest: Option<Fragment>) // a batch dies after its own journal
    | Repair                     // and the next append takes back what there is of it
    | SetAway                    // a compaction dies between two renames
    | BringBack                  // and is undone
    | Compact(kept: seq<Line>)   // or published: superseded and revoked lines are gone

  /** A change somebody was entitled to make, serialized by this build. */
  ghost predicate Lawful(store: Bytes, p: Pending, action: Action, actor: string) {
    && store.parsed.Some?
    && Govern(store.parsed.value, action, actor).Ok? && Effective(store.parsed.value, action)
    && p.bytes == Serialize(Govern(store.parsed.value, action, actor).value)
    && p.before == Sha256(store) && p.after == Sha256(p.bytes)
  }

  ghost predicate PendingNow(d: Disk, p: Pending) {
    d.journal == Some(Readable(p))
  }

  /** A line can be appended as things stand. */
  predicate Clean(d: Disk) {
    d.fragment.None? && d.batch.None? && !d.away
  }

  /** An append first settles a batch that has its journal; a line cut short without one
      stops it. */
  predicate Appendable(d: Disk) {
    !d.away && (d.fragment.None? || d.batch.Some?)
  }

  ghost predicate CanAnnounce(d: Disk, p: Pending) {
    PendingNow(d, p) && !d.book.spoken && Clean(d) && Sha256(d.store) == p.before
  }

  /** Transaction ids are new: no line written before a transaction begins names it.
      From then on anybody may write one that does. */
  ghost predicate Enabled(d: Disk, e: Event) {
    match e
    case WriteJournal(p, action, actor) =>
      d.journal.None? && Lawful(d.store, p, action, actor) && Naming(d.book.log, p.tx) == []
    case Announce(p) => CanAnnounce(d, p)
    case AnnounceTorn(p, left) => CanAnnounce(d, p) && (left == Torn || left == Unterminated(AuditOf(p)))
    case Commit =>
      && d.journal.Some? && d.journal.value.Readable?
      && AuditOf(d.journal.value.pending) in Lines(d)
      && Sha256(d.store) == d.journal.value.pending.before
    case Clear =>
      && d.journal.Some? && d.journal.value.Readable?
      && var p := d.journal.value.pending;
         || (Seen(d, p.tx) == [] && Sha256(d.store) == p.before)
         || (AuditOf(p) in Lines(d) && Sha256(d.store) == p.after)
    case Elsewhere(_) => Clean(d)
    case ElsewhereTorn(_) => Clean(d)
    case BatchCut(_, _) => Clean(d)
    case Repair => d.batch.Some? && !d.away
    case SetAway => !d.away
    case BringBack => d.away
    case Compact(kept) => d.batch.None? && Threads(kept, d.ledger) && |kept| < |d.ledger|
  }

  /** More lines written, by whomever. */
  function Longer(b: Book, more: seq<Line>): Book {
    b.(log := b.log + more)
  }

  /** A repaired batch goes as a whole. A compaction reads whole lines only, and takes
      what follows the last newline along with what it removes. */
  function Apply(d: Disk, e: Event): Disk {
    match e
    case WriteJournal(p, _, _) =>
      d.(journal := Some(Readable(p)), book := d.book.(since := |d.book.log|, spoken := false))
    case Announce(p) =>
      d.(ledger := d.ledger + [AuditOf(p)], book := Longer(d.book, [AuditOf(p)]).(spoken := true))
    case AnnounceTorn(_, left) =>
      d.(fragment := Some(left), book := Longer(d.book, Said(Some(left))).(spoken := true))
    case Commit =>
      if d.journal.Some? && d.journal.value.Readable?
      then d.(store := d.journal.value.pending.bytes,
              book := d.book.(ran := d.book.ran + [AuditOf(d.journal.value.pending)]))
      else d
    case Clear => d.(journal := None)
    case Elsewhere(line) => d.(ledger := d.ledger + [line], book := Longer(d.book, [line]))
    case ElsewhereTorn(left) => d.(fragment := Some(left), book := Longer(d.book, Said(Some(left))))
    case BatchCut(whole, rest) =>
      d.(batch := Some(whole), fragment := rest, book := Longer(d.book, whole + Said(rest)))
    case Repair => d.(batch := None, fragment := None)
    case SetAway => d.(away := true)
    case BringBack => d.(away := false)
    case Compact(kept) => d.(ledger := kept, fragment := None, away := false)
  }

  ghost predicate Next(d: Disk, e: Event, d': Disk) {
    Enabled(d, e) && d' == Apply(d, e)
  }

  // ---------------------------------------------------------------------
  // The invariant
  // ---------------------------------------------------------------------

  /** The transactions carry the metadata from `from` to `to`: each begins at the
      digest the one before it ended at. */
  ghost predicate Chain(ran: seq<Line>, from: Digest, to: Digest)
    decreases |ran|
  {
    if ran == [] then from == to
    else
      var last := ran[|ran| - 1];
      last.Audit? && last.before.Some? && last.after == Some(to) && Chain(ran[..|ran| - 1], from, last.before.value)
  }

  /** `part` runs through `whole` in order. */
  ghost predicate Threads(part: seq<Line>, whole: seq<Line>)
    decreases |whole|
  {
    part == [] || (whole != [] &&
      var front := whole[..|whole| - 1];
      (part[|part| - 1] == whole[|whole| - 1] && Threads(part[..|part| - 1], front)) || Threads(part, front))
  }

  lemma {:induction false} ThreadsThrough(part: seq<Line>, whole: seq<Line>, more: seq<Line>)
    requires Threads(part, whole)
    ensures Threads(part, whole + more)
  {
    if more == [] {
      assert whole + more == whole;
    } else {
      ThreadsThrough(part, whole, more[..|more| - 1]);
      assert (whole + more)[..|whole + more| - 1] == whole + more[..|more| - 1];
    }
  }

  lemma {:induction false} ThreadsSelf(lines: seq<Line>)
    ensures Threads(lines, lines)
  {
    if lines != [] {
      ThreadsSelf(lines[..|lines| - 1]);
    }
  }

  /** The front of a sequence runs through it. */
  lemma ThreadsFront(front: seq<Line>, more: seq<Line>)
    ensures Threads(front, front + more)
  {
    ThreadsSelf(front);
    ThreadsThrough(front, front, more);
  }

  lemma {:induction false} ThreadsTransitive(a: seq<Line>, b: seq<Line>, c: seq<Line>)
    requires Threads(a, b) && Threads(b, c)
    ensures Threads(a, c)
    decreases |c|
  {
    if a != [] {
      var front := c[..|c| - 1];
      if Threads(b, front) {
        ThreadsTransitive(a, b, front);
      } else if a[|a| - 1] == b[|b| - 1] && Threads(a[..|a| - 1], b[..|b| - 1]) {
        ThreadsTransitive(a[..|a| - 1], b[..|b| - 1], front);
      } else {
        ThreadsTransitive(a, b[..|b| - 1], front);
      }
    }
  }

  lemma {:induction false} ThreadsMember(part: seq<Line>, whole: seq<Line>, line: Line)
    requires Threads(part, whole) && line in part
    ensures line in whole
    decreases |whole|
  {
    var front := whole[..|whole| - 1];
    if Threads(part, front) {
      ThreadsMember(part, front, line);
    } else if line != part[|part| - 1] {
      ThreadsMember(part[..|part| - 1], front, line);
    }
  }

  lemma {:induction false} ThreadsTogether(part: seq<Line>, whole: seq<Line>, more: seq<Line>)
    requires Threads(part, whole)
    ensures Threads(part + more, whole + more)
  {
    if more == [] {
      assert part + more == part && whole + more == whole;
    } else {
      var front := more[..|more| - 1];
      ThreadsTogether(part, whole, front);
      assert (part + more)[..|part + more| - 1] == part + front;
      assert (whole + more)[..|whole + more| - 1] == whole + front;
    }
  }

  /** A line found behind the thread lengthens it. */
  lemma {:induction false} ThreadsOn(part: seq<Line>, whole: seq<Line>, k: nat, line: Line)
    requires k <= |whole| && Threads(part, whole[..k]) && line in whole[k..]
    ensures Threads(part + [line], whole)
  {
    var front, last := whole[..|whole| - 1], whole[|whole| - 1];
    assert (part + [line])[..|part|] == part;
    assert front[..k] == whole[..k];
    if last == line {
      ThreadsThrough(part, front[..k], front[k..]);
      assert front[..k] + front[k..] == front;
    } else {
      assert whole[k..] == front[k..] + [last];
      ThreadsOn(part, front, k, line);
    }
  }

  /** Before it takes effect, a transaction's name is in no line older than its
      journal, and the thread runs through those; afterwards its own line was written. */
  ghost predicate InFlight(d: Disk, p: Pending) {
    var log, since := d.book.log, d.book.since;
    && Usable(p.bytes) && p.after == Sha256(p.bytes) && p.before != p.after
    && since <= |log|
    && (|| (Sha256(d.store) == p.before && Threads(d.book.ran, log[..since]) && Naming(log[..since], p.tx) == [])
        || (d.store == p.bytes && AuditOf(p) in log && Threads(d.book.ran, log)))
  }

  /** What the ledger shows are lines that were written, in the order they were. */
  ghost predicate Inv(d: Disk, origin: Digest) {
    && Usable(d.store) && Chain(d.book.ran, origin, Sha256(d.store)) && Threads(Lines(d), d.book.log)
    && match d.journal
       case None => Threads(d.book.ran, d.book.log)
       case Some(Garbled) => false
       case Some(Readable(p)) => InFlight(d, p)
  }

  lemma NamingStep(lines: seq<Line>, line: Line, tx: TxId)
    ensures Naming(lines + [line], tx) == Naming(lines, tx) + if line.Audit? && line.tx == tx then [line] else []
  {
    assert (lines + [line])[..|lines|] == lines;
  }

  /** More lines, whoever wrote them, and fewer of the old ones disturb nothing. */
  lemma LinesKeepInv(d: Disk, more: seq<Line>, d': Disk, origin: Digest)
    requires Inv(d, origin) && d'.store == d.store && d'.journal == d.journal
    requires d'.book == Longer(d.book, more).(spoken := d'.book.spoken) && Threads(Lines(d'), d'.book.log)
    ensures Inv(d', origin)
  {
    var log, since := d.book.log, d.book.since;
    if d.journal.None? || (d.store == d.journal.value.pending.bytes && AuditOf(d.journal.value.pending) in log
                           && Threads(d.book.ran, log)) {
      ThreadsThrough(d.book.ran, log, more);
    } else {
      assert (log + more)[..since] == log[..since];
    }
  }

  /** What an event writes. */
  function Written(e: Event): seq<Line> {
    match e
    case Announce(p) => [AuditOf(p)]
    case AnnounceTorn(_, left) => Said(Some(left))
    case Elsewhere(line) => [line]
    case ElsewhereTorn(left) => Said(Some(left))
    case BatchCut(whole, rest) => whole + Said(rest)
    case _ => []
  }

  predicate Removes(e: Event) {
    e.Repair? || e.Compact?
  }

  /** Only a repair and a compaction take lines from the ledger. */
  lemma LinesAppend(d: Disk, e: Event, d': Disk)
    requires Next(d, e, d') && !Removes(e)
    ensures Lines(d') == Lines(d) + Written(e) && d'.book.log == d.book.log + Written(e)
  {
  }

  lemma AppendKeepsInv(d: Disk, e: Event, d': Disk, origin: Digest)
    requires Inv(d, origin) && Next(d, e, d') && !Removes(e)
    requires !e.WriteJournal? && !e.Commit? && !e.Clear?
    ensures Inv(d', origin)
  {
    LinesAppend(d, e, d');
    ThreadsTogether(Lines(d), d.book.log, Written(e));
    assert d'.book == Longer(d.book, Written(e)).(spoken := d'.book.spoken);
    LinesKeepInv(d, Written(e), d', origin);
  }

  lemma LedgerWasWritten(d: Disk)
    requires Threads(Lines(d), d.book.log)
    ensures Threads(d.ledger, d.book.log)
  {
    var behind := Lines(d)[|d.ledger|..];
    assert Lines(d) == d.ledger + behind;
    ThreadsFront(d.ledger, behind);
    ThreadsTransitive(d.ledger, Lines(d), d.book.log);
  }

  lemma RemovalKeepsInv(d: Disk, e: Event, d': Disk, origin: Digest)
    requires Inv(d, origin) && Next(d, e, d') && Removes(e)
    ensures Inv(d', origin)
  {
    LedgerWasWritten(d);
    if e.Compact? {
      ThreadsTransitive(e.kept, d.ledger, d.book.log);
    }
    assert Lines(d') == d'.ledger && d'.book == d.book && d.book.log + [] == d.book.log;
    LinesKeepInv(d, [], d', origin);
  }

  lemma JournalKeepsInv(d: Disk, p: Pending, action: Action, actor: string, d': Disk, origin: Digest)
    requires Inv(d, origin) && Next(d, WriteJournal(p, action, actor), d')
    ensures Inv(d', origin)
  {
    var config := d.store.parsed.value;
    GovernKeepsValid(config, action, actor);
    EffectiveChanges(config, action);
    assert Lines(d') == Lines(d) && d.book.log[..|d.book.log|] == d.book.log;
  }

  lemma NotNamed(lines: seq<Line>, p: Pending)
    requires Naming(lines, p.tx) == []
    ensures AuditOf(p) !in lines
  {
    assert AuditOf(p) in Naming(lines, p.tx) <==> AuditOf(p) in lines;
  }

  /** The line of a transaction comes behind those that took effect before it. */
  lemma CommitThreads(ran: seq<Line>, log: seq<Line>, since: nat, p: Pending)
    requires since <= |log| && Threads(ran, log[..since]) && Naming(log[..since], p.tx) == [] && AuditOf(p) in log
    ensures Threads(ran + [AuditOf(p)], log)
  {
    assert log == log[..since] + log[since..];
    NotNamed(log[..since], p);
    ThreadsOn(ran, log, since, AuditOf(p));
  }

  lemma CommitChains(ran: seq<Line>, origin: Digest, p: Pending)
    requires Chain(ran, origin, p.before)
    ensures Chain(ran + [AuditOf(p)], origin, p.after)
  {
    assert (ran + [AuditOf(p)])[..|ran|] == ran;
  }

  lemma CommitKeepsInv(d: Disk, d': Disk, origin: Digest)
    requires Inv(d, origin) && Next(d, Commit, d')
    ensures Inv(d', origin)
  {
    var p, log := d.journal.value.pending, d.book.log;
    assert InFlight(d, p) && Sha256(d.store) == p.before && d.store != p.bytes;
    assert Lines(d') == Lines(d);
    ThreadsMember(Lines(d), log, AuditOf(p));
    CommitThreads(d.book.ran, log, d.book.since, p);
    CommitChains(d.book.ran, origin, p);
    assert InFlight(d', p);
  }

  lemma ThreadsLater(ran: seq<Line>, log: seq<Line>, since: nat)
    requires since <= |log| && Threads(ran, log[..since])
    ensures Threads(ran, log)
  {
    ThreadsThrough(ran, log[..since], log[since..]);
    assert log[..since] + log[since..] == log;
  }

  lemma ClearKeepsInv(d: Disk, d': Disk, origin: Digest)
    requires Inv(d, origin) && Next(d, Clear, d')
    ensures Inv(d', origin)
  {
    var p, log, since := d.journal.value.pending, d.book.log, d.book.since;
    assert InFlight(d, p) && Lines(d') == Lines(d);
    if d.store != p.bytes {
      ThreadsLater(d.book.ran, log, since);
    }
    assert Threads(d.book.ran, log);
  }

  lemma StepKeepsInv(d: Disk, e: Event, d': Disk, origin: Digest)
    requires Inv(d, origin) && Next(d, e, d')
    ensures Inv(d', origin)
  {
    if e.WriteJournal? {
      JournalKeepsInv(d, e.pending, e.action, e.actor, d', origin);
    } else if e.Commit? {
      CommitKeepsInv(d, d', origin);
    } else if e.Clear? {
      ClearKeepsInv(d, d', origin);
    } else if Removes(e) {
      RemovalKeepsInv(d, e, d', origin);
    } else {
      AppendKeepsInv(d, e, d', origin);
    }
  }

  /** An action that takes effect leaves other metadata behind. */
  lemma EffectiveChanges(config: StoreConfig, action: Action)
    requires Effective(config, action) && Refusal(config, action).None?
    ensures Change(config, action) != config
  {
    match action
    case Transfer(_) =>
    case AddGrant(_, _, _, _) => assert |Change(config, action).writeGrants| == |config.writeGrants| + 1;
    case Revoke(subject) =>
      var g :| g in config.writeGrants && subject in g.actors;
      assert g !in StripActor(config.writeGrants, subject);
    case Deny(subject) =>
      assert subject in multiset(Change(config, action).readOnly);
    case Allow(subject) =>
      assert subject !in Change(config, action).readOnly;
  }

  lemma GovernKeepsValid(config: StoreConfig, action: Action, actor: string)
    requires ValidConfig(config) && Govern(config, action, actor).Ok?
    ensures ValidConfig(Govern(config, action, actor).value)
  {
  }

  /** A run from a settled store. */
  ghost predicate Run(history: seq<Disk>, events: seq<Event>, origin: Digest) {
    && |history| == |events| + 1
    && Usable(history[0].store) && history[0].journal.None? && Clean(history[0])
    && history[0].book.log == history[0].ledger && history[0].book.ran == []
    && origin == Sha256(history[0].store)
    && forall i :: 0 <= i < |events| ==> StepAt(history, events, i)
  }

  ghost predicate StepAt(history: seq<Disk>, events: seq<Event>, i: nat)
    requires i < |events| && |history| == |events| + 1
  {
    Next(history[i], events[i], history[i + 1])
  }

  lemma SettledKeepsInv(d: Disk, origin: Digest)
    requires Usable(d.store) && d.journal.None? && Clean(d)
    requires d.book.log == d.ledger && d.book.ran == [] && origin == Sha256(d.store)
    ensures Inv(d, origin) && Lines(d) == d.book.log
  {
    assert Lines(d) == d.ledger;
    ThreadsSelf(d.ledger);
  }

  /** At every moment of every run, crashes and torn appends included and whatever
      other writers and compactions do to the ledger, the metadata loads, at most one
      transaction is in flight and it is either without effect or was announced, and the
      transactions that took effect lead from the first metadata to the live one, each
      attested by a line written to the ledger, the lines in the same order. */
  lemma {:induction false} RunKeepsInv(history: seq<Disk>, events: seq<Event>, origin: Digest, i: nat)
    requires Run(history, events, origin) && i < |history|
    ensures Inv(history[i], origin)
  {
    if i == 0 {
      SettledKeepsInv(history[0], origin);
    } else {
      RunKeepsInv(history, events, origin, i - 1);
      assert StepAt(history, events, i - 1);
      StepKeepsInv(history[i - 1], events[i - 1], history[i], origin);
    }
  }

  /** Until something takes lines away, the ledger shows all that was written. */
  lemma {:induction false} NothingIsLostUnremoved(history: seq<Disk>, events: seq<Event>, origin: Digest, i: nat)
    requires Run(history, events, origin) && i < |history|
    requires forall k :: 0 <= k < i ==> !Removes(events[k])
    ensures Lines(history[i]) == history[i].book.log
  {
    if i == 0 {
      SettledKeepsInv(history[0], origin);
    } else {
      NothingIsLostUnremoved(history, events, origin, i - 1);
      assert StepAt(history, events, i - 1);
      LinesAppend(history[i - 1], events[i - 1], history[i]);
    }
  }

  /** With no transaction pending what was written accounts for the metadata exactly: a
      thread of lines leads from the first bytes to the bytes that are live. As long as
      no line was removed, they stand in the ledger. */
  lemma SettledMeansAudited(history: seq<Disk>, events: seq<Event>, origin: Digest, i: nat)
    requires Run(history, events, origin) && i < |history| && history[i].journal.None?
    ensures Chain(history[i].book.ran, origin, Sha256(history[i].store))
    ensures Threads(history[i].book.ran, history[i].book.log)
    ensures (forall k :: 0 <= k < i ==> !Removes(events[k])) ==> Threads(history[i].book.ran, Lines(history[i]))
  {
    RunKeepsInv(history, events, origin, i);
    if forall k :: 0 <= k < i ==> !Removes(events[k]) {
      NothingIsLostUnremoved(history, events, origin, i);
    }
  }

  ghost predicate Describes(line: Line, from: Bytes, to: Bytes) {
    line.Audit? && line.before == Some(Sha256(from)) && line.after == Some(Sha256(to))
  }

  /** The metadata never moves before the ledger says it will. */
  lemma AuditPrecedesChange(history: seq<Disk>, events: seq<Event>, origin: Digest, i: nat)
    requires Run(history, events, origin) && i < |events| && history[i + 1].store != history[i].store
    ensures exists line :: line in Lines(history[i]) && Describes(line, history[i].store, history[i + 1].store)
  {
    RunKeepsInv(history, events, origin, i);
    assert StepAt(history, events, i);
    var p := history[i].journal.value.pending;
    assert Describes(AuditOf(p), history[i].store, history[i + 1].store);
  }
}
