/** The request audit ledger as it looks from the disk, byte by byte: a pending
    journal, month files that may end inside a line, and a request file for every
    invocation that may still have to be accounted for. */
module AuditDisk {
  import opened Ledger
  import opened AuditEvent

  /** `parsed` is what the line reads back as, if it reads at all. */
  datatype Pending = Pending(
    month: nat,
    offset: nat,
    digest: Digest,
    line: string,
    parsed: Option<Event>,
    reservation: Option<Id>)

  datatype Digest = Sha256(of: string) | Foreign

  /** `published` and `written` are bookkeeping no code reads: the invocations whose
      request was ever published, and the events whose append was ever completed. */
  datatype Disk = Disk(
    files: map<nat, string>,
    pending: Option<Pending>,
    requests: map<Id, Event>,
    outcomes: map<Id, Event>,
    stages: set<Id>,
    leases: set<Id>,
    published: set<Id>,
    written: seq<Event>)

  function FileOf(d: Disk, month: nat): string {
    if month in d.files then d.files[month] else ""
  }

  function PendingFor(d: Disk, e: Event): Pending {
    Pending(e.month, |FileOf(d, e.month)|, Sha256(Line(e)), Line(e), Some(e), Some(e.id))
  }

  /** The lines of a month, whole. */
  ghost function Text(events: seq<Event>, month: nat): string {
    if events == [] then ""
    else
      var last := events[|events| - 1];
      Text(events[..|events| - 1], month) + if last.month == month then Line(last) else ""
  }

  ghost function Times(events: seq<Event>, id: Id): nat {
    if events == [] then 0
    else Times(events[..|events| - 1], id) + if events[|events| - 1].id == id then 1 else 0
  }

  /** The event an abandoned invocation is accounted for with: its checkpointed
      outcome when there is one, its intent otherwise. */
  function SourceOf(d: Disk, id: Id): Event
    requires id in d.requests
  {
    if id in d.outcomes then d.outcomes[id] else d.requests[id]
  }

  /** How much of the pending line is in its file. */
  function Landed(d: Disk, p: Pending): int {
    |FileOf(d, p.month)| - p.offset
  }

  // ---------------------------------------------------------------------
  // Events
  // ---------------------------------------------------------------------

  datatype Change =
    | StageIntent(id: Id)
    | DropStage(id: Id)
    | Publish(event: Event)
    | Checkpoint(event: Event)
    | Finish(event: Event)       // the live invocation journals its own line
    | Reclaim(id: Id)            // recovery journals an abandoned one
    | Write(bytes: nat)          // some more of the pending line reaches the file
    | DropOutcome
    | DropRequest
    | ClearPending
    | Exit(id: Id)               // the process is gone and its lease with it

  ghost predicate WholeLineLanded(d: Disk) {
    d.pending.Some? && Landed(d, d.pending.value) == |d.pending.value.line|
  }

  ghost predicate PendingIs(d: Disk, id: Id) {
    d.pending.Some? && d.pending.value.reservation == Some(id)
  }

  ghost predicate Enabled(d: Disk, c: Change) {
    match c
    case StageIntent(id) => id !in d.published && id !in d.stages
    case DropStage(id) => id in d.stages && id !in d.leases
    case Publish(e) => e.id in d.stages && e.id in d.leases && e.id !in d.published && Captured(e)
    case Checkpoint(e) => e.id in d.requests && e.id in d.leases && Captured(e) && !PendingIs(d, e.id)
    case Finish(e) => d.pending.None? && e.id in d.requests && e.id in d.leases && Captured(e)
    case Reclaim(id) => d.pending.None? && id in d.requests && id !in d.leases
    case Write(n) =>
      d.pending.Some? && 0 <= Landed(d, d.pending.value) && Landed(d, d.pending.value) + n <= |d.pending.value.line|
    case DropOutcome => WholeLineLanded(d) && d.pending.value.reservation.Some?
    case DropRequest =>
      && WholeLineLanded(d) && d.pending.value.reservation.Some?
      && d.pending.value.reservation.value !in d.outcomes
    case ClearPending =>
      && WholeLineLanded(d) && d.pending.value.parsed.Some?
      && (d.pending.value.reservation.Some? ==> d.pending.value.reservation.value !in d.requests)
    case Exit(id) => id in d.leases
  }

  function WriteMore(d: Disk, p: Pending, n: nat): Disk {
    var have := Landed(d, p);
    if 0 <= have && have + n <= |p.line|
    then d.(files := d.files[p.month := FileOf(d, p.month) + p.line[have..have + n]])
    else d
  }

  function Apply(d: Disk, c: Change): Disk {
    match c
    case StageIntent(id) => d.(stages := d.stages + {id}, leases := d.leases + {id})
    case DropStage(id) => d.(stages := d.stages - {id})
    case Publish(e) =>
      d.(stages := d.stages - {e.id}, requests := d.requests[e.id := e], published := d.published + {e.id})
    case Checkpoint(e) => d.(outcomes := d.outcomes[e.id := e])
    case Finish(e) => d.(pending := Some(PendingFor(d, e)))
    case Reclaim(id) =>
      if id in d.requests then d.(pending := Some(PendingFor(d, Interrupted(SourceOf(d, id))))) else d
    case Write(n) => if d.pending.Some? then WriteMore(d, d.pending.value, n) else d
    case DropOutcome =>
      if d.pending.Some? && d.pending.value.reservation.Some?
      then d.(outcomes := d.outcomes - {d.pending.value.reservation.value})
      else d
    case DropRequest =>
      if d.pending.Some? && d.pending.value.reservation.Some?
      then d.(requests := d.requests - {d.pending.value.reservation.value})
      else d
    case ClearPending =>
      if d.pending.Some? && d.pending.value.parsed.Some?
      then d.(pending := None, written := d.written + [d.pending.value.parsed.value])
      else d.(pending := None)
    case Exit(id) => d.(leases := d.leases - {id})
  }

  ghost predicate Next(d: Disk, c: Change, d': Disk) {
    Enabled(d, c) && d' == Apply(d, c)
  }

  // ---------------------------------------------------------------------
  // The invariant
  // ---------------------------------------------------------------------

  /** Every month file is whole lines, except that the one the journal names may end
      inside the journal's line. */
  ghost predicate FilesWhole(d: Disk) {
    forall month :: WholeAt(d, month)
  }

  ghost predicate WholeAt(d: Disk, month: nat) {
    FileOf(d, month) == Text(d.written, month) + PendingPart(d, month)
  }

  ghost function PendingPart(d: Disk, month: nat): string {
    if d.pending.Some? && d.pending.value.month == month
       && 0 <= Landed(d, d.pending.value) <= |d.pending.value.line|
    then d.pending.value.line[..Landed(d, d.pending.value)]
    else ""
  }

  ghost predicate PendingSound(d: Disk) {
    d.pending.Some? ==>
      var p := d.pending.value;
      && p.parsed.Some? && Captured(p.parsed.value)
      && p.line == Line(p.parsed.value) && p.digest == Sha256(p.line) && p.month == p.parsed.value.month
      && p.reservation == Some(p.parsed.value.id) && p.parsed.value.id in d.published
      && p.offset == |Text(d.written, p.month)|
      && 0 <= Landed(d, p) <= |p.line|
      && (p.parsed.value.id !in d.requests ==> Landed(d, p) == |p.line|)
  }

  /** Each published invocation is accounted for exactly once: still to be, on its
      way, or in the ledger. */
  ghost predicate AccountedOnce(d: Disk, id: Id) {
    Times(d.written, id) == if id in d.published && id !in d.requests && !PendingIs(d, id) then 1 else 0
  }

  ghost predicate RequestsSound(d: Disk) {
    && (forall id :: id in d.requests ==> id in d.published && d.requests[id].id == id && Captured(d.requests[id]))
    && (forall id :: id in d.outcomes ==> id in d.requests && d.outcomes[id].id == id && Captured(d.outcomes[id]))
    && d.stages !! d.published
  }

  ghost predicate Inv(d: Disk) {
    && FilesWhole(d) && PendingSound(d) && RequestsSound(d)
    && forall id :: AccountedOnce(d, id)
  }
}
