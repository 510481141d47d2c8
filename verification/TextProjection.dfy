/** The text index and its cursor: a watermark that counts records of the
    month-ordered ledger, passes that move it, and writers that do not wait. */
module TextProjection {
  import opened Ledger
  import opened Shards
  import Sorting

  /** Stands for the length of a record's line. */
  function LineBytes(r: Record): nat {
    |r.payload| + 1
  }

  ghost function Bytes(rs: seq<Record>): nat {
    if rs == [] then 0 else Bytes(rs[..|rs| - 1]) + LineBytes(rs[|rs| - 1])
  }

  datatype Mark = Mark(bytes: nat, count: nat)

  /** `born` and `since` are bookkeeping no code reads: the compaction whose ledger the
      pass captured, and the rebuild it last looked at the mark after - or the one to
      come, when the mark could not be trusted then. */
  datatype Pass =
    | Captured(records: seq<Record>, born: nat)
    | Indexing(records: seq<Record>, born: nat, since: nat, next: nat, complete: bool)

  /** More bookkeeping: how many ledgers were swapped in and how many rebuilds there
      were, and whether the mark still speaks for the ledger that is there. */
  datatype Book = Book(swaps: nat, rebuilds: nat, sure: bool)

  /** Passes are named by the process that runs them; several may be in flight. */
  datatype State = State(files: Directory, indexed: set<Id>, mark: Option<Mark>, passes: map<nat, Pass>, book: Book)

  datatype Event =
    | Append(record: Record)
    | Capture(pass: nat)
    | Level(pass: nat)
    | Look(pass: nat)
    | Index(pass: nat)
    | Fail(pass: nat)
    | Finish(pass: nat)
    | Abandon(pass: nat)
    | LoseMark
    | Batch
    | Rebuild
    | Swap(files: Directory)     // a compaction publishes its ledger, its rebuild still to come

  ghost function MarkOf(rs: seq<Record>): Mark {
    Mark(Bytes(rs), |rs|)
  }

  function Covered(mark: Option<Mark>): nat {
    if mark.Some? then mark.value.count else 0
  }

  function MarkedBytes(mark: Option<Mark>): nat {
    if mark.Some? then mark.value.bytes else 0
  }

  function Least(a: nat, b: nat): nat {
    if a < b then a else b
  }

  ghost predicate Enabled(s: State, e: Event) {
    match e
    case Append(r) => r.id !in Ids(Contents(s.files)) && LastMonth(s.files, r.month)
    case Capture(k) => k !in s.passes
    case Level(k) =>
      k in s.passes && s.passes[k].Captured? && MarkedBytes(s.mark) == Bytes(s.passes[k].records)
    case Look(k) =>
      k in s.passes && s.passes[k].Captured? && MarkedBytes(s.mark) != Bytes(s.passes[k].records)
    case Index(k) => k in s.passes && s.passes[k].Indexing? && s.passes[k].next < |s.passes[k].records|
    case Fail(k) => k in s.passes && s.passes[k].Indexing? && s.passes[k].next < |s.passes[k].records|
    case Finish(k) => k in s.passes && s.passes[k].Indexing? && s.passes[k].next == |s.passes[k].records|
    case Abandon(k) => k in s.passes
    case LoseMark => true
    case Batch => true
    case Rebuild => true
    case Swap(_) => true
  }

  /** The pass captured the ledger that is there, and what it started from was so. */
  predicate Trusted(s: State, p: Pass) {
    p.born == s.book.swaps && (p.Indexing? ==> p.since <= s.book.rebuilds)
  }

  /** A level pass costs a stat; otherwise it starts where the mark says, and moves
      the mark only when no record failed. */
  ghost function Apply(s: State, e: Event): State
    requires Enabled(s, e)
  {
    match e
    case Append(r) => s.(files := AppendTo(s.files, r))
    case Capture(k) => s.(passes := s.passes[k := Captured(Contents(s.files), s.book.swaps)])
    case Level(k) => s.(passes := s.passes - {k})
    case Look(k) => s.(passes := s.passes[k := Looked(s, s.passes[k])])
    case Index(k) =>
      var p := s.passes[k];
      s.(indexed := s.indexed + {p.records[p.next].id}, passes := s.passes[k := p.(next := p.next + 1)])
    case Fail(k) =>
      var p := s.passes[k];
      s.(passes := s.passes[k := p.(next := p.next + 1, complete := false)])
    case Finish(k) =>
      var p := s.passes[k];
      if p.complete
      then s.(mark := Some(MarkOf(p.records)), passes := s.passes - {k},
              book := s.book.(sure := s.book.sure && Trusted(s, p)))
      else s.(passes := s.passes - {k})
    case Abandon(k) => s.(passes := s.passes - {k})
    case LoseMark => s.(mark := None)
    case Batch =>
      var records := Contents(s.files);
      s.(indexed := s.indexed + Ids(records), mark := Some(MarkOf(records)), book := Rebuilt(s.book))
    case Rebuild =>
      var records := Contents(s.files);
      s.(indexed := Ids(records), mark := Some(MarkOf(records)), book := Rebuilt(s.book))
    case Swap(files) => s.(files := files, book := s.book.(swaps := s.book.swaps + 1, sure := false))
  }

  function Looked(s: State, p: Pass): Pass {
    Indexing(p.records, p.born, if s.book.sure then s.book.rebuilds else s.book.rebuilds + 1,
             Least(Covered(s.mark), |p.records|), true)
  }

  function Rebuilt(book: Book): Book {
    book.(rebuilds := book.rebuilds + 1, sure := true)
  }

  // ---------------------------------------------------------------------
  // The cursor is honest
  // ---------------------------------------------------------------------

  ghost predicate AllIndexed(rs: seq<Record>, indexed: set<Id>) {
    forall i :: 0 <= i < |rs| ==> rs[i].id in indexed
  }

  ghost predicate Prefix(a: seq<Record>, b: seq<Record>) {
    |a| <= |b| && a == b[..|a|]
  }

  /** The mark speaks for a prefix of the ledger: that many bytes, all of it indexed. */
  ghost predicate Honest(mark: Option<Mark>, ledger: seq<Record>, indexed: set<Id>) {
    mark.Some? ==>
      && mark.value.count <= |ledger|
      && mark.value == MarkOf(ledger[..mark.value.count])
      && AllIndexed(ledger[..mark.value.count], indexed)
  }

  ghost predicate Following(p: Pass, ledger: seq<Record>, indexed: set<Id>) {
    && Prefix(p.records, ledger)
    && (p.Indexing? ==> p.complete ==> p.next <= |p.records| && AllIndexed(p.records[..p.next], indexed))
  }

  /** A pass knows its own place, and if it captured this ledger, a prefix of it; one
      that can be trusted has indexed what it says. */
  ghost predicate OnCourse(s: State, p: Pass) {
    && p.born <= s.book.swaps && (p.Indexing? ==> p.next <= |p.records| && p.since <= s.book.rebuilds + 1)
    && (p.born == s.book.swaps ==> Prefix(p.records, Contents(s.files)))
    && (Trusted(s, p) ==> Following(p, Contents(s.files), s.indexed))
  }

  ghost predicate Inv(s: State) {
    && (s.book.sure ==> Honest(s.mark, Contents(s.files), s.indexed))
    && forall k :: k in s.passes ==> OnCourse(s, s.passes[k])
  }

  lemma HonestStays(mark: Option<Mark>, ledger: seq<Record>, more: seq<Record>, indexed: set<Id>, wider: set<Id>)
    requires Honest(mark, ledger, indexed) && indexed <= wider
    ensures Honest(mark, ledger + more, wider)
  {
    if mark.Some? {
      assert (ledger + more)[..mark.value.count] == ledger[..mark.value.count];
    }
  }

  lemma FollowingStays(p: Pass, ledger: seq<Record>, more: seq<Record>, indexed: set<Id>, wider: set<Id>)
    requires Following(p, ledger, indexed) && indexed <= wider
    ensures Following(p, ledger + more, wider)
  {
    assert (ledger + more)[..|p.records|] == ledger[..|p.records|];
  }

  lemma GrowingKeepsInv(s: State, t: State, more: seq<Record>)
    requires Inv(s) && t.mark == s.mark && t.passes == s.passes && s.indexed <= t.indexed && t.book == s.book
    requires Contents(t.files) == Contents(s.files) + more
    ensures Inv(t)
  {
    var ledger := Contents(s.files);
    if s.book.sure {
      HonestStays(s.mark, ledger, more, s.indexed, t.indexed);
    }
    forall k | k in t.passes ensures OnCourse(t, t.passes[k]) {
      var p := s.passes[k];
      assert OnCourse(s, p);
      if p.born == s.book.swaps {
        assert (ledger + more)[..|p.records|] == ledger[..|p.records|];
      }
      if Trusted(s, p) {
        FollowingStays(p, ledger, more, s.indexed, t.indexed);
      }
    }
  }

  lemma LedgerIsIndexed(ledger: seq<Record>, indexed: set<Id>)
    requires Ids(ledger) <= indexed
    ensures AllIndexed(ledger, indexed)
  {
    forall i | 0 <= i < |ledger| ensures ledger[i].id in indexed {
      assert ledger[i] in ledger;
    }
  }

  /** Once every record of the ledger is in the index - after a batch or a rebuild -
      the mark is to be trusted again, and so is every pass over this ledger. */
  lemma RebuiltKeepsInv(s: State, indexed: set<Id>)
    requires Inv(s) && Ids(Contents(s.files)) <= indexed
    ensures Inv(s.(indexed := indexed, mark := Some(MarkOf(Contents(s.files))), book := Rebuilt(s.book)))
  {
    var ledger := Contents(s.files);
    var t := s.(indexed := indexed, mark := Some(MarkOf(ledger)), book := Rebuilt(s.book));
    LedgerIsIndexed(ledger, indexed);
    assert ledger[..|ledger|] == ledger;
    forall k | k in t.passes ensures OnCourse(t, t.passes[k]) {
      var p := t.passes[k];
      assert OnCourse(s, p);
      if Trusted(t, p) && p.Indexing? {
        forall i | 0 <= i < p.next ensures p.records[..p.next][i].id in indexed {
          assert p.records[..p.next][i] == ledger[i];
        }
      }
    }
  }

  lemma OthersStayOnCourse(s: State, t: State, k: nat)
    requires Inv(s) && t.files == s.files && s.indexed <= t.indexed
    requires t.book.swaps == s.book.swaps && t.book.rebuilds == s.book.rebuilds
    requires forall j :: j in t.passes && j != k ==> j in s.passes && t.passes[j] == s.passes[j]
    ensures forall j :: j in t.passes && j != k ==> OnCourse(t, t.passes[j])
  {
    forall j | j in t.passes && j != k ensures OnCourse(t, t.passes[j]) {
      assert OnCourse(s, s.passes[j]);
    }
  }

  lemma LookKeepsInv(s: State, k: nat)
    requires Inv(s) && Enabled(s, Look(k))
    ensures Inv(Apply(s, Look(k)))
  {
    var t := Apply(s, Look(k));
    var p, q, ledger := s.passes[k], t.passes[k], Contents(s.files);
    OthersStayOnCourse(s, t, k);
    assert OnCourse(s, p);
    if Trusted(t, q) && s.mark.Some? {
      assert q.records[..q.next] == ledger[..q.next];
      forall i | 0 <= i < q.next ensures q.records[..q.next][i].id in s.indexed {
        assert ledger[..s.mark.value.count][i] == ledger[i];
      }
    }
  }

  lemma IndexKeepsInv(s: State, k: nat)
    requires Inv(s) && Enabled(s, Index(k))
    ensures Inv(Apply(s, Index(k)))
  {
    var t := Apply(s, Index(k));
    var p := s.passes[k];
    OthersStayOnCourse(s, t, k);
    assert OnCourse(s, p);
    assert p.records[..p.next + 1] == p.records[..p.next] + [p.records[p.next]];
  }

  lemma FinishKeepsInv(s: State, k: nat)
    requires Inv(s) && Enabled(s, Finish(k))
    ensures Inv(Apply(s, Finish(k)))
  {
    var t := Apply(s, Finish(k));
    var p, ledger := s.passes[k], Contents(s.files);
    OthersStayOnCourse(s, t, k);
    assert OnCourse(s, p);
    if p.complete && t.book.sure {
      assert p.records[..p.next] == p.records == ledger[..|p.records|];
    }
  }

  lemma StepKeepsInv(s: State, e: Event)
    requires Inv(s) && Enabled(s, e)
    ensures Inv(Apply(s, e))
  {
    var ledger := Contents(s.files);
    match e
    case Append(r) =>
      AppendLast(s.files, r);
      GrowingKeepsInv(s, Apply(s, e), [r]);
    case Capture(k) =>
      OthersStayOnCourse(s, Apply(s, e), k);
      assert ledger[..|ledger|] == ledger;
    case Level(k) => OthersStayOnCourse(s, Apply(s, e), k);
    case Look(k) => LookKeepsInv(s, k);
    case Index(k) => IndexKeepsInv(s, k);
    case Fail(k) =>
      OthersStayOnCourse(s, Apply(s, e), k);
      assert OnCourse(s, s.passes[k]);
    case Finish(k) => FinishKeepsInv(s, k);
    case Abandon(k) => OthersStayOnCourse(s, Apply(s, e), k);
    case LoseMark =>
      forall k | k in s.passes ensures OnCourse(Apply(s, e), s.passes[k]) { assert OnCourse(s, s.passes[k]); }
    case Batch => RebuiltKeepsInv(s, s.indexed + Ids(ledger));
    case Rebuild => RebuiltKeepsInv(s, Ids(ledger));
    case Swap(_) =>
      forall k | k in s.passes ensures OnCourse(Apply(s, e), s.passes[k]) { assert OnCourse(s, s.passes[k]); }
  }

  // ---------------------------------------------------------------------
  // Over every run
  // ---------------------------------------------------------------------

  const NEW := State(map[], {}, None, map[], Book(0, 0, true))

  ghost predicate StepAt(history: seq<State>, events: seq<Event>, i: nat) {
    && i < |events| && i + 1 < |history|
    && Enabled(history[i], events[i]) && history[i + 1] == Apply(history[i], events[i])
  }

  ghost predicate Run(history: seq<State>, events: seq<Event>) {
    && |history| == |events| + 1 && history[0] == NEW
    && forall i :: 0 <= i < |events| ==> StepAt(history, events, i)
  }

  lemma {:induction false} RunKeepsInv(history: seq<State>, events: seq<Event>, k: nat)
    requires Run(history, events) && k < |history|
    ensures Inv(history[k])
  {
    if k > 0 {
      RunKeepsInv(history, events, k - 1);
      assert StepAt(history, events, k - 1);
      StepKeepsInv(history[k - 1], events[k - 1]);
    }
  }

  lemma {:induction false} MoreRecordsMoreBytes(rs: seq<Record>, n: nat)
    requires n <= |rs|
    ensures Bytes(rs[..n]) <= Bytes(rs)
    ensures n < |rs| ==> Bytes(rs[..n]) < Bytes(rs)
  {
    if n < |rs| {
      assert rs[..|rs| - 1][..n] == rs[..n];
      MoreRecordsMoreBytes(rs[..|rs| - 1], n);
    } else {
      assert rs[..n] == rs;
    }
  }

  ghost predicate NoSwap(events: seq<Event>, j: nat, k: nat) {
    forall i :: j <= i < k && i < |events| ==> !events[i].Swap?
  }

  /** A rebuild, or a batch, that every pass then in flight began after the last swap. */
  ghost predicate RebuiltAt(history: seq<State>, events: seq<Event>, j: nat)
    requires j < |events| && j < |history|
  {
    && (events[j].Rebuild? || events[j].Batch?)
    && forall p :: p in history[j].passes ==> history[j].passes[p].born == history[j].book.swaps
  }

  /** No swap is still awaiting its rebuild: either there was none, or one came since
      and no pass of the ledger before outlived it - which is what compaction takes the
      lease of the drain for. */
  ghost predicate Settled(history: seq<State>, events: seq<Event>, k: nat)
    requires k < |history| <= |events| + 1
  {
    NoSwap(events, 0, k) || exists j :: 0 <= j < k && RebuiltAt(history, events, j) && NoSwap(events, j, k)
  }

  /** The mark speaks for the ledger, and every pass in flight captured it and began
      from a mark that did. */
  ghost predicate Calm(s: State) {
    s.book.sure && forall p :: p in s.passes ==> Trusted(s, s.passes[p])
  }

  lemma CalmStays(s: State, e: Event)
    requires Calm(s) && Enabled(s, e) && !e.Swap?
    ensures Calm(Apply(s, e))
  {
  }

  lemma {:induction false} CalmWithoutSwaps(history: seq<State>, events: seq<Event>, j: nat, k: nat)
    requires Run(history, events) && j <= k < |history| && Calm(history[j]) && NoSwap(events, j, k)
    ensures Calm(history[k])
    decreases k - j
  {
    if j < k {
      CalmWithoutSwaps(history, events, j, k - 1);
      assert StepAt(history, events, k - 1);
      CalmStays(history[k - 1], events[k - 1]);
    }
  }

  lemma CalmOnceRebuilt(history: seq<State>, events: seq<Event>, j: nat)
    requires Run(history, events) && j < |events| && RebuiltAt(history, events, j)
    ensures Calm(history[j + 1])
  {
    RunKeepsInv(history, events, j);
    assert StepAt(history, events, j);
    forall p | p in history[j].passes ensures Trusted(history[j + 1], history[j].passes[p]) {
      assert OnCourse(history[j], history[j].passes[p]);
    }
  }

  lemma SettledIsCalm(history: seq<State>, events: seq<Event>, k: nat)
    requires Run(history, events) && k < |history| && Settled(history, events, k)
    ensures Calm(history[k])
  {
    if NoSwap(events, 0, k) {
      CalmWithoutSwaps(history, events, 0, k);
    } else {
      var j :| 0 <= j < k && RebuiltAt(history, events, j) && NoSwap(events, j, k);
      CalmOnceRebuilt(history, events, j);
      CalmWithoutSwaps(history, events, j + 1, k);
    }
  }

  /** With no swap awaiting its rebuild, a watermark level with the ledger's bytes means
      every record is searchable - the only test the next wake makes before it goes back
      to sleep. */
  lemma LevelMeansSearchable(history: seq<State>, events: seq<Event>, k: nat)
    requires Run(history, events) && k < |history| && Settled(history, events, k)
    requires MarkedBytes(history[k].mark) == Bytes(Contents(history[k].files))
    ensures AllIndexed(Contents(history[k].files), history[k].indexed)
    ensures Covered(history[k].mark) == |Contents(history[k].files)|
  {
    RunKeepsInv(history, events, k);
    SettledIsCalm(history, events, k);
    LevelIsAll(history[k]);
  }

  lemma LevelIsAll(s: State)
    requires Honest(s.mark, Contents(s.files), s.indexed) && MarkedBytes(s.mark) == Bytes(Contents(s.files))
    ensures AllIndexed(Contents(s.files), s.indexed) && Covered(s.mark) == |Contents(s.files)|
  {
    var ledger := Contents(s.files);
    MoreRecordsMoreBytes(ledger, Covered(s.mark));
    assert ledger[..0] == [];
    assert ledger[..|ledger|] == ledger;
    if s.mark.None? {
      MoreRecordsMoreBytes(ledger, 0);
    }
  }

  /** A record no pass managed to index is still ahead of the cursor, so a pass that
      captures now neither takes the ledger for level nor starts beyond it. */
  lemma FailedIsRetried(history: seq<State>, events: seq<Event>, k: nat, i: nat)
    requires Run(history, events) && k < |history| && Settled(history, events, k)
    requires i < |Contents(history[k].files)|
    requires Contents(history[k].files)[i].id !in history[k].indexed
    ensures Covered(history[k].mark) <= i
    ensures MarkedBytes(history[k].mark) != Bytes(Contents(history[k].files))
  {
    RunKeepsInv(history, events, k);
    SettledIsCalm(history, events, k);
    var s := history[k];
    var ledger := Contents(s.files);
    MoreRecordsMoreBytes(ledger, Covered(s.mark));
    assert ledger[..0] == [];
  }

  // ---------------------------------------------------------------------
  // Where it stops being true
  // ---------------------------------------------------------------------

  /** The mark stands at the end of a ledger that is all indexed. */
  ghost predicate AtTheEnd(s: State) {
    s.indexed == Ids(Contents(s.files)) && s.mark == Some(MarkOf(Contents(s.files)))
  }

  /** From there, one more record keeps the cursor honest exactly when its month is not
      before a month already written. With an earlier month the record lands before the
      cursor, and no pass will come back for it. */
  lemma HonestIffMonthsAdvance(s: State, r: Record)
    requires AtTheEnd(s) && r.id !in Ids(Contents(s.files))
    ensures var after := s.(files := AppendTo(s.files, r));
      Honest(after.mark, Contents(after.files), after.indexed) <==> LastMonth(s.files, r.month)
  {
    var after := s.(files := AppendTo(s.files, r));
    var front, back := AppendSplits(s.files, r);
    var ledger, more := Contents(s.files), Contents(after.files);
    assert ledger[..|ledger|] == ledger;
    LedgerIsIndexed(ledger, s.indexed);
    if LastMonth(s.files, r.month) {
      AppendLast(s.files, r);
      HonestStays(s.mark, ledger, [r], s.indexed, s.indexed);
    } else {
      assert more[|front|] == r;
      assert |front| < |ledger|;
      assert more[..|ledger|][|front|] == r;
      assert !AllIndexed(more[..|ledger|], s.indexed);
    }
  }

  /** Concretely: a record stamped on the last of the month and written on the first of
      the next, after another - a clock set back, or a writer that waited for the lock. */
  lemma StampedBeforeItsTurn() returns (s: State, late: Record)
    ensures AtTheEnd(s) && !LastMonth(s.files, late.month)
    ensures !Honest(s.mark, Contents(AppendTo(s.files, late)), s.indexed)
  {
    var r := Record(1, "note", 2, "", [], None);
    late := Record(2, "note", 1, "", [], None);
    var files: Directory := map[2 := [r]];
    ContentsIs(files, 3);
    assert Before(files, 0) == [];
    assert Before(files, 1) == [];
    assert Before(files, 2) == [];
    assert Before(files, 3) == Before(files, 2) + files[2];
    assert Contents(files) == [r];
    s := State(files, {1}, Some(MarkOf([r])), map[], Book(0, 0, true));
    HonestIffMonthsAdvance(s, late);
  }

  lemma RunExtends(history: seq<State>, events: seq<Event>, e: Event)
    requires Run(history, events) && Enabled(history[|history| - 1], e)
    ensures Run(history + [Apply(history[|history| - 1], e)], events + [e])
  {
    var h, es := history + [Apply(history[|history| - 1], e)], events + [e];
    forall i | 0 <= i < |es| ensures StepAt(h, es, i) {
      if i < |events| {
        assert StepAt(history, events, i);
      }
    }
  }

  /** Between a swap and its rebuild the mark is worth nothing. After any run that ends
      with the mark covering the ledger, a compaction that removes records, a writer
      that adds no more than it removed, and one pass: the mark is level, the next wake
      goes back to sleep, and the new record was never indexed. */
  lemma SwapHidesAnAppend(history: seq<State>, events: seq<Event>, files: Directory, r: Record, k: nat)
    returns (longer: seq<State>, more: seq<Event>)
    requires Run(history, events)
    requires var s := history[|history| - 1];
      && Covered(s.mark) > |Contents(files)| && k !in s.passes && r.id !in s.indexed
      && r.id !in Ids(Contents(files)) && LastMonth(files, r.month)
      && MarkedBytes(s.mark) != Bytes(Contents(files) + [r])
    ensures Run(longer, events + more) && |more| == 5 && more[0] == Swap(files) && more[1] == Append(r)
    ensures var t := longer[|longer| - 1];
      && MarkedBytes(t.mark) == Bytes(Contents(t.files))
      && r in Contents(t.files) && r.id !in t.indexed
  {
    var s := history[|history| - 1];
    AppendLast(files, r);
    var s2 := Apply(Apply(s, Swap(files)), Append(r));
    assert Contents(s2.files) == Contents(files) + [r];
    var s4 := Apply(Apply(s2, Capture(k)), Look(k));
    more := [Swap(files), Append(r), Capture(k), Look(k), Finish(k)];
    longer := Play(history, events, [Swap(files), Append(r)]);
    longer := Play(longer, events + [Swap(files), Append(r)], [Capture(k), Look(k)]);
    assert longer[|longer| - 1] == s4 && s4.passes[k].next == |s4.passes[k].records|;
    RunExtends(longer, events + [Swap(files), Append(r)] + [Capture(k), Look(k)], Finish(k));
    longer := longer + [Apply(s4, Finish(k))];
    assert events + [Swap(files), Append(r)] + [Capture(k), Look(k)] + [Finish(k)] == events + more;
  }

  /** Two more steps of a run. */
  lemma Play(history: seq<State>, events: seq<Event>, two: seq<Event>) returns (longer: seq<State>)
    requires Run(history, events) && |two| == 2
    requires Enabled(history[|history| - 1], two[0]) && Enabled(Apply(history[|history| - 1], two[0]), two[1])
    ensures Run(longer, events + two)
    ensures longer[|longer| - 1] == Apply(Apply(history[|history| - 1], two[0]), two[1])
  {
    var now := Apply(history[|history| - 1], two[0]);
    RunExtends(history, events, two[0]);
    RunExtends(history + [now], events + [two[0]], two[1]);
    longer := history + [now] + [Apply(now, two[1])];
    assert events + [two[0]] + [two[1]] == events + two;
  }

  /** And such runs begin with two records and a batch. */
  lemma TwoRecordsAndABatch() returns (history: seq<State>, events: seq<Event>, files: Directory, r: Record)
    ensures Run(history, events)
    ensures var s := history[|history| - 1];
      && Covered(s.mark) > |Contents(files)| && s.passes == map[] && r.id !in s.indexed
      && r.id !in Ids(Contents(files)) && LastMonth(files, r.month)
      && MarkedBytes(s.mark) != Bytes(Contents(files) + [r])
  {
    var a, b := Record(1, "note", 0, "", [], None), Record(2, "note", 0, "", [], None);
    r := Record(3, "note", 0, "long", [], None);
    files := map[0 := [a]];
    OneFile([a]);
    history := TwoAppends(a, b);
    var s := history[|history| - 1];
    OneFile([a, b]);
    RunExtends(history, [Append(a), Append(b)], Batch);
    history, events := history + [Apply(s, Batch)], [Append(a), Append(b)] + [Batch];
    BytesOfTwo(a, b);
    BytesOfTwo(a, r);
    assert [a] + [r] == [a, r];
  }

  lemma TwoAppends(a: Record, b: Record) returns (history: seq<State>)
    requires a.month == 0 && b.month == 0 && a.id != b.id
    ensures Run(history, [Append(a), Append(b)])
    ensures history[|history| - 1] == NEW.(files := map[0 := [a, b]])
  {
    NoFile();
    OneFile([a]);
    assert [] + [a] == [a] && [a] + [b] == [a, b];
    assert Apply(NEW, Append(a)) == NEW.(files := map[0 := [a]]);
    history := Play([NEW], [], [Append(a), Append(b)]);
    assert [] + [Append(a), Append(b)] == [Append(a), Append(b)];
  }

  lemma NoFile()
    ensures Contents(map[]) == []
  {
    ContentsIs(map[], 0);
  }

  lemma OneFile(lines: seq<Record>)
    ensures Contents(map[0 := lines]) == lines
  {
    ContentsIs(map[0 := lines], 1);
    assert Before(map[0 := lines], 0) == [];
  }

  lemma BytesOfTwo(a: Record, b: Record)
    ensures Bytes([a, b]) == LineBytes(a) + LineBytes(b)
  {
    assert [a, b][..1] == [a] && [a][..0] == [];
    assert Bytes([a]) == LineBytes(a);
  }

  /** A pass that captured the ledger before a compaction removed records, and ends
      after the rebuild, claims more than there is: the other half of the condition. */
  lemma PassAcrossCompactionOverclaims(s: State, k: nat, files: Directory)
    requires Enabled(s, Finish(k)) && s.passes[k].complete
    requires |Contents(files)| < |s.passes[k].records|
    ensures var t := Apply(Apply(Apply(s, Swap(files)), Rebuild), Finish(k));
      !Honest(t.mark, Contents(t.files), t.indexed)
  {
    assert Enabled(Apply(Apply(s, Swap(files)), Rebuild), Finish(k));
  }

  // ---------------------------------------------------------------------
  // One pass, from the ledger to the mark
  // ---------------------------------------------------------------------

  /** The ledgers of a store in the order their records were written. */
  method InMonthOrder(files: Directory) returns (months: seq<nat>)
    ensures forall m :: m in months <==> m in files
    ensures forall i, j :: 0 <= i < j < |months| ==> months[i] < months[j]
  {
    var names: seq<nat> := [];
    var left := files.Keys;
    while left != {}
      invariant left <= files.Keys
      invariant forall m :: m in names <==> m in files && m !in left
      invariant forall i, j :: 0 <= i < j < |names| ==> names[i] != names[j]
    {
      var m :| m in left;
      left := left - {m};
      names := names + [m];
    }
    var le := (a: nat, b: nat) => a <= b;
    Sorting.SortSorts(names, le);
    months := Sorting.Sort(names, le);
    Sorting.SameMembers(names, months);
    Sorting.DistinctIsOnce(names);
    forall i, j | 0 <= i < j < |months| ensures months[i] < months[j] {
      assert le(months[i], months[j]);
      Sorting.OnceIsDistinct(months, i, j);
    }
  }

  method ReadCaptured(files: Directory) returns (records: seq<Record>)
    ensures records == Contents(files)
  {
    var months := InMonthOrder(files);
    records := [];
    ghost var bound := 0;
    for i := 0 to |months|
      invariant bound == if i == 0 then 0 else months[i - 1] + 1
      invariant records == Before(files, bound)
    {
      var month := months[i];
      forall m | bound <= m < month ensures m !in files {
        NotBetween(files, months, i, m);
      }
      BeforeStable(files, bound, month);
      assert month in files;
      records := records + files[month];
      bound := month + 1;
    }
    forall m | m in files ensures m < bound {
      var i :| 0 <= i < |months| && months[i] == m;
    }
    ContentsIs(files, bound);
  }

  lemma NotBetween(files: Directory, months: seq<nat>, i: nat, m: nat)
    requires forall m :: m in months <==> m in files
    requires forall i, j :: 0 <= i < j < |months| ==> months[i] < months[j]
    requires i < |months| && m < months[i] && (i > 0 ==> months[i - 1] < m)
    ensures m !in files
  {
    if m in files {
      var j :| 0 <= j < |months| && months[j] == m;
    }
  }

  method LedgerBytes(records: seq<Record>) returns (bytes: nat)
    ensures bytes == Bytes(records)
  {
    bytes := 0;
    for i := 0 to |records|
      invariant bytes == Bytes(records[..i])
    {
      assert records[..i + 1][..i] == records[..i];
      bytes := bytes + LineBytes(records[i]);
    }
    assert records[..|records|] == records;
  }

  /** The ids of the records from `from` on that the provider does not refuse. */
  ghost function Taken(records: seq<Record>, from: nat, to: nat, refused: set<Id>): set<Id>
    requires to <= |records|
  {
    set i | from <= i < to && records[i].id !in refused :: records[i].id
  }

  ghost predicate Refused(records: seq<Record>, from: nat, to: nat, refused: set<Id>)
    requires to <= |records|
  {
    exists i :: from <= i < to && records[i].id in refused
  }

  ghost function Accepted(records: seq<Record>, from: nat, to: nat, refused: set<Id>): nat
    requires from <= to <= |records|
  {
    if to == from then 0
    else Accepted(records, from, to - 1, refused) + if records[to - 1].id in refused then 0 else 1
  }

  lemma {:induction false} AcceptedCounts(records: seq<Record>, from: nat, to: nat, refused: set<Id>)
    requires from <= to <= |records|
    ensures Accepted(records, from, to, refused) == |set i: int | from <= i < to && records[i].id !in refused|
    decreases from, to
  {
    if from < to {
      AcceptedCounts(records, from, to - 1, refused);
      var before := set i: int | from <= i < to - 1 && records[i].id !in refused;
      var now := set i: int | from <= i < to && records[i].id !in refused;
      assert now == before + if records[to - 1].id in refused then {} else {to - 1};
    }
  }

  lemma TakenStep(records: seq<Record>, from: nat, next: nat, refused: set<Id>)
    requires from <= next < |records|
    ensures Taken(records, from, next + 1, refused) ==
      Taken(records, from, next, refused) + if records[next].id in refused then {} else {records[next].id}
    ensures Refused(records, from, next + 1, refused) <==>
      Refused(records, from, next, refused) || records[next].id in refused
  {
    var wider := Taken(records, from, next + 1, refused);
    forall id | id in wider ensures id in Taken(records, from, next, refused) || id == records[next].id {
      var i :| from <= i < next + 1 && records[i].id !in refused && records[i].id == id;
    }
  }

  class Store {
    var state: State
    ghost var history: seq<State>
    ghost var events: seq<Event>

    ghost predicate Valid()
      reads this
    {
      |history| > 0 && Run(history, events) && history[|history| - 1] == state
    }

    constructor ()
      ensures Valid() && state == NEW
    {
      state := NEW;
      history, events := [NEW], [];
    }

    /** One atomic effect; another process may act between any two. */
    ghost method Note(e: Event, now: State)
      requires Valid() && Enabled(state, e) && now == Apply(state, e)
      modifies this`history, this`events
      ensures |history| == |old(history)| + 1 && Run(history, events) && history[|history| - 1] == now
      ensures Inv(now)
    {
      var before, was := history, events;
      history, events := history + [now], events + [e];
      forall i | 0 <= i < |events| ensures StepAt(history, events, i) {
        if i < |was| {
          assert StepAt(before, was, i);
        }
      }
      RunKeepsInv(history, events, |history| - 1);
    }

    /** One pass with nothing else running. `refused` are the records the provider
        will not take this time. */
    method CatchUp(pass: nat, refused: set<Id>) returns (indexed: nat)
      requires Valid() && pass !in state.passes
      modifies this
      ensures Valid() && state.files == old(state.files) && state.passes == old(state.passes)
      ensures
        var records := Contents(state.files);
        var from := Least(Covered(old(state.mark)), |records|);
        if MarkedBytes(old(state.mark)) == Bytes(records) then state == old(state) && indexed == 0
        else
          && state.indexed == old(state.indexed) + Taken(records, from, |records|, refused)
          && state.mark ==
             (if Refused(records, from, |records|, refused) then old(state.mark) else Some(MarkOf(records)))
          && indexed == |set i: int | from <= i < |records| && records[i].id !in refused|
      ensures state.book == old(state.book)
      ensures refused == {} && state.book.sure ==> AllIndexed(Contents(state.files), state.indexed)
    {
      ghost var was := state;
      var records := ReadCaptured(state.files);
      var reached := LedgerBytes(records);
      var mark := state.mark;
      RunKeepsInv(history, events, |history| - 1);
      Set(Capture(pass), state.(passes := state.passes[pass := Captured(records, state.book.swaps)]));
      if MarkedBytes(mark) == reached {
        Set(Level(pass), state.(passes := state.passes - {pass}));
        assert state.passes == was.passes;
        indexed := 0;
      } else {
        indexed := CoverFresh(pass, records, reached, refused);
        AcceptedCounts(records, Least(Covered(was.mark), |records|), |records|, refused);
        assert state.passes == was.passes;
      }
      if refused == {} && state.book.sure {
        LevelHere();
      }
    }

    lemma LevelHere()
      requires Valid() && state.book.sure && MarkedBytes(state.mark) == Bytes(Contents(state.files))
      ensures AllIndexed(Contents(state.files), state.indexed)
    {
      RunKeepsInv(history, events, |history| - 1);
      LevelIsAll(state);
    }

    /** The pass proper: from the cursor to the end of what was captured. */
    method CoverFresh(pass: nat, records: seq<Record>, reached: nat, refused: set<Id>) returns (indexed: nat)
      requires Valid() && pass in state.passes && state.passes[pass] == Captured(records, state.book.swaps)
      requires reached == Bytes(records) && MarkedBytes(state.mark) != reached
      modifies this
      ensures Valid() && state.files == old(state.files) && state.book == old(state.book)
      ensures state.passes == old(state.passes) - {pass}
      ensures
        var from := Least(Covered(old(state.mark)), |records|);
        && state.indexed == old(state.indexed) + Taken(records, from, |records|, refused)
        && state.mark == (if Refused(records, from, |records|, refused) then old(state.mark) else Some(MarkOf(records)))
        && indexed == Accepted(records, from, |records|, refused)
    {
      var mark := state.mark;
      var start := Looked(state, Captured(records, state.book.swaps));
      Set(Look(pass), state.(passes := state.passes[pass := start]));
      var complete;
      indexed, complete := IndexFresh(pass, start, refused);
      var now := state.(mark := if complete then Some(Mark(reached, |records|)) else mark,
                        passes := state.passes - {pass});
      Set(Finish(pass), now);
      assert state.passes == old(state.passes) - {pass};
    }

    method IndexFresh(pass: nat, start: Pass, refused: set<Id>) returns (indexed: nat, complete: bool)
      requires Valid() && start.Indexing? && start.next <= |start.records| && start.complete
      requires pass in state.passes && state.passes[pass] == start
      modifies this
      ensures Valid()
      ensures var records := start.records;
        && state == old(state).(indexed := old(state.indexed) + Taken(records, start.next, |records|, refused),
                                passes := old(state.passes)[pass := start.(next := |records|, complete := complete)])
        && complete == !Refused(records, start.next, |records|, refused)
        && indexed == Accepted(records, start.next, |records|, refused)
    {
      indexed, complete := 0, true;
      var records, from := start.records, start.next;
      for next := from to |records|
        invariant Valid()
        invariant state == old(state).(indexed := old(state.indexed) + Taken(records, from, next, refused),
                                       passes := old(state.passes)[pass := start.(next := next, complete := complete)])
        invariant complete <==> !Refused(records, from, next, refused)
        invariant indexed == Accepted(records, from, next, refused)
      {
        TakenStep(records, from, next, refused);
        var ok := IndexNext(pass, start.(next := next, complete := complete), refused);
        complete := complete && ok;
        indexed := indexed + if ok then 1 else 0;
      }
    }

    /** One record: an upsert, or a refusal the pass remembers. */
    method IndexNext(pass: nat, p: Pass, refused: set<Id>) returns (ok: bool)
      requires Valid() && p.Indexing? && p.next < |p.records|
      requires pass in state.passes && state.passes[pass] == p
      modifies this
      ensures Valid() && ok == (p.records[p.next].id !in refused)
      ensures state == old(state).(
        indexed := if ok then old(state.indexed) + {p.records[p.next].id} else old(state.indexed),
        passes := old(state.passes)[pass := p.(next := p.next + 1, complete := p.complete && ok)])
    {
      ok := p.records[p.next].id !in refused;
      var now := state.(passes := state.passes[pass := p.(next := p.next + 1, complete := p.complete && ok)]);
      if ok {
        Set(Index(pass), now.(indexed := state.indexed + {p.records[p.next].id}));
      } else {
        Set(Fail(pass), now);
      }
    }

    method Set(ghost e: Event, now: State)
      requires Valid() && Enabled(state, e) && now == Apply(state, e)
      modifies this
      ensures Valid() && state == now && Inv(state)
    {
      Note(e, now);
      state := now;
    }
  }
}
