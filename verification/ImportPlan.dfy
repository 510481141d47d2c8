/** Planning the import of a legacy ledger: which lines are new, what they become,
    and which records their links name. */
module ImportPlan {
  import opened Ledger

  const IMPORT_KIND := "equill.import.line"
  const LEGACY_ID_KIND := "legacy.record-id"

  datatype Evidence = Evidence(kind: string, reference: string, sha256: Option<string>)
  datatype LegacyEvidence = Text(reference: string) | Typed(evidence: Evidence)

  /** What a line carries over unchanged. */
  datatype Content = Content(namespace: string, kind: string, observedAt: string, validAt: Option<string>,
                             payload: string, tags: seq<string>)

  datatype Line = Line(number: nat, id: string, recordedAt: string, actor: string, content: Content,
                       evidence: seq<LegacyEvidence>, supersedes: Option<string>, digest: string)

  datatype Stored = Stored(id: Id, content: Content, evidence: seq<Evidence>, supersedes: Option<Id>)

  datatype Draft = Draft(line: nat, record: Stored)

  datatype Status = Imported | Skipped
  datatype Item = Item(line: nat, digest: string, legacyId: string, recordId: Id, status: Status)

  datatype Error = DifferentContent(line: nat) | UnknownTarget(line: nat)
  datatype Result<+T> = Ok(value: T) | Err(error: Error)

  datatype Known = Known(byDigest: map<string, Id>, byLegacy: map<string, Id>, ids: set<Id>)

  // ---------------------------------------------------------------------
  // What the store already holds
  // ---------------------------------------------------------------------

  function NoteEvidence(known: Known, id: Id, e: Evidence): Known {
    if e.kind == IMPORT_KIND then
      if e.sha256.Some? then known.(byDigest := known.byDigest[e.sha256.value := id]) else known
    else if e.kind == LEGACY_ID_KIND then known.(byLegacy := known.byLegacy[e.reference := id])
    else known
  }

  ghost function NoteAll(known: Known, id: Id, evidence: seq<Evidence>): Known {
    if evidence == [] then known
    else NoteEvidence(NoteAll(known, id, evidence[..|evidence| - 1]), id, evidence[|evidence| - 1])
  }

  ghost function Note(known: Known, record: Stored): Known {
    NoteAll(known.(ids := known.ids + {record.id}), record.id, record.evidence)
  }

  const NOTHING := Known(map[], map[], {})

  ghost function KnownOf(records: seq<Stored>): Known {
    if records == [] then NOTHING else Note(KnownOf(records[..|records| - 1]), records[|records| - 1])
  }

  method KnownImports(records: seq<Stored>) returns (known: Known)
    ensures known == KnownOf(records)
  {
    known := NOTHING;
    for i := 0 to |records|
      invariant known == KnownOf(records[..i])
    {
      var record := records[i];
      assert records[..i + 1][..i] == records[..i];
      ghost var before := known.(ids := known.ids + {record.id});
      known := known.(ids := known.ids + {record.id});
      for j := 0 to |record.evidence|
        invariant known == NoteAll(before, record.id, record.evidence[..j])
      {
        assert record.evidence[..j + 1][..j] == record.evidence[..j];
        known := NoteEvidence(known, record.id, record.evidence[j]);
      }
      assert record.evidence[..|record.evidence|] == record.evidence;
    }
    assert records[..|records|] == records;
  }

  ghost predicate Digested(record: Stored, digest: string) {
    Attests(record.evidence, digest)
  }

  ghost predicate InLedger(records: seq<Stored>, digest: string) {
    exists r :: r in records && Digested(r, digest)
  }

  /** A record of that id carries the digest. */
  ghost predicate Keeps(records: seq<Stored>, id: Id, digest: string) {
    exists r :: r in records && r.id == id && Digested(r, digest)
  }

  lemma KeepsMore(records: seq<Stored>, record: Stored, id: Id, digest: string)
    requires Keeps(records, id, digest) || (record.id == id && Digested(record, digest))
    ensures Keeps(records + [record], id, digest)
  {
    if Keeps(records, id, digest) {
      var r :| r in records && r.id == id && Digested(r, digest);
      assert r in records + [record];
    } else {
      assert record in records + [record];
    }
  }

  lemma InLedgerStep(records: seq<Stored>, record: Stored, digest: string)
    ensures InLedger(records + [record], digest) <==> InLedger(records, digest) || Digested(record, digest)
  {
    assert forall r :: r in records + [record] <==> r in records || r == record;
  }

  ghost predicate Attests(evidence: seq<Evidence>, digest: string) {
    exists e :: e in evidence && e.kind == IMPORT_KIND && e.sha256 == Some(digest)
  }

  lemma AttestsStep(evidence: seq<Evidence>, e: Evidence, digest: string)
    ensures Attests(evidence + [e], digest) <==>
      Attests(evidence, digest) || (e.kind == IMPORT_KIND && e.sha256 == Some(digest))
  {
    assert forall x :: x in evidence + [e] <==> x in evidence || x == e;
  }

  ghost predicate NotedDigests(known: Known, id: Id, evidence: seq<Evidence>, noted: Known) {
    && (forall d :: d in noted.byDigest <==> d in known.byDigest || Attests(evidence, d))
    && (forall d :: d in noted.byDigest ==>
          noted.byDigest[d] == if Attests(evidence, d) then id else known.byDigest[d])
  }

  ghost predicate Calls(evidence: seq<Evidence>, legacyId: string) {
    exists e :: e in evidence && e.kind == LEGACY_ID_KIND && e.reference == legacyId
  }

  lemma CallsStep(evidence: seq<Evidence>, e: Evidence, legacyId: string)
    ensures Calls(evidence + [e], legacyId) <==>
      Calls(evidence, legacyId) || (e.kind == LEGACY_ID_KIND && e.reference == legacyId)
  {
    assert forall x :: x in evidence + [e] <==> x in evidence || x == e;
  }

  ghost predicate NotedLegacy(known: Known, id: Id, evidence: seq<Evidence>, noted: Known) {
    && (forall k :: k in noted.byLegacy <==> k in known.byLegacy || Calls(evidence, k))
    && (forall k :: k in noted.byLegacy ==>
          noted.byLegacy[k] == if Calls(evidence, k) then id else known.byLegacy[k])
  }

  lemma {:induction false} NoteAllDigests(known: Known, id: Id, evidence: seq<Evidence>)
    ensures NoteAll(known, id, evidence).ids == known.ids
    ensures NotedDigests(known, id, evidence, NoteAll(known, id, evidence))
    ensures NotedLegacy(known, id, evidence, NoteAll(known, id, evidence))
  {
    if evidence != [] {
      var init, last := evidence[..|evidence| - 1], evidence[|evidence| - 1];
      NoteAllDigests(known, id, init);
      assert evidence == init + [last];
      NoteOneMore(known, id, init, last, NoteAll(known, id, init));
    }
  }

  lemma NoteOneMore(known: Known, id: Id, evidence: seq<Evidence>, e: Evidence, noted: Known)
    requires NotedDigests(known, id, evidence, noted) && NotedLegacy(known, id, evidence, noted)
    ensures NotedDigests(known, id, evidence + [e], NoteEvidence(noted, id, e))
    ensures NotedLegacy(known, id, evidence + [e], NoteEvidence(noted, id, e))
  {
    forall d
      ensures Attests(evidence + [e], d) <==> Attests(evidence, d) || (e.kind == IMPORT_KIND && e.sha256 == Some(d))
    {
      AttestsStep(evidence, e, d);
    }
    forall k
      ensures Calls(evidence + [e], k) <==> Calls(evidence, k) || (e.kind == LEGACY_ID_KIND && e.reference == k)
    {
      CallsStep(evidence, e, k);
    }
  }

  ghost predicate Called(records: seq<Stored>, legacyId: string) {
    exists r :: r in records && Calls(r.evidence, legacyId)
  }

  lemma CalledStep(records: seq<Stored>, record: Stored, legacyId: string)
    ensures Called(records + [record], legacyId) <==> Called(records, legacyId) || Calls(record.evidence, legacyId)
  {
    assert forall r :: r in records + [record] <==> r in records || r == record;
  }

  /** A digest or a legacy id is known when some record carries it; whatever the maps
      name is a record that exists. */
  lemma {:induction false} KnownMeans(records: seq<Stored>)
    ensures forall id :: id in KnownOf(records).ids <==> exists r :: r in records && r.id == id
    ensures forall d :: d in KnownOf(records).byDigest <==> InLedger(records, d)
    ensures forall d :: d in KnownOf(records).byDigest ==> KnownOf(records).byDigest[d] in KnownOf(records).ids
    ensures forall d :: d in KnownOf(records).byDigest ==> Keeps(records, KnownOf(records).byDigest[d], d)
    ensures forall k :: k in KnownOf(records).byLegacy <==> Called(records, k)
    ensures forall k :: k in KnownOf(records).byLegacy ==> KnownOf(records).byLegacy[k] in KnownOf(records).ids
  {
    if records != [] {
      var init, last := records[..|records| - 1], records[|records| - 1];
      KnownMeans(init);
      var before := KnownOf(init);
      NoteAllDigests(before.(ids := before.ids + {last.id}), last.id, last.evidence);
      assert records == init + [last];
      forall d ensures InLedger(records, d) <==> InLedger(init, d) || Digested(last, d) {
        InLedgerStep(init, last, d);
      }
      forall k ensures Called(records, k) <==> Called(init, k) || Calls(last.evidence, k) {
        CalledStep(init, last, k);
      }
      forall d | d in KnownOf(records).byDigest ensures Keeps(records, KnownOf(records).byDigest[d], d) {
        KeepsMore(init, last, KnownOf(records).byDigest[d], d);
      }
      assert forall r :: r in records <==> r in init || r == last;
    }
  }

  // ---------------------------------------------------------------------
  // One line
  // ---------------------------------------------------------------------

  /** The legacy id map wins; a raw id counts only when its record exists. */
  function ResolveSupersedes(
    value: string, byLegacy: map<string, Id>, ids: set<Id>, parse: string -> Option<Id>): Option<Id>
  {
    if value in byLegacy then Some(byLegacy[value])
    else if parse(value).Some? && parse(value).value in ids then parse(value)
    else None
  }

  function Convert(e: LegacyEvidence): Evidence {
    match e
    case Text(reference) => Evidence("legacy.evidence", reference, None)
    case Typed(evidence) => evidence
  }

  function DraftOf(line: Line, id: Id, known: Known, parse: string -> Option<Id>): Option<Stored> {
    var evidence :=
      seq(|line.evidence|, i requires 0 <= i < |line.evidence| => Convert(line.evidence[i]))
      + [Evidence(IMPORT_KIND, "legacy-jsonl", Some(line.digest)),
         Evidence(LEGACY_ID_KIND, line.id, None),
         Evidence("legacy.recorded-at", line.recordedAt, None),
         Evidence("legacy.actor", line.actor, None)];
    match line.supersedes
    case None => Some(Stored(id, line.content, evidence, None))
    case Some(value) =>
      var target := ResolveSupersedes(value, known.byLegacy, known.ids, parse);
      if target.None? then None else Some(Stored(id, line.content, evidence, target))
  }

  // ---------------------------------------------------------------------
  // The plan
  // ---------------------------------------------------------------------

  datatype Planning = Planning(known: Known, drafts: seq<Draft>, items: seq<Item>)

  ghost function Step(p: Planning, line: Line, id: Id, parse: string -> Option<Id>): Result<Planning> {
    if line.digest in p.known.byDigest then
      var recordId := p.known.byDigest[line.digest];
      Ok(Planning(p.known.(byLegacy := p.known.byLegacy[line.id := recordId]), p.drafts,
                  p.items + [Item(line.number, line.digest, line.id, recordId, Skipped)]))
    else if line.id in p.known.byLegacy then Err(DifferentContent(line.number))
    else
      var draft := DraftOf(line, id, p.known, parse);
      if draft.None? then Err(UnknownTarget(line.number))
      else
        Ok(Planning(Known(p.known.byDigest[line.digest := id], p.known.byLegacy[line.id := id], p.known.ids + {id}),
                    p.drafts + [Draft(line.number, draft.value)],
                    p.items + [Item(line.number, line.digest, line.id, id, Imported)]))
  }

  /** New ids are taken from `ids` in order, one per imported line. */
  ghost function PlanFrom(
    p: Planning, lines: seq<Line>, ids: nat -> Id, parse: string -> Option<Id>): Result<Planning>
  {
    if lines == [] then Ok(p)
    else
      match PlanFrom(p, lines[..|lines| - 1], ids, parse)
      case Err(error) => Err(error)
      case Ok(q) => Step(q, lines[|lines| - 1], ids(|q.drafts|), parse)
  }

  ghost function PlanOf(
    truth: seq<Stored>, lines: seq<Line>, ids: nat -> Id, parse: string -> Option<Id>): Result<Planning>
  {
    PlanFrom(Planning(KnownOf(truth), [], []), lines, ids, parse)
  }

  datatype Report = Report(total: nat, imported: nat, skipped: nat, records: seq<Item>)

  method Plan(lines: seq<Line>, truth: seq<Stored>, ids: nat -> Id, parse: string -> Option<Id>)
    returns (result: Result<(seq<Draft>, Report)>)
    ensures var plan := PlanOf(truth, lines, ids, parse);
      if plan.Err? then result == Err(plan.error)
      else
        && result.Ok?
        && result.value.0 == plan.value.drafts && result.value.1.records == plan.value.items
        && result.value.1.total == |lines| && result.value.1.imported == |plan.value.drafts|
        && result.value.1.imported + result.value.1.skipped == |lines|
  {
    var known := KnownImports(truth);
    ghost var start := Planning(known, [], []);
    var drafts: seq<Draft> := [];
    var records: seq<Item> := [];
    var imported, skipped := 0, 0;
    for i := 0 to |lines|
      invariant PlanFrom(start, lines[..i], ids, parse) == Ok(Planning(known, drafts, records))
      invariant imported == |drafts| && imported + skipped == i == |records|
    {
      var line := lines[i];
      assert lines[..i + 1][..i] == lines[..i];
      if line.digest in known.byDigest {
        var recordId := known.byDigest[line.digest];
        known := known.(byLegacy := known.byLegacy[line.id := recordId]);
        records := records + [Item(line.number, line.digest, line.id, recordId, Skipped)];
        skipped := skipped + 1;
        continue;
      }
      if line.id in known.byLegacy {
        ErrorStays(start, lines, i + 1, ids, parse);
        return Err(DifferentContent(line.number));
      }
      var id := ids(|drafts|);
      var draft := DraftOf(line, id, known, parse);
      if draft.None? {
        ErrorStays(start, lines, i + 1, ids, parse);
        return Err(UnknownTarget(line.number));
      }
      drafts := drafts + [Draft(line.number, draft.value)];
      known := Known(known.byDigest[line.digest := id], known.byLegacy[line.id := id], known.ids + {id});
      records := records + [Item(line.number, line.digest, line.id, id, Imported)];
      imported := imported + 1;
    }
    assert lines[..|lines|] == lines;
    result := Ok((drafts, Report(|records|, imported, skipped, records)));
  }

  lemma {:induction false} ErrorStays(p: Planning, lines: seq<Line>, i: nat, ids: nat -> Id,
                                      parse: string -> Option<Id>)
    requires i <= |lines| && PlanFrom(p, lines[..i], ids, parse).Err?
    ensures PlanFrom(p, lines, ids, parse) == PlanFrom(p, lines[..i], ids, parse)
  {
    if i == |lines| {
      assert lines[..i] == lines;
    } else {
      var init := lines[..|lines| - 1];
      assert init[..i] == lines[..i];
      ErrorStays(p, init, i, ids, parse);
    }
  }

  // ---------------------------------------------------------------------
  // Planning twice
  // ---------------------------------------------------------------------

  function Records(drafts: seq<Draft>): (records: seq<Stored>)
    ensures |records| == |drafts|
    ensures forall i :: 0 <= i < |drafts| ==> records[i] == drafts[i].record
  {
    seq(|drafts|, i requires 0 <= i < |drafts| => drafts[i].record)
  }

  /** What a planning in progress knows, measured by the ledger it will leave. */
  ghost predicate Tracks(p: Planning, truth: seq<Stored>, lines: seq<Line>) {
    && (forall line :: line in lines ==> line.digest in p.known.byDigest)
    && (forall d :: d in p.known.byDigest ==> Keeps(truth + Records(p.drafts), p.known.byDigest[d], d))
    && |p.items| == |lines|
    && (forall i :: 0 <= i < |lines| ==>
          Keeps(truth + Records(p.drafts), p.items[i].recordId, lines[i].digest))
  }

  lemma DraftCarriesItsDigest(line: Line, id: Id, known: Known, parse: string -> Option<Id>)
    requires DraftOf(line, id, known, parse).Some?
    ensures Digested(DraftOf(line, id, known, parse).value, line.digest)
    ensures DraftOf(line, id, known, parse).value.content == line.content
    ensures KeepsEvidence(DraftOf(line, id, known, parse).value, line)
    ensures Provenance(DraftOf(line, id, known, parse).value, line) && DraftOf(line, id, known, parse).value.id == id
    ensures Calls(DraftOf(line, id, known, parse).value.evidence, line.id)
  {
    var draft := DraftOf(line, id, known, parse).value;
    assert draft.evidence[|line.evidence|] == Evidence(IMPORT_KIND, "legacy-jsonl", Some(line.digest));
    assert draft.evidence[|line.evidence| + 1] == Evidence(LEGACY_ID_KIND, line.id, None);
  }

  /** And after it, in four pieces of evidence, where the record comes from. */
  ghost predicate Provenance(record: Stored, line: Line) {
    record.evidence[if |line.evidence| <= |record.evidence| then |line.evidence| else 0..] == [
      Evidence("equill.import.line", "legacy-jsonl", Some(line.digest)),
      Evidence("legacy.record-id", line.id, None),
      Evidence("legacy.recorded-at", line.recordedAt, None),
      Evidence("legacy.actor", line.actor, None)]
  }

  /** What a line cites comes first, typed evidence as it was, text as a reference. */
  ghost predicate KeepsEvidence(record: Stored, line: Line) {
    |line.evidence| <= |record.evidence| &&
    forall i :: 0 <= i < |line.evidence| ==>
      match line.evidence[i]
      case Typed(evidence) => record.evidence[i] == evidence
      case Text(reference) => record.evidence[i] == Evidence("legacy.evidence", reference, None)
  }

  lemma RecordsStep(drafts: seq<Draft>, draft: Draft)
    ensures Records(drafts + [draft]) == Records(drafts) + [draft.record]
  {
  }

  lemma {:induction false} PlanTracks(truth: seq<Stored>, lines: seq<Line>, ids: nat -> Id, parse: string -> Option<Id>)
    requires PlanOf(truth, lines, ids, parse).Ok?
    ensures Tracks(PlanOf(truth, lines, ids, parse).value, truth, lines)
  {
    if lines == [] {
      NothingTracked(truth);
    } else {
      var init, line := lines[..|lines| - 1], lines[|lines| - 1];
      PlanTracks(truth, init, ids, parse);
      PlanStep(truth, init, line, lines, ids, parse);
      var p := PlanOf(truth, init, ids, parse).value;
      TracksStep(p, truth, init, line, ids(|p.drafts|), parse, PlanOf(truth, lines, ids, parse).value, lines);
    }
  }

  lemma PlanStep(truth: seq<Stored>, init: seq<Line>, line: Line, lines: seq<Line>, ids: nat -> Id,
                 parse: string -> Option<Id>)
    requires lines == init + [line] && PlanOf(truth, lines, ids, parse).Ok?
    ensures PlanOf(truth, init, ids, parse).Ok?
    ensures var p := PlanOf(truth, init, ids, parse).value;
      PlanOf(truth, lines, ids, parse) == Step(p, line, ids(|p.drafts|), parse)
  {
    assert lines[..|lines| - 1] == init;
  }

  lemma NothingTracked(truth: seq<Stored>)
    ensures Tracks(Planning(KnownOf(truth), [], []), truth, [])
  {
    KnownMeans(truth);
    assert truth + Records([]) == truth;
  }

  lemma TracksStep(p: Planning, truth: seq<Stored>, lines: seq<Line>, line: Line, id: Id, parse: string -> Option<Id>,
                   q: Planning, whole: seq<Line>)
    requires Tracks(p, truth, lines) && Step(p, line, id, parse) == Ok(q) && whole == lines + [line]
    ensures Tracks(q, truth, whole)
  {
    if line.digest !in p.known.byDigest {
      DraftCarriesItsDigest(line, id, p.known, parse);
      var record := q.drafts[|p.drafts|].record;
      RecordsStep(p.drafts, q.drafts[|p.drafts|]);
      var was := truth + Records(p.drafts);
      assert truth + Records(q.drafts) == was + [record];
      forall x, d | Keeps(was, x, d) || (record.id == x && Digested(record, d)) ensures Keeps(was + [record], x, d) {
        KeepsMore(was, record, x, d);
      }
    }
  }

  ghost predicate AllSkipped(items: seq<Item>, lines: seq<Line>) {
    |items| == |lines| &&
    forall i :: 0 <= i < |lines| ==>
      items[i].status == Skipped && items[i].line == lines[i].number && items[i].digest == lines[i].digest
  }

  lemma {:induction false} KnownLinesAreSkipped(known: Known, lines: seq<Line>, ids: nat -> Id,
                                                parse: string -> Option<Id>)
    requires forall line :: line in lines ==> line.digest in known.byDigest
    ensures var plan := PlanFrom(Planning(known, [], []), lines, ids, parse);
      && plan.Ok? && plan.value.drafts == [] && AllSkipped(plan.value.items, lines)
      && plan.value.known.byDigest == known.byDigest
  {
    if lines != [] {
      assert lines[|lines| - 1] in lines;
      KnownLinesAreSkipped(known, lines[..|lines| - 1], ids, parse);
    }
  }

  /** Importing the same lines again, whatever evidence they carry, imports nothing. */
  lemma PlanningTwiceImportsNothing(truth: seq<Stored>, lines: seq<Line>, ids: nat -> Id, parse: string -> Option<Id>,
                                    later: nat -> Id)
    requires PlanOf(truth, lines, ids, parse).Ok?
    ensures var first := PlanOf(truth, lines, ids, parse).value;
      var again := PlanOf(truth + Records(first.drafts), lines, later, parse);
      again.Ok? && again.value.drafts == [] && AllSkipped(again.value.items, lines)
  {
    var first := PlanOf(truth, lines, ids, parse).value;
    PlanTracks(truth, lines, ids, parse);
    var after := truth + Records(first.drafts);
    KnownMeans(after);
    KnownLinesAreSkipped(KnownOf(after), lines, later, parse);
  }

  /** One item per line, in order; a digest is imported at most once, and never when
      the store had it; and a legacy id that named something already is not given to
      new content. */
  ghost predicate OncePerDigest(items: seq<Item>, lines: seq<Line>, truth: seq<Stored>) {
    && |items| == |lines|
    && (forall i :: 0 <= i < |lines| ==>
          items[i].line == lines[i].number && items[i].digest == lines[i].digest && items[i].legacyId == lines[i].id)
    && (forall i :: 0 <= i < |items| && items[i].status == Imported ==>
          !InLedger(truth, items[i].digest) && items[i].legacyId !in KnownOf(truth).byLegacy)
    && (forall i, j :: 0 <= i < j < |items| && items[j].status == Imported ==>
          items[i].digest != items[j].digest && items[i].legacyId != items[j].legacyId)
  }

  /** The record a legacy id stands for: the one of the last line that used it, or
      else the one the store knew. */
  ghost function Standing(truth: seq<Stored>, items: seq<Item>, legacyId: string): Option<Id> {
    if items == [] then
      if legacyId in KnownOf(truth).byLegacy then Some(KnownOf(truth).byLegacy[legacyId]) else None
    else if items[|items| - 1].legacyId == legacyId then Some(items[|items| - 1].recordId)
    else Standing(truth, items[..|items| - 1], legacyId)
  }

  ghost predicate Counted(p: Planning, lines: seq<Line>, truth: seq<Stored>) {
    && OncePerDigest(p.items, lines, truth)
    && (forall i :: 0 <= i < |p.items| ==>
          p.items[i].digest in p.known.byDigest && p.items[i].legacyId in p.known.byLegacy)
    && (forall d :: InLedger(truth, d) ==> d in p.known.byDigest)
    && (forall k :: k in KnownOf(truth).byLegacy ==> k in p.known.byLegacy)
  }

  lemma CountedStep(p: Planning, truth: seq<Stored>, lines: seq<Line>, line: Line, id: Id, parse: string -> Option<Id>)
    requires Counted(p, lines, truth) && Step(p, line, id, parse).Ok?
    ensures Counted(Step(p, line, id, parse).value, lines + [line], truth)
  {
  }

  lemma {:induction false} EachDigestOnce(truth: seq<Stored>, lines: seq<Line>, ids: nat -> Id,
                                          parse: string -> Option<Id>)
    requires PlanOf(truth, lines, ids, parse).Ok?
    ensures Counted(PlanOf(truth, lines, ids, parse).value, lines, truth)
  {
    if lines == [] {
      KnownMeans(truth);
    } else {
      var init, line := lines[..|lines| - 1], lines[|lines| - 1];
      EachDigestOnce(truth, init, ids, parse);
      assert lines == init + [line];
      var p := PlanOf(truth, init, ids, parse).value;
      CountedStep(p, truth, init, line, ids(|p.drafts|), parse);
    }
  }

  lemma {:induction false} LegacyStands(truth: seq<Stored>, lines: seq<Line>, ids: nat -> Id,
                                        parse: string -> Option<Id>)
    requires PlanOf(truth, lines, ids, parse).Ok?
    ensures var p := PlanOf(truth, lines, ids, parse).value;
      forall k :: Standing(truth, p.items, k) == if k in p.known.byLegacy then Some(p.known.byLegacy[k]) else None
  {
    if lines != [] {
      var init, line := lines[..|lines| - 1], lines[|lines| - 1];
      LegacyStands(truth, init, ids, parse);
      var p, q := PlanOf(truth, init, ids, parse).value, PlanOf(truth, lines, ids, parse).value;
      assert q.items[..|q.items| - 1] == p.items;
    }
  }

  /** A new line's link names the record its target's legacy id stands for at that
      line - the store's, or one drafted further up in the same file - and a raw id
      only when no legacy id is spelled like it. */
  lemma LinksFollowLegacyIds(truth: seq<Stored>, lines: seq<Line>, line: Line, ids: nat -> Id,
                             parse: string -> Option<Id>,
                             value: string)
    requires PlanOf(truth, lines + [line], ids, parse).Ok? && line.supersedes == Some(value)
    requires PlanOf(truth, lines, ids, parse).Ok?
    requires line.digest !in PlanOf(truth, lines, ids, parse).value.known.byDigest
    ensures var p, q := PlanOf(truth, lines, ids, parse).value, PlanOf(truth, lines + [line], ids, parse).value;
      && |q.drafts| == |p.drafts| + 1
      && q.drafts[|p.drafts|].record.supersedes ==
           if Standing(truth, p.items, value).Some? then Standing(truth, p.items, value) else parse(value)
  {
    assert (lines + [line])[..|lines|] == lines;
    LegacyStands(truth, lines, ids, parse);
  }

  /** The drafts are the imported lines, in order, their content unchanged. */
  ghost predicate Carries(draft: Draft, line: Line) {
    && draft.line == line.number && draft.record.content == line.content && KeepsEvidence(draft.record, line)
    && Digested(draft.record, line.digest) && Calls(draft.record.evidence, line.id)
    && Provenance(draft.record, line)
  }

  lemma {:induction false} NewLinesHold(lines: seq<Line>, items: seq<Item>, i: nat)
    requires |lines| == |items| && i < |lines| && items[i].status == Imported
    ensures lines[i] in NewLines(lines, items)
  {
    var n := |lines| - 1;
    if i < n {
      NewLinesHold(lines[..n], items[..n], i);
    }
  }

  lemma ImportedIsCalled(truth: seq<Stored>, lines: seq<Line>, ids: nat -> Id, parse: string -> Option<Id>, i: nat)
    requires PlanOf(truth, lines, ids, parse).Ok? && i < |lines|
    requires |PlanOf(truth, lines, ids, parse).value.items| == |lines|
    requires PlanOf(truth, lines, ids, parse).value.items[i].status == Imported
    ensures Called(truth + Records(PlanOf(truth, lines, ids, parse).value.drafts), lines[i].id)
  {
    var p := PlanOf(truth, lines, ids, parse).value;
    DraftsCarryTheirLines(truth, lines, ids, parse);
    NewLinesHold(lines, p.items, i);
    var k :| 0 <= k < |NewLines(lines, p.items)| && NewLines(lines, p.items)[k] == lines[i];
    assert Carries(p.drafts[k], lines[i]);
    assert Records(p.drafts)[k] in truth + Records(p.drafts);
  }

  ghost predicate AlreadyRead(records: seq<Stored>, earlier: seq<Line>, digest: string) {
    InLedger(records, digest) || exists line :: line in earlier && line.digest == digest
  }

  ghost predicate AlreadyNamed(records: seq<Stored>, earlier: seq<Line>, legacyId: string) {
    Called(records, legacyId) || exists line :: line in earlier && line.id == legacyId
  }

  /** Planning knows the digests and legacy ids of the store and of the lines read. */
  ghost predicate Remembers(p: Planning, records: seq<Stored>, lines: seq<Line>) {
    && (forall d :: d in p.known.byDigest <==> AlreadyRead(records, lines, d))
    && (forall k :: k in p.known.byLegacy <==> AlreadyNamed(records, lines, k))
  }

  lemma RemembersStep(p: Planning, records: seq<Stored>, lines: seq<Line>, line: Line, id: Id,
                      parse: string -> Option<Id>)
    requires Remembers(p, records, lines) && Step(p, line, id, parse).Ok?
    ensures Remembers(Step(p, line, id, parse).value, records, lines + [line])
  {
    assert forall x :: x in lines + [line] <==> x in lines || x == line;
    forall d ensures AlreadyRead(records, lines + [line], d) <==> AlreadyRead(records, lines, d) || d == line.digest {
      assert line in lines + [line];
    }
    forall k ensures AlreadyNamed(records, lines + [line], k) <==> AlreadyNamed(records, lines, k) || k == line.id {
      assert line in lines + [line];
    }
  }

  lemma {:induction false} PlanRemembers(
    records: seq<Stored>, lines: seq<Line>, ids: nat -> Id, parse: string -> Option<Id>)
    requires PlanOf(records, lines, ids, parse).Ok?
    ensures Remembers(PlanOf(records, lines, ids, parse).value, records, lines)
  {
    if lines == [] {
      KnownMeans(records);
    } else {
      var init, line := lines[..|lines| - 1], lines[|lines| - 1];
      assert lines == init + [line];
      PlanRemembers(records, init, ids, parse);
      var p := PlanOf(records, init, ids, parse).value;
      RemembersStep(p, records, init, line, ids(|p.drafts|), parse);
    }
  }

  /** A line is refused for its content exactly when its legacy id is taken, by the store
      or further up in the file, and its digest is not known from either. */
  lemma TakenIdIsRefusedIff(records: seq<Stored>, earlier: seq<Line>, line: Line, ids: nat -> Id,
                            parse: string -> Option<Id>)
    requires PlanOf(records, earlier, ids, parse).Ok?
    ensures PlanOf(records, earlier + [line], ids, parse) == Err(DifferentContent(line.number)) <==>
      AlreadyNamed(records, earlier, line.id) && !AlreadyRead(records, earlier, line.digest)
  {
    assert (earlier + [line])[..|earlier|] == earlier;
    PlanRemembers(records, earlier, ids, parse);
  }

  lemma {:induction false} PlanKnowsIds(
    records: seq<Stored>, lines: seq<Line>, ids: nat -> Id, parse: string -> Option<Id>)
    requires PlanOf(records, lines, ids, parse).Ok?
    ensures var p := PlanOf(records, lines, ids, parse).value;
      forall id :: id in p.known.ids <==> HasId(records + Records(p.drafts), id)
  {
    if lines == [] {
      KnownMeans(records);
      assert records + Records([]) == records;
    } else {
      var init, line := lines[..|lines| - 1], lines[|lines| - 1];
      PlanKnowsIds(records, init, ids, parse);
      var p, q := PlanOf(records, init, ids, parse).value, PlanOf(records, lines, ids, parse).value;
      if line.digest !in p.known.byDigest {
        var draft := q.drafts[|p.drafts|];
        RecordsStep(p.drafts, draft);
        assert records + Records(q.drafts) == (records + Records(p.drafts)) + [draft.record];
        forall id {
          HasIdStep(records + Records(p.drafts), draft.record, id);
        }
      }
    }
  }

  /** A link that names nothing: no legacy id in force is spelled like it, and it is not
      the id of a record stored or drafted before. */
  ghost predicate NamesNothing(value: string, records: seq<Stored>, p: Planning, parse: string -> Option<Id>) {
    && Standing(records, p.items, value) == None
    && (parse(value).Some? ==> !HasId(records + Records(p.drafts), parse(value).value))
  }

  /** And the only other thing a new line is refused for is a link that names nothing. */
  lemma UnknownTargetIff(records: seq<Stored>, earlier: seq<Line>, line: Line, ids: nat -> Id,
                         parse: string -> Option<Id>)
    requires PlanOf(records, earlier, ids, parse).Ok?
    ensures var plan := PlanOf(records, earlier + [line], ids, parse);
      && (plan.Err? ==> plan.error == DifferentContent(line.number) || plan.error == UnknownTarget(line.number))
      && (plan == Err(UnknownTarget(line.number)) <==>
            && !AlreadyRead(records, earlier, line.digest) && !AlreadyNamed(records, earlier, line.id)
            && line.supersedes.Some?
            && NamesNothing(line.supersedes.value, records, PlanOf(records, earlier, ids, parse).value, parse))
  {
    assert (earlier + [line])[..|earlier|] == earlier;
    PlanRemembers(records, earlier, ids, parse);
    PlanKnowsIds(records, earlier, ids, parse);
    LegacyStands(records, earlier, ids, parse);
  }

  /** Once a line is imported its legacy id is taken: a later file that gives the same
      id to different content is refused, wherever in it that stands - there, unless a
      line before it already was. */
  lemma ChangedContentIsRefused(truth: seq<Stored>, lines: seq<Line>, ids: nat -> Id, parse: string -> Option<Id>,
                                i: nat, file: seq<Line>, j: nat, later: nat -> Id)
    requires PlanOf(truth, lines, ids, parse).Ok? && i < |lines| && j < |file| && file[j].id == lines[i].id
    requires |PlanOf(truth, lines, ids, parse).value.items| == |lines|
    requires PlanOf(truth, lines, ids, parse).value.items[i].status == Imported
    requires !AlreadyRead(truth + Records(PlanOf(truth, lines, ids, parse).value.drafts), file[..j], file[j].digest)
    ensures var after := truth + Records(PlanOf(truth, lines, ids, parse).value.drafts);
      && PlanOf(after, file, later, parse).Err?
      && (PlanOf(after, file[..j], later, parse).Ok? ==>
            PlanOf(after, file, later, parse) == Err(DifferentContent(file[j].number)))
  {
    var after := truth + Records(PlanOf(truth, lines, ids, parse).value.drafts);
    var start := Planning(KnownOf(after), [], []);
    ImportedIsCalled(truth, lines, ids, parse, i);
    if PlanOf(after, file[..j], later, parse).Err? {
      ErrorStays(start, file, j, later, parse);
    } else {
      TakenIdIsRefusedIff(after, file[..j], file[j], later, parse);
      assert file[..j] + [file[j]] == file[..j + 1];
      ErrorStays(start, file, j + 1, later, parse);
    }
  }

  ghost function NewLines(lines: seq<Line>, items: seq<Item>): seq<Line>
    requires |lines| == |items|
  {
    if lines == [] then []
    else
      NewLines(lines[..|lines| - 1], items[..|items| - 1])
      + (if items[|items| - 1].status == Imported then [lines[|lines| - 1]] else [])
  }

  /** The new lines are those imported, in the order of the file. */
  lemma {:induction false} NewLinesInPlace(lines: seq<Line>, items: seq<Item>) returns (at: seq<nat>)
    requires |lines| == |items|
    ensures |at| == |NewLines(lines, items)|
    ensures forall k :: 0 <= k < |at| ==> at[k] < |lines| && lines[at[k]] == NewLines(lines, items)[k]
    ensures forall j, k :: 0 <= j < k < |at| ==> at[j] < at[k]
    ensures forall i :: 0 <= i < |lines| ==> (i in at <==> items[i].status == Imported)
  {
    at := [];
    if lines != [] {
      var n := |lines| - 1;
      at := NewLinesInPlace(lines[..n], items[..n]);
      if items[n].status == Imported {
        forall i: nat ensures i in at + [n] <==> i in at || i == n {
        }
        at := at + [n];
      }
    }
  }

  lemma {:induction false} DraftsCarryTheirLines(truth: seq<Stored>, lines: seq<Line>, ids: nat -> Id,
                                                 parse: string -> Option<Id>)
    requires PlanOf(truth, lines, ids, parse).Ok?
    ensures var p := PlanOf(truth, lines, ids, parse).value;
      && |p.items| == |lines| && |p.drafts| == |NewLines(lines, p.items)|
      && forall i :: 0 <= i < |p.drafts| ==> Carries(p.drafts[i], NewLines(lines, p.items)[i])
  {
    if lines != [] {
      var init, line := lines[..|lines| - 1], lines[|lines| - 1];
      DraftsCarryTheirLines(truth, init, ids, parse);
      var p, q := PlanOf(truth, init, ids, parse).value, PlanOf(truth, lines, ids, parse).value;
      assert q.items[..|q.items| - 1] == p.items;
      if line.digest !in p.known.byDigest {
        DraftCarriesItsDigest(line, ids(|p.drafts|), p.known, parse);
      } else {
        assert NewLines(lines, q.items) == NewLines(init, p.items);
      }
    }
  }

  // ---------------------------------------------------------------------
  // The graph it leaves
  // ---------------------------------------------------------------------

  ghost predicate Closed(records: seq<Stored>) {
    forall r :: r in records && r.supersedes.Some? ==> exists t :: t in records && t.id == r.supersedes.value
  }

  /** Every link goes down. */
  ghost predicate Ranked(records: seq<Stored>, height: map<Id, nat>) {
    forall r :: r in records ==>
      r.id in height && (r.supersedes.Some? ==>
        r.supersedes.value in height && height[r.supersedes.value] < height[r.id])
  }

  ghost predicate Acyclic(records: seq<Stored>) {
    exists height :: Ranked(records, height)
  }

  ghost predicate Links(records: seq<Stored>, from: Id, to: Id) {
    exists r :: r in records && r.id == from && r.supersedes == Some(to)
  }

  /** Why that is the right notion: following links never comes back. */
  lemma {:induction false} NoWayBack(records: seq<Stored>, path: seq<Id>, height: map<Id, nat>)
    requires Ranked(records, height) && |path| >= 2
    requires forall i :: 0 <= i < |path| - 1 ==> Links(records, path[i], path[i + 1])
    ensures path[0] in height && path[|path| - 1] in height && height[path[|path| - 1]] < height[path[0]]
    ensures path[0] != path[|path| - 1]
  {
    assert Links(records, path[0], path[1]);
    if |path| > 2 {
      NoWayBack(records, path[1..], height);
    }
  }

  ghost predicate HasId(records: seq<Stored>, id: Id) {
    exists r :: r in records && r.id == id
  }

  /** Each draft is new and links to something stored or drafted before it. */
  ghost predicate Grows(truth: seq<Stored>, drafts: seq<Stored>) {
    forall i :: 0 <= i < |drafts| ==>
      && !HasId(truth + drafts[..i], drafts[i].id)
      && (drafts[i].supersedes.Some? ==> HasId(truth + drafts[..i], drafts[i].supersedes.value))
  }

  ghost predicate Fresh(ids: nat -> Id, truth: seq<Stored>) {
    && (forall i :: !HasId(truth, ids(i)))
    && (forall i, j :: i != j ==> ids(i) != ids(j))
  }

  /** Whatever the planning may name exists by then. */
  ghost predicate Names(p: Planning, truth: seq<Stored>) {
    && (forall id :: id in p.known.ids <==> HasId(truth + Records(p.drafts), id))
    && (forall d :: d in p.known.byDigest ==> p.known.byDigest[d] in p.known.ids)
    && (forall k :: k in p.known.byLegacy ==> p.known.byLegacy[k] in p.known.ids)
  }

  ghost predicate Numbered(drafts: seq<Draft>, ids: nat -> Id) {
    forall i :: 0 <= i < |drafts| ==> drafts[i].record.id == ids(i)
  }

  lemma {:induction false} PlanGrows(truth: seq<Stored>, lines: seq<Line>, ids: nat -> Id, parse: string -> Option<Id>)
    requires PlanOf(truth, lines, ids, parse).Ok? && Fresh(ids, truth)
    ensures var p := PlanOf(truth, lines, ids, parse).value;
      Names(p, truth) && Numbered(p.drafts, ids) && Grows(truth, Records(p.drafts))
  {
    if lines == [] {
      KnownMeans(truth);
      assert truth + Records([]) == truth;
    } else {
      var init, line := lines[..|lines| - 1], lines[|lines| - 1];
      PlanGrows(truth, init, ids, parse);
      var p := PlanOf(truth, init, ids, parse).value;
      StepGrows(p, truth, line, ids, parse);
    }
  }

  lemma StepGrows(p: Planning, truth: seq<Stored>, line: Line, ids: nat -> Id, parse: string -> Option<Id>)
    requires Names(p, truth) && Numbered(p.drafts, ids) && Grows(truth, Records(p.drafts)) && Fresh(ids, truth)
    requires Step(p, line, ids(|p.drafts|), parse).Ok?
    ensures var q := Step(p, line, ids(|p.drafts|), parse).value;
      Names(q, truth) && Numbered(q.drafts, ids) && Grows(truth, Records(q.drafts))
  {
    if line.digest !in p.known.byDigest {
      ImportGrows(p, truth, line, ids, parse, DraftOf(line, ids(|p.drafts|), p.known, parse).value);
    }
  }

  lemma ImportGrows(p: Planning, truth: seq<Stored>, line: Line, ids: nat -> Id, parse: string -> Option<Id>,
                    record: Stored)
    requires Names(p, truth) && Numbered(p.drafts, ids) && Grows(truth, Records(p.drafts)) && Fresh(ids, truth)
    requires DraftOf(line, ids(|p.drafts|), p.known, parse) == Some(record)
    ensures Names(Planning(Known(p.known.byDigest[line.digest := record.id], p.known.byLegacy[line.id := record.id],
                                 p.known.ids + {record.id}),
                           p.drafts + [Draft(line.number, record)], p.items), truth)
    ensures Grows(truth, Records(p.drafts + [Draft(line.number, record)]))
    ensures record.id == ids(|p.drafts|)
  {
    RecordsStep(p.drafts, Draft(line.number, record));
    NotYet(truth, p.drafts, ids);
    LinkIsKnown(p, line, record.id, parse, record);
    GrowsStep(truth, Records(p.drafts), record);
    NamesStep(p, truth, line, record.id, record);
  }

  lemma LinkIsKnown(p: Planning, line: Line, id: Id, parse: string -> Option<Id>, record: Stored)
    requires DraftOf(line, id, p.known, parse) == Some(record)
    requires forall k :: k in p.known.byLegacy ==> p.known.byLegacy[k] in p.known.ids
    ensures record.id == id && (record.supersedes.Some? ==> record.supersedes.value in p.known.ids)
  {
  }

  lemma GrowsStep(truth: seq<Stored>, drafts: seq<Stored>, record: Stored)
    requires Grows(truth, drafts) && !HasId(truth + drafts, record.id)
    requires record.supersedes.Some? ==> HasId(truth + drafts, record.supersedes.value)
    ensures Grows(truth, drafts + [record])
  {
    var all := drafts + [record];
    forall i | 0 <= i < |all|
      ensures !HasId(truth + all[..i], all[i].id)
      ensures all[i].supersedes.Some? ==> HasId(truth + all[..i], all[i].supersedes.value)
    {
      if i < |drafts| {
        assert all[..i] == drafts[..i];
      } else {
        assert all[..i] == drafts;
      }
    }
  }

  lemma NamesStep(p: Planning, truth: seq<Stored>, line: Line, id: Id, record: Stored)
    requires Names(p, truth) && record.id == id
    ensures Names(Planning(Known(p.known.byDigest[line.digest := id], p.known.byLegacy[line.id := id],
                                 p.known.ids + {id}),
                           p.drafts + [Draft(line.number, record)], p.items), truth)
  {
    var earlier := Records(p.drafts);
    RecordsStep(p.drafts, Draft(line.number, record));
    assert truth + (earlier + [record]) == (truth + earlier) + [record];
    forall x ensures HasId(truth + (earlier + [record]), x) <==> HasId(truth + earlier, x) || x == id {
      HasIdStep(truth + earlier, record, x);
    }
  }

  lemma NotYet(truth: seq<Stored>, drafts: seq<Draft>, ids: nat -> Id)
    requires Numbered(drafts, ids) && Fresh(ids, truth)
    ensures !HasId(truth + Records(drafts), ids(|drafts|))
  {
    forall r | r in truth + Records(drafts) ensures r.id != ids(|drafts|) {
      if r in truth {
        assert !HasId(truth, ids(|drafts|));
      } else {
        var i :| 0 <= i < |drafts| && Records(drafts)[i] == r;
      }
    }
  }

  lemma HasIdStep(records: seq<Stored>, record: Stored, id: Id)
    ensures HasId(records + [record], id) <==> HasId(records, id) || record.id == id
  {
    assert forall r :: r in records + [record] <==> r in records || r == record;
  }

  lemma {:induction false} GrowthKeepsTheGraph(truth: seq<Stored>, drafts: seq<Stored>)
    requires Grows(truth, drafts)
    ensures Closed(truth) ==> Closed(truth + drafts)
    ensures Closed(truth) && Acyclic(truth) ==> Acyclic(truth + drafts)
  {
    if drafts == [] {
      assert truth + drafts == truth;
    } else {
      var init, last := drafts[..|drafts| - 1], drafts[|drafts| - 1];
      assert Grows(truth, init) by {
        forall i | 0 <= i < |init|
          ensures !HasId(truth + init[..i], init[i].id)
          ensures init[i].supersedes.Some? ==> HasId(truth + init[..i], init[i].supersedes.value)
        {
          assert init[..i] == drafts[..i] && init[i] == drafts[i];
        }
      }
      GrowthKeepsTheGraph(truth, init);
      assert truth + drafts == (truth + init) + [last];
      if Closed(truth) {
        LeafKeepsClosed(truth + init, last);
        if Acyclic(truth) {
          LeafKeepsAcyclic(truth + init, last);
        }
      }
    }
  }

  lemma LeafKeepsClosed(records: seq<Stored>, leaf: Stored)
    requires Closed(records)
    requires leaf.supersedes.Some? ==> HasId(records, leaf.supersedes.value)
    ensures Closed(records + [leaf])
  {
    assert forall r :: r in records + [leaf] <==> r in records || r == leaf;
  }

  lemma LeafKeepsAcyclic(records: seq<Stored>, leaf: Stored)
    requires Closed(records) && Acyclic(records)
    requires !HasId(records, leaf.id)
    requires leaf.supersedes.Some? ==> HasId(records, leaf.supersedes.value)
    ensures Acyclic(records + [leaf])
  {
    var height :| Ranked(records, height);
    var more := height[leaf.id := if leaf.supersedes.Some? then height[leaf.supersedes.value] + 1 else 0];
    forall r | r in records + [leaf]
      ensures r.id in more && (r.supersedes.Some? ==>
        r.supersedes.value in more && more[r.supersedes.value] < more[r.id])
    {
      if r in records {
        assert r.id != leaf.id;
        if r.supersedes.Some? {
          var t :| t in records && t.id == r.supersedes.value;
          assert t.id != leaf.id;
        }
      } else {
        assert r == leaf;
        if leaf.supersedes.Some? {
          assert HasId(records, leaf.supersedes.value);
        }
      }
    }
    assert Ranked(records + [leaf], more);
  }

  /** An import never leaves a dangling link or a loop behind. */
  lemma ImportKeepsTheGraph(truth: seq<Stored>, lines: seq<Line>, ids: nat -> Id, parse: string -> Option<Id>)
    requires PlanOf(truth, lines, ids, parse).Ok? && Fresh(ids, truth)
    requires Closed(truth) && Acyclic(truth)
    ensures var after := truth + Records(PlanOf(truth, lines, ids, parse).value.drafts);
      Closed(after) && Acyclic(after)
  {
    PlanGrows(truth, lines, ids, parse);
    GrowthKeepsTheGraph(truth, Records(PlanOf(truth, lines, ids, parse).value.drafts));
  }
}
