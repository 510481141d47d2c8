/** What a vector checkpoint can be made to say: how much work the index still owes
    the ledger, and whether the type filter is still the one it was written under. */
module VectorCheckpoint {
  import opened Ledger
  import CompactionPlan
  import Sorting

  /** SHA-256 as the injective function it stands for. */
  datatype Digest = Sha256(preimage: string)

  const WIDTH := 64

  /** The hexadecimal digest of one ledger line. */
  type LineDigest = string

  ghost predicate Hexes(digests: seq<LineDigest>) {
    forall i :: 0 <= i < |digests| ==> |digests[i]| == WIDTH
  }

  /** An indexed record beside the digest of its line, in id order. */
  type Indexed = (Record, LineDigest)

  function Digests(corpus: seq<Indexed>): (digests: seq<LineDigest>)
    ensures |digests| == |corpus|
    ensures forall i :: 0 <= i < |corpus| ==> digests[i] == corpus[i].1
  {
    seq(|corpus|, i requires 0 <= i < |corpus| => corpus[i].1)
  }

  ghost function Concat(digests: seq<LineDigest>): string {
    if digests == [] then "" else Concat(digests[..|digests| - 1]) + digests[|digests| - 1]
  }

  lemma {:induction false} ConcatLength(digests: seq<LineDigest>)
    requires Hexes(digests)
    ensures |Concat(digests)| == WIDTH * |digests|
  {
    if digests != [] {
      ConcatLength(digests[..|digests| - 1]);
    }
  }

  /** Fixed width is what makes the joined digests tell their sequence. */
  lemma {:induction false} ConcatInjective(a: seq<LineDigest>, b: seq<LineDigest>)
    requires Hexes(a) && Hexes(b)
    ensures Concat(a) == Concat(b) <==> a == b
  {
    ConcatLength(a);
    ConcatLength(b);
    if Concat(a) == Concat(b) && a != [] {
      var a', b' := a[..|a| - 1], b[..|b| - 1];
      var x, y := a[|a| - 1], b[|b| - 1];
      ConcatLength(a');
      ConcatLength(b');
      assert Concat(a) == Concat(a') + x && Concat(b) == Concat(b') + y;
      assert Concat(a)[..|Concat(a')|] == Concat(a') && Concat(b)[..|Concat(b')|] == Concat(b');
      assert Concat(a)[|Concat(a')|..] == x && Concat(b)[|Concat(b')|..] == y;
      ConcatInjective(a', b');
      assert a == a' + [x] && b == b' + [y];
    }
  }

  method PrefixDigest(records: seq<Indexed>) returns (digest: Digest)
    ensures digest == Sha256(Concat(Digests(records)))
  {
    var accumulator := "";
    for i := 0 to |records|
      invariant accumulator == Concat(Digests(records)[..i])
    {
      assert Digests(records)[..i + 1][..i] == Digests(records)[..i];
      accumulator := accumulator + records[i].1;
    }
    assert Digests(records)[..|records|] == Digests(records);
    digest := Sha256(accumulator);
  }

  // ---------------------------------------------------------------------
  // Pending work
  // ---------------------------------------------------------------------

  datatype Checkpoint = Usable(indexed: nat, digest: Digest) | Unusable(reason: string)

  /** The marker a pass that covered `covered` writes. */
  ghost predicate Covers(checkpoint: Checkpoint, covered: seq<LineDigest>) {
    Hexes(covered) && checkpoint == Usable(|covered|, Sha256(Concat(covered)))
  }

  datatype Pending = NothingPending | Records(count: nat) | Unknown(reason: string)

  const COVERS_MORE := "the checkpoint covers more records than the ledger holds"
  const CHANGED_INSIDE := "records inside the checkpoint changed"

  datatype Position = Position(corpus: seq<Indexed>, corpusDigest: Digest, checkpoint: Checkpoint)

  ghost predicate Read(position: Position) {
    Hexes(Digests(position.corpus)) && position.corpusDigest == Sha256(Concat(Digests(position.corpus)))
  }

  ghost predicate ProperPrefix(a: seq<LineDigest>, b: seq<LineDigest>) {
    |a| < |b| && a == b[..|a|]
  }

  /** Exact, for a checkpoint of any covered sequence: nothing pending when it is the
      corpus, a count when it is a proper prefix of it, and no number otherwise. */
  method Assess(position: Position, ghost covered: seq<LineDigest>) returns (pending: Pending)
    requires Read(position)
    ensures position.checkpoint.Unusable? ==> pending == Unknown(position.checkpoint.reason)
    ensures Covers(position.checkpoint, covered) ==>
      var now := Digests(position.corpus);
      && (pending == NothingPending <==> covered == now)
      && (pending.Records? <==> ProperPrefix(covered, now))
      && (pending.Records? ==> pending.count == |now| - |covered| && pending.count > 0)
      && (pending.Unknown? && |covered| > |now| ==>
            pending.reason == "the checkpoint covers more records than the ledger holds")
      && (pending.Unknown? && |covered| <= |now| ==> pending.reason == "records inside the checkpoint changed")
  {
    if position.checkpoint.Unusable? {
      return Unknown(position.checkpoint.reason);
    }
    var indexed, digest := position.checkpoint.indexed, position.checkpoint.digest;
    var corpus := position.corpus;
    ghost var now := Digests(corpus);
    if Covers(position.checkpoint, covered) {
      ConcatInjective(covered, now);
      if indexed <= |corpus| {
        ConcatInjective(covered, now[..indexed]);
        assert indexed == |now| ==> now[..indexed] == now;
      }
    }
    if digest == position.corpusDigest {
      return NothingPending;
    }
    if indexed > |corpus| {
      return Unknown(COVERS_MORE);
    }
    var prefix := PrefixDigest(corpus[..indexed]);
    assert Digests(corpus[..indexed]) == now[..indexed];
    if prefix != digest {
      return Unknown(CHANGED_INSIDE);
    }
    pending := Records(|corpus| - indexed);
  }

  datatype Freshness = Current | Lagging | FreshnessUnknown

  function FreshnessOf(position: Position): Freshness {
    match position.checkpoint
    case Unusable(_) => FreshnessUnknown
    case Usable(_, digest) => if digest == position.corpusDigest then Current else Lagging
  }

  /** The two lines of the report agree, and each says what the marker covers: the corpus,
      something else, or nothing that can be told. */
  method AssessAgreesWithFreshness(position: Position, ghost covered: seq<LineDigest>)
    returns (pending: Pending, freshness: Freshness)
    requires Read(position) && (position.checkpoint.Usable? ==> Covers(position.checkpoint, covered))
    ensures pending == NothingPending <==> freshness == Current
    ensures freshness == if position.checkpoint.Unusable? then FreshnessUnknown
                         else if covered == Digests(position.corpus) then Current
                         else Lagging
    ensures freshness == FreshnessUnknown ==> pending == Unknown(position.checkpoint.reason)
  {
    pending := Assess(position, covered);
    freshness := FreshnessOf(position);
    if position.checkpoint.Usable? {
      ConcatInjective(covered, Digests(position.corpus));
    }
  }

  /** Why a difference of counts is no answer: replacing the last record leaves the
      counts level while there is work. */
  method ReplacingIsNotCounted(corpus: seq<Indexed>, was: LineDigest, checkpoint: Checkpoint) returns (pending: Pending)
    requires corpus != [] && Hexes(Digests(corpus)) && |was| == WIDTH
    requires was != corpus[|corpus| - 1].1
    requires Covers(checkpoint, Digests(corpus)[..|corpus| - 1] + [was])
    ensures pending.Unknown?
  {
    var digest := PrefixDigest(corpus);
    ghost var covered := Digests(corpus)[..|corpus| - 1] + [was];
    assert covered[|corpus| - 1] == was;
    pending := Assess(Position(corpus, digest, checkpoint), covered);
  }

  // ---------------------------------------------------------------------
  // The filter's fingerprint
  // ---------------------------------------------------------------------

  /** One of each run of equal neighbours. */
  method Dedup(names: seq<string>) returns (once: seq<string>)
    requires Sorting.Sorted(names, Sorting.Leq)
    ensures forall name :: name in once <==> name in names
    ensures forall i, j :: 0 <= i < j < |once| ==> Sorting.Leq(once[i], once[j]) && once[i] != once[j]
  {
    once := [];
    for i := 0 to |names|
      invariant forall name :: name in once <==> name in names[..i]
      invariant forall i, j :: 0 <= i < j < |once| ==> Sorting.Leq(once[i], once[j]) && once[i] != once[j]
      invariant i == 0 ==> once == []
      invariant i > 0 ==> once != [] && once[|once| - 1] == names[i - 1]
    {
      assert names[..i + 1] == names[..i] + [names[i]];
      if i == 0 || once[|once| - 1] != names[i] {
        forall k | 0 <= k < |once| ensures Sorting.Leq(once[k], names[i]) && once[k] != names[i] {
          LastIsGreatest(once, names, i, k);
        }
        once := once + [names[i]];
      }
    }
    assert names[..|names|] == names;
  }

  lemma LastIsGreatest(once: seq<string>, names: seq<string>, i: nat, k: nat)
    requires Sorting.Sorted(names, Sorting.Leq) && 0 < i < |names| && k < |once|
    requires forall i, j :: 0 <= i < j < |once| ==> Sorting.Leq(once[i], once[j]) && once[i] != once[j]
    requires once[|once| - 1] == names[i - 1] && names[i - 1] != names[i]
    ensures Sorting.Leq(once[k], names[i]) && once[k] != names[i]
  {
    var last := once[|once| - 1];
    assert Sorting.Leq(names[i - 1], names[i]);
    Sorting.LeqTotal(last, names[i]);
    if k < |once| - 1 {
      Sorting.LeqTransitive(once[k], last, names[i]);
      Sorting.LeqTotal(once[k], last);
    }
  }

  /** A filter entry has characters, none of them a line break. */
  ghost predicate Named(names: seq<string>) {
    forall name :: name in names ==> name != "" && '\n' !in name
  }

  function Join(names: seq<string>): string {
    if names == [] then ""
    else if |names| == 1 then names[0]
    else names[0] + "\n" + Join(names[1..])
  }

  lemma FirstLine(x: string, rest: string, y: string, more: string)
    requires '\n' !in x && '\n' !in y
    requires rest == "" || rest[0] == '\n'
    requires more == "" || more[0] == '\n'
    requires x + rest == y + more
    ensures x == y && rest == more
  {
    var whole := x + rest;
    assert whole[..|x|] == x && whole[..|y|] == y;
    assert whole[|x|..] == rest && whole[|y|..] == more;
  }

  lemma FirstNames(a: seq<string>, b: seq<string>)
    requires Named(a) && Named(b) && a != [] && b != [] && Join(a) == Join(b)
    ensures a[0] == b[0] && Tail(a) == Tail(b)
  {
    assert a[0] in a && b[0] in b;
    JoinSplits(a);
    JoinSplits(b);
    FirstLine(a[0], Tail(a), b[0], Tail(b));
  }

  lemma SameTails(a: seq<string>, b: seq<string>)
    requires a != [] && b != [] && Tail(a) == Tail(b)
    ensures |a| == 1 <==> |b| == 1
    ensures Join(a[1..]) == Join(b[1..])
  {
    assert |a| > 1 ==> Tail(a)[1..] == Join(a[1..]);
    assert |b| > 1 ==> Tail(b)[1..] == Join(b[1..]);
  }

  lemma {:induction false} JoinInjective(a: seq<string>, b: seq<string>)
    requires Named(a) && Named(b)
    requires Join(a) == Join(b)
    ensures a == b
  {
    JoinOfNames(a);
    JoinOfNames(b);
    if a != [] && b != [] {
      FirstNames(a, b);
      SameTails(a, b);
      NamedTail(a);
      NamedTail(b);
      JoinInjective(a[1..], b[1..]);
      assert a == [a[0]] + a[1..] && b == [b[0]] + b[1..];
    }
  }

  lemma NamedTail(names: seq<string>)
    requires names != [] && Named(names)
    ensures Named(names[1..])
  {
    assert forall name :: name in names[1..] ==> name in names;
  }

  /** What follows the first name. */
  function Tail(names: seq<string>): string
    requires names != []
  {
    if |names| == 1 then "" else "\n" + Join(names[1..])
  }

  lemma JoinSplits(names: seq<string>)
    requires names != []
    ensures Join(names) == names[0] + Tail(names)
  {
  }

  lemma JoinOfNames(a: seq<string>)
    requires Named(a)
    ensures Join(a) == "" <==> a == []
  {
    if a != [] {
      assert a[0] in a;
    }
  }

  /** The canonical spelling of a filter: its names once each, in order. */
  ghost predicate Spells(once: seq<string>, names: seq<string>) {
    && (forall name :: name in once <==> name in names)
    && (forall i, j :: 0 <= i < j < |once| ==> Sorting.Leq(once[i], once[j]) && once[i] != once[j])
  }

  lemma OneSpelling(a: seq<string>, b: seq<string>, names: seq<string>, others: seq<string>)
    requires Spells(a, names) && Spells(b, others)
    ensures a == b <==> forall name :: name in names <==> name in others
  {
    if forall name :: name in names <==> name in others {
      var before := (x: string, y: string) => Sorting.Leq(x, y) && x != y;
      forall x, y | before(x, y) ensures !before(y, x) {
        Sorting.LeqTotal(x, y);
      }
      Sorting.OneArrangement(a, b, before);
    }
  }

  method Fingerprint(embedTypes: seq<string>) returns (fingerprint: Option<Digest>, ghost once: seq<string>)
    ensures fingerprint == if embedTypes == [] then None else Some(Sha256(Join(once)))
    ensures fingerprint.None? <==> embedTypes == []
    ensures Spells(once, embedTypes)
  {
    Sorting.LeqIsAnOrder();
    Sorting.SortSorts(embedTypes, Sorting.Leq);
    var names := Sorting.Sort(embedTypes, Sorting.Leq);
    Sorting.SameMembers(embedTypes, names);
    if embedTypes == [] {
      return None, [];
    }
    names := Dedup(names);
    return Some(Sha256(Join(names))), names;
  }

  ghost predicate SameFilter(a: seq<string>, b: seq<string>) {
    forall name :: name in a <==> name in b
  }

  /** Reordering or repeating names leaves the fingerprint alone, and nothing else
      does; and two filters of one fingerprint let the same records through. */
  method FingerprintIsTheFilter(a: seq<string>, b: seq<string>) returns (same: bool)
    requires Named(a) && Named(b)
    ensures same <==> SameFilter(a, b)
    ensures same ==> forall kind :: CompactionPlan.Wanted(a, kind) <==> CompactionPlan.Wanted(b, kind)
  {
    var first, once := Fingerprint(a);
    var second, other := Fingerprint(b);
    same := first == second;
    OneSpelling(once, other, a, b);
    if Join(once) == Join(other) {
      JoinInjective(once, other);
    }
    if a == [] && b != [] {
      assert b[0] in b;
    }
    if b == [] && a != [] {
      assert a[0] in a;
    }
  }
}
