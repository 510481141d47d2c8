/** The immutable ledger: records, which of them are dead, and what a native
    compaction keeps of them.

    A record is dead when a later record names it in `supersedes`, or when it
    carries a withdrawal tag. Three readers use that rule independently - the
    compaction plan, the status counts and the vector corpus - and the lemmas
    here show that they agree. */
module Ledger {
  datatype Option<+T> = None | Some(value: T)

  type Id = nat

  /** One ledger line. `month` is the month number of `recorded_at`, whose
      `YYYY-MM` spelling sorts as the number does. */
  datatype Record = Record(
    id: Id,
    kind: string,
    month: nat,
    payload: string,
    tags: seq<string>,
    supersedes: Option<Id>)

  const REVOKED_TAG := "equill:revoked"
  const LEGACY_REVOKED_TAG := "status:revoked"
  const AUDIT_TYPE := "equill.governance.v1"
  const AUDIT_TYPE_V2 := "equill.governance.v2"

  predicate Withdrawn(r: Record) {
    exists tag :: tag in r.tags && (tag == REVOKED_TAG || tag == LEGACY_REVOKED_TAG)
  }

  // ---------------------------------------------------------------------
  // Liveness, independent of any algorithm
  // ---------------------------------------------------------------------

  ghost function Ids(rs: seq<Record>): set<Id> {
    set r | r in rs :: r.id
  }

  ghost predicate UniqueIds(rs: seq<Record>) {
    forall i, j :: 0 <= i < j < |rs| ==> rs[i].id != rs[j].id
  }

  /** Lifecycle validation refuses a link it cannot resolve. */
  ghost predicate KnownLinks(rs: seq<Record>) {
    forall r :: r in rs && r.supersedes.Some? ==> r.supersedes.value in Ids(rs)
  }

  ghost predicate Superseded(rs: seq<Record>, id: Id) {
    exists r :: r in rs && r.supersedes == Some(id)
  }

  ghost predicate Dead(rs: seq<Record>, r: Record) {
    Superseded(rs, r.id) || Withdrawn(r)
  }

  /** The live records of `rs`, in order, judged against the whole of `all`. */
  ghost function LiveIn(all: seq<Record>, rs: seq<Record>): seq<Record> {
    if rs == [] then []
    else (if Dead(all, rs[0]) then [] else [rs[0]]) + LiveIn(all, rs[1..])
  }

  ghost function Live(rs: seq<Record>): seq<Record> {
    LiveIn(rs, rs)
  }

  function Unlinked(r: Record): Record {
    r.(supersedes := None)
  }

  function UnlinkAll(rs: seq<Record>): (out: seq<Record>)
    ensures |out| == |rs|
    ensures forall i :: 0 <= i < |rs| ==> out[i] == Unlinked(rs[i])
  {
    if rs == [] then [] else [Unlinked(rs[0])] + UnlinkAll(rs[1..])
  }

  /** Same record, except that its link may have been cut. */
  predicate Carries(was: Record, now: Record) {
    now == was || now == Unlinked(was)
  }

  /** The ids some record of `rs` names in `supersedes`. */
  function Replaced(rs: seq<Record>): (ids: set<Id>)
    ensures forall id :: id in ids <==> Superseded(rs, id)
  {
    set r | r in rs && r.supersedes.Some? :: r.supersedes.value
  }

  function DeadIds(rs: seq<Record>): (ids: set<Id>)
    ensures forall id :: id in ids <==> exists r :: r in rs && r.id == id && Dead(rs, r)
  {
    var replaced := Replaced(rs);
    set r | r in rs && (r.id in replaced || Withdrawn(r)) :: r.id
  }

  ghost predicate Tombstoned(r: Record) {
    "equill:revoked" in r.tags || "status:revoked" in r.tags
  }

  /** Nothing replaces the record and nothing withdraws it. */
  ghost predicate Alive(rs: seq<Record>, r: Record) {
    !Tombstoned(r) && forall q :: q in rs ==> q.supersedes != Some(r.id)
  }

  /** Dead is what either spelling of the tag withdraws or some record replaces. */
  lemma DeadMeans(rs: seq<Record>)
    ensures forall r :: Withdrawn(r) <==> Tombstoned(r)
    ensures forall r :: Dead(rs, r) <==> !Alive(rs, r)
    ensures forall id :: id in DeadIds(rs) <==> exists r :: r in rs && r.id == id && !Alive(rs, r)
  {
    forall r ensures Withdrawn(r) <==> Tombstoned(r) {
      if Tombstoned(r) {
        var tag := if "equill:revoked" in r.tags then "equill:revoked" else "status:revoked";
        assert tag in r.tags;
      }
    }
  }

  // ---------------------------------------------------------------------
  // Filter and map in one, as iterators do it
  // ---------------------------------------------------------------------

  /** What `pick` makes of each element it picks, in order. */
  ghost function Picked<S, T>(xs: seq<S>, pick: S -> Option<T>): seq<T> {
    if xs == [] then []
    else Picked(xs[..|xs| - 1], pick) + match pick(xs[|xs| - 1]) case None => [] case Some(item) => [item]
  }

  lemma PickedStep<S, T>(xs: seq<S>, x: S, pick: S -> Option<T>)
    ensures Picked(xs + [x], pick) == Picked(xs, pick) + match pick(x) case None => [] case Some(item) => [item]
  {
    assert (xs + [x])[..|xs|] == xs;
  }

  lemma {:induction false} PickedMeans<S(!new), T(!new)>(xs: seq<S>, pick: S -> Option<T>)
    ensures forall item :: item in Picked(xs, pick) <==> exists x :: x in xs && pick(x) == Some(item)
  {
    if xs != [] {
      var front, last := xs[..|xs| - 1], xs[|xs| - 1];
      PickedMeans(front, pick);
      assert xs == front + [last];
    }
  }

  /** The places `at` are those of what `pick` picks, in order, and `out` is what it makes
      of them. */
  ghost predicate InPlace<S, T>(xs: seq<S>, pick: S -> Option<T>, at: seq<nat>, out: seq<T>) {
    && |at| == |out|
    && (forall k :: 0 <= k < |at| ==> at[k] < |xs| && pick(xs[at[k]]) == Some(out[k]))
    && (forall j, k :: 0 <= j < k < |at| ==> at[j] < at[k])
    && forall i :: 0 <= i < |xs| && pick(xs[i]).Some? ==> i in at
  }

  lemma InPlaceMore<S, T>(xs: seq<S>, x: S, pick: S -> Option<T>, at: seq<nat>, out: seq<T>, item: T)
    requires InPlace(xs, pick, at, out) && pick(x) == Some(item)
    ensures InPlace(xs + [x], pick, at + [|xs|], out + [item])
  {
    var more := at + [|xs|];
    assert more[|at|] == |xs|;
    forall i | 0 <= i < |xs| + 1 && pick((xs + [x])[i]).Some? ensures i in more {
      if i < |xs| {
        assert i in at;
      }
    }
  }

  /** In the order they stand, each once, and none left out. */
  lemma {:induction false} PickedInPlace<S, T>(xs: seq<S>, pick: S -> Option<T>) returns (at: seq<nat>)
    ensures InPlace(xs, pick, at, Picked(xs, pick))
  {
    at := [];
    if xs != [] {
      var front, last := xs[..|xs| - 1], xs[|xs| - 1];
      assert xs == front + [last];
      at := PickedInPlace(front, pick);
      if pick(last).Some? {
        InPlaceMore(front, last, pick, at, Picked(front, pick), pick(last).value);
        at := at + [|front|];
      } else {
        assert Picked(front, pick) + [] == Picked(front, pick);
      }
    }
  }

  lemma {:induction false} NonePicked<S, T>(xs: seq<S>, pick: S -> Option<T>)
    requires forall x :: x in xs ==> pick(x).None?
    ensures Picked(xs, pick) == []
  {
    if xs != [] {
      NonePicked(xs[..|xs| - 1], pick);
    }
  }

  lemma {:induction false} PickedTwice<S, T, U>(xs: seq<S>, f: S -> Option<T>, g: T -> Option<U>, h: S -> Option<U>)
    requires forall x :: h(x) == if f(x).None? then None else g(f(x).value)
    ensures Picked(Picked(xs, f), g) == Picked(xs, h)
  {
    if xs != [] {
      var front, last := xs[..|xs| - 1], xs[|xs| - 1];
      PickedTwice(front, f, g, h);
      if f(last).Some? {
        PickedStep(Picked(front, f), f(last).value, g);
      } else {
        assert Picked(front, f) + [] == Picked(front, f);
      }
    }
  }

  lemma {:induction false} LiveInStep(all: seq<Record>, rs: seq<Record>, r: Record)
    ensures LiveIn(all, rs + [r]) == LiveIn(all, rs) + (if Dead(all, r) then [] else [r])
  {
    if rs == [] {
      assert rs + [r] == [r];
      assert [r][1..] == [];
    } else {
      assert (rs + [r])[0] == rs[0];
      assert (rs + [r])[1..] == rs[1..] + [r];
      LiveInStep(all, rs[1..], r);
    }
  }

  /** The live records stand in the ledger's order, each once, and none is left out. */
  lemma {:induction false} LiveInPlace(all: seq<Record>, rs: seq<Record>) returns (at: seq<nat>)
    ensures |at| == |LiveIn(all, rs)|
    ensures forall k :: 0 <= k < |at| ==> at[k] < |rs| && rs[at[k]] == LiveIn(all, rs)[k]
    ensures forall j, k :: 0 <= j < k < |at| ==> at[j] < at[k]
    ensures forall i :: 0 <= i < |rs| ==> (i in at <==> Alive(all, rs[i]))
  {
    at := [];
    if rs != [] {
      DeadMeans(all);
      var n := |rs| - 1;
      assert rs[..n] + [rs[n]] == rs;
      LiveInStep(all, rs[..n], rs[n]);
      at := LiveInPlace(all, rs[..n]);
      if Alive(all, rs[n]) {
        assert n in at + [n];
        at := at + [n];
      }
    }
  }

  lemma DeadById(rs: seq<Record>, r: Record)
    requires UniqueIds(rs) && r in rs
    ensures r.id in DeadIds(rs) <==> Dead(rs, r)
  {
    if r.id in DeadIds(rs) {
      var other :| other in rs && other.id == r.id && Dead(rs, other);
      var i :| 0 <= i < |rs| && rs[i] == r;
      var j :| 0 <= j < |rs| && rs[j] == other;
      assert i == j;
    }
  }
}
