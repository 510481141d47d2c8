/** The ledger on disk: one file per month, read oldest month first.

    Files are named `YYYY-MM.jsonl`, so sorting by name is sorting by month
    number. Everything that treats a position as a cursor into the ledger, or a
    staged copy as the ledger it was built from, leans on this order. */
module Shards {
  import opened Ledger

  type Directory = map<nat, seq<Record>>

  /** The files of the months before `month`, oldest first. */
  ghost function Before(files: Directory, month: nat): seq<Record> {
    if month == 0 then []
    else Before(files, month - 1) + if month - 1 in files then files[month - 1] else []
  }

  ghost function Beyond(months: set<nat>): (bound: nat)
    ensures forall m :: m in months ==> m < bound
  {
    if months == {} then 0
    else
      var m :| m in months;
      var rest := Beyond(months - {m});
      assert months == {m} + (months - {m});
      if m < rest then rest else m + 1
  }

  /** Every line of the directory in the order a reader sees it. */
  ghost function Contents(files: Directory): seq<Record> {
    Before(files, Beyond(files.Keys))
  }

  ghost predicate Filed(files: Directory) {
    forall m, r :: m in files && r in files[m] ==> r.month == m
  }

  ghost predicate MonthOrdered(rs: seq<Record>) {
    forall i, j :: 0 <= i < j < |rs| ==> rs[i].month <= rs[j].month
  }

  lemma {:induction false} BeforeStable(files: Directory, lo: nat, hi: nat)
    requires lo <= hi
    requires forall m :: lo <= m < hi ==> m !in files
    ensures Before(files, hi) == Before(files, lo)
  {
    if lo < hi {
      BeforeStable(files, lo, hi - 1);
    }
  }

  /** Any bound past the last month reads the whole directory. */
  lemma ContentsIs(files: Directory, bound: nat)
    requires forall m :: m in files ==> m < bound
    ensures Contents(files) == Before(files, bound)
  {
    var beyond := Beyond(files.Keys);
    if beyond <= bound {
      BeforeStable(files, beyond, bound);
    } else {
      BeforeStable(files, bound, beyond);
    }
  }

  lemma {:induction false} BeforeMembers(files: Directory, bound: nat)
    ensures forall r :: r in Before(files, bound) <==> exists m :: m in files && m < bound && r in files[m]
  {
    if bound > 0 {
      BeforeMembers(files, bound - 1);
    }
  }

  lemma ContentsMembers(files: Directory)
    ensures forall r :: r in Contents(files) <==> exists m :: m in files && r in files[m]
  {
    BeforeMembers(files, Beyond(files.Keys));
  }

  lemma {:induction false} BeforeOrdered(files: Directory, bound: nat)
    requires Filed(files)
    ensures MonthOrdered(Before(files, bound))
  {
    if bound > 0 {
      BeforeOrdered(files, bound - 1);
      BeforeMembers(files, bound - 1);
      var earlier := Before(files, bound - 1);
      assert forall i :: 0 <= i < |earlier| ==> earlier[i] in earlier;
    }
  }

  // ---------------------------------------------------------------------
  // Staging a ledger by month (apply::stage_records)
  // ---------------------------------------------------------------------

  ghost function Grouped(rs: seq<Record>): (files: Directory)
    ensures Filed(files)
  {
    if rs == [] then map[]
    else
      var files, last := Grouped(rs[..|rs| - 1]), rs[|rs| - 1];
      AppendTo(files, last)
  }

  /** One more line at the end of its month's file, which is created if absent. */
  function AppendTo(files: Directory, r: Record): Directory {
    files[r.month := (if r.month in files then files[r.month] else []) + [r]]
  }

  method StageRecords(records: seq<Record>) returns (files: Directory)
    ensures files == Grouped(records)
    ensures MonthOrdered(records) ==> Contents(files) == records
  {
    files := map[];
    for i := 0 to |records|
      invariant files == Grouped(records[..i])
    {
      assert records[..i + 1][..i] == records[..i];
      files := AppendTo(files, records[i]);
    }
    assert records[..|records|] == records;
    if MonthOrdered(records) {
      GroupedReadsBack(records);
    }
  }

  ghost predicate LastMonth(files: Directory, month: nat) {
    forall m :: m in files && files[m] != [] ==> m <= month
  }

  lemma {:induction false} EarlierUntouched(files: Directory, r: Record, bound: nat)
    requires bound <= r.month
    ensures Before(AppendTo(files, r), bound) == Before(files, bound)
  {
    if bound > 0 {
      EarlierUntouched(files, r, bound - 1);
    }
  }

  lemma {:induction false} BeforeSplits(files: Directory, r: Record, bound: nat)
    returns (front: seq<Record>, back: seq<Record>)
    requires r.month < bound
    ensures Before(files, bound) == front + back
    ensures Before(AppendTo(files, r), bound) == front + [r] + back
    ensures back == [] <==> forall m :: r.month < m < bound && m in files ==> files[m] == []
  {
    if bound == r.month + 1 {
      EarlierUntouched(files, r, r.month);
      front, back := Before(files, bound), [];
    } else {
      front, back := BeforeSplits(files, r, bound - 1);
      back := back + if bound - 1 in files then files[bound - 1] else [];
    }
  }

  /** An append inserts its line after its own month and before any later one. */
  lemma AppendSplits(files: Directory, r: Record) returns (front: seq<Record>, back: seq<Record>)
    ensures Contents(files) == front + back
    ensures Contents(AppendTo(files, r)) == front + [r] + back
    ensures back == [] <==> LastMonth(files, r.month)
  {
    var more := AppendTo(files, r);
    var bound := Beyond(more.Keys);
    assert forall m :: m in files ==> m in more.Keys;
    assert r.month in more.Keys;
    ContentsIs(files, bound);
    front, back := BeforeSplits(files, r, bound);
  }

  /** A line whose month is not earlier than any month already written lands at
      the end of the ledger. */
  lemma AppendLast(files: Directory, r: Record)
    requires LastMonth(files, r.month)
    ensures Contents(AppendTo(files, r)) == Contents(files) + [r]
  {
    var front, back := AppendSplits(files, r);
  }

  lemma LastMonthOf(files: Directory, month: nat)
    requires Filed(files)
    requires forall k :: 0 <= k < |Contents(files)| ==> Contents(files)[k].month <= month
    ensures LastMonth(files, month)
  {
    ContentsMembers(files);
    forall m | m in files && files[m] != [] ensures m <= month {
      var r := files[m][0];
      assert r in Contents(files) && r.month == m;
    }
  }

  lemma {:induction false} GroupedReadsBack(rs: seq<Record>)
    requires MonthOrdered(rs)
    ensures Contents(Grouped(rs)) == rs
  {
    if rs != [] {
      var init, last := rs[..|rs| - 1], rs[|rs| - 1];
      GroupedReadsBack(init);
      LastMonthOf(Grouped(init), last.month);
      AppendLast(Grouped(init), last);
      assert rs == init + [last];
    }
  }
}
