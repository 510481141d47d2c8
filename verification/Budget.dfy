/** Packing retrieved records into a token budget: three tiers, taken greedily, over
    a token counter nothing is assumed about.

    `Counter` is the tokenizer applied to the rendering of a list of records. A
    longer list may count for fewer tokens, and two lists together for anything. */
module Budget {
  import opened Ledger
  import Sorting

  const MAX: nat := 0xFFFF_FFFF_FFFF_FFFF

  type usize = n: nat | n <= MAX witness 0

  function SaturatingAdd(a: usize, b: usize): usize {
    if a + b <= MAX then a + b else MAX
  }

  function SaturatingSub(a: usize, b: usize): usize {
    if b <= a then a - b else 0
  }

  function Min(a: usize, b: usize): usize {
    if a <= b then a else b
  }

  datatype Tier = Required | Core | Relevant

  datatype Candidate = Candidate(id: Id, tier: Tier)

  type Counter = seq<Candidate> -> usize

  datatype ContextBudget = ContextBudget(
    total: Option<usize>,
    requiredCap: Option<usize>,
    coreCap: Option<usize>,
    relevantFloor: Option<usize>,
    receiptReserve: Option<usize>)

  datatype RuntimeBudget = RuntimeBudget(tokens: Option<usize>, records: Option<usize>)

  datatype Reason = Earlier | RequiredOverflow | CoreCap | TotalBudget | RecordBudget

  datatype Exclusion = Exclusion(id: Id, reason: Reason)

  datatype Picked = Picked(candidate: Candidate, tokens: usize)

  datatype Usage = Usage(required: usize, core: usize, relevant: usize, content: usize, reserved: usize, total: usize)

  datatype Budgeted = Budgeted(
    selected: seq<Picked>,
    excluded: seq<Exclusion>,
    usage: Usage,
    degraded: bool,
    requiredLimit: usize,
    requiredNeeded: usize,
    requiredOverflow: nat,
    effectiveTotal: Option<usize>)

  function Or(value: Option<usize>, default: usize): usize {
    if value.Some? then value.value else default
  }

  function EffectiveTotal(budget: ContextBudget, runtime: Option<usize>): (total: Option<usize>)
    ensures total.None? <==> budget.total.None? && runtime.None?
    ensures total.Some? ==>
      && (budget.total.Some? ==> total.value <= budget.total.value)
      && (runtime.Some? ==> total.value <= runtime.value)
    ensures total.Some? ==> total == budget.total || total == runtime
  {
    match (budget.total, runtime)
    case (Some(profile), Some(limit)) => Some(Min(profile, limit))
    case (Some(profile), None) => Some(profile)
    case (None, _) => runtime
  }

  function Reserve(budget: ContextBudget, runtime: RuntimeBudget): usize {
    if EffectiveTotal(budget, runtime.tokens).Some? then Or(budget.receiptReserve, 0) else 0
  }

  function ContentLimit(budget: ContextBudget, runtime: RuntimeBudget): (limit: usize)
    ensures var total := EffectiveTotal(budget, runtime.tokens);
      if total.None? then limit == MAX
      else if Reserve(budget, runtime) <= total.value then limit + Reserve(budget, runtime) == total.value
      else limit == 0
  {
    var total := EffectiveTotal(budget, runtime.tokens);
    if total.Some? then SaturatingSub(total.value, Reserve(budget, runtime)) else MAX
  }

  // ---------------------------------------------------------------------
  // Accounting
  // ---------------------------------------------------------------------

  function Candidates(picked: seq<Picked>): (cs: seq<Candidate>)
    ensures |cs| == |picked|
    ensures forall i :: 0 <= i < |cs| ==> cs[i] == picked[i].candidate
  {
    seq(|picked|, i requires 0 <= i < |picked| => picked[i].candidate)
  }

  /** The highest count any non-empty prefix reaches. */
  ghost function Peak(cs: seq<Candidate>, count: Counter): (peak: usize)
    ensures cs != [] ==> count(cs) <= peak
  {
    if cs == [] then 0
    else
      var before := Peak(cs[..|cs| - 1], count);
      if before < count(cs) then count(cs) else before
  }

  ghost function Sum(picked: seq<Picked>): nat {
    if picked == [] then 0 else Sum(picked[..|picked| - 1]) + picked[|picked| - 1].tokens
  }

  /** Each record is charged what it raised the running maximum by. */
  ghost predicate Accounted(picked: seq<Picked>, count: Counter) {
    forall n :: 0 <= n <= |picked| ==> Sum(picked[..n]) == Peak(Candidates(picked[..n]), count)
  }

  lemma SumIsPeak(picked: seq<Picked>, count: Counter)
    requires Accounted(picked, count)
    ensures Sum(picked) == Peak(Candidates(picked), count) <= MAX
  {
    assert picked[..|picked|] == picked;
  }

  ghost predicate Monotone(count: Counter, cs: seq<Candidate>) {
    forall n :: 0 < n <= |cs| ==> count(cs[..n]) <= count(cs)
  }

  lemma {:induction false} PeakBelow(cs: seq<Candidate>, count: Counter, bound: usize)
    requires forall n :: 0 < n <= |cs| ==> count(cs[..n]) <= bound
    ensures Peak(cs, count) <= bound
  {
    if cs != [] {
      var front := cs[..|cs| - 1];
      forall n | 0 < n <= |front| ensures count(front[..n]) <= bound {
        assert front[..n] == cs[..n];
      }
      PeakBelow(front, count, bound);
      assert cs[..|cs|] == cs;
    }
  }

  /** The charges add up to the content itself exactly when nothing along the way
      counted for more, as with a monotone counter. */
  lemma ChargesMatchContentIffMonotone(picked: seq<Picked>, count: Counter)
    requires Accounted(picked, count) && picked != []
    ensures Sum(picked) >= count(Candidates(picked))
    ensures Sum(picked) == count(Candidates(picked)) <==> Monotone(count, Candidates(picked))
  {
    var cs := Candidates(picked);
    SumIsPeak(picked, count);
    if Monotone(count, cs) {
      PeakBelow(cs, count, count(cs));
    } else {
      var n :| 0 < n <= |cs| && count(cs[..n]) > count(cs);
      PeakAbove(cs, count, n);
    }
  }

  lemma {:induction false} PeakAbove(cs: seq<Candidate>, count: Counter, n: nat)
    requires 0 < n <= |cs|
    ensures count(cs[..n]) <= Peak(cs, count)
  {
    if n < |cs| {
      var front := cs[..|cs| - 1];
      assert front[..n] == cs[..n];
      PeakAbove(front, count, n);
    } else {
      assert cs[..n] == cs;
    }
  }

  method Total(picked: seq<Picked>, ghost count: Counter) returns (total: usize)
    requires Accounted(picked, count)
    ensures total == Sum(picked)
  {
    total := 0;
    for i := 0 to |picked|
      invariant total == Sum(picked[..i])
    {
      assert picked[..i + 1][..i] == picked[..i];
      assert Sum(picked[..i + 1]) == Peak(Candidates(picked[..i + 1]), count);
      total := total + picked[i].tokens;
    }
    assert picked[..|picked|] == picked;
  }

  lemma AccountedPush(picked: seq<Picked>, last: Picked, count: Counter)
    requires Accounted(picked, count)
    requires Sum(picked) <= MAX && last.tokens == SaturatingSub(count(Candidates(picked + [last])), Sum(picked))
    ensures Accounted(picked + [last], count)
  {
    var more := picked + [last];
    SumIsPeak(picked, count);
    assert more[..|picked|] == picked;
    assert Candidates(more)[..|picked|] == Candidates(picked);
    assert Sum(more) == Peak(Candidates(more), count);
    forall n | 0 <= n <= |more| ensures Sum(more[..n]) == Peak(Candidates(more[..n]), count) {
      if n <= |picked| {
        assert more[..n] == picked[..n];
      } else {
        assert more[..n] == more;
      }
    }
  }

  method Push(candidate: Candidate, picked: seq<Picked>, count: Counter) returns (more: seq<Picked>)
    requires Accounted(picked, count)
    ensures |more| == |picked| + 1 && more[..|picked|] == picked && more[|picked|].candidate == candidate
    ensures Accounted(more, count) && Candidates(more) == Candidates(picked) + [candidate]
  {
    var before := Total(picked, count);
    var after := count(Candidates(picked) + [candidate]);
    var last := Picked(candidate, SaturatingSub(after, before));
    assert Candidates(picked + [last]) == Candidates(picked) + [candidate];
    AccountedPush(picked, last, count);
    more := picked + [last];
  }

  // ---------------------------------------------------------------------
  // One greedy pass
  // ---------------------------------------------------------------------

  /** `source` dealt out into two lists, each keeping the order of `source`. */
  ghost predicate Dealt(source: seq<Candidate>, chosen: seq<Candidate>, left: seq<Candidate>) {
    if source == [] then chosen == [] && left == []
    else
      var init, last := source[..|source| - 1], source[|source| - 1];
      || (chosen != [] && chosen[|chosen| - 1] == last && Dealt(init, chosen[..|chosen| - 1], left))
      || (left != [] && left[|left| - 1] == last && Dealt(init, chosen, left[..|left| - 1]))
  }

  lemma DealtStep(source: seq<Candidate>, chosen: seq<Candidate>, left: seq<Candidate>, c: Candidate)
    requires Dealt(source, chosen, left)
    ensures Dealt(source + [c], chosen + [c], left) && Dealt(source + [c], chosen, left + [c])
  {
    assert (source + [c])[..|source|] == source;
    assert (chosen + [c])[..|chosen|] == chosen;
    assert (left + [c])[..|left|] == left;
  }

  lemma {:induction false} DealtConserves(source: seq<Candidate>, chosen: seq<Candidate>, left: seq<Candidate>)
    requires Dealt(source, chosen, left)
    ensures multiset(source) == multiset(chosen) + multiset(left)
  {
    if source != [] {
      var init, last := source[..|source| - 1], source[|source| - 1];
      assert source == init + [last];
      if chosen != [] && chosen[|chosen| - 1] == last && Dealt(init, chosen[..|chosen| - 1], left) {
        DealtConserves(init, chosen[..|chosen| - 1], left);
        assert chosen == chosen[..|chosen| - 1] + [last];
      } else {
        DealtConserves(init, chosen, left[..|left| - 1]);
        assert left == left[..|left| - 1] + [last];
      }
    }
  }

  /** Why a candidate was left out once `chosen[..n]` had been chosen: the cap was
      reached, or beside them it counted for more than the limit. */
  ghost predicate LeftFor(
    before: seq<Candidate>, chosen: seq<Candidate>, c: Candidate, n: nat, e: Exclusion, pass: Pass)
  {
    && n <= |chosen| && e.id == c.id
    && if pass.cap.Some? && |before| + n >= pass.cap.value then e.reason == RecordBudget
       else e.reason == pass.reason && pass.count(before + chosen[..n] + [c]) > pass.limit
  }

  datatype Pass = Pass(limit: usize, reason: Reason, cap: Option<usize>, count: Counter)

  ghost predicate Justified(before: seq<Candidate>, chosen: seq<Candidate>, left: seq<Candidate>, at: seq<nat>,
                            excluded: seq<Exclusion>, pass: Pass) {
    && |at| == |left| == |excluded|
    && forall i :: 0 <= i < |left| ==> LeftFor(before, chosen, left[i], at[i], excluded[i], pass)
  }

  lemma JustifiedChoose(before: seq<Candidate>, chosen: seq<Candidate>, left: seq<Candidate>, at: seq<nat>,
                        excluded: seq<Exclusion>, pass: Pass, c: Candidate)
    requires Justified(before, chosen, left, at, excluded, pass)
    ensures Justified(before, chosen + [c], left, at, excluded, pass)
  {
    forall i | 0 <= i < |left| ensures LeftFor(before, chosen + [c], left[i], at[i], excluded[i], pass) {
      assert LeftFor(before, chosen, left[i], at[i], excluded[i], pass);
      assert (chosen + [c])[..at[i]] == chosen[..at[i]];
    }
  }

  lemma JustifiedLeave(before: seq<Candidate>, chosen: seq<Candidate>, left: seq<Candidate>, at: seq<nat>,
                       excluded: seq<Exclusion>, pass: Pass, c: Candidate, e: Exclusion)
    requires Justified(before, chosen, left, at, excluded, pass)
    requires e.id == c.id
    requires if pass.cap.Some? && |before| + |chosen| >= pass.cap.value then e.reason == RecordBudget
             else e.reason == pass.reason && pass.count(before + chosen + [c]) > pass.limit
    ensures Justified(before, chosen, left + [c], at + [|chosen|], excluded + [e], pass)
  {
    assert chosen[..|chosen|] == chosen;
    forall i | 0 <= i < |left| ensures LeftFor(before, chosen, left[i], at[i], excluded[i], pass) {}
  }

  /** What a pass leaves: the source dealt into chosen and left, every choice within
      the limit when it was made, every omission justified when it was made. */
  ghost predicate Packed(source: seq<Candidate>, before: seq<Candidate>, chosen: seq<Candidate>, left: seq<Candidate>,
                         at: seq<nat>, excluded: seq<Exclusion>, pass: Pass) {
    && Dealt(source, chosen, left)
    && Justified(before, chosen, left, at, excluded, pass)
    && (forall n :: 0 < n <= |chosen| ==> pass.count(before + chosen[..n]) <= pass.limit)
    && (pass.cap.Some? && |before| <= pass.cap.value ==> |before| + |chosen| <= pass.cap.value)
  }

  lemma PackedChoose(source: seq<Candidate>, before: seq<Candidate>, chosen: seq<Candidate>, left: seq<Candidate>,
                     at: seq<nat>, excluded: seq<Exclusion>, pass: Pass, c: Candidate)
    requires Packed(source, before, chosen, left, at, excluded, pass)
    requires pass.cap.Some? ==> |before| + |chosen| < pass.cap.value
    requires pass.count(before + chosen + [c]) <= pass.limit
    ensures Packed(source + [c], before, chosen + [c], left, at, excluded, pass)
  {
    DealtStep(source, chosen, left, c);
    JustifiedChoose(before, chosen, left, at, excluded, pass, c);
    forall n | 0 < n <= |chosen| + 1 ensures pass.count(before + (chosen + [c])[..n]) <= pass.limit {
      if n <= |chosen| {
        assert (chosen + [c])[..n] == chosen[..n];
      } else {
        assert before + (chosen + [c])[..n] == before + chosen + [c];
      }
    }
  }

  // ---------------------------------------------------------------------
  // The same pass by the places of what it takes
  // ---------------------------------------------------------------------

  /** Places in a list of that length, in order. */
  ghost predicate Ascending(at: seq<nat>, length: nat) {
    && (forall k :: 0 <= k < |at| ==> at[k] < length)
    && (forall j, k :: 0 <= j < k < |at| ==> at[j] < at[k])
  }

  ghost function Those(cs: seq<Candidate>, at: seq<nat>): (those: seq<Candidate>)
    requires Ascending(at, |cs|)
    ensures |those| == |at| && forall k :: 0 <= k < |at| ==> those[k] == cs[at[k]]
  {
    seq(|at|, k requires 0 <= k < |at| => cs[at[k]])
  }

  /** The first `n` of the places, and no more, are before `i`. */
  ghost predicate Precede(at: seq<nat>, i: nat, n: nat) {
    && n <= |at|
    && (forall k :: 0 <= k < n ==> at[k] < i)
    && (forall k :: n <= k < |at| ==> i <= at[k])
  }

  ghost predicate Fits(before: seq<Candidate>, c: Candidate, pass: Pass) {
    (pass.cap.Some? ==> |before| < pass.cap.value) && pass.count(before + [c]) <= pass.limit
  }

  /** Those of the tier at the places `at` are taken, in the order of the candidates: each
      exactly when it fits beside `before` and the ones taken ahead of it. */
  ghost predicate Greedy(cs: seq<Candidate>, tier: Tier, at: seq<nat>, before: seq<Candidate>, pass: Pass) {
    && Ascending(at, |cs|)
    && (forall k :: 0 <= k < |at| ==> cs[at[k]].tier == tier)
    && forall i: nat, n: nat :: i < |cs| && cs[i].tier == tier && Precede(at, i, n) ==>
         (i in at <==> Fits(before + Those(cs, at)[..n], cs[i], pass))
  }

  /** And each of the tier that is not has an exclusion that says which limit it met. */
  ghost predicate Explained(cs: seq<Candidate>, tier: Tier, at: seq<nat>, before: seq<Candidate>,
                            excluded: seq<Exclusion>, pass: Pass) {
    forall i: nat, n: nat :: i < |cs| && cs[i].tier == tier && Precede(at, i, n) && i !in at ==>
      Exclusion(cs[i].id, if pass.cap.Some? && |before| + n >= pass.cap.value then RecordBudget else pass.reason)
      in excluded
  }

  ghost predicate Passed(cs: seq<Candidate>, tier: Tier, at: seq<nat>, before: seq<Candidate>,
                        excluded: seq<Exclusion>, pass: Pass) {
    Greedy(cs, tier, at, before, pass) && Explained(cs, tier, at, before, excluded, pass)
  }

  lemma NotPast(at: seq<nat>, i: nat, n: nat)
    requires 0 < n <= |at| && i <= at[n - 1]
    ensures !Precede(at, i, n)
  {
    assert at[n - 1] >= i;
  }

  lemma NotShort(at: seq<nat>, i: nat, n: nat)
    requires n < |at| && at[n] < i
    ensures !Precede(at, i, n)
  {
    assert at[n] < i;
  }

  lemma AllPrecede(at: seq<nat>, length: nat, n: nat)
    requires Ascending(at, length) && Precede(at, length, n)
    ensures n == |at|
  {
    if n < |at| {
      NotShort(at, length, n);
    }
  }

  lemma OneMorePrecedes(at: seq<nat>, length: nat, i: nat, n: nat)
    requires Ascending(at, length) && i <= length && Precede(at + [length], i, n)
    ensures Precede(at, i, n) && (i == length ==> n == |at|)
  {
    var more := at + [length];
    assert more[|at|] == length;
    if n == |more| {
      NotPast(more, i, n);
    } else {
      assert forall k :: 0 <= k < |at| ==> more[k] == at[k];
      if i == length {
        AllPrecede(at, length, n);
      }
    }
  }

  lemma GreedyChoose(cs: seq<Candidate>, tier: Tier, at: seq<nat>, before: seq<Candidate>, excluded: seq<Exclusion>,
                     pass: Pass, c: Candidate)
    requires Passed(cs, tier, at, before, excluded, pass) && c.tier == tier
    requires Fits(before + Those(cs, at), c, pass)
    ensures Passed(cs + [c], tier, at + [|cs|], before, excluded, pass)
    ensures Those(cs + [c], at + [|cs|]) == Those(cs, at) + [c]
  {
    var more, places := cs + [c], at + [|cs|];
    assert places[|at|] == |cs|;
    forall i: nat, n: nat | i < |more| && more[i].tier == tier && Precede(places, i, n)
      ensures i in places <==> Fits(before + Those(more, places)[..n], more[i], pass)
      ensures i !in places ==>
        Exclusion(more[i].id, if pass.cap.Some? && |before| + n >= pass.cap.value then RecordBudget else pass.reason)
        in excluded
    {
      OneMorePrecedes(at, |cs|, i, n);
      assert Those(more, places)[..n] == Those(cs, at)[..n];
      if i == |cs| {
        assert Those(cs, at)[..n] == Those(cs, at);
      }
    }
  }

  lemma GreedyLeave(cs: seq<Candidate>, tier: Tier, at: seq<nat>, before: seq<Candidate>, excluded: seq<Exclusion>,
                    pass: Pass, c: Candidate, e: Exclusion)
    requires Passed(cs, tier, at, before, excluded, pass) && c.tier == tier
    requires !Fits(before + Those(cs, at), c, pass)
    requires e ==
      Exclusion(c.id, if pass.cap.Some? && |before| + |at| >= pass.cap.value then RecordBudget else pass.reason)
    ensures Passed(cs + [c], tier, at, before, excluded + [e], pass)
    ensures Those(cs + [c], at) == Those(cs, at)
  {
    var more := cs + [c];
    assert Those(more, at) == Those(cs, at);
    forall i: nat, n: nat | i < |more| && more[i].tier == tier && Precede(at, i, n)
      ensures i in at <==> Fits(before + Those(more, at)[..n], more[i], pass)
      ensures i !in at ==>
        Exclusion(more[i].id, if pass.cap.Some? && |before| + n >= pass.cap.value then RecordBudget else pass.reason)
        in excluded + [e]
    {
      if i == |cs| {
        AllPrecede(at, |cs|, n);
        assert Those(more, at)[..n] == Those(cs, at);
      }
    }
  }

  /** One pass and what came of it; `places` are where what it took stands. */
  datatype Tally = Tally(chosen: seq<Candidate>, left: seq<Candidate>, at: seq<nat>, excluded: seq<Exclusion>,
                         places: seq<nat>)

  const NOTHING := Tally([], [], [], [], [])

  /** A pass so far: what it took and left, by the list and by its places. */
  ghost predicate Taking(source: seq<Candidate>, tier: Tier, before: seq<Candidate>, t: Tally, pass: Pass) {
    && Packed(source, before, t.chosen, t.left, t.at, t.excluded, pass)
    && Passed(source, tier, t.places, before, t.excluded, pass) && t.chosen == Those(source, t.places)
  }

  ghost function Chosen(t: Tally, c: Candidate, place: nat): Tally {
    t.(chosen := t.chosen + [c], places := t.places + [place])
  }

  ghost function Left(t: Tally, c: Candidate, e: Exclusion): Tally {
    t.(left := t.left + [c], at := t.at + [|t.chosen|], excluded := t.excluded + [e])
  }

  lemma TakingChoose(source: seq<Candidate>, tier: Tier, before: seq<Candidate>, t: Tally, pass: Pass, c: Candidate)
    requires Taking(source, tier, before, t, pass) && c.tier == tier && Fits(before + t.chosen, c, pass)
    ensures Taking(source + [c], tier, before, Chosen(t, c, |source|), pass)
  {
    PackedChoose(source, before, t.chosen, t.left, t.at, t.excluded, pass, c);
    GreedyChoose(source, tier, t.places, before, t.excluded, pass, c);
  }

  lemma TakingLeave(source: seq<Candidate>, tier: Tier, before: seq<Candidate>, t: Tally, pass: Pass, c: Candidate,
                    e: Exclusion)
    requires Taking(source, tier, before, t, pass) && c.tier == tier && !Fits(before + t.chosen, c, pass)
    requires e ==
      Exclusion(c.id, if pass.cap.Some? && |before| + |t.chosen| >= pass.cap.value then RecordBudget else pass.reason)
    ensures Taking(source + [c], tier, before, Left(t, c, e), pass)
  {
    GreedyLeave(source, tier, t.places, before, t.excluded, pass, c, e);
    DealtStep(source, t.chosen, t.left, c);
    JustifiedLeave(before, t.chosen, t.left, t.at, t.excluded, pass, c, e);
  }

  /** What a pass makes of a list. */
  ghost function Pick(source: seq<Candidate>, before: seq<Candidate>, pass: Pass): Tally {
    if source == [] then NOTHING
    else
      var t, place := Pick(source[..|source| - 1], before, pass), |source| - 1;
      var c := source[place];
      if Fits(before + t.chosen, c, pass) then Chosen(t, c, place)
      else
        var full := pass.cap.Some? && |before| + |t.chosen| >= pass.cap.value;
        Left(t, c, Exclusion(c.id, if full then RecordBudget else pass.reason))
  }

  lemma PickStep(source: seq<Candidate>, i: nat, before: seq<Candidate>, pass: Pass)
    requires i < |source|
    ensures var t, c := Pick(source[..i], before, pass), source[i];
      Pick(source[..i + 1], before, pass) ==
        if Fits(before + t.chosen, c, pass) then Chosen(t, c, i)
        else if pass.cap.Some? && |before| + |t.chosen| >= pass.cap.value then Left(t, c, Exclusion(c.id, RecordBudget))
        else Left(t, c, Exclusion(c.id, pass.reason))
  {
    assert source[..i + 1][..i] == source[..i];
  }

  lemma {:induction false} PickIsTaking(source: seq<Candidate>, tier: Tier, before: seq<Candidate>, pass: Pass)
    requires forall c :: c in source ==> c.tier == tier
    ensures Taking(source, tier, before, Pick(source, before, pass), pass)
  {
    if source != [] {
      var init, c := source[..|source| - 1], source[|source| - 1];
      PickIsTaking(init, tier, before, pass);
      var t, more := Pick(init, before, pass), Pick(source, before, pass);
      assert source == init + [c];
      if Fits(before + t.chosen, c, pass) {
        TakingChoose(init, tier, before, t, pass, c);
      } else {
        TakingLeave(init, tier, before, t, pass, c, more.excluded[|t.excluded|]);
      }
    }
  }

  method Take(source: seq<Candidate>, picked: seq<Picked>, excluded: seq<Exclusion>, pass: Pass, ghost tier: Tier)
    returns (more: seq<Picked>, out: seq<Exclusion>, ghost t: Tally)
    requires Accounted(picked, pass.count) && forall c :: c in source ==> c.tier == tier
    ensures Accounted(more, pass.count)
    ensures picked <= more && Candidates(more) == Candidates(picked) + t.chosen && out == excluded + t.excluded
    ensures Taking(source, tier, Candidates(picked), t, pass)
  {
    more, out := picked, excluded;
    ghost var before := Candidates(picked);
    t := NOTHING;
    for i := 0 to |source|
      invariant Accounted(more, pass.count) && t == Pick(source[..i], before, pass)
      invariant picked <= more && Candidates(more) == before + t.chosen && out == excluded + t.excluded
    {
      var candidate := source[i];
      PickStep(source, i, before, pass);
      assert before + t.chosen + [candidate] == before + (t.chosen + [candidate]);
      if pass.cap.Some? && |more| >= pass.cap.value {
        t := Left(t, candidate, Exclusion(candidate.id, RecordBudget));
        out := out + [Exclusion(candidate.id, RecordBudget)];
        continue;
      }
      var next := pass.count(Candidates(more) + [candidate]);
      if next <= pass.limit {
        t := Chosen(t, candidate, i);
        more := Push(candidate, more, pass.count);
      } else {
        t := Left(t, candidate, Exclusion(candidate.id, pass.reason));
        out := out + [Exclusion(candidate.id, pass.reason)];
      }
    }
    assert source[..|source|] == source;
    PickIsTaking(source, tier, before, pass);
  }

  // ---------------------------------------------------------------------
  // The whole answer
  // ---------------------------------------------------------------------

  function OfTier(cs: seq<Candidate>, tier: Tier): (out: seq<Candidate>)
    ensures forall c :: c in out <==> c in cs && c.tier == tier
  {
    if cs == [] then []
    else
      var init, last := cs[..|cs| - 1], cs[|cs| - 1];
      assert cs == init + [last];
      OfTier(init, tier) + if last.tier == tier then [last] else []
  }

  /** Where the candidates of a tier stand. */
  ghost function Places(cs: seq<Candidate>, tier: Tier): (at: seq<nat>)
    ensures Ascending(at, |cs|)
    ensures forall i: nat :: i in at <==> i < |cs| && cs[i].tier == tier
  {
    if cs == [] then []
    else
      var init, last := cs[..|cs| - 1], cs[|cs| - 1];
      Places(init, tier) + if last.tier == tier then [|cs| - 1] else []
  }

  lemma {:induction false} TierIsInPlace(cs: seq<Candidate>, tier: Tier)
    ensures OfTier(cs, tier) == Those(cs, Places(cs, tier))
  {
    if cs != [] {
      TierIsInPlace(cs[..|cs| - 1], tier);
    }
  }

  ghost function Through(places: seq<nat>, taken: seq<nat>): (at: seq<nat>)
    requires Ascending(taken, |places|)
    ensures |at| == |taken| && forall k :: 0 <= k < |at| ==> at[k] == places[taken[k]]
  {
    seq(|taken|, k requires 0 <= k < |taken| => places[taken[k]])
  }

  /** What a pass takes of one tier's list, it takes of the candidates. */
  lemma PassInPlace(cs: seq<Candidate>, tier: Tier, taken: seq<nat>, before: seq<Candidate>,
                    excluded: seq<Exclusion>, pass: Pass)
    requires Passed(OfTier(cs, tier), tier, taken, before, excluded, pass)
    requires |OfTier(cs, tier)| == |Places(cs, tier)|
    ensures var at := Through(Places(cs, tier), taken);
      Passed(cs, tier, at, before, excluded, pass) && Those(cs, at) == Those(OfTier(cs, tier), taken)
  {
    var at := Through(Places(cs, tier), taken);
    TierIsInPlace(cs, tier);
    assert Those(cs, at) == Those(OfTier(cs, tier), taken);
    forall i: nat, n: nat | i < |cs| && cs[i].tier == tier && Precede(at, i, n)
      ensures i in at <==> Fits(before + Those(cs, at)[..n], cs[i], pass)
      ensures i !in at ==>
        Exclusion(cs[i].id, if pass.cap.Some? && |before| + n >= pass.cap.value then RecordBudget else pass.reason)
        in excluded
    {
      PassAt(cs, tier, OfTier(cs, tier), Places(cs, tier), taken, before, excluded, pass, i, n);
    }
  }

  lemma PassAt(cs: seq<Candidate>, tier: Tier, source: seq<Candidate>, places: seq<nat>, taken: seq<nat>,
               before: seq<Candidate>, excluded: seq<Exclusion>, pass: Pass, i: nat, n: nat)
    requires Passed(source, tier, taken, before, excluded, pass)
    requires Ascending(places, |cs|) && |places| == |source| && source == Those(cs, places)
    requires i in places && cs[i].tier == tier && Precede(Through(places, taken), i, n)
    ensures i in Through(places, taken) <==> Fits(before + Those(source, taken)[..n], cs[i], pass)
    ensures i !in Through(places, taken) ==>
      Exclusion(cs[i].id, if pass.cap.Some? && |before| + n >= pass.cap.value then RecordBudget else pass.reason)
      in excluded
  {
    var k := InTheList(places, taken, i, n);
    assert source[k] == cs[i];
  }

  lemma InTheList(places: seq<nat>, taken: seq<nat>, i: nat, n: nat) returns (k: nat)
    requires forall a, b :: 0 <= a < b < |places| ==> places[a] < places[b]
    requires Ascending(taken, |places|) && i in places && Precede(Through(places, taken), i, n)
    ensures k < |places| && places[k] == i && Precede(taken, k, n) && (i in Through(places, taken) <==> k in taken)
  {
    var at := Through(places, taken);
    k :| 0 <= k < |places| && places[k] == i;
    forall j | 0 <= j < |taken| ensures taken[j] < k <==> at[j] < i {
      assert at[j] == places[taken[j]];
    }
    if i in at {
      var j :| 0 <= j < |at| && at[j] == i;
      assert taken[j] == k;
    }
    if k in taken {
      var j :| 0 <= j < |taken| && taken[j] == k;
      assert at[j] == i;
    }
  }

  method Tiers(cs: seq<Candidate>) returns (required: seq<Candidate>, core: seq<Candidate>, relevant: seq<Candidate>)
    ensures required == OfTier(cs, Required) && core == OfTier(cs, Core) && relevant == OfTier(cs, Relevant)
  {
    required, core, relevant := [], [], [];
    for i := 0 to |cs|
      invariant required == OfTier(cs[..i], Required)
      invariant core == OfTier(cs[..i], Core)
      invariant relevant == OfTier(cs[..i], Relevant)
    {
      assert cs[..i + 1][..i] == cs[..i];
      match cs[i].tier {
        case Required => required := required + [cs[i]];
        case Core => core := core + [cs[i]];
        case Relevant => relevant := relevant + [cs[i]];
      }
    }
    assert cs[..|cs|] == cs;
  }

  function RequiredLimit(budget: ContextBudget, runtime: RuntimeBudget): (limit: usize)
    ensures limit <= ContentLimit(budget, runtime) && (budget.requiredCap.Some? ==> limit <= budget.requiredCap.value)
    ensures limit == ContentLimit(budget, runtime) || budget.requiredCap == Some(limit)
  {
    Min(Or(budget.requiredCap, MAX), ContentLimit(budget, runtime))
  }

  /** What core may not touch: as much of the floor as the relevant records could
      use and as fits beside the required ones. */
  function Protected(budget: ContextBudget, runtime: RuntimeBudget, needed: usize, relevantCost: usize): (kept: usize)
    ensures kept <= relevantCost && (kept == 0 || needed + kept <= ContentLimit(budget, runtime))
    ensures if budget.relevantFloor.None? then kept == 0 else kept <= budget.relevantFloor.value
    ensures budget.relevantFloor.None? || budget.relevantFloor == Some(kept) || kept == relevantCost
      || needed + kept >= ContentLimit(budget, runtime)
  {
    Min(Min(Or(budget.relevantFloor, 0), relevantCost), SaturatingSub(ContentLimit(budget, runtime), needed))
  }

  function CoreLimit(budget: ContextBudget, runtime: RuntimeBudget, needed: usize, relevantCost: usize): (limit: usize)
    ensures budget.coreCap.Some? ==> limit <= needed + budget.coreCap.value
    ensures limit + Protected(budget, runtime, needed, relevantCost) == ContentLimit(budget, runtime)
      || (budget.coreCap.Some? && limit == needed + budget.coreCap.value) || limit == MAX
  {
    Min(SaturatingAdd(needed, Or(budget.coreCap, MAX)),
        SaturatingSub(ContentLimit(budget, runtime), Protected(budget, runtime, needed, relevantCost)))
  }

  datatype Request = Request(candidates: seq<Candidate>, budget: ContextBudget, runtime: RuntimeBudget, count: Counter)

  ghost function RequiredOf(q: Request): seq<Candidate> {
    OfTier(q.candidates, Required)
  }

  ghost function Needed(q: Request): usize {
    Peak(RequiredOf(q), q.count)
  }

  ghost function RelevantCost(q: Request): usize {
    SaturatingSub(q.count(RequiredOf(q) + OfTier(q.candidates, Relevant)), Needed(q))
  }

  ghost function CorePass(q: Request): Pass {
    Pass(CoreLimit(q.budget, q.runtime, Needed(q), RelevantCost(q)), CoreCap, q.runtime.records, q.count)
  }

  ghost function RelevantPass(q: Request): Pass {
    Pass(ContentLimit(q.budget, q.runtime), TotalBudget, q.runtime.records, q.count)
  }

  ghost predicate Overflows(q: Request) {
    Needed(q) > RequiredLimit(q.budget, q.runtime)
  }

  ghost predicate PackedAs(q: Request, core: Tally, relevant: Tally) {
    var required := RequiredOf(q);
    && Packed(OfTier(q.candidates, Core), required, core.chosen, core.left, core.at, core.excluded, CorePass(q))
    && Packed(OfTier(q.candidates, Relevant), required + core.chosen,
              relevant.chosen, relevant.left, relevant.at, relevant.excluded, RelevantPass(q))
  }

  /** The answer place by place: every required candidate, then core and relevant ones, each
      tier in the order of the candidates and each candidate exactly when it fits beside
      what is ahead of it. */
  ghost predicate ServedInOrder(q: Request, selected: seq<Candidate>, core: Tally, relevant: Tally) {
    var cs, required := q.candidates, Places(q.candidates, Required);
    && Passed(cs, Core, core.places, Those(cs, required), core.excluded, CorePass(q))
    && Passed(cs, Relevant, relevant.places, Those(cs, required) + Those(cs, core.places), relevant.excluded,
             RelevantPass(q))
    && selected == Those(cs, required) + Those(cs, core.places) + Those(cs, relevant.places)
  }

  predicate Degrades(reason: Reason) {
    reason != Earlier
  }

  predicate IdOrder(a: Exclusion, b: Exclusion) {
    a.id <= b.id
  }

  ghost function TierSum(picked: seq<Picked>, tier: Tier): nat {
    if picked == [] then 0
    else TierSum(picked[..|picked| - 1], tier)
         + if picked[|picked| - 1].candidate.tier == tier then picked[|picked| - 1].tokens else 0
  }

  lemma {:induction false} TierSums(picked: seq<Picked>)
    ensures TierSum(picked, Required) + TierSum(picked, Core) + TierSum(picked, Relevant) == Sum(picked)
  {
    if picked != [] {
      TierSums(picked[..|picked| - 1]);
    }
  }

  method TierTokens(picked: seq<Picked>, tier: Tier, ghost count: Counter) returns (tokens: usize)
    requires Accounted(picked, count)
    ensures tokens == TierSum(picked, tier)
  {
    tokens := 0;
    for i := 0 to |picked|
      invariant tokens == TierSum(picked[..i], tier)
    {
      assert picked[..i + 1][..i] == picked[..i];
      assert Sum(picked[..i + 1]) == Peak(Candidates(picked[..i + 1]), count);
      TierSums(picked[..i + 1]);
      if picked[i].candidate.tier == tier {
        tokens := tokens + picked[i].tokens;
      }
    }
    assert picked[..|picked|] == picked;
  }

  /** The report: usage by tier, and whether anything was cut for the budget. */
  method Finish(picked: seq<Picked>, excluded: seq<Exclusion>, q: Request, requiredLimit: usize,
                requiredNeeded: usize, requiredOverflow: nat)
    returns (b: Budgeted)
    requires Accounted(picked, q.count)
    ensures b.selected == picked && multiset(b.excluded) == multiset(excluded) && Sorting.Sorted(b.excluded, IdOrder)
    ensures b.degraded <==> requiredOverflow > 0 || exists e :: e in excluded && Degrades(e.reason)
    ensures b.usage.content == q.count(Candidates(picked)) && b.usage.reserved == Reserve(q.budget, q.runtime)
    ensures b.usage.total == SaturatingAdd(b.usage.content, b.usage.reserved)
    ensures b.usage.required == TierSum(picked, Required)
    ensures b.usage.core == TierSum(picked, Core) && b.usage.relevant == TierSum(picked, Relevant)
    ensures b.requiredLimit == requiredLimit && b.requiredNeeded == requiredNeeded
    ensures b.requiredOverflow == requiredOverflow
    ensures b.effectiveTotal == EffectiveTotal(q.budget, q.runtime.tokens)
  {
    var sorted := Sorting.Sort(excluded, IdOrder);
    Sorting.SortSorts(excluded, IdOrder);
    var degraded := requiredOverflow > 0 || exists e :: e in excluded && Degrades(e.reason);
    var content := q.count(Candidates(picked));
    var reserve := Reserve(q.budget, q.runtime);
    var required := TierTokens(picked, Required, q.count);
    var core := TierTokens(picked, Core, q.count);
    var relevant := TierTokens(picked, Relevant, q.count);
    var usage := Usage(required, core, relevant, content, reserve, SaturatingAdd(content, reserve));
    b := Budgeted(picked, sorted, usage, degraded, requiredLimit, requiredNeeded, requiredOverflow,
                  EffectiveTotal(q.budget, q.runtime.tokens));
  }

  method PushAll(required: seq<Candidate>, count: Counter) returns (picked: seq<Picked>)
    ensures Accounted(picked, count) && Candidates(picked) == required
  {
    picked := [];
    for i := 0 to |required|
      invariant Accounted(picked, count) && Candidates(picked) == required[..i]
    {
      assert required[..i + 1] == required[..i] + [required[i]];
      picked := Push(required[i], picked, count);
    }
    assert required[..|required|] == required;
  }

  function Overflowed(picked: seq<Picked>): (out: seq<Exclusion>)
    ensures |out| == |picked|
    ensures forall i :: 0 <= i < |out| ==> out[i] == Exclusion(picked[i].candidate.id, RequiredOverflow)
  {
    seq(|picked|, i requires 0 <= i < |picked| => Exclusion(picked[i].candidate.id, RequiredOverflow))
  }

  /** Core up to its limit, then relevant up to the content limit. */
  method PackTiers(q: Request, picked: seq<Picked>, needed: usize, coreOnes: seq<Candidate>,
                   relevantOnes: seq<Candidate>, earlier: seq<Exclusion>)
    returns (more: seq<Picked>, excluded: seq<Exclusion>, ghost core: Tally, ghost relevant: Tally)
    requires Accounted(picked, q.count) && Candidates(picked) == RequiredOf(q) && needed == Needed(q)
    requires coreOnes == OfTier(q.candidates, Core) && relevantOnes == OfTier(q.candidates, Relevant)
    ensures Accounted(more, q.count) && PackedAs(q, core, relevant)
    ensures Candidates(more) == RequiredOf(q) + core.chosen + relevant.chosen
    ensures ServedInOrder(q, Candidates(more), core, relevant)
    ensures excluded == earlier + core.excluded + relevant.excluded
    ensures forall c :: c in core.chosen ==> c.tier == Core
    ensures forall c :: c in relevant.chosen ==> c.tier == Relevant
  {
    var contentLimit := ContentLimit(q.budget, q.runtime);
    var relevantCost := SaturatingSub(q.count(Candidates(picked) + relevantOnes), needed);
    excluded := earlier;
    var coreLimit := CoreLimit(q.budget, q.runtime, needed, relevantCost);
    more, excluded, core :=
      Take(coreOnes, picked, excluded, Pass(coreLimit, CoreCap, q.runtime.records, q.count), Core);
    more, excluded, relevant :=
      Take(relevantOnes, more, excluded, Pass(contentLimit, TotalBudget, q.runtime.records, q.count), Relevant);
    core, relevant := InPlace(q, core, relevant);
  }

  /** The places of what was taken, among all the candidates. */
  lemma InPlace(q: Request, core: Tally, relevant: Tally) returns (c: Tally, r: Tally)
    requires Taking(OfTier(q.candidates, Core), Core, RequiredOf(q), core, CorePass(q))
    requires Taking(OfTier(q.candidates, Relevant), Relevant, RequiredOf(q) + core.chosen, relevant, RelevantPass(q))
    ensures c == core.(places := c.places) && r == relevant.(places := r.places)
    ensures PackedAs(q, c, r) && ServedInOrder(q, RequiredOf(q) + c.chosen + r.chosen, c, r)
    ensures forall x :: x in c.chosen ==> x.tier == Core
    ensures forall x :: x in r.chosen ==> x.tier == Relevant
  {
    TierIsInPlace(q.candidates, Required);
    TierIsInPlace(q.candidates, Core);
    TierIsInPlace(q.candidates, Relevant);
    PassInPlace(q.candidates, Core, core.places, RequiredOf(q), core.excluded, CorePass(q));
    c := core.(places := Through(Places(q.candidates, Core), core.places));
    PassInPlace(q.candidates, Relevant, relevant.places, RequiredOf(q) + core.chosen, relevant.excluded,
                RelevantPass(q));
    r := relevant.(places := Through(Places(q.candidates, Relevant), relevant.places));
  }

  lemma {:induction false} TierSumOf(picked: seq<Picked>, tier: Tier)
    requires forall i :: 0 <= i < |picked| ==> picked[i].candidate.tier == tier
    ensures forall t :: TierSum(picked, t) == if t == tier then Sum(picked) else 0
  {
    if picked != [] {
      TierSumOf(picked[..|picked| - 1], tier);
    }
  }

  lemma {:induction false} SumsJoin(a: seq<Picked>, b: seq<Picked>)
    ensures Sum(a + b) == Sum(a) + Sum(b)
    ensures forall t :: TierSum(a + b, t) == TierSum(a, t) + TierSum(b, t)
  {
    if b == [] {
      assert a + b == a;
    } else {
      SumsJoin(a, b[..|b| - 1]);
      assert (a + b)[..|a + b| - 1] == a + b[..|b| - 1];
    }
  }

  lemma StretchSums(picked: seq<Picked>, lo: nat, hi: nat, tier: Tier)
    requires lo <= hi <= |picked| && forall i :: lo <= i < hi ==> Candidates(picked)[i].tier == tier
    ensures forall t :: TierSum(picked[lo..hi], t) == if t == tier then Sum(picked[lo..hi]) else 0
  {
    forall i | 0 <= i < hi - lo ensures picked[lo..hi][i].candidate.tier == tier {
      assert picked[lo..hi][i].candidate == Candidates(picked)[lo + i];
    }
    TierSumOf(picked[lo..hi], tier);
  }

  lemma StretchTiers(cs: seq<Candidate>, required: seq<Candidate>, core: seq<Candidate>, relevant: seq<Candidate>)
    requires cs == required + core + relevant
    requires forall c :: c in required ==> c.tier == Required
    requires forall c :: c in core ==> c.tier == Core
    requires forall c :: c in relevant ==> c.tier == Relevant
    ensures forall i :: 0 <= i < |required| ==> cs[i].tier == Required
    ensures forall i :: |required| <= i < |required| + |core| ==> cs[i].tier == Core
    ensures forall i :: |required| + |core| <= i < |cs| ==> cs[i].tier == Relevant
  {
    assert forall i :: 0 <= i < |required| ==> cs[i] in required;
    assert forall i :: |required| <= i < |required| + |core| ==> cs[i] in core;
    assert forall i :: |required| + |core| <= i < |cs| ==> cs[i] in relevant;
  }

  lemma ThreeStretches(picked: seq<Picked>, r: nat, n: nat)
    requires r <= n <= |picked|
    ensures Sum(picked[..n]) == Sum(picked[..r]) + Sum(picked[r..n])
    ensures forall t ::
      TierSum(picked, t) == TierSum(picked[..r], t) + TierSum(picked[r..n], t) + TierSum(picked[n..|picked|], t)
  {
    SumsJoin(picked[..r], picked[r..n]);
    assert picked[..r] + picked[r..n] == picked[..n];
    SumsJoin(picked[..n], picked[n..|picked|]);
    assert picked[..n] + picked[n..|picked|] == picked;
  }

  /** What a tier is charged is what its stretch of the selection is. */
  lemma ChargedByTier(picked: seq<Picked>, required: seq<Candidate>, core: seq<Candidate>, relevant: seq<Candidate>)
    requires Candidates(picked) == required + core + relevant
    requires forall c :: c in required ==> c.tier == Required
    requires forall c :: c in core ==> c.tier == Core
    requires forall c :: c in relevant ==> c.tier == Relevant
    ensures |required| + |core| <= |picked| && TierSum(picked, Required) == Sum(picked[..|required|])
    ensures TierSum(picked, Required) + TierSum(picked, Core) == Sum(picked[..|required| + |core|])
  {
    var r, n := |required|, |required| + |core|;
    StretchTiers(Candidates(picked), required, core, relevant);
    StretchSums(picked, 0, r, Required);
    StretchSums(picked, r, n, Core);
    StretchSums(picked, n, |picked|, Relevant);
    assert picked[0..r] == picked[..r];
    ThreeStretches(picked, r, n);
  }

  lemma CutShows(q: Request, earlier: seq<Exclusion>, core: Tally, relevant: Tally, degraded: bool)
    requires PackedAs(q, core, relevant)
    requires degraded <==> exists e :: e in earlier + core.excluded + relevant.excluded && Degrades(e.reason)
    ensures CutsShow(degraded, earlier, core, relevant)
  {
    forall i | 0 <= i < |core.left|
      ensures core.excluded[i].reason == CoreCap || core.excluded[i].reason == RecordBudget
    {
      assert LeftFor(RequiredOf(q), core.chosen, core.left[i], core.at[i], core.excluded[i], CorePass(q));
    }
    forall i | 0 <= i < |relevant.left|
      ensures relevant.excluded[i].reason == TotalBudget || relevant.excluded[i].reason == RecordBudget
    {
      assert LeftFor(RequiredOf(q) + core.chosen, relevant.chosen, relevant.left[i], relevant.at[i],
                     relevant.excluded[i], RelevantPass(q));
    }
    var all := earlier + core.excluded + relevant.excluded;
    assert forall e :: e in all <==> e in earlier || e in core.excluded || e in relevant.excluded;
    if core.left != [] {
      assert core.excluded[0] in all && Degrades(core.excluded[0].reason);
    }
    if relevant.left != [] {
      assert relevant.excluded[0] in all && Degrades(relevant.excluded[0].reason);
    }
  }

  /** Each tier is charged what its records were. */
  ghost predicate Charged(q: Request, b: Budgeted, core: Tally) {
    var required := |RequiredOf(q)|;
    var both := if Overflows(q) then required else required + |core.chosen|;
    && both <= |b.selected|
    && b.usage.required == Sum(b.selected[..required])
    && b.usage.required + b.usage.core == Sum(b.selected[..both])
    && b.usage.required + b.usage.core + b.usage.relevant == Sum(b.selected)
  }

  /** The reserve counts when there is a total to keep, and the sum stays a machine word;
      what was left out goes by id. */
  ghost predicate Totalled(q: Request, b: Budgeted) {
    var usage, reserve := b.usage, q.budget.receiptReserve;
    && usage.content == q.count(Candidates(b.selected))
    && usage.reserved == (if b.effectiveTotal.Some? && reserve.Some? then reserve.value else 0)
    && usage.total == (if usage.content + usage.reserved <= MAX then usage.content + usage.reserved else MAX)
    && forall i, j :: 0 <= i < j < |b.excluded| ==> b.excluded[i].id <= b.excluded[j].id
  }

  /** Anything cut for the budget shows, and says which limit cut it. */
  ghost predicate CutsShow(degraded: bool, earlier: seq<Exclusion>, core: Tally, relevant: Tally) {
    && (degraded <==> core.left != [] || relevant.left != [] || exists e :: e in earlier && !e.reason.Earlier?)
    && (forall e :: e in core.excluded ==> e.reason == CoreCap || e.reason == RecordBudget)
    && (forall e :: e in relevant.excluded ==> e.reason == TotalBudget || e.reason == RecordBudget)
  }

  lemma ChargesReported(q: Request, b: Budgeted, core: Tally, relevant: Tally)
    requires b.usage.required == TierSum(b.selected, Required)
    requires b.usage.core == TierSum(b.selected, Core) && b.usage.relevant == TierSum(b.selected, Relevant)
    requires Candidates(b.selected) == RequiredOf(q) + core.chosen + relevant.chosen
    requires Overflows(q) ==> core.chosen == []
    requires forall c :: c in core.chosen ==> c.tier == Core
    requires forall c :: c in relevant.chosen ==> c.tier == Relevant
    ensures Charged(q, b, core)
  {
    TierSums(b.selected);
    ChargedByTier(b.selected, RequiredOf(q), core.chosen, relevant.chosen);
  }

  lemma TotalsReported(q: Request, b: Budgeted)
    requires b.usage.content == q.count(Candidates(b.selected)) && b.usage.reserved == Reserve(q.budget, q.runtime)
    requires b.usage.total == SaturatingAdd(b.usage.content, b.usage.reserved)
    requires b.effectiveTotal == EffectiveTotal(q.budget, q.runtime.tokens) && Sorting.Sorted(b.excluded, IdOrder)
    ensures Totalled(q, b)
  {
    assert forall i, j :: 0 <= i < j < |b.excluded| ==> IdOrder(b.excluded[i], b.excluded[j]);
  }

  /** None when the required records alone exceed the record limit. */
  method Apply(q: Request, earlier: seq<Exclusion>)
    returns (b: Option<Budgeted>, ghost core: Tally, ghost relevant: Tally)
    ensures b.None? <==> q.runtime.records.Some? && |RequiredOf(q)| > q.runtime.records.value
    ensures b.Some? ==> Accounted(b.value.selected, q.count) && b.value.requiredNeeded == Needed(q)
    ensures b.Some? && Overflows(q) ==>
      && Candidates(b.value.selected) == RequiredOf(q)
      && b.value.requiredOverflow == |RequiredOf(q)| > 0 && b.value.degraded
      && multiset(b.value.excluded) == multiset(earlier + Overflowed(b.value.selected))
    ensures b.Some? && !Overflows(q) ==>
      && PackedAs(q, core, relevant)
      && Candidates(b.value.selected) == RequiredOf(q) + core.chosen + relevant.chosen
      && multiset(b.value.excluded) == multiset(earlier + core.excluded + relevant.excluded)
      && ServedInOrder(q, Candidates(b.value.selected), core, relevant)
      && b.value.requiredOverflow == 0
    ensures b.Some? ==> b.value.effectiveTotal == EffectiveTotal(q.budget, q.runtime.tokens)
    ensures b.Some? ==> b.value.requiredLimit == RequiredLimit(q.budget, q.runtime)
    ensures b.Some? ==> Charged(q, b.value, core) && Totalled(q, b.value)
    ensures b.Some? && !Overflows(q) ==> CutsShow(b.value.degraded, earlier, core, relevant)
  {
    core, relevant := NOTHING, NOTHING;
    var requiredLimit := RequiredLimit(q.budget, q.runtime);
    var requiredOnes, coreOnes, relevantOnes := Tiers(q.candidates);
    if q.runtime.records.Some? && |requiredOnes| > q.runtime.records.value {
      return None, core, relevant;
    }
    var picked := PushAll(requiredOnes, q.count);
    var needed := Total(picked, q.count);
    SumIsPeak(picked, q.count);
    if needed > requiredLimit {
      var overflow := Finish(picked, earlier + Overflowed(picked), q, requiredLimit, needed, |requiredOnes|);
      assert RequiredOf(q) + [] + [] == RequiredOf(q);
      ChargesReported(q, overflow, core, relevant);
      TotalsReported(q, overflow);
      return Some(overflow), core, relevant;
    }
    var excluded;
    picked, excluded, core, relevant := PackTiers(q, picked, needed, coreOnes, relevantOnes, earlier);
    var report := Finish(picked, excluded, q, requiredLimit, needed, 0);
    ChargesReported(q, report, core, relevant);
    TotalsReported(q, report);
    CutShows(q, earlier, core, relevant, report.degraded);
    b := Some(report);
  }
}
