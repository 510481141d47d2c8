/** What the packing of `Budget` guarantees, for every token counter. */
module BudgetLaws {
  import opened Ledger
  import opened Budget

  ghost function Selected(q: Request, core: Tally, relevant: Tally): seq<Candidate> {
    RequiredOf(q) + core.chosen + relevant.chosen
  }

  /** The required records fit, and the two passes ran. */
  ghost predicate Answered(q: Request, core: Tally, relevant: Tally) {
    && !Overflows(q) && PackedAs(q, core, relevant)
    && (q.runtime.records.Some? ==> |RequiredOf(q)| <= q.runtime.records.value)
  }

  lemma LimitsNest(q: Request)
    requires !Overflows(q)
    ensures Needed(q) <= CorePass(q).limit <= ContentLimit(q.budget, q.runtime)
    ensures CorePass(q).limit <=
      ContentLimit(q.budget, q.runtime) - Protected(q.budget, q.runtime, Needed(q), RelevantCost(q))
  {
  }

  /** Whatever the counter does, the content stays within its limit - with one
      exception a caller can see beforehand: when nothing is selected, what is
      rendered is the empty frame, and that is not charged to anybody. */
  lemma ContentFitsIff(q: Request, core: Tally, relevant: Tally)
    requires Answered(q, core, relevant)
    ensures q.count(Selected(q, core, relevant)) <= ContentLimit(q.budget, q.runtime) <==>
      Selected(q, core, relevant) != [] || q.count([]) <= ContentLimit(q.budget, q.runtime)
  {
    LimitsNest(q);
    var required := RequiredOf(q);
    if relevant.chosen != [] {
      assert relevant.chosen[..|relevant.chosen|] == relevant.chosen;
    } else if core.chosen != [] {
      assert core.chosen[..|core.chosen|] == core.chosen;
      assert Selected(q, core, relevant) == required + core.chosen;
    } else {
      assert Selected(q, core, relevant) == required;
    }
  }

  /** Content and receipt together stay within the effective total exactly when the
      reserve fits in it at all. */
  lemma TotalFitsIff(q: Request, content: usize)
    requires EffectiveTotal(q.budget, q.runtime.tokens).Some?
    requires content <= ContentLimit(q.budget, q.runtime)
    ensures var total := EffectiveTotal(q.budget, q.runtime.tokens).value;
      SaturatingAdd(content, Reserve(q.budget, q.runtime)) <= total <==> Reserve(q.budget, q.runtime) <= total
  {
  }

  /** Core never takes what is protected for relevant: after the core pass the
      charges leave at least that much of the content limit. */
  lemma CoreLeavesTheFloor(q: Request, core: Tally, relevant: Tally)
    requires Answered(q, core, relevant)
    ensures Peak(RequiredOf(q) + core.chosen, q.count) + Protected(q.budget, q.runtime, Needed(q), RelevantCost(q))
      <= ContentLimit(q.budget, q.runtime)
    ensures Peak(RequiredOf(q) + core.chosen, q.count) <= SaturatingAdd(Needed(q), Or(q.budget.coreCap, MAX))
  {
    LimitsNest(q);
    var required := RequiredOf(q);
    var cs := required + core.chosen;
    forall n | 0 < n <= |cs| ensures q.count(cs[..n]) <= CorePass(q).limit {
      if n <= |required| {
        assert cs[..n] == required[..n];
        PeakAbove(required, q.count, n);
      } else {
        assert cs[..n] == required + core.chosen[..n - |required|];
      }
    }
    PeakBelow(cs, q.count, CorePass(q).limit);
  }

  lemma RecordCapHolds(q: Request, core: Tally, relevant: Tally)
    requires Answered(q, core, relevant) && q.runtime.records.Some?
    ensures |Selected(q, core, relevant)| <= q.runtime.records.value
  {
  }

  lemma {:induction false} TiersPartition(cs: seq<Candidate>)
    ensures multiset(cs) == multiset(OfTier(cs, Required)) + multiset(OfTier(cs, Core)) + multiset(OfTier(cs, Relevant))
  {
    if cs != [] {
      var init, last := cs[..|cs| - 1], cs[|cs| - 1];
      assert multiset(cs) == multiset(init) + multiset{last} by {
        assert cs == init + [last];
      }
      TiersPartition(init);
      TierGrows(cs, Required);
      TierGrows(cs, Core);
      TierGrows(cs, Relevant);
    }
  }

  lemma TierGrows(cs: seq<Candidate>, tier: Tier)
    requires cs != []
    ensures multiset(OfTier(cs, tier)) ==
      multiset(OfTier(cs[..|cs| - 1], tier)) + if cs[|cs| - 1].tier == tier then multiset{cs[|cs| - 1]} else multiset{}
  {
  }

  /** Every candidate is selected or left out, none is both, and none is invented. */
  lemma NothingLostNothingTwice(q: Request, core: Tally, relevant: Tally)
    requires Answered(q, core, relevant)
    ensures multiset(q.candidates) ==
      multiset(Selected(q, core, relevant)) + multiset(core.left) + multiset(relevant.left)
  {
    TiersPartition(q.candidates);
    DealtConserves(OfTier(q.candidates, Core), core.chosen, core.left);
    DealtConserves(OfTier(q.candidates, Relevant), relevant.chosen, relevant.left);
  }

  /** Required records come first, then core, then relevant. */
  lemma SelectionKeepsTierOrder(q: Request, core: Tally, relevant: Tally)
    requires Answered(q, core, relevant)
    ensures var cs := Selected(q, core, relevant);
      forall i, j :: 0 <= i < j < |cs| ==>
        cs[i].tier == Required || cs[j].tier == Relevant || (cs[i].tier == Core && cs[j].tier == Core)
  {
    DealtConserves(OfTier(q.candidates, Core), core.chosen, core.left);
    DealtConserves(OfTier(q.candidates, Relevant), relevant.chosen, relevant.left);
    TierMembers(q.candidates, Core, core.chosen);
    TierMembers(q.candidates, Relevant, relevant.chosen);
    TierMembers(q.candidates, Required, RequiredOf(q));
    JoinedInOrder(RequiredOf(q), core.chosen, relevant.chosen);
  }

  lemma JoinedInOrder(required: seq<Candidate>, core: seq<Candidate>, relevant: seq<Candidate>)
    requires forall i :: 0 <= i < |required| ==> required[i].tier == Required
    requires forall i :: 0 <= i < |core| ==> core[i].tier == Core
    requires forall i :: 0 <= i < |relevant| ==> relevant[i].tier == Relevant
    ensures var cs := required + core + relevant;
      forall i, j :: 0 <= i < j < |cs| ==>
        cs[i].tier == Required || cs[j].tier == Relevant || (cs[i].tier == Core && cs[j].tier == Core)
  {
  }

  lemma TierMembers(cs: seq<Candidate>, tier: Tier, chosen: seq<Candidate>)
    requires multiset(chosen) <= multiset(OfTier(cs, tier))
    ensures forall i :: 0 <= i < |chosen| ==> chosen[i].tier == tier
  {
    forall i | 0 <= i < |chosen| ensures chosen[i].tier == tier {
      assert chosen[i] in multiset(chosen);
      assert chosen[i] in multiset(OfTier(cs, tier));
      assert chosen[i] in OfTier(cs, tier);
    }
  }

  // ---------------------------------------------------------------------
  // An additive counter
  // ---------------------------------------------------------------------

  ghost function Cost(cs: seq<Candidate>, cost: Candidate -> nat): nat {
    if cs == [] then 0 else Cost(cs[..|cs| - 1], cost) + cost(cs[|cs| - 1])
  }

  /** Every list drawn from the candidates counts for the sum of its records. */
  ghost predicate Additive(q: Request, cost: Candidate -> nat) {
    forall cs :: AddsUp(q, cost, cs)
  }

  ghost predicate AddsUp(q: Request, cost: Candidate -> nat, cs: seq<Candidate>) {
    multiset(cs) <= multiset(q.candidates) ==> q.count(cs) == Cost(cs, cost)
  }

  lemma {:induction false} CostJoins(a: seq<Candidate>, b: seq<Candidate>, cost: Candidate -> nat)
    ensures Cost(a + b, cost) == Cost(a, cost) + Cost(b, cost)
  {
    if b == [] {
      assert a + b == a;
    } else {
      assert (a + b)[..|a + b| - 1] == a + b[..|b| - 1];
      CostJoins(a, b[..|b| - 1], cost);
    }
  }

  lemma CostOfPrefix(cs: seq<Candidate>, n: nat, cost: Candidate -> nat)
    requires n <= |cs|
    ensures Cost(cs[..n], cost) <= Cost(cs, cost)
  {
    assert cs == cs[..n] + cs[n..];
    CostJoins(cs[..n], cs[n..], cost);
  }

  lemma {:induction false} DealtCosts(source: seq<Candidate>, chosen: seq<Candidate>, left: seq<Candidate>,
                                      cost: Candidate -> nat)
    requires Dealt(source, chosen, left)
    ensures Cost(source, cost) == Cost(chosen, cost) + Cost(left, cost)
  {
    if source != [] {
      var init, last := source[..|source| - 1], source[|source| - 1];
      if chosen != [] && chosen[|chosen| - 1] == last && Dealt(init, chosen[..|chosen| - 1], left) {
        DealtCosts(init, chosen[..|chosen| - 1], left, cost);
      } else {
        DealtCosts(init, chosen, left[..|left| - 1], cost);
      }
    }
  }

  lemma AdditivePeak(q: Request, cs: seq<Candidate>, cost: Candidate -> nat)
    requires Additive(q, cost) && multiset(cs) <= multiset(q.candidates)
    ensures Peak(cs, q.count) == Cost(cs, cost)
  {
    forall n | 0 < n <= |cs| ensures q.count(cs[..n]) <= q.count(cs) {
      assert cs == cs[..n] + cs[n..];
      CostOfPrefix(cs, n, cost);
      assert AddsUp(q, cost, cs) && AddsUp(q, cost, cs[..n]);
    }
    assert AddsUp(q, cost, cs);
    PeakBelow(cs, q.count, q.count(cs));
  }

  lemma RelevantCostIs(q: Request, cost: Candidate -> nat)
    requires Additive(q, cost)
    ensures Needed(q) == Cost(RequiredOf(q), cost)
    ensures RelevantCost(q) == Cost(OfTier(q.candidates, Relevant), cost)
  {
    var required, all := RequiredOf(q), OfTier(q.candidates, Relevant);
    TiersPartition(q.candidates);
    AdditivePeak(q, required, cost);
    CostJoins(required, all, cost);
    assert multiset(required + all) == multiset(required) + multiset(all);
    assert AddsUp(q, cost, required + all);
  }

  /** With an additive counter and no record limit the floor is a promise: relevant
      records that cost no more than it, and fit beside the required ones, are all
      selected, however much core asked for. */
  lemma FloorIsKept(q: Request, core: Tally, relevant: Tally, cost: Candidate -> nat)
    requires Answered(q, core, relevant) && q.runtime.records.None?
    requires Additive(q, cost)
    requires Cost(OfTier(q.candidates, Relevant), cost) <= Or(q.budget.relevantFloor, 0)
    requires Needed(q) + Cost(OfTier(q.candidates, Relevant), cost) <= ContentLimit(q.budget, q.runtime)
    ensures relevant.left == []
    ensures multiset(relevant.chosen) == multiset(OfTier(q.candidates, Relevant))
  {
    RelevantCostIs(q, cost);
    CoreLeavesTheFloor(q, core, relevant);
    DealtConserves(OfTier(q.candidates, Relevant), relevant.chosen, relevant.left);
    if relevant.left != [] {
      OneMoreFits(q, core, relevant, cost);
    }
  }

  lemma Drawn(pool: multiset<Candidate>, before: seq<Candidate>, chosen: seq<Candidate>, left: seq<Candidate>, n: nat)
    requires multiset(before) + multiset(chosen) + multiset(left) <= pool
    requires left != [] && n <= |chosen|
    ensures multiset(before + chosen[..n] + [left[0]]) <= pool
  {
    assert multiset(chosen) == multiset(chosen[..n]) + multiset(chosen[n..]) by {
      assert chosen == chosen[..n] + chosen[n..];
    }
    assert multiset(left) == multiset{left[0]} + multiset(left[1..]) by {
      assert left == [left[0]] + left[1..];
    }
  }

  lemma CostsNoMore(source: seq<Candidate>, chosen: seq<Candidate>, left: seq<Candidate>, n: nat,
                    before: seq<Candidate>, cost: Candidate -> nat)
    requires Dealt(source, chosen, left) && left != [] && n <= |chosen|
    ensures Cost(before + chosen[..n] + [left[0]], cost) <= Cost(before, cost) + Cost(source, cost)
  {
    DealtCosts(source, chosen, left, cost);
    CostOfPrefix(chosen, n, cost);
    CostOfPrefix(left, 1, cost);
    assert left[..1] == [left[0]];
    CostJoins(before + chosen[..n], [left[0]], cost);
    CostJoins(before, chosen[..n], cost);
  }

  lemma OneMoreFits(q: Request, core: Tally, relevant: Tally, cost: Candidate -> nat)
    requires Answered(q, core, relevant) && Additive(q, cost) && relevant.left != []
    requires Cost(OfTier(q.candidates, Relevant), cost) + Peak(RequiredOf(q) + core.chosen, q.count)
      <= ContentLimit(q.budget, q.runtime)
    ensures q.runtime.records.Some?
  {
    var before := RequiredOf(q) + core.chosen;
    var n := relevant.at[0];
    assert LeftFor(before, relevant.chosen, relevant.left[0], n, relevant.excluded[0], RelevantPass(q));
    DrawnFromCandidates(q, core, relevant);
    TriedCosts(q, before, relevant, n, cost);
  }

  lemma DrawnFromCandidates(q: Request, core: Tally, relevant: Tally)
    requires Answered(q, core, relevant)
    ensures multiset(RequiredOf(q) + core.chosen) + multiset(relevant.chosen) + multiset(relevant.left)
      <= multiset(q.candidates)
  {
    NothingLostNothingTwice(q, core, relevant);
  }

  lemma TriedCosts(q: Request, before: seq<Candidate>, relevant: Tally, n: nat, cost: Candidate -> nat)
    requires Additive(q, cost) && relevant.left != [] && n <= |relevant.chosen|
    requires Dealt(OfTier(q.candidates, Relevant), relevant.chosen, relevant.left)
    requires multiset(before) + multiset(relevant.chosen) + multiset(relevant.left) <= multiset(q.candidates)
    ensures q.count(before + relevant.chosen[..n] + [relevant.left[0]]) <=
      Peak(before, q.count) + Cost(OfTier(q.candidates, Relevant), cost)
  {
    Drawn(multiset(q.candidates), before, relevant.chosen, relevant.left, n);
    CostsNoMore(OfTier(q.candidates, Relevant), relevant.chosen, relevant.left, n, before, cost);
    AdditivePeak(q, before, cost);
    assert AddsUp(q, cost, before + relevant.chosen[..n] + [relevant.left[0]]);
  }

  // ---------------------------------------------------------------------
  // Who goes first
  // ---------------------------------------------------------------------

  /** The first candidate of a tier that fits beside the tiers before it is selected, and
      is the first of its tier to be. */
  lemma FirstThatFitsIsTaken(cs: seq<Candidate>, tier: Tier, at: seq<nat>, before: seq<Candidate>, pass: Pass, i: nat)
    requires Greedy(cs, tier, at, before, pass) && i < |cs| && cs[i].tier == tier
    requires pass.cap.Some? ==> |before| < pass.cap.value
    requires pass.count(before + [cs[i]]) <= pass.limit
    requires forall j :: 0 <= j < i && cs[j].tier == tier ==> pass.count(before + [cs[j]]) > pass.limit
    ensures at != [] && at[0] == i
  {
    assert before + Those(cs, at)[..0] == before;
    if at != [] && at[0] < i {
      assert Precede(at, at[0], 0);
      NotFirst(cs, at, before, pass, i);
    } else {
      assert Precede(at, i, 0);
    }
  }

  lemma NotFirst(cs: seq<Candidate>, at: seq<nat>, before: seq<Candidate>, pass: Pass, i: nat)
    requires Ascending(at, |cs|) && at != [] && at[0] < i
    requires pass.count(before + [cs[at[0]]]) > pass.limit
    ensures !Fits(before + Those(cs, at)[..0], cs[at[0]], pass)
  {
    assert before + Those(cs, at)[..0] == before;
  }

  /** A candidate left out did not fit beside the tiers before it and the ones of its own
      tier selected ahead of it; so whatever stands behind it had no part in that. */
  lemma LeftOutDidNotFit(cs: seq<Candidate>, tier: Tier, at: seq<nat>, before: seq<Candidate>, pass: Pass,
                         i: nat, n: nat)
    requires Greedy(cs, tier, at, before, pass) && i < |cs| && cs[i].tier == tier && i !in at
    requires Precede(at, i, n)
    ensures (pass.cap.Some? && |before| + n >= pass.cap.value)
      || pass.count(before + Those(cs, at)[..n] + [cs[i]]) > pass.limit
  {
  }
}
