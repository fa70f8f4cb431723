/** Direct trust of `src/graph/index.ts` as a function of the interactions that were recorded, without reference
    to the running aggregates in which the program keeps them. */
module EdgeHistory {
  import opened GraphSearch
  import opened GraphState
  import opened Reals
  import opened Sequences

  /** The interactions along one edge, in order. */
  function Own(rs: seq<Record>, k: EdgeKey): seq<Record> {
    if rs == [] then []
    else
      var r := rs[|rs| - 1];
      Own(rs[..|rs| - 1], k) + if r.x.key == k then [r] else []
  }

  function TotalOf(own: seq<Record>): real {
    if own == [] then 0.0 else TotalOf(own[..|own| - 1]) + own[|own| - 1].x.taskWeight
  }

  function SuccessOf(own: seq<Record>): real {
    if own == [] then 0.0
    else SuccessOf(own[..|own| - 1]) + if own[|own| - 1].x.success then own[|own| - 1].x.taskWeight else 0.0
  }

  /** How many of the interactions ended like this. */
  function Outcomes(own: seq<Record>, success: bool): (n: nat)
    ensures n <= |own|
  {
    if own == [] then 0
    else Outcomes(own[..|own| - 1], success) + if own[|own| - 1].x.success == success then 1 else 0
  }

  lemma {:induction false} OutcomesAddUp(own: seq<Record>)
    ensures Outcomes(own, true) + Outcomes(own, false) == |own|
  {
    if own != [] { OutcomesAddUp(own[..|own| - 1]); }
  }

  /** The share of the interactions up to the i-th that ended as the i-th did. */
  function Alike(own: seq<Record>, i: nat): real
    requires i < |own|
  {
    Outcomes(own[..i + 1], own[i].x.success) as real / (i + 1) as real
  }

  /** 0.9 to the power n. */
  function Fade(n: nat): real {
    if n == 0 then 1.0 else 0.9 * Fade(n - 1)
  }

  /** A tenth of a share, faded. */
  function Tenth(fade: real, share: real): real {
    0.1 * fade * share
  }

  /** What the first m interactions contribute to consistency: a tenth each, faded by every later one. */
  function Contributions(own: seq<Record>, m: nat): real
    requires m <= |own|
  {
    if m == 0 then 0.0 else Contributions(own, m - 1) + Tenth(Fade(|own| - m), Alike(own, m - 1))
  }

  /** Consistency in closed form: the initial 1, faded, and the contributions. */
  function Consistency(own: seq<Record>): real {
    Fade(|own|) + Contributions(own, |own|)
  }

  // ---------- The aggregates are these ----------

  lemma AlikeStays(own: seq<Record>, r: Record, i: nat)
    requires i < |own|
    ensures Alike(own + [r], i) == Alike(own, i)
  {
    assert (own + [r])[..i + 1] == own[..i + 1];
  }

  lemma {:induction false} ContributionsFade(own: seq<Record>, r: Record, m: nat)
    requires m <= |own|
    ensures Contributions(own + [r], m) == 0.9 * Contributions(own, m)
  {
    if m > 0 {
      ContributionsFade(own, r, m - 1);
      AlikeStays(own, r, m - 1);
      assert Fade(|own| + 1 - m) == 0.9 * Fade(|own| - m);
      TenthFades(Fade(|own| - m), Alike(own, m - 1));
      hide Tenth, Fade, Alike;
    }
  }

  lemma TenthFades(f: real, a: real)
    ensures Tenth(0.9 * f, a) == 0.9 * Tenth(f, a)
  {}

  /** One more interaction fades consistency and adds a tenth of its own share. */
  lemma ConsistencyStep(own: seq<Record>, r: Record)
    ensures Consistency(own + [r]) == 0.9 * Consistency(own) + 0.1 * Alike(own + [r], |own|)
  {
    var n := |own|;
    ContributionsFade(own, r, n);
    assert Tenth(Fade(0), Alike(own + [r], n)) == 0.1 * Alike(own + [r], n);
    hide Tenth, Alike;
  }

  /** The program's deviation from the current success rate is what is missing from the share of alike outcomes. */
  lemma DeviationIsUnlike(own: seq<Record>, r: Record)
    ensures var all := own + [r];
            var rate := Outcomes(all, true) as real / |all| as real;
            1.0 - Abs((if r.x.success then 1.0 else 0.0) - rate) == Alike(all, |own|)
  {
    var all := own + [r];
    assert all[..|own| + 1] == all;
    OutcomesAddUp(all);
    var n, s, f := |all| as real, Outcomes(all, true) as real, Outcomes(all, false) as real;
    RatioInUnit(s, n);
    SharesAddUp(s, f, n);
  }

  lemma SharesAddUp(s: real, f: real, n: real)
    requires n > 0.0 && s + f == n
    ensures s / n + f / n == 1.0
  {
    assert (s + f) / n == 1.0;
  }

  /** What an edge keeps of its interactions. */
  ghost predicate Keeps(e: Edge, own: seq<Record>) {
    own != [] && e.totalTasks == |own| && e.successfulTasks == Outcomes(own, true) &&
    e.totalWeight == TotalOf(own) && e.successfulWeight == SuccessOf(own) &&
    e.lastInteraction == own[|own| - 1].now && e.consistencyScore == Consistency(own)
  }

  lemma UpdateKeeps(e: Edge, own: seq<Record>, r: Record)
    requires if own == [] then e == FreshEdge(r.now) else Keeps(e, own)
    ensures Keeps(UpdateEdge(e, r.x, r.now), own + [r])
  {
    var all := own + [r];
    assert all[..|own|] == own && all[|own|] == r;
    ConsistencyStep(own, r);
    DeviationIsUnlike(own, r);
    NoConsistencyYet();
    hide Consistency, Alike, Abs;
    var e' := UpdateEdge(e, r.x, r.now);
    assert e'.totalTasks == |all| && e'.successfulTasks == Outcomes(all, true);
    assert e'.totalWeight == TotalOf(all) && e'.successfulWeight == SuccessOf(all);
    hide Outcomes, TotalOf, SuccessOf;
    assert e.consistencyScore == Consistency(own);
  }

  lemma NoConsistencyYet()
    ensures Consistency([]) == 1.0
  {}

  /** Main result: after any run of interactions there is an edge exactly where some interaction was recorded, and
      it keeps its weights, its last moment and the closed form of its consistency. */
  lemma {:induction false} EdgesKeep(rs: seq<Record>)
    ensures var g := History(rs);
            CountsNonNegative(g) && AllKept(g, rs)
  {
    if rs != [] {
      var init, r := rs[..|rs| - 1], rs[|rs| - 1];
      EdgesKeep(init);
      EdgesRememberHistory(rs);
      OneMore(History(init), init, rs, r);
      assert MatchesHistory(History(rs), rs);
    }
  }

  ghost predicate AllKept(g: Graph, rs: seq<Record>) {
    (forall k :: k in g.edges <==> Own(rs, k) != []) && forall k :: k in g.edges ==> Keeps(g.edges[k], Own(rs, k))
  }

  lemma OneMore(g: Graph, init: seq<Record>, rs: seq<Record>, r: Record)
    requires CountsNonNegative(g) && AllKept(g, init) && rs == init + [r]
    ensures AllKept(AfterInteraction(g, r), rs)
  {
    hide Keeps, UpdateEdge, AfterInteraction, CountsNonNegative, Own, FreshEdge;
    var k := r.x.key;
    AfterInteractionEdges(g, r);
    UpdateKeeps(PriorEdge(g, k, r.now), Own(init, k), r);
    OwnAppend(init, r, k);
    forall l | l != k ensures Own(rs, l) == Own(init, l) {
      OwnAppend(init, r, l);
    }
  }

  lemma OwnAppend(init: seq<Record>, r: Record, k: EdgeKey)
    ensures Own(init + [r], k) == Own(init, k) + if r.x.key == k then [r] else []
  {
    assert (init + [r])[..|init|] == init;
  }

  // ---------- Direct trust ----------

  /** Main result: direct trust over recorded interactions. It is the share of the weight that succeeded, faded by
      the time since the last interaction, times the consistency of the outcomes, times one twentieth for every
      interaction up to twenty; and 0 without any, or without weight. */
  lemma DirectTrustOfHistory(rs: seq<Record>, c: Context, from: string, to: string)
    ensures var own := Own(rs, EdgeKey(from, to, c.scene));
            DirectTrust(History(rs), c, from, to) ==
            if own == [] || TotalOf(own) == 0.0 then 0.0
            else SuccessOf(own) / TotalOf(own) * c.decay(c.now - own[|own| - 1].now) * Consistency(own) *
                 Min(1.0, |own| as real / 20.0)
  {
    var k := EdgeKey(from, to, c.scene);
    EdgesKeep(rs);
    hide History, Consistency, TotalOf, SuccessOf, Own, CountsNonNegative, EdgeTrust;
    if k in History(rs).edges { TrustOfKept(c, History(rs).edges[k], Own(rs, k)); }
  }

  lemma TrustOfKept(c: Context, e: Edge, own: seq<Record>)
    requires Keeps(e, own)
    ensures EdgeTrust(c, e) ==
            if TotalOf(own) == 0.0 then 0.0
            else SuccessOf(own) / TotalOf(own) * c.decay(c.now - own[|own| - 1].now) * Consistency(own) *
                 Min(1.0, |own| as real / 20.0)
  {
    hide Consistency, TotalOf, SuccessOf;
    assert Confidence(e) == Min(1.0, |own| as real / 20.0);
  }

  /** The confidence in it over recorded interactions. */
  lemma DirectConfidenceOfHistory(rs: seq<Record>, c: Context, from: string, to: string)
    ensures var own := Own(rs, EdgeKey(from, to, c.scene));
            DirectConfidence(History(rs), c, from, to) ==
            if own == [] || TotalOf(own) == 0.0 then 0.0 else Min(1.0, |own| as real / 20.0)
  {
    var k := EdgeKey(from, to, c.scene);
    EdgesKeep(rs);
    hide History, Consistency, TotalOf, SuccessOf, Own, CountsNonNegative;
  }

  // ---------- The global success rate ----------

  lemma {:induction false} WeightsUpdate(g: Graph, order: seq<EdgeKey>, k: EdgeKey, e: Edge)
    requires Distinct(order)
    ensures var g', prior := g.(edges := g.edges[k := e]), PriorEdge(g, k, 0);
            TotalWeight(g', order) ==
            TotalWeight(g, order) + (if k in order then e.totalWeight - prior.totalWeight else 0.0) &&
            SuccessWeight(g', order) ==
            SuccessWeight(g, order) + (if k in order then e.successfulWeight - prior.successfulWeight else 0.0)
  {
    if order != [] {
      var init := order[..|order| - 1];
      WeightsUpdate(g, init, k, e);
      assert order == init + [order[|order| - 1]];
      if order[|order| - 1] == k { assert k !in init; }
    }
  }

  lemma {:induction false} WeightsOfEdges(g: Graph, g': Graph, order: seq<EdgeKey>)
    requires g.edges == g'.edges
    ensures TotalWeight(g, order) == TotalWeight(g', order) && SuccessWeight(g, order) == SuccessWeight(g', order)
  {
    if order != [] { WeightsOfEdges(g, g', order[..|order| - 1]); }
  }

  lemma WeightsAfter(g: Graph, r: Record)
    requires Orders(g) && CountsNonNegative(g)
    ensures var g' := AfterInteraction(g, r);
            TotalWeight(g', g'.edgeOrder) == TotalWeight(g, g.edgeOrder) + r.x.taskWeight &&
            SuccessWeight(g', g'.edgeOrder) ==
            SuccessWeight(g, g.edgeOrder) + if r.x.success then r.x.taskWeight else 0.0
  {
    var k, e := r.x.key, UpdateEdge(PriorEdge(g, r.x.key, r.now), r.x, r.now);
    assert e.totalWeight == PriorEdge(g, k, 0).totalWeight + r.x.taskWeight;
    assert e.successfulWeight == PriorEdge(g, k, 0).successfulWeight + if r.x.success then r.x.taskWeight else 0.0;
    var g' := AfterInteraction(g, r);
    AfterInteractionEdges(g, r);
    assert g'.edgeOrder == if k in g.edges then g.edgeOrder else g.edgeOrder + [k];
    hide UpdateEdge, AfterInteraction, PriorEdge;
    WeightsUpdate(g, g.edgeOrder, k, e);
    WeightsOfEdges(g', g.(edges := g.edges[k := e]), g.edgeOrder);
    assert (g.edgeOrder + [k])[..|g.edgeOrder|] == g.edgeOrder;
    NoPriorWeight(g, k);
  }

  lemma NoPriorWeight(g: Graph, k: EdgeKey)
    ensures k !in g.edges ==> PriorEdge(g, k, 0).totalWeight == 0.0 == PriorEdge(g, k, 0).successfulWeight
  {}

  lemma {:induction false} WeightsOfHistory(rs: seq<Record>)
    ensures var g := History(rs);
            TotalWeight(g, g.edgeOrder) == TotalOf(rs) && SuccessWeight(g, g.edgeOrder) == SuccessOf(rs)
  {
    if rs != [] {
      WeightsOfHistory(rs[..|rs| - 1]);
      InteractionsConserved(rs[..|rs| - 1]);
      hide AfterInteraction, Orders, CountsNonNegative;
      WeightsAfter(History(rs[..|rs| - 1]), rs[|rs| - 1]);
    }
  }

  /** Main result: composite trust over recorded interactions, with the success rate of all of them. Direct trust
      counts for 0.6, indirect trust for 0.3, or 0.9 where there is no direct trust, and the rate for 0.05. */
  lemma CompositeOfHistory(rs: seq<Record>, direct: real, indirect: real)
    ensures var rate := if TotalOf(rs) > 0.0 then SuccessOf(rs) / TotalOf(rs) else 0.0;
            Composite(direct, indirect, GlobalSuccessRate(History(rs))) ==
            if direct == 0.0 then 0.9 * indirect + 0.05 * rate else 0.6 * direct + 0.3 * indirect + 0.05 * rate
  {
    WeightsOfHistory(rs);
    hide History, TotalOf, SuccessOf, TotalWeight, SuccessWeight;
  }
}
