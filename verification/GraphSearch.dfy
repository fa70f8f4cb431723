/** What the trust queries of `src/graph/index.ts` compute: trust along an edge, along a path, and
    the strongest admissible path, stated without reference to how it is searched for. */
module GraphSearch {
  import opened GraphState
  import opened Reals
  import opened Sequences

  /** `exp(-lambda * days)` as a function of elapsed milliseconds: 1 at most, and never 0. */
  type Decay = f: int -> real | forall e :: e >= 0 ==> 0.0 < f(e) <= 1.0
    ghost witness (e: int) => 1.0

  /** One query: the scene, the clock reading shared by its edge evaluations, and the decay law. */
  datatype Context = Context(scene: string, now: int, decay: Decay)

  /** `minNodes` is 2 when the path may not be direct and 1 otherwise. */
  datatype Query = Query(from: string, to: string, maxDepth: int, minNodes: nat)

  const FULL_CONFIDENCE_TASKS := 20
  const DEFAULT_MAX_DEPTH := 3

  function Confidence(e: Edge): real {
    Min(1.0, e.totalTasks as real / FULL_CONFIDENCE_TASKS as real)
  }

  function EdgeTrust(c: Context, e: Edge): real {
    if e.totalWeight == 0.0 then 0.0
    else e.successfulWeight / e.totalWeight * c.decay(c.now - e.lastInteraction) * e.consistencyScore * Confidence(e)
  }

  /** Trust without an edge is 0. */
  function DirectTrust(g: Graph, c: Context, from: string, to: string): real {
    var k := EdgeKey(from, to, c.scene);
    if k in g.edges then EdgeTrust(c, g.edges[k]) else 0.0
  }

  function DirectConfidence(g: Graph, c: Context, from: string, to: string): real {
    var k := EdgeKey(from, to, c.scene);
    if k in g.edges && g.edges[k].totalWeight != 0.0 then Confidence(g.edges[k]) else 0.0
  }

  /** HOP_DECAY to the power k. */
  function HopDecay(k: nat): real {
    if k == 0 then 1.0 else HopDecay(k - 1) * 0.7
  }

  function PathTrust(g: Graph, c: Context, p: seq<string>): real {
    if |p| <= 1 then 1.0
    else PathTrust(g, c, p[..|p| - 1]) * DirectTrust(g, c, p[|p| - 2], p[|p| - 1])
  }

  /** Decay sets in with the second hop. */
  function Score(g: Graph, c: Context, p: seq<string>): real
    requires |p| >= 2
  {
    PathTrust(g, c, p) * HopDecay(|p| - 2)
  }

  ghost predicate Hops(g: Graph, c: Context, p: seq<string>) {
    forall i :: 0 <= i < |p| - 1 ==> EdgeKey(p[i], p[i + 1], c.scene) in g.edges
  }

  /** A simple path over existing edges of the scene, with the number of nodes that the code's two
      length tests admit: up to `maxDepth + 1` hops, one more than its documentation says. */
  ghost predicate AdmissiblePath(g: Graph, c: Context, q: Query, p: seq<string>) {
    |p| >= 2 && q.minNodes < |p| <= q.maxDepth + 2 &&
    p[0] == q.from && p[|p| - 1] == q.to && Distinct(p) && Hops(g, c, p)
  }

  /** `best` is the largest score of an admissible path, or 0 if no path scores more; `path` attains it. */
  ghost predicate IsBest(g: Graph, c: Context, q: Query, best: real, path: seq<string>) {
    best >= 0.0 &&
    (if best > 0.0 then AdmissiblePath(g, c, q, path) && Score(g, c, path) == best else path == []) &&
    forall p :: AdmissiblePath(g, c, q, p) ==> Score(g, c, p) <= best
  }

  // ---------- The breadth-first search ----------

  datatype QueueItem = QueueItem(node: string, path: seq<string>, trust: real)

  ghost predicate ItemOk(g: Graph, c: Context, q: Query, item: QueueItem) {
    var p := item.path;
    |p| >= 1 && p[0] == q.from && p[|p| - 1] == item.node && Distinct(p) && Hops(g, c, p) && q.to !in p &&
    item.trust == PathTrust(g, c, p) && (|p| == 1 || |p| <= q.maxDepth + 1)
  }

  /** Some queued path is a proper beginning of `p`. */
  ghost predicate Covered(queue: seq<QueueItem>, p: seq<string>) {
    exists i :: 0 <= i < |queue| && queue[i].path < p
  }

  /** `p` continues the path being expanded along an edge not yet looked at. */
  ghost predicate Pending(order: seq<EdgeKey>, c: Context, path: seq<string>, p: seq<string>, k: nat) {
    path != [] && path < p && exists j :: k <= j < |order| && order[j] == EdgeKey(path[|path| - 1], p[|path|], c.scene)
  }

  /** Every admissible path is no better than the best so far or still to be found. */
  ghost predicate Progress(g: Graph, c: Context, q: Query, best: real, queue: seq<QueueItem>, path: seq<string>,
                           k: nat)
  {
    forall p :: AdmissiblePath(g, c, q, p) ==>
      Score(g, c, p) <= best || Covered(queue, p) || Pending(g.edgeOrder, c, path, p, k)
  }

  ghost predicate BestSoFar(g: Graph, c: Context, q: Query, best: real, bestPath: seq<string>) {
    best >= 0.0 &&
    if best > 0.0 then AdmissiblePath(g, c, q, bestPath) && Score(g, c, bestPath) == best else bestPath == []
  }

  function Power(b: nat, e: nat): nat {
    if e == 0 then 1 else b * Power(b, e - 1)
  }

  /** The work an item of the given length may still cause. */
  function Weight(edges: nat, maxDepth: int, length: nat): nat {
    if length > maxDepth + 1 then 1 else Power(edges + 1, maxDepth + 2 - length)
  }

  function QueueWeight(edges: nat, maxDepth: int, queue: seq<QueueItem>): nat {
    if queue == [] then 0
    else QueueWeight(edges, maxDepth, queue[..|queue| - 1]) + Weight(edges, maxDepth, |queue[|queue| - 1].path|)
  }

  lemma {:induction false} WeightPositive(edges: nat, e: nat)
    ensures Power(edges + 1, e) >= 1
  {
    if e > 0 { WeightPositive(edges, e - 1); }
  }

  lemma {:induction false} QueueWeightPop(edges: nat, maxDepth: int, queue: seq<QueueItem>)
    requires queue != []
    ensures QueueWeight(edges, maxDepth, queue) ==
            Weight(edges, maxDepth, |queue[0].path|) + QueueWeight(edges, maxDepth, queue[1..])
  {
    if |queue| > 1 {
      QueueWeightPop(edges, maxDepth, queue[..|queue| - 1]);
      assert queue[..|queue| - 1][1..] == queue[1..][..|queue| - 2];
    }
  }

  lemma QueueWeightPush(edges: nat, maxDepth: int, queue: seq<QueueItem>, item: QueueItem)
    ensures QueueWeight(edges, maxDepth, queue + [item]) ==
            QueueWeight(edges, maxDepth, queue) + Weight(edges, maxDepth, |item.path|)
  {
    assert (queue + [item])[..|queue|] == queue;
  }

  /** All the items one expansion can push weigh less than the item expanded. */
  lemma ExpansionShrinks(edges: nat, maxDepth: int, length: nat)
    requires length <= maxDepth + 1
    ensures edges * Weight(edges, maxDepth, length + 1) < Weight(edges, maxDepth, length)
  {
    WeightPositive(edges, maxDepth + 1 - length);
    assert Weight(edges, maxDepth, length) == (edges + 1) * Power(edges + 1, maxDepth + 1 - length);
  }

  lemma PathTrustExtend(g: Graph, c: Context, p: seq<string>, v: string)
    requires p != []
    ensures PathTrust(g, c, p + [v]) == PathTrust(g, c, p) * DirectTrust(g, c, p[|p| - 1], v)
  {
    assert (p + [v])[..|p|] == p;
  }

  lemma StartCovers(g: Graph, c: Context, q: Query)
    requires q.from != q.to
    ensures ItemOk(g, c, q, QueueItem(q.from, [q.from], 1.0))
    ensures Progress(g, c, q, 0.0, [QueueItem(q.from, [q.from], 1.0)], [], 0)
  {
    hide Score, Hops;
    var queue := [QueueItem(q.from, [q.from], 1.0)];
    assert Hops(g, c, [q.from]) by { StartHops(g, c, q.from); }
    forall p | AdmissiblePath(g, c, q, p) ensures Covered(queue, p) {
      assert queue[0].path < p;
    }
  }

  lemma StartHops(g: Graph, c: Context, a: string)
    ensures Hops(g, c, [a])
  {}

  /** The node after a proper beginning of an admissible path. */
  lemma NextHop(g: Graph, c: Context, q: Query, path: seq<string>, p: seq<string>)
    requires AdmissiblePath(g, c, q, p) && path != [] && path < p && q.to !in path
    ensures EdgeKey(path[|path| - 1], p[|path|], c.scene) in g.edges
    ensures p[|path|] !in path
    ensures p[|path|] == q.to ==> p == path + [q.to]
    ensures p[|path|] != q.to ==> path + [p[|path|]] < p && |path| < q.maxDepth + 1
    ensures |path| <= q.maxDepth + 1
  {
    var n := |path|;
    assert path == p[..n] && p[n - 1] == path[n - 1];
    assert forall i :: 0 <= i < n ==> path[i] == p[i];
    if p[n] == q.to {
      assert n == |p| - 1;
      assert p == p[..n] + [p[n]];
    }
  }

  lemma CoveredTail(queue: seq<QueueItem>, p: seq<string>)
    requires queue != [] && Covered(queue, p)
    ensures queue[0].path < p || Covered(queue[1..], p)
  {
    var i :| 0 <= i < |queue| && queue[i].path < p;
    if i > 0 { assert queue[1..][i - 1].path < p; }
  }

  lemma CoveredGrows(queue: seq<QueueItem>, queue': seq<QueueItem>, p: seq<string>)
    requires queue <= queue' && Covered(queue, p)
    ensures Covered(queue', p)
  {
    var i :| 0 <= i < |queue| && queue[i].path < p;
    assert queue'[i] == queue[i];
  }

  lemma PopToPending(g: Graph, c: Context, q: Query, best: real, queue: seq<QueueItem>)
    requires queue != [] && ItemOk(g, c, q, queue[0]) && Orders(g)
    requires Progress(g, c, q, best, queue, [], 0)
    ensures Progress(g, c, q, best, queue[1..], queue[0].path, 0)
    ensures |queue[0].path| > q.maxDepth + 1 ==> Progress(g, c, q, best, queue[1..], [], 0)
  {
    hide Score, Hops, PathTrust;
    var path := queue[0].path;
    forall p | AdmissiblePath(g, c, q, p) && !(Score(g, c, p) <= best) && !Covered(queue[1..], p)
      ensures Pending(g.edgeOrder, c, path, p, 0) && |path| <= q.maxDepth + 1
    {
      CoveredTail(queue, p);
      NextHop(g, c, q, path, p);
      assert EdgeKey(path[|path| - 1], p[|path|], c.scene) in g.edgeOrder;
    }
  }

  lemma PendingDone(g: Graph, c: Context, q: Query, best: real, queue: seq<QueueItem>, path: seq<string>)
    requires Progress(g, c, q, best, queue, path, |g.edgeOrder|)
    ensures Progress(g, c, q, best, queue, [], 0)
  {
    hide Score, Hops;
  }

  /** An edge that is skipped starts no admissible continuation. */
  lemma SkipEdge(g: Graph, c: Context, q: Query, best: real, queue: seq<QueueItem>, item: QueueItem, k: nat)
    requires ItemOk(g, c, q, item) && k < |g.edgeOrder|
    requires Progress(g, c, q, best, queue, item.path, k)
    requires var e := g.edgeOrder[k]; e.from != item.node || e.scene != c.scene || e.to in item.path
    ensures Progress(g, c, q, best, queue, item.path, k + 1)
  {
    hide Score, Hops, PathTrust;
    forall p | AdmissiblePath(g, c, q, p) && !(Score(g, c, p) <= best) && !Covered(queue, p)
      ensures Pending(g.edgeOrder, c, item.path, p, k + 1)
    {
      NextHop(g, c, q, item.path, p);
    }
  }

  /** An edge to the target settles the one path it completes. */
  lemma TargetEdge(g: Graph, c: Context, q: Query, best: real, queue: seq<QueueItem>, item: QueueItem, k: nat,
                   best': real)
    requires ItemOk(g, c, q, item) && k < |g.edgeOrder|
    requires Progress(g, c, q, best, queue, item.path, k)
    requires var e := g.edgeOrder[k]; e.from == item.node && e.scene == c.scene && e.to == q.to
    requires best <= best'
    requires AdmissiblePath(g, c, q, item.path + [q.to]) ==> Score(g, c, item.path + [q.to]) <= best'
    ensures Progress(g, c, q, best', queue, item.path, k + 1)
  {
    hide Score, Hops, PathTrust;
    forall p | AdmissiblePath(g, c, q, p) && !(Score(g, c, p) <= best') && !Covered(queue, p)
      ensures Pending(g.edgeOrder, c, item.path, p, k + 1)
    {
      NextHop(g, c, q, item.path, p);
    }
  }

  /** Any other edge is followed, unless the path would become too long to be completed. */
  lemma OtherEdge(g: Graph, c: Context, q: Query, best: real, queue: seq<QueueItem>, item: QueueItem, k: nat,
                  queue': seq<QueueItem>)
    requires ItemOk(g, c, q, item) && k < |g.edgeOrder|
    requires Progress(g, c, q, best, queue, item.path, k)
    requires var e := g.edgeOrder[k]; e.from == item.node && e.scene == c.scene && e.to != q.to
    requires queue <= queue'
    requires |item.path| < q.maxDepth + 1 ==>
               |queue'| == |queue| + 1 && queue'[|queue|].path == item.path + [g.edgeOrder[k].to]
    ensures Progress(g, c, q, best, queue', item.path, k + 1)
  {
    hide Score, Hops, PathTrust;
    forall p | AdmissiblePath(g, c, q, p) && !(Score(g, c, p) <= best) && !Pending(g.edgeOrder, c, item.path, p, k + 1)
      ensures Covered(queue', p)
    {
      if Covered(queue, p) {
        CoveredGrows(queue, queue', p);
      } else {
        NextHop(g, c, q, item.path, p);
        assert p[|item.path|] == g.edgeOrder[k].to;
        assert queue'[|queue|].path < p;
      }
    }
  }

  /** Following an edge out of a queued path gives a path of the same kind. */
  lemma ExtendItem(g: Graph, c: Context, q: Query, item: QueueItem, e: EdgeKey)
    requires ItemOk(g, c, q, item) && e in g.edges && e.from == item.node && e.scene == c.scene && e.to !in item.path
    ensures var p := item.path + [e.to];
            Distinct(p) && Hops(g, c, p) &&
            PathTrust(g, c, p) == item.trust * DirectTrust(g, c, e.from, e.to) &&
            Score(g, c, p) == item.trust * DirectTrust(g, c, e.from, e.to) * HopDecay(|item.path| - 1) &&
            (e.to == q.to && q.minNodes <= |item.path| <= q.maxDepth + 1 ==> AdmissiblePath(g, c, q, p)) &&
            (e.to == q.to && q.minNodes > |item.path| ==> !AdmissiblePath(g, c, q, p)) &&
            (e.to != q.to && |item.path| < q.maxDepth + 1 ==>
               ItemOk(g, c, q, QueueItem(e.to, p, item.trust * DirectTrust(g, c, e.from, e.to))))
  {
    hide DirectTrust, HopDecay;
    PathTrustExtend(g, c, item.path, e.to);
    var p := item.path + [e.to];
    assert p[|p| - 1] == e.to && p[|p| - 2] == item.node;
    assert Hops(g, c, p);
    assert Distinct(p);
  }

  // ---------- Bounds ----------

  lemma EdgeTrustInUnit(c: Context, e: Edge)
    requires EdgeOk(e, c.now)
    ensures 0.0 <= EdgeTrust(c, e) <= 1.0
  {
    if e.totalWeight != 0.0 {
      RatioInUnit(e.successfulWeight, e.totalWeight);
      var swr := e.successfulWeight / e.totalWeight;
      var recency := c.decay(c.now - e.lastInteraction);
      assert 0.0 < recency <= 1.0;
      ProductInUnit(swr, recency);
      ProductInUnit(swr * recency, e.consistencyScore);
      ProductInUnit(swr * recency * e.consistencyScore, Confidence(e));
    }
  }

  lemma DirectTrustInUnit(g: Graph, c: Context, from: string, to: string)
    requires GraphOk(g, c.now)
    ensures 0.0 <= DirectTrust(g, c, from, to) <= 1.0
  {
    hide EdgeTrust;
    var k := EdgeKey(from, to, c.scene);
    if k in g.edges { EdgeTrustInUnit(c, g.edges[k]); }
  }

  lemma {:induction false} PathTrustInUnit(g: Graph, c: Context, p: seq<string>)
    requires GraphOk(g, c.now)
    ensures 0.0 <= PathTrust(g, c, p) <= 1.0
  {
    hide DirectTrust, GraphOk;
    if |p| > 1 {
      PathTrustInUnit(g, c, p[..|p| - 1]);
      DirectTrustInUnit(g, c, p[|p| - 2], p[|p| - 1]);
      ProductInUnit(PathTrust(g, c, p[..|p| - 1]), DirectTrust(g, c, p[|p| - 2], p[|p| - 1]));
    }
  }

  lemma {:induction false} HopDecayBounds(k: nat)
    ensures 0.0 < HopDecay(k) <= 1.0
    ensures k >= 1 ==> HopDecay(k) <= 0.7
  {
    if k > 0 { HopDecayBounds(k - 1); }
  }

  /** Trust that passes through someone else is at most 0.7, whatever the path. */
  lemma BestBounded(g: Graph, c: Context, q: Query, best: real, path: seq<string>)
    requires GraphOk(g, c.now) && IsBest(g, c, q, best, path)
    ensures 0.0 <= best <= 1.0
    ensures q.minNodes >= 2 ==> best <= 0.7
  {
    hide GraphOk, Hops, PathTrust, HopDecay;
    if best > 0.0 {
      PathTrustInUnit(g, c, path);
      HopDecayBounds(|path| - 2);
      ProductInUnit(PathTrust(g, c, path), HopDecay(|path| - 2));
    }
  }

  lemma SameEdgesSameTrust(g: Graph, g': Graph, c: Context, p: seq<string>)
    requires g.edges == g'.edges
    ensures PathTrust(g, c, p) == PathTrust(g', c, p)
  {
    hide EdgeTrust;
  }

  /** The maximum depends on the edges only, not on the order in which a search meets them, and any two
      correct searches return the same number. */
  lemma BestUnique(g: Graph, g': Graph, c: Context, q: Query, b: real, p: seq<string>, b': real, p': seq<string>)
    requires g.edges == g'.edges && IsBest(g, c, q, b, p) && IsBest(g', c, q, b', p')
    ensures b == b'
  {
    SameEdgesSameTrust(g, g', c, p);
    SameEdgesSameTrust(g, g', c, p');
    hide PathTrust, HopDecay;
    assert b > 0.0 ==> AdmissiblePath(g', c, q, p) && Score(g, c, p) == Score(g', c, p);
    assert b' > 0.0 ==> AdmissiblePath(g, c, q, p') && Score(g, c, p') == Score(g', c, p');
  }

  // ---------- The two searches ----------

  function IndirectQuery(from: string, to: string, maxDepth: int): Query {
    Query(from, to, maxDepth, 2)
  }

  function StrongestQuery(from: string, to: string): Query {
    Query(from, to, DEFAULT_MAX_DEPTH, 1)
  }

  /** Which paths compete by default: of two to four hops for indirect trust, and of one to four for the strongest. */
  lemma DefaultLengths(g: Graph, c: Context, from: string, to: string, p: seq<string>)
    ensures AdmissiblePath(g, c, IndirectQuery(from, to, DEFAULT_MAX_DEPTH), p) <==>
            3 <= |p| <= 5 && p[0] == from && p[|p| - 1] == to && Distinct(p) && Hops(g, c, p)
    ensures AdmissiblePath(g, c, StrongestQuery(from, to), p) <==>
            2 <= |p| <= 5 && p[0] == from && p[|p| - 1] == to && Distinct(p) && Hops(g, c, p)
  {
    hide Distinct, Hops;
  }

  lemma DirectPathScore(g: Graph, c: Context, from: string, to: string)
    ensures Score(g, c, [from, to]) == DirectTrust(g, c, from, to)
  {
    hide DirectTrust;
    assert [from, to][..1] == [from];
    assert PathTrust(g, c, [from, to]) == PathTrust(g, c, [from]) * DirectTrust(g, c, from, to);
  }

  /** Main result: the strongest path is the better of the direct edge and the best indirect path,
      and there is none exactly when both are 0. */
  lemma SearchesAgree(g: Graph, c: Context, from: string, to: string, s: real, sp: seq<string>, i: real,
                      ip: seq<string>)
    requires from != to && GraphOk(g, c.now)
    requires IsBest(g, c, StrongestQuery(from, to), s, sp)
    requires IsBest(g, c, IndirectQuery(from, to, DEFAULT_MAX_DEPTH), i, ip)
    ensures s == Max(DirectTrust(g, c, from, to), i)
    ensures sp == [] <==> DirectTrust(g, c, from, to) == 0.0 && i == 0.0
  {
    DirectTrustInUnit(g, c, from, to);
    DirectPathScore(g, c, from, to);
    hide GraphOk, PathTrust, HopDecay, Score;
    var sq, iq := StrongestQuery(from, to), IndirectQuery(from, to, DEFAULT_MAX_DEPTH);
    if EdgeKey(from, to, c.scene) in g.edges {
      assert AdmissiblePath(g, c, sq, [from, to]);
    }
    if i > 0.0 { assert AdmissiblePath(g, c, sq, ip); }
    if s > 0.0 {
      if |sp| == 2 {
        assert sp == [from, to];
      } else {
        assert AdmissiblePath(g, c, iq, sp);
      }
    }
  }

  // ---------- Composite trust ----------

  function TotalWeight(g: Graph, order: seq<EdgeKey>): real {
    if order == [] then 0.0
    else TotalWeight(g, order[..|order| - 1]) +
         (if order[|order| - 1] in g.edges then g.edges[order[|order| - 1]].totalWeight else 0.0)
  }

  function SuccessWeight(g: Graph, order: seq<EdgeKey>): real {
    if order == [] then 0.0
    else SuccessWeight(g, order[..|order| - 1]) +
         (if order[|order| - 1] in g.edges then g.edges[order[|order| - 1]].successfulWeight else 0.0)
  }

  function GlobalSuccessRate(g: Graph): real {
    var total := TotalWeight(g, g.edgeOrder);
    if total > 0.0 then SuccessWeight(g, g.edgeOrder) / total else 0.0
  }

  lemma {:induction false} WeightSumsOrdered(g: Graph, order: seq<EdgeKey>, now: int)
    requires GraphOk(g, now)
    ensures 0.0 <= SuccessWeight(g, order) <= TotalWeight(g, order)
  {
    if order != [] {
      WeightSumsOrdered(g, order[..|order| - 1], now);
      var k := order[|order| - 1];
      assert k in g.edges ==> EdgeOk(g.edges[k], now);
    }
  }

  lemma GlobalRateInUnit(g: Graph, now: int)
    requires GraphOk(g, now)
    ensures 0.0 <= GlobalSuccessRate(g) <= 1.0
  {
    WeightSumsOrdered(g, g.edgeOrder, now);
    if TotalWeight(g, g.edgeOrder) > 0.0 {
      RatioInUnit(SuccessWeight(g, g.edgeOrder), TotalWeight(g, g.edgeOrder));
    }
  }

  /** Weights 0.6, 0.3 and 0.1; without direct trust its weight goes to the indirect part. */
  function Composite(direct: real, indirect: real, globalRate: real): real {
    var repBonus := globalRate * 0.5;
    if direct == 0.0 then (0.3 + 0.6) * indirect + 0.1 * repBonus
    else 0.6 * direct + 0.3 * indirect + 0.1 * repBonus
  }

  /** What `indirectTrust` returns: an agent has no indirect trust in itself. */
  ghost predicate IsIndirect(g: Graph, c: Context, from: string, to: string, maxDepth: int, score: real,
                             path: seq<string>)
  {
    if from == to then score == 0.0 && path == []
    else IsBest(g, c, IndirectQuery(from, to, maxDepth), score, path)
  }

  /** The best composite trust there can be is 0.86, and 0.68 without direct experience. */
  lemma CompositeBounded(g: Graph, c: Context, from: string, to: string, indirect: real, path: seq<string>)
    requires GraphOk(g, c.now) && IsIndirect(g, c, from, to, DEFAULT_MAX_DEPTH, indirect, path)
    ensures var score := Composite(DirectTrust(g, c, from, to), indirect, GlobalSuccessRate(g));
            0.0 <= score <= 0.86 && (DirectTrust(g, c, from, to) == 0.0 ==> score <= 0.68)
  {
    DirectTrustInUnit(g, c, from, to);
    if from != to { BestBounded(g, c, IndirectQuery(from, to, DEFAULT_MAX_DEPTH), indirect, path); }
    GlobalRateInUnit(g, c.now);
    hide GraphOk, IsBest, DirectTrust, GlobalSuccessRate;
  }
}
