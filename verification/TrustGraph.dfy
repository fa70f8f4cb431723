/** The class `TrustGraph` of `src/graph/index.ts`: maps of nodes and edges updated in place, and the
    queries that loop over them. */
module TrustGraphs {
  import opened GraphState
  import opened GraphSearch
  import opened Reals
  import opened Sequences
  import S = Suspicion
  import C = Clusters

  class TrustGraph {
    var nodes: map<string, Node>
    var nodeOrder: seq<string>
    var edges: map<EdgeKey, Edge>
    var edgeOrder: seq<EdgeKey>

    ghost function Now(): Graph
      reads this
    {
      Graph(nodes, nodeOrder, edges, edgeOrder)
    }

    constructor ()
      ensures Now() == EMPTY_GRAPH
    {
      nodes, nodeOrder, edges, edgeOrder := map[], [], map[], [];
    }

    method AddNode(agentId: string)
      modifies this
      ensures Now() == old(Register(Now(), agentId))
    {
      if agentId in nodes { return; }
      nodes := nodes[agentId := Node(0, {})];
      nodeOrder := nodeOrder + [agentId];
    }

    method RemoveNode(agentId: string)
      modifies this
      ensures Now() == old(AfterRemoval(Now(), agentId))
    {
      nodes := map a | a in nodes && a != agentId :: nodes[a];
      nodeOrder := WithoutNode(nodeOrder, agentId);
      edges := map k | k in edges && !Touches(k, agentId) :: edges[k];
      edgeOrder := WithoutAgent(edgeOrder, agentId);
    }

    /** Auto-registration and the interaction counts of both agents. */
    method CountInteraction(k: EdgeKey)
      modifies this
      ensures Now() == old(TouchBoth(Now(), k))
      ensures edges == old(edges) && edgeOrder == old(edgeOrder)
    {
      if k.from !in nodes { AddNode(k.from); }
      if k.to !in nodes { AddNode(k.to); }
      var fromNode := nodes[k.from];
      nodes := nodes[k.from := Node(fromNode.totalInteractions + 1, fromNode.scenes + {k.scene})];
      var toNode := nodes[k.to];
      nodes := nodes[k.to := Node(toNode.totalInteractions + 1, toNode.scenes + {k.scene})];
    }

    method UpdatedEdge(prior: Edge, x: Interaction, now: int) returns (edge: Edge)
      requires prior.totalTasks >= 0
      ensures edge == UpdateEdge(prior, x, now)
    {
      edge := prior;
      var totalDur := edge.avgDurationMs * edge.totalTasks as real + x.durationMs;
      edge := edge.(totalTasks := edge.totalTasks + 1);
      edge := edge.(avgDurationMs := totalDur / edge.totalTasks as real);
      if x.success {
        edge := edge.(successfulTasks := edge.successfulTasks + 1,
                      successfulWeight := edge.successfulWeight + x.taskWeight);
      } else {
        edge := edge.(failedTasks := edge.failedTasks + 1);
      }
      edge := edge.(totalWeight := edge.totalWeight + x.taskWeight, lastInteraction := now);
      var currentRate := edge.successfulTasks as real / edge.totalTasks as real;
      var deviation := Abs((if x.success then 1.0 else 0.0) - currentRate);
      edge := edge.(consistencyScore := edge.consistencyScore * 0.9 + (1.0 - deviation) * 0.1);
    }

    method RecordInteraction(x: Interaction, now: int)
      requires CountsNonNegative(Now())
      modifies this
      ensures Now() == old(AfterInteraction(Now(), Record(x, now)))
    {
      hide UpdateEdge, Register, Touch, Abs;
      CountInteraction(x.key);
      var edge := FreshEdge(now);
      if x.key in edges { edge := edges[x.key]; } else { edgeOrder := edgeOrder + [x.key]; }
      edge := UpdatedEdge(edge, x, now);
      edges := edges[x.key := edge];
    }

    method EdgeTrustOf(c: Context, from: string, to: string) returns (score: real, confidence: real)
      ensures score == DirectTrust(Now(), c, from, to)
      ensures confidence == DirectConfidence(Now(), c, from, to)
    {
      var k := EdgeKey(from, to, c.scene);
      if k !in edges || edges[k].totalWeight == 0.0 { return 0.0, 0.0; }
      var edge := edges[k];
      var swr := edge.successfulWeight / edge.totalWeight;
      var recency := c.decay(c.now - edge.lastInteraction);
      confidence := Confidence(edge);
      score := swr * recency * edge.consistencyScore * confidence;
    }

    /** One pass over the edge map for a queued path: edges to the target compete for the best path,
        other edges of the scene are queued. */
    method Expand(c: Context, q: Query, current: QueueItem, waiting: seq<QueueItem>, bestBefore: real,
                  bestPathBefore: seq<string>)
      returns (queue: seq<QueueItem>, best: real, bestPath: seq<string>)
      requires Orders(Now()) && ItemOk(Now(), c, q, current) && 1 <= |current.path| <= q.maxDepth + 1
      requires forall i :: 0 <= i < |waiting| ==> ItemOk(Now(), c, q, waiting[i])
      requires Progress(Now(), c, q, bestBefore, waiting, current.path, 0)
      requires BestSoFar(Now(), c, q, bestBefore, bestPathBefore)
      ensures forall i :: 0 <= i < |queue| ==> ItemOk(Now(), c, q, queue[i])
      ensures Progress(Now(), c, q, best, queue, [], 0)
      ensures BestSoFar(Now(), c, q, best, bestPath)
      ensures QueueWeight(|edgeOrder|, q.maxDepth, queue) <=
              QueueWeight(|edgeOrder|, q.maxDepth, waiting) +
                |edgeOrder| * Weight(|edgeOrder|, q.maxDepth, |current.path| + 1)
    {
      hide Score, Hops, PathTrust, DirectTrust, ItemOk, Progress, AdmissiblePath, Orders, HopDecay, Weight, QueueWeight;
      ghost var g := Now();
      ghost var rest := QueueWeight(|edgeOrder|, q.maxDepth, waiting);
      ghost var step := Weight(|edgeOrder|, q.maxDepth, |current.path| + 1);
      queue, best, bestPath := waiting, bestBefore, bestPathBefore;
      for n := 0 to |edgeOrder|
        invariant forall i :: 0 <= i < |queue| ==> ItemOk(g, c, q, queue[i])
        invariant Progress(g, c, q, best, queue, current.path, n)
        invariant BestSoFar(g, c, q, best, bestPath)
        invariant QueueWeight(|edgeOrder|, q.maxDepth, queue) <= rest + n * step
      {
        var edge := edgeOrder[n];
        NextProduct(n, step);
        if edge.from != current.node || edge.scene != c.scene || edge.to in current.path {
          SkipEdge(g, c, q, best, queue, current, n);
          continue;
        }
        EdgeListed(g, n);
        ExtendItem(g, c, q, current, edge);
        var dt, _ := EdgeTrustOf(c, edge.from, edge.to);
        var hopCount := |current.path|;
        var pathTrust := current.trust * dt * HopDecay(hopCount - 1);
        if edge.to == q.to {
          ghost var before := best;
          if |current.path| >= q.minNodes && pathTrust > best {
            best := pathTrust;
            bestPath := current.path + [edge.to];
          }
          TargetEdge(g, c, q, before, queue, current, n, best);
        } else if |current.path| < q.maxDepth + 1 {
          var item := QueueItem(edge.to, current.path + [edge.to], current.trust * dt);
          assert item == QueueItem(edge.to, current.path + [edge.to],
                                   current.trust * DirectTrust(g, c, edge.from, edge.to));
          assert ItemOk(g, c, q, item);
          OtherEdge(g, c, q, best, queue, current, n, queue + [item]);
          QueueWeightPush(|edgeOrder|, q.maxDepth, queue, item);
          queue := queue + [item];
        } else {
          OtherEdge(g, c, q, best, queue, current, n, queue);
        }
      }
      PendingDone(g, c, q, best, queue, current.path);
    }

    /** The queue loop shared by `indirectTrust` and `strongestPath`, which differ in the least length
        of a path that counts. It always ends, with the best score there is. */
    method Search(c: Context, q: Query) returns (best: real, bestPath: seq<string>)
      requires q.from != q.to && Orders(Now())
      ensures IsBest(Now(), c, q, best, bestPath)
    {
      hide ItemOk, Progress, BestSoFar, Orders, Weight, IsBest;
      ghost var g := Now();
      var queue := [QueueItem(q.from, [q.from], 1.0)];
      best, bestPath := 0.0, [];
      StartCovers(g, c, q);
      assert BestSoFar(g, c, q, 0.0, []) by { NothingYet(g, c, q); }
      while queue != []
        invariant forall i :: 0 <= i < |queue| ==> ItemOk(g, c, q, queue[i])
        invariant Progress(g, c, q, best, queue, [], 0)
        invariant BestSoFar(g, c, q, best, bestPath)
        decreases QueueWeight(|edgeOrder|, q.maxDepth, queue)
      {
        QueueWeightPop(|edgeOrder|, q.maxDepth, queue);
        PopToPending(g, c, q, best, queue);
        var current := queue[0];
        ItemFacts(g, c, q, current);
        WeightAtLeastOne(|edgeOrder|, q.maxDepth, |current.path|);
        queue := queue[1..];
        if |current.path| > q.maxDepth + 1 { continue; }
        ExpansionShrinks(|edgeOrder|, q.maxDepth, |current.path|);
        queue, best, bestPath := Expand(c, q, current, queue, best, bestPath);
      }
      NothingLeft(g, c, q, best, bestPath);
    }

    lemma NothingYet(g: Graph, c: Context, q: Query)
      ensures BestSoFar(g, c, q, 0.0, [])
    {}

    lemma ItemFacts(g: Graph, c: Context, q: Query, item: QueueItem)
      requires ItemOk(g, c, q, item)
      ensures |item.path| >= 1
    {}

    lemma EdgeListed(g: Graph, n: nat)
      requires Orders(g) && n < |g.edgeOrder|
      ensures g.edgeOrder[n] in g.edges
    {}

    lemma WeightAtLeastOne(n: nat, maxDepth: int, length: nat)
      ensures Weight(n, maxDepth, length) >= 1
    {
      if length <= maxDepth + 1 { WeightPositive(n, maxDepth + 2 - length); }
    }

    lemma NextProduct(n: nat, step: nat)
      ensures (n + 1) * step == n * step + step
    {}

    lemma NothingLeft(g: Graph, c: Context, q: Query, best: real, bestPath: seq<string>)
      requires Progress(g, c, q, best, [], [], 0) && BestSoFar(g, c, q, best, bestPath)
      ensures IsBest(g, c, q, best, bestPath)
    {
      hide Score, Hops;
    }

    /** Trust through others is given with half confidence. */
    method IndirectTrust(c: Context, from: string, to: string, maxDepth: int)
      returns (score: real, path: seq<string>, confidence: real)
      requires Orders(Now())
      ensures IsIndirect(Now(), c, from, to, maxDepth, score, path)
      ensures confidence == if score > 0.0 then 0.5 else 0.0
    {
      if from == to { return 0.0, [], 0.0; }
      score, path := Search(c, IndirectQuery(from, to, maxDepth));
      confidence := if score > 0.0 then 0.5 else 0.0;
    }

    /** An empty path stands for the null result. */
    method StrongestPath(c: Context, from: string, to: string) returns (trust: real, path: seq<string>)
      requires Orders(Now())
      ensures from == to ==> path == []
      ensures from != to ==> IsBest(Now(), c, StrongestQuery(from, to), trust, path)
    {
      if from == to { return 0.0, []; }
      trust, path := Search(c, StrongestQuery(from, to));
    }

    method SuccessRateOfAll() returns (rate: real)
      requires Orders(Now())
      ensures rate == GlobalSuccessRate(Now())
    {
      var totalWeight, successWeight := 0.0, 0.0;
      for i := 0 to |edgeOrder|
        invariant totalWeight == TotalWeight(Now(), edgeOrder[..i])
        invariant successWeight == SuccessWeight(Now(), edgeOrder[..i])
      {
        assert edgeOrder[..i + 1][..i] == edgeOrder[..i];
        EdgeListed(Now(), i);
        totalWeight := totalWeight + edges[edgeOrder[i]].totalWeight;
        successWeight := successWeight + edges[edgeOrder[i]].successfulWeight;
      }
      assert edgeOrder[..|edgeOrder|] == edgeOrder;
      rate := if totalWeight > 0.0 then successWeight / totalWeight else 0.0;
    }

    /** On a sound graph never above 0.86. */
    method CompositeTrust(c: Context, from: string, to: string)
      returns (score: real, indirect: real, path: seq<string>, confidence: real)
      requires Orders(Now())
      ensures IsIndirect(Now(), c, from, to, DEFAULT_MAX_DEPTH, indirect, path)
      ensures score == Composite(DirectTrust(Now(), c, from, to), indirect, GlobalSuccessRate(Now()))
      ensures confidence == Max(DirectConfidence(Now(), c, from, to), if indirect > 0.0 then 0.5 else 0.0)
      ensures GraphOk(Now(), c.now) ==> 0.0 <= score <= 0.86
    {
      hide IsBest, GlobalSuccessRate, DirectTrust, IsIndirect, DirectConfidence;
      var direct, directConfidence := EdgeTrustOf(c, from, to);
      var indirectConfidence: real;
      indirect, path, indirectConfidence := IndirectTrust(c, from, to, DEFAULT_MAX_DEPTH);
      var rate := SuccessRateOfAll();
      var repBonus := rate * 0.5;
      var alpha, beta, gamma := 0.6, 0.3, 0.1;
      if direct == 0.0 {
        beta := beta + alpha;
        alpha := 0.0;
      }
      score := alpha * direct + beta * indirect + gamma * repBonus;
      confidence := Max(directConfidence, indirectConfidence);
      hide Orders;
      if GraphOk(Now(), c.now) {
        CompositeBounded(Now(), c, from, to, indirect, path);
      }
    }

    // ---------- Cluster detection ----------

    method ActivityScores() returns (scores: map<string, int>)
      requires Orders(Now())
      ensures forall a :: a in nodeOrder ==> a in scores && scores[a] == S.Activity(edges, edgeOrder, a)
    {
      scores := map[];
      for i := 0 to |nodeOrder|
        invariant forall a :: a in nodeOrder[..i] ==> a in scores
        invariant forall a :: a in scores ==> scores[a] == 0
      {
        scores := scores[nodeOrder[i] := 0];
      }
      assert nodeOrder[..|nodeOrder|] == nodeOrder;
      assert S.Scores(scores, edges, []);
      hide S.Scores;
      for i := 0 to |edgeOrder|
        invariant forall a :: a in nodeOrder ==> a in scores
        invariant S.Scores(scores, edges, edgeOrder[..i])
      {
        var k := edgeOrder[i];
        EdgeListed(Now(), i);
        S.ScoresStep(scores, edges, edgeOrder[..i], k);
        assert edgeOrder[..i + 1] == edgeOrder[..i] + [k];
        scores := S.AddTo(scores, k.from, edges[k].totalTasks);
        scores := S.AddTo(scores, k.to, edges[k].totalTasks);
      }
      assert edgeOrder[..|edgeOrder|] == edgeOrder;
      S.ScoresMeaning(scores, edges, edgeOrder);
    }

    method RankAgentsByActivity() returns (ranked: seq<string>)
      requires Orders(Now())
      ensures ranked == S.Ranked(Now())
    {
      var scores := ActivityScores();
      hide S.Activity, Orders;
      var scored: seq<S.Scored<string>> := [];
      for i := 0 to |nodeOrder|
        invariant scored == S.ByActivity(Now(), nodeOrder[..i])
      {
        assert nodeOrder[..i + 1][..i] == nodeOrder[..i];
        scored := scored + [S.Scored(nodeOrder[i], scores[nodeOrder[i]] as real)];
      }
      assert nodeOrder[..|nodeOrder|] == nodeOrder;
      ranked := S.Items(S.SortDown(scored));
    }

    /** Per agent, the tasks with each agent it worked for, over all scenes. */
    method Interactions() returns (adj: map<string, seq<S.Neighbor>>)
      requires Orders(Now())
      ensures S.Tallies(adj, edges, edgeOrder)
    {
      adj := map[];
      assert S.Tallies(adj, edges, []);
      hide S.Tallies;
      for i := 0 to |edgeOrder|
        invariant S.Tallies(adj, edges, edgeOrder[..i])
      {
        var k := edgeOrder[i];
        EdgeListed(Now(), i);
        S.TalliesStep(adj, edges, edgeOrder[..i], k);
        assert edgeOrder[..i + 1] == edgeOrder[..i] + [k];
        if k.from !in adj { adj := adj[k.from := []]; }
        adj := adj[k.from := S.Bump(adj[k.from], k.to, edges[k].totalTasks)];
      }
      assert edgeOrder[..|edgeOrder|] == edgeOrder;
    }

    method Measure(adj: map<string, seq<S.Neighbor>>, combo: seq<string>) returns (internal: int, external: int)
      requires S.Tallies(adj, edges, edgeOrder) && Distinct(combo)
      ensures internal == S.Internal(Now(), S.Group(combo)) && external == S.External(Now(), S.Group(combo))
    {
      var comboSet := S.Group(combo);
      internal, external := 0, 0;
      assert S.Group(combo[..0]) == {};
      S.NoTasksFromNobody(edges, edgeOrder, comboSet, true);
      S.NoTasksFromNobody(edges, edgeOrder, comboSet, false);
      for i := 0 to |combo|
        invariant internal == S.TasksBetween(edges, edgeOrder, S.Group(combo[..i]), comboSet, true)
        invariant external == S.TasksBetween(edges, edgeOrder, S.Group(combo[..i]), comboSet, false)
      {
        var agent := combo[i];
        assert S.Group(combo[..i + 1]) == S.Group(combo[..i]) + {agent};
        S.TasksSplit(edges, edgeOrder, S.Group(combo[..i]), {agent}, comboSet, true);
        S.TasksSplit(edges, edgeOrder, S.Group(combo[..i]), {agent}, comboSet, false);
        assert S.NeighborTasks(S.NeighborsOf(adj, agent), comboSet, true) ==
               S.TasksBetween(edges, edgeOrder, {agent}, comboSet, true);
        assert S.NeighborTasks(S.NeighborsOf(adj, agent), comboSet, false) ==
               S.TasksBetween(edges, edgeOrder, {agent}, comboSet, false);
        if agent !in adj { continue; }
        var inside, outside := MeasureNeighbors(adj[agent], comboSet);
        internal, external := internal + inside, external + outside;
      }
      assert combo[..|combo|] == combo;
    }

    method MeasureNeighbors(neighbors: seq<S.Neighbor>, comboSet: set<string>) returns (inside: int, outside: int)
      ensures inside == S.NeighborTasks(neighbors, comboSet, true) &&
              outside == S.NeighborTasks(neighbors, comboSet, false)
    {
      inside, outside := 0, 0;
      for j := 0 to |neighbors|
        invariant inside + S.NeighborTasks(neighbors[j..], comboSet, true) == S.NeighborTasks(neighbors, comboSet, true)
        invariant outside + S.NeighborTasks(neighbors[j..], comboSet, false) ==
                  S.NeighborTasks(neighbors, comboSet, false)
      {
        assert neighbors[j..][1..] == neighbors[j + 1..];
        if neighbors[j].to in comboSet {
          inside := inside + neighbors[j].tasks;
        } else {
          outside := outside + neighbors[j].tasks;
        }
      }
    }

    method Judge(interactions: map<string, seq<S.Neighbor>>, combo: seq<string>, minClusterSize: nat)
      returns (suspicious: bool, internalRatio: real)
      requires S.Tallies(interactions, edges, edgeOrder) && Distinct(combo)
      ensures suspicious == S.Suspicious(Now(), S.Group(combo), minClusterSize)
      ensures internalRatio == S.InternalShare(Now(), S.Group(combo))
    {
      var internal, external := Measure(interactions, combo);
      hide S.Tallies, S.Internal, S.External, S.Group, Distinct;
      var total := internal + external;
      if total == 0 { return false, 0.0; }
      internalRatio := internal as real / total as real;
      suspicious := internalRatio > 0.8 && internal > minClusterSize;
    }

    method Flag(interactions: map<string, seq<S.Neighbor>>, combos: seq<seq<string>>, minClusterSize: nat)
      returns (clusters: seq<S.Scored<seq<string>>>)
      requires S.Tallies(interactions, edges, edgeOrder)
      requires forall i :: 0 <= i < |combos| ==> Distinct(combos[i])
      ensures clusters == S.Flagged(Now(), combos, minClusterSize)
    {
      hide S.Tallies, S.Group, S.Flagged, S.Suspicious, S.InternalShare, Distinct;
      clusters := [];
      S.NothingFlagged(Now(), minClusterSize);
      for i := 0 to |combos|
        invariant clusters == S.Flagged(Now(), combos[..i], minClusterSize)
      {
        assert combos[..i + 1] == combos[..i] + [combos[i]];
        S.FlaggedStep(Now(), combos[..i], combos[i], minClusterSize);
        var suspicious, internalRatio := Judge(interactions, combos[i], minClusterSize);
        if suspicious {
          clusters := clusters + [S.Scored(combos[i], internalRatio)];
        }
      }
      assert combos[..|combos|] == combos;
    }

    method DetectSuspiciousClusters(minClusterSize: nat) returns (clusters: seq<S.Scored<seq<string>>>)
      requires Orders(Now())
      ensures clusters == S.Detected(Now(), minClusterSize)
    {
      if |nodeOrder| < minClusterSize { return []; }
      hide Orders, S.Tallies, S.Ranked, S.Flagged, S.SortDown, Distinct, C.Take, C.Combinations;
      var interactions := Interactions();
      var ranked := RankAgentsByActivity();
      var candidates := C.Take(ranked, C.MAX_CLUSTER_CANDIDATES);
      var combos := C.Enumerate(candidates, minClusterSize, C.MAX_COMBINATION_CHECKS);
      assert combos == S.Examined(Now(), minClusterSize);
      forall i | 0 <= i < |combos| ensures Distinct(combos[i]) {
        S.ExaminedDistinct(Now(), minClusterSize, combos[i]);
      }
      clusters := Flag(interactions, combos, minClusterSize);
      clusters := S.SortDown(clusters);
    }
  }
}
