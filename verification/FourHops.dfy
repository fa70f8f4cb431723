/** How far the searches of `src/graph/index.ts` reach: a graph on which indirect trust takes four hops. */
module FourHops {
  import opened GraphState
  import opened GraphSearch

  /** Five agents in a row, each of which completed one task for the one before. */
  const ROW := ["a", "b", "c", "d", "e"]

  function RowKey(scene: string, i: nat): EdgeKey
    requires i < 4
  {
    EdgeKey(ROW[i], ROW[i + 1], scene)
  }

  function RowHistory(c: Context): seq<Record> {
    seq(4, i requires 0 <= i < 4 => Record(Interaction(RowKey(c.scene, i), true, 1.0, 1.0), c.now))
  }

  /** The graph that these four interactions leave. */
  ghost function RowGraph(c: Context): Graph {
    History(RowHistory(c))
  }

  function RowEdge(c: Context): Edge {
    Edge(1, 1, 0, 1.0, 1.0, 1.0, c.now, 1.0)
  }

  lemma RowDistinct()
    ensures |ROW| == 5 && forall i, j :: 0 <= i < 5 && 0 <= j < 5 && ROW[i] == ROW[j] ==> i == j
  {
    assert ROW[0][0] == 'a' && ROW[1][0] == 'b' && ROW[2][0] == 'c' && ROW[3][0] == 'd' && ROW[4][0] == 'e';
  }

  lemma FirstTask(c: Context, x: Interaction)
    requires x.success && x.taskWeight == 1.0 && x.durationMs == 1.0
    ensures UpdateEdge(FreshEdge(c.now), x, c.now) == RowEdge(c)
  {
    assert 1.0 / 1.0 == 1.0;
  }

  /** The edges of the first n pairs. */
  function RowEdges(c: Context, n: nat): map<EdgeKey, Edge>
    requires n <= 4
  {
    if n == 0 then map[] else RowEdges(c, n - 1)[RowKey(c.scene, n - 1) := RowEdge(c)]
  }

  lemma {:induction false} RowEdgesHold(c: Context, n: nat)
    requires n <= 4
    ensures forall k :: k in RowEdges(c, n) <==> exists i :: 0 <= i < n && k == RowKey(c.scene, i)
    ensures forall i :: 0 <= i < n ==> RowEdges(c, n)[RowKey(c.scene, i)] == RowEdge(c)
  {
    if n > 0 { RowEdgesHold(c, n - 1); }
  }

  lemma RowKeyNew(c: Context, n: nat)
    requires n < 4
    ensures RowKey(c.scene, n) !in RowEdges(c, n)
  {
    RowEdgesHold(c, n);
    RowDistinct();
    assert forall i :: 0 <= i < n ==> RowKey(c.scene, i).from == ROW[i] != ROW[n];
  }

  /** Each interaction adds its own edge, and the graph stays sound. */
  lemma {:induction false} RowGrows(c: Context, n: nat)
    requires n <= 4
    ensures GraphOk(History(RowHistory(c)[..n]), c.now)
    ensures History(RowHistory(c)[..n]).edges == RowEdges(c, n)
  {
    if n == 0 {
      EmptyGraphOk(c.now);
    } else {
      var rs, r := RowHistory(c)[..n], RowHistory(c)[n - 1];
      RowGrows(c, n - 1);
      assert rs[..|rs| - 1] == RowHistory(c)[..n - 1] && rs[|rs| - 1] == r;
      var g := History(rs[..|rs| - 1]);
      RowKeyNew(c, n - 1);
      FirstTask(c, r.x);
      OkCountsNonNegative(g, c.now);
      hide GraphOk, UpdateEdge, CountsNonNegative, RowEdge, AfterInteraction;
      InteractionKeepsOk(g, r, c.now);
      AfterInteractionEdges(g, r);
    }
  }

  lemma OkCountsNonNegative(g: Graph, now: int)
    requires GraphOk(g, now)
    ensures CountsNonNegative(g)
  {
    forall k | k in g.edges ensures g.edges[k].totalTasks >= 0 {
      assert EdgeOk(g.edges[k], now);
    }
  }

  lemma RowFacts(c: Context)
    ensures var g := RowGraph(c);
            GraphOk(g, c.now) &&
            (forall k :: k in g.edges <==> exists i :: 0 <= i < 4 && k == RowKey(c.scene, i)) &&
            forall i :: 0 <= i < 4 ==> g.edges[RowKey(c.scene, i)] == RowEdge(c)
  {
    RowGrows(c, 4);
    RowEdgesHold(c, 4);
    hide GraphOk, History, RowEdge;
    assert RowHistory(c)[..4] == RowHistory(c);
  }

  /** One task of twenty, and nothing else that lowers it. */
  function RowTrustValue(c: Context): real {
    0.05 * c.decay(0)
  }

  lemma RowTrust(c: Context, i: nat)
    requires i < 4
    ensures DirectTrust(RowGraph(c), c, ROW[i], ROW[i + 1]) == RowTrustValue(c) > 0.0
  {
    RowFacts(c);
    hide RowGraph;
    assert RowKey(c.scene, i) in RowGraph(c).edges;
    RowEdgeTrust(c);
  }

  lemma RowEdgeTrust(c: Context)
    ensures EdgeTrust(c, RowEdge(c)) == RowTrustValue(c) > 0.0
  {
    assert 1.0 / 1.0 == 1.0;
    assert Confidence(RowEdge(c)) == 0.05;
  }

  function Times(x: real, y: real): real { x * y }

  /** The product of n equal factors. */
  function Repeated(x: real, n: nat): real {
    if n == 0 then 1.0 else Times(Repeated(x, n - 1), x)
  }

  lemma {:induction false} RowPathTrust(c: Context, n: nat)
    requires 1 <= n <= 5
    ensures PathTrust(RowGraph(c), c, ROW[..n]) == Repeated(RowTrustValue(c), n - 1) > 0.0
  {
    hide DirectTrust, RowGraph, RowTrustValue;
    if n > 1 {
      RowPathTrust(c, n - 1);
      RowTrust(c, n - 2);
      assert ROW[..n][..n - 1] == ROW[..n - 1];
      PositiveProduct(Repeated(RowTrustValue(c), n - 2), RowTrustValue(c));
    }
  }

  /** From the first agent there is one way only. */
  lemma {:induction false} RowWay(c: Context, p: seq<string>, i: nat)
    requires i < |p| <= 5 && p[0] == ROW[0] && Hops(RowGraph(c), c, p)
    ensures p[i] == ROW[i]
  {
    if i > 0 {
      RowWay(c, p, i - 1);
      RowFacts(c);
      hide RowGraph;
      assert EdgeKey(p[i - 1], p[i], c.scene) in RowGraph(c).edges;
      var j :| 0 <= j < 4 && RowKey(c.scene, j) == EdgeKey(p[i - 1], p[i], c.scene);
      assert ROW[j] == ROW[i - 1];
      RowDistinct();
    }
  }

  lemma RowAdmissible(c: Context)
    ensures AdmissiblePath(RowGraph(c), c, IndirectQuery(ROW[0], ROW[4], DEFAULT_MAX_DEPTH), ROW)
  {
    RowHops(c);
    RowDistinct();
    hide RowGraph, Hops;
  }

  /** Three hops after the first, each of which takes the trust to seven tenths. */
  lemma RowScore(c: Context)
    ensures Score(RowGraph(c), c, ROW) == Repeated(RowTrustValue(c), 4) * 0.343 > 0.0
  {
    RowPathTrust(c, 5);
    assert HopDecay(1) == 0.7 && HopDecay(2) == 0.49 && HopDecay(3) == 0.343;
    assert ROW[..5] == ROW;
    hide PathTrust, HopDecay, RowGraph, Repeated;
  }

  /** A path of at most five agents from the first to the last is the whole row. */
  lemma RowOnlyWay(c: Context, path: seq<string>)
    requires 1 <= |path| <= 5 && path[0] == ROW[0] && path[|path| - 1] == ROW[4] && Hops(RowGraph(c), c, path)
    ensures path == ROW
  {
    hide Hops, RowGraph;
    forall i | 0 <= i < |path| ensures path[i] == ROW[i] {
      RowWay(c, path, i);
    }
    RowDistinct();
    assert ROW[|path| - 1] == ROW[4];
  }

  /** With the default depth of 3, a graph left by four interactions on which the best indirect path has four
      hops, and what it scores. */
  lemma FourHopsFound(c: Context, best: real, path: seq<string>)
    requires IsBest(RowGraph(c), c, IndirectQuery(ROW[0], ROW[4], DEFAULT_MAX_DEPTH), best, path)
    ensures GraphOk(RowGraph(c), c.now)
    ensures best == Repeated(0.05 * c.decay(0), 4) * 0.343 > 0.0 && path == ROW
  {
    RowFacts(c);
    RowAdmissible(c);
    RowScore(c);
    hide Score, Hops, GraphOk, RowGraph, Repeated;
    RowOnlyWay(c, path);
  }

  lemma RowHops(c: Context)
    ensures Hops(RowGraph(c), c, ROW)
  {
    RowFacts(c);
    hide RowGraph;
    forall i | 0 <= i < 4 ensures EdgeKey(ROW[i], ROW[i + 1], c.scene) in RowGraph(c).edges {
      assert EdgeKey(ROW[i], ROW[i + 1], c.scene) == RowKey(c.scene, i);
    }
  }

  lemma PositiveProduct(a: real, b: real)
    requires a > 0.0 && b > 0.0
    ensures Times(a, b) > 0.0
  {}
}
