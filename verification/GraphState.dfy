/** The trust graph of `src/graph/index.ts` as a value: nodes, per-scene edges in insertion order,
    the update made by one interaction, and what every run of interactions keeps. */
module GraphState {
  import opened Reals
  import opened Sequences

  /** An edge is identified by both agents and the scene; see `EdgeKeyExact` for the text used as map key. */
  datatype EdgeKey = EdgeKey(from: string, to: string, scene: string)

  datatype Edge = Edge(
    totalTasks: int, successfulTasks: int, failedTasks: int,
    totalWeight: real, successfulWeight: real, avgDurationMs: real,
    lastInteraction: int, consistencyScore: real)

  datatype Node = Node(totalInteractions: int, scenes: set<string>)

  datatype Interaction = Interaction(key: EdgeKey, success: bool, taskWeight: real, durationMs: real)

  datatype Graph = Graph(nodes: map<string, Node>, nodeOrder: seq<string>,
                         edges: map<EdgeKey, Edge>, edgeOrder: seq<EdgeKey>)

  /** An interaction and the clock reading, in milliseconds, at which it is recorded. */
  datatype Record = Record(x: Interaction, now: int)

  const EMPTY_GRAPH := Graph(map[], [], map[], [])

  // ---------- Updates ----------

  function Register(g: Graph, agent: string): Graph {
    if agent in g.nodes then g
    else g.(nodes := g.nodes[agent := Node(0, {})], nodeOrder := g.nodeOrder + [agent])
  }

  function Touch(g: Graph, agent: string, scene: string): Graph
    requires agent in g.nodes
  {
    var n := g.nodes[agent];
    g.(nodes := g.nodes[agent := Node(n.totalInteractions + 1, n.scenes + {scene})])
  }

  function FreshEdge(now: int): Edge {
    Edge(0, 0, 0, 0.0, 0.0, 0.0, now, 1.0)
  }

  function UpdateEdge(e: Edge, x: Interaction, now: int): Edge
    requires e.totalTasks >= 0
  {
    var totalDur := e.avgDurationMs * e.totalTasks as real + x.durationMs;
    var total := e.totalTasks + 1;
    var successes := e.successfulTasks + (if x.success then 1 else 0);
    var currentRate := successes as real / total as real;
    var deviation := Abs((if x.success then 1.0 else 0.0) - currentRate);
    Edge(total, successes, e.failedTasks + (if x.success then 0 else 1),
         e.totalWeight + x.taskWeight, e.successfulWeight + (if x.success then x.taskWeight else 0.0),
         totalDur / total as real, now,
         e.consistencyScore * 0.9 + (1.0 - deviation) * 0.1)
  }

  ghost predicate CountsNonNegative(g: Graph) {
    forall k :: k in g.edges ==> g.edges[k].totalTasks >= 0
  }

  /** Both agents are registered, then counted; an agent that deals with itself is counted twice. */
  function TouchBoth(g: Graph, k: EdgeKey): Graph {
    Touch(Touch(Register(Register(g, k.from), k.to), k.from, k.scene), k.to, k.scene)
  }

  function SetEdge(g: Graph, k: EdgeKey, e: Edge): Graph {
    g.(edges := g.edges[k := e], edgeOrder := if k in g.edges then g.edgeOrder else g.edgeOrder + [k])
  }

  function PriorEdge(g: Graph, k: EdgeKey, now: int): Edge {
    if k in g.edges then g.edges[k] else FreshEdge(now)
  }

  function AfterInteraction(g: Graph, r: Record): Graph
    requires CountsNonNegative(g)
  {
    SetEdge(TouchBoth(g, r.x.key), r.x.key, UpdateEdge(PriorEdge(g, r.x.key, r.now), r.x, r.now))
  }

  predicate Touches(k: EdgeKey, agent: string) {
    k.from == agent || k.to == agent
  }

  function WithoutAgent(order: seq<EdgeKey>, agent: string): seq<EdgeKey> {
    if order == [] then []
    else if Touches(order[0], agent) then WithoutAgent(order[1..], agent)
    else [order[0]] + WithoutAgent(order[1..], agent)
  }

  function WithoutNode(order: seq<string>, agent: string): seq<string> {
    if order == [] then []
    else if order[0] == agent then WithoutNode(order[1..], agent)
    else [order[0]] + WithoutNode(order[1..], agent)
  }

  function AfterRemoval(g: Graph, agent: string): Graph {
    Graph(map a | a in g.nodes && a != agent :: g.nodes[a], WithoutNode(g.nodeOrder, agent),
          map k | k in g.edges && !Touches(k, agent) :: g.edges[k], WithoutAgent(g.edgeOrder, agent))
  }

  // ---------- Numeric invariant ----------

  ghost predicate EdgeOk(e: Edge, now: int) {
    e.totalTasks == e.successfulTasks + e.failedTasks && e.successfulTasks >= 0 && e.failedTasks >= 0 &&
    0.0 <= e.successfulWeight <= e.totalWeight && 0.0 <= e.consistencyScore <= 1.0 && e.lastInteraction <= now
  }

  /** The insertion orders list every key once. */
  ghost predicate Orders(g: Graph) {
    (forall k :: k in g.edges <==> k in g.edgeOrder) && Distinct(g.edgeOrder) &&
    (forall a :: a in g.nodes <==> a in g.nodeOrder) && Distinct(g.nodeOrder)
  }

  /** What every query relies on; `now` bounds all recorded times. */
  ghost predicate GraphOk(g: Graph, now: int) {
    Orders(g) && forall k :: k in g.edges ==> EdgeOk(g.edges[k], now)
  }

  lemma EmptyGraphOk(now: int)
    ensures GraphOk(EMPTY_GRAPH, now)
  {}

  lemma UpdateKeepsEdgeOk(e: Edge, x: Interaction, before: int, now: int)
    requires EdgeOk(e, before) && x.taskWeight >= 0.0
    ensures EdgeOk(UpdateEdge(e, x, now), now)
  {
    var total := e.totalTasks + 1;
    var successes := e.successfulTasks + (if x.success then 1 else 0);
    var rate := successes as real / total as real;
    RatioInUnit(successes as real, total as real);
    var deviation := Abs((if x.success then 1.0 else 0.0) - rate);
    assert 0.0 <= deviation <= 1.0;
  }

  lemma RegisterKeepsOrder(g: Graph, agent: string)
    requires Orders(g)
    ensures Orders(Register(g, agent)) && agent in Register(g, agent).nodes
  {}

  lemma TouchBothKeepsOrders(g: Graph, k: EdgeKey)
    requires Orders(g)
    ensures var g' := TouchBoth(g, k); Orders(g') && g'.edges == g.edges && g'.edgeOrder == g.edgeOrder
  {
    RegisterKeepsOrder(g, k.from);
    RegisterKeepsOrder(Register(g, k.from), k.to);
    hide Register;
    var g2 := Register(Register(g, k.from), k.to);
    assert k.from in g2.nodes && k.to in g2.nodes;
  }

  lemma SetEdgeKeepsOrders(g: Graph, k: EdgeKey, e: Edge)
    requires Orders(g)
    ensures Orders(SetEdge(g, k, e))
  {
    var g' := SetEdge(g, k, e);
    assert forall l :: l in g'.edgeOrder <==> l in g.edgeOrder || l == k;
  }

  /** Every interaction with a non-negative weight and a clock that does not run backwards keeps the graph sound. */
  lemma InteractionKeepsOk(g: Graph, r: Record, before: int)
    requires GraphOk(g, before) && before <= r.now && r.x.taskWeight >= 0.0
    ensures GraphOk(AfterInteraction(g, r), r.now)
  {
    var k := r.x.key;
    var e := UpdateEdge(PriorEdge(g, k, r.now), r.x, r.now);
    TouchBothKeepsOrders(g, k);
    SetEdgeKeepsOrders(TouchBoth(g, k), k, e);
    UpdateKeepsEdgeOk(PriorEdge(g, k, r.now), r.x, r.now, r.now);
    hide UpdateEdge, TouchBoth, Orders;
    assert AfterInteraction(g, r).edges == g.edges[k := e];
  }

  lemma {:induction false} WithoutAgentKeeps(order: seq<EdgeKey>, agent: string)
    ensures forall k :: k in WithoutAgent(order, agent) <==> k in order && !Touches(k, agent)
    ensures Distinct(order) ==> Distinct(WithoutAgent(order, agent))
  {
    if order != [] {
      WithoutAgentKeeps(order[1..], agent);
      assert order == [order[0]] + order[1..];
      if Distinct(order) {
        assert Distinct(order[1..]);
        assert order[0] !in order[1..];
      }
    }
  }

  lemma {:induction false} WithoutNodeKeeps(order: seq<string>, agent: string)
    ensures forall a :: a in WithoutNode(order, agent) <==> a in order && a != agent
    ensures Distinct(order) ==> Distinct(WithoutNode(order, agent))
  {
    if order != [] {
      WithoutNodeKeeps(order[1..], agent);
      assert order == [order[0]] + order[1..];
      if Distinct(order) {
        assert Distinct(order[1..]);
        assert order[0] !in order[1..];
      }
    }
  }

  lemma RemovalKeepsOk(g: Graph, agent: string, now: int)
    requires GraphOk(g, now)
    ensures GraphOk(AfterRemoval(g, agent), now)
  {
    WithoutAgentKeeps(g.edgeOrder, agent);
    WithoutNodeKeeps(g.nodeOrder, agent);
  }

  // ---------- Runs ----------

  /** Removing an agent takes with it exactly the edges from it and to it, in either direction and in every scene. */
  lemma RemovalSpelledOut(g: Graph, agent: string)
    requires Orders(g)
    ensures var g' := AfterRemoval(g, agent);
            (forall a :: a in g'.nodes <==> a in g.nodes && a != agent) &&
            (forall a :: a in g'.nodes ==> g'.nodes[a] == g.nodes[a]) &&
            (forall k :: k in g'.edges <==> k in g.edges && k.from != agent && k.to != agent) &&
            forall k :: k in g'.edges ==> g'.edges[k] == g.edges[k]
  {}

  datatype Op = DoRecord(x: Interaction) | DoRemove(agent: string) | DoAddNode(agent: string)

  datatype Timed = Timed(op: Op, now: int)

  ghost predicate Admissible(ops: seq<Timed>) {
    (forall i :: 0 <= i < |ops| && ops[i].op.DoRecord? ==> ops[i].op.x.taskWeight >= 0.0) &&
    forall i, j :: 0 <= i < j < |ops| ==> ops[i].now <= ops[j].now
  }

  ghost function Apply(g: Graph, t: Timed): Graph {
    match t.op
    case DoRecord(x) => if CountsNonNegative(g) then AfterInteraction(g, Record(x, t.now)) else g
    case DoRemove(agent) => AfterRemoval(g, agent)
    case DoAddNode(agent) => Register(g, agent)
  }

  ghost function Run(ops: seq<Timed>): Graph {
    if ops == [] then EMPTY_GRAPH else Apply(Run(ops[..|ops| - 1]), ops[|ops| - 1])
  }

  /** Over any run of interactions, removals and registrations the numbers on every edge stay in range. */
  lemma {:induction false} EveryRunOk(ops: seq<Timed>, now: int)
    requires Admissible(ops) && (ops == [] || ops[|ops| - 1].now <= now)
    ensures GraphOk(Run(ops), now)
  {
    if ops == [] {
      EmptyGraphOk(now);
    } else {
      var init, last := ops[..|ops| - 1], ops[|ops| - 1];
      EveryRunOk(init, last.now);
      var g := Run(init);
      match last.op
      case DoRecord(x) => InteractionKeepsOk(g, Record(x, last.now), last.now);
      case DoRemove(agent) => RemovalKeepsOk(g, agent, last.now);
      case DoAddNode(agent) => RegisterKeepsOrder(g, agent);
    }
  }

  // ---------- What an edge remembers of its history ----------

  function CountFor(rs: seq<Record>, k: EdgeKey): nat {
    if rs == [] then 0
    else CountFor(rs[..|rs| - 1], k) + (if rs[|rs| - 1].x.key == k then 1 else 0)
  }

  function SuccessesFor(rs: seq<Record>, k: EdgeKey): nat {
    if rs == [] then 0
    else SuccessesFor(rs[..|rs| - 1], k) + (if rs[|rs| - 1].x.key == k && rs[|rs| - 1].x.success then 1 else 0)
  }

  function DurationFor(rs: seq<Record>, k: EdgeKey): real {
    if rs == [] then 0.0
    else DurationFor(rs[..|rs| - 1], k) + (if rs[|rs| - 1].x.key == k then rs[|rs| - 1].x.durationMs else 0.0)
  }

  function WeightFor(rs: seq<Record>, k: EdgeKey, onlySuccess: bool): real {
    if rs == [] then 0.0
    else
      var x := rs[|rs| - 1].x;
      WeightFor(rs[..|rs| - 1], k, onlySuccess) +
      (if x.key == k && (x.success || !onlySuccess) then x.taskWeight else 0.0)
  }

  ghost predicate Remembers(e: Edge, rs: seq<Record>, k: EdgeKey) {
    e.totalTasks == CountFor(rs, k) && e.successfulTasks == SuccessesFor(rs, k) &&
    e.failedTasks == CountFor(rs, k) - SuccessesFor(rs, k) &&
    e.totalWeight == WeightFor(rs, k, false) && e.successfulWeight == WeightFor(rs, k, true) &&
    e.avgDurationMs * e.totalTasks as real == DurationFor(rs, k)
  }

  ghost function History(rs: seq<Record>): Graph {
    if rs == [] then EMPTY_GRAPH
    else
      var g := History(rs[..|rs| - 1]);
      if CountsNonNegative(g) then AfterInteraction(g, rs[|rs| - 1]) else g
  }

  lemma UpdateRemembers(e: Edge, rs: seq<Record>, r: Record)
    requires Remembers(e, rs, r.x.key)
    ensures e.totalTasks >= 0 && Remembers(UpdateEdge(e, r.x, r.now), rs + [r], r.x.key)
  {
    assert (rs + [r])[..|rs|] == rs;
    var total := (e.totalTasks + 1) as real;
    var sum := e.avgDurationMs * e.totalTasks as real + r.x.durationMs;
    assert sum / total * total == sum;
  }

  ghost predicate MatchesHistory(g: Graph, rs: seq<Record>) {
    CountsNonNegative(g) &&
    (forall k :: k in g.edges <==> CountFor(rs, k) > 0) &&
    forall k :: k in g.edges ==> Remembers(g.edges[k], rs, k)
  }

  lemma OtherKeysUnaffected(rs: seq<Record>, r: Record, l: EdgeKey)
    requires r.x.key != l
    ensures CountFor(rs + [r], l) == CountFor(rs, l)
    ensures forall e :: Remembers(e, rs, l) ==> Remembers(e, rs + [r], l)
  {
    assert (rs + [r])[..|rs|] == rs;
  }

  lemma OwnKeyCounted(rs: seq<Record>, r: Record)
    ensures CountFor(rs + [r], r.x.key) == CountFor(rs, r.x.key) + 1
  {
    assert (rs + [r])[..|rs|] == rs;
  }

  lemma InteractionExtendsHistory(g: Graph, rs: seq<Record>, r: Record)
    requires MatchesHistory(g, rs)
    ensures MatchesHistory(AfterInteraction(g, r), rs + [r])
  {
    var k, g' := r.x.key, AfterInteraction(g, r);
    NoHistoryNoSums(rs, k);
    UpdateRemembers(PriorEdge(g, k, r.now), rs, r);
    AfterInteractionEdges(g, r);
    OwnKeyCounted(rs, r);
    hide UpdateEdge, AfterInteraction, Remembers, CountFor;
    forall l ensures l in g'.edges <==> CountFor(rs + [r], l) > 0
             ensures l in g'.edges ==> Remembers(g'.edges[l], rs + [r], l)
    {
      if l != k { OtherKeysUnaffected(rs, r, l); }
    }
    assert g'.edges[k].totalTasks >= 0 by { RemembersCounts(g'.edges[k], rs + [r], k); }
  }

  lemma RemembersCounts(e: Edge, rs: seq<Record>, k: EdgeKey)
    requires Remembers(e, rs, k)
    ensures e.totalTasks >= 0
  {}

  /** Main result: after any run of interactions every edge holds exactly the aggregates of its own
      interactions, and there is an edge for a key exactly when there was an interaction. */
  lemma {:induction false} EdgesRememberHistory(rs: seq<Record>)
    ensures MatchesHistory(History(rs), rs)
  {
    if rs != [] {
      EdgesRememberHistory(rs[..|rs| - 1]);
      InteractionExtendsHistory(History(rs[..|rs| - 1]), rs[..|rs| - 1], rs[|rs| - 1]);
      assert rs == rs[..|rs| - 1] + [rs[|rs| - 1]];
    }
  }

  lemma AfterInteractionEdges(g: Graph, r: Record)
    requires CountsNonNegative(g)
    ensures AfterInteraction(g, r).edges ==
            g.edges[r.x.key := UpdateEdge(PriorEdge(g, r.x.key, r.now), r.x, r.now)]
  {
    hide UpdateEdge;
  }

  lemma {:induction false} NoHistoryNoSums(rs: seq<Record>, k: EdgeKey)
    ensures SuccessesFor(rs, k) <= CountFor(rs, k)
    ensures CountFor(rs, k) == 0 ==>
              WeightFor(rs, k, false) == 0.0 == WeightFor(rs, k, true) && DurationFor(rs, k) == 0.0
  {
    if rs != [] { NoHistoryNoSums(rs[..|rs| - 1], k); }
  }

  // ---------- Conservation of interaction counts ----------

  function NodeSum(nodes: map<string, Node>, order: seq<string>): int {
    if order == [] then 0
    else
      var a := order[|order| - 1];
      NodeSum(nodes, order[..|order| - 1]) + (if a in nodes then nodes[a].totalInteractions else 0)
  }

  function TaskSum(edges: map<EdgeKey, Edge>, order: seq<EdgeKey>): int {
    if order == [] then 0
    else
      var k := order[|order| - 1];
      TaskSum(edges, order[..|order| - 1]) + (if k in edges then edges[k].totalTasks else 0)
  }

  lemma {:induction false} NodeSumUpdate(nodes: map<string, Node>, order: seq<string>, a: string, n: Node)
    requires Distinct(order) && a in nodes
    ensures NodeSum(nodes[a := n], order) ==
            NodeSum(nodes, order) + (if a in order then n.totalInteractions - nodes[a].totalInteractions else 0)
  {
    if order != [] {
      var init := order[..|order| - 1];
      NodeSumUpdate(nodes, init, a, n);
      assert order == init + [order[|order| - 1]];
      if order[|order| - 1] == a { assert a !in init; }
    }
  }

  lemma {:induction false} NodeSumFrame(nodes: map<string, Node>, order: seq<string>, a: string, n: Node)
    requires a !in order
    ensures NodeSum(nodes[a := n], order) == NodeSum(nodes, order)
  {
    if order != [] {
      NodeSumFrame(nodes, order[..|order| - 1], a, n);
    }
  }

  lemma {:induction false} TaskSumUpdate(edges: map<EdgeKey, Edge>, order: seq<EdgeKey>, k: EdgeKey, e: Edge)
    requires Distinct(order)
    ensures TaskSum(edges[k := e], order) ==
            TaskSum(edges, order) +
              (if k in order then e.totalTasks - (if k in edges then edges[k].totalTasks else 0) else 0)
  {
    if order != [] {
      var init := order[..|order| - 1];
      TaskSumUpdate(edges, init, k, e);
      assert order == init + [order[|order| - 1]];
      if order[|order| - 1] == k { assert k !in init; }
    }
  }

  lemma RegisterKeepsSum(g: Graph, agent: string)
    requires Orders(g)
    ensures NodeSum(Register(g, agent).nodes, Register(g, agent).nodeOrder) == NodeSum(g.nodes, g.nodeOrder)
  {
    if agent !in g.nodes {
      NodeSumFrame(g.nodes, g.nodeOrder, agent, Node(0, {}));
      assert (g.nodeOrder + [agent])[..|g.nodeOrder|] == g.nodeOrder;
    }
  }

  lemma TouchAddsOne(g: Graph, agent: string, scene: string)
    requires Orders(g) && agent in g.nodes
    ensures var g' := Touch(g, agent, scene);
            Orders(g') && NodeSum(g'.nodes, g'.nodeOrder) == NodeSum(g.nodes, g.nodeOrder) + 1
  {
    var n := g.nodes[agent];
    NodeSumUpdate(g.nodes, g.nodeOrder, agent, Node(n.totalInteractions + 1, n.scenes + {scene}));
  }

  lemma TouchBothAddsTwo(g: Graph, k: EdgeKey)
    requires Orders(g)
    ensures NodeSum(TouchBoth(g, k).nodes, TouchBoth(g, k).nodeOrder) == NodeSum(g.nodes, g.nodeOrder) + 2
  {
    var g1 := Register(g, k.from);
    var g2 := Register(g1, k.to);
    RegisterKeepsOrder(g, k.from);
    RegisterKeepsOrder(g1, k.to);
    RegisterKeepsSum(g, k.from);
    RegisterKeepsSum(g1, k.to);
    assert k.from in g2.nodes;
    hide Register, Orders;
    TouchAddsOne(g2, k.from, k.scene);
    TouchAddsOne(Touch(g2, k.from, k.scene), k.to, k.scene);
  }

  lemma SetEdgeSum(g: Graph, k: EdgeKey, e: Edge)
    requires Orders(g)
    ensures var g' := SetEdge(g, k, e);
            TaskSum(g'.edges, g'.edgeOrder) ==
            TaskSum(g.edges, g.edgeOrder) + e.totalTasks - (if k in g.edges then g.edges[k].totalTasks else 0)
  {
    TaskSumUpdate(g.edges, g.edgeOrder, k, e);
    if k !in g.edges { assert (g.edgeOrder + [k])[..|g.edgeOrder|] == g.edgeOrder; }
  }

  lemma InteractionAddsTwo(g: Graph, r: Record)
    requires Orders(g) && CountsNonNegative(g)
    ensures var g' := AfterInteraction(g, r);
            Orders(g') &&
            NodeSum(g'.nodes, g'.nodeOrder) == NodeSum(g.nodes, g.nodeOrder) + 2 &&
            TaskSum(g'.edges, g'.edgeOrder) == TaskSum(g.edges, g.edgeOrder) + 1
  {
    var k := r.x.key;
    var e := UpdateEdge(PriorEdge(g, k, r.now), r.x, r.now);
    assert e.totalTasks == PriorEdge(g, k, r.now).totalTasks + 1;
    hide UpdateEdge, TouchBoth, Orders;
    TouchBothKeepsOrders(g, k);
    TouchBothAddsTwo(g, k);
    SetEdgeKeepsOrders(TouchBoth(g, k), k, e);
    SetEdgeSum(TouchBoth(g, k), k, e);
  }

  /** Without removals, node counts add up to twice the edge counts, which is twice the history. */
  lemma {:induction false} InteractionsConserved(rs: seq<Record>)
    ensures var g := History(rs);
            Orders(g) && CountsNonNegative(g) &&
            TaskSum(g.edges, g.edgeOrder) == |rs| && NodeSum(g.nodes, g.nodeOrder) == 2 * |rs|
  {
    assert Orders(EMPTY_GRAPH);
    if rs != [] {
      InteractionsConserved(rs[..|rs| - 1]);
      hide AfterInteraction, Orders;
      InteractionAddsTwo(History(rs[..|rs| - 1]), rs[|rs| - 1]);
      EdgesRememberHistory(rs);
    }
  }

  // ---------- The text used as map key ----------

  function EdgeKeyText(from: string, to: string, scene: string): string {
    from + ":" + to + ":" + scene
  }

  /** `a` with a colon begins `b`, as a directory name begins a path. */
  predicate Leads(a: string, b: string) {
    a + ":" <= b
  }

  lemma LeaderHasColon(a: string, b: string)
    ensures Leads(a, b) ==> !Free(':', b)
  {
    if Leads(a, b) { assert b[|a|] == ':'; }
  }

  /** Of two names that start the same text, the shorter one leads the longer. */
  lemma ShorterLeads(a: string, x: string, b: string, y: string)
    requires a + ":" + x == b + ":" + y
    ensures |a| < |b| ==> Leads(a, b)
  {
    var t := a + ":" + x;
    assert a + ":" == t[..|a| + 1] && b == t[..|b|];
    assert |a| < |b| ==> t[..|a| + 1] <= t[..|b|];
  }

  /** A name that neither leads another nor is led by it can be read off the front of a text. */
  lemma NameSplits(a: string, x: string, b: string, y: string)
    requires a + ":" + x == b + ":" + y && !Leads(a, b) && !Leads(b, a)
    ensures a == b && x == y
  {
    ShorterLeads(a, x, b, y);
    ShorterLeads(b, y, a, x);
    var t := a + ":" + x;
    assert a == t[..|a|] && b == t[..|b|] && x == t[|a| + 1..] && y == t[|b| + 1..];
  }

  lemma KeyReadable(k: EdgeKey, l: EdgeKey)
    requires EdgeKeyText(k.from, k.to, k.scene) == EdgeKeyText(l.from, l.to, l.scene)
    requires !Leads(k.from, l.from) && !Leads(l.from, k.from) && !Leads(k.to, l.to) && !Leads(l.to, k.to)
    ensures k == l
  {
    assert k.from + ":" + (k.to + ":" + k.scene) == EdgeKeyText(k.from, k.to, k.scene);
    assert l.from + ":" + (l.to + ":" + l.scene) == EdgeKeyText(l.from, l.to, l.scene);
    NameSplits(k.from, k.to + ":" + k.scene, l.from, l.to + ":" + l.scene);
    NameSplits(k.to, k.scene, l.to, l.scene);
  }

  /** Over these names, in whatever scenes, no two edges share a key text. */
  ghost predicate KeysIdentify(names: iset<string>) {
    forall k: EdgeKey, l: EdgeKey | k.from in names && k.to in names && l.from in names && l.to in names ::
      EdgeKeyText(k.from, k.to, k.scene) == EdgeKeyText(l.from, l.to, l.scene) ==> k == l
  }

  ghost predicate NoneLeads(names: iset<string>) {
    forall a, b | a in names && b in names :: !Leads(a, b)
  }

  /** Two edges from `a`, one to itself and one to the name that it leads, share a text. */
  lemma LeadingNamesClash(a: string, b: string) returns (k: EdgeKey, l: EdgeKey)
    requires Leads(a, b)
    ensures k != l && {k.from, k.to, l.from, l.to} == {a, b}
    ensures EdgeKeyText(k.from, k.to, k.scene) == EdgeKeyText(l.from, l.to, l.scene)
  {
    var rest := b[|a| + 1..];
    assert b == a + ":" + rest;
    k, l := EdgeKey(a, a, rest + ":s"), EdgeKey(a, b, "s");
    assert a + ":" + a + ":" + (rest + ":s") == a + ":" + (a + ":" + rest) + ":" + "s";
  }

  /** Main result: the colon-joined text identifies edges between the agents of a system exactly when no
      agent's name, followed by a colon, begins another's. */
  lemma EdgeKeyExact(names: iset<string>)
    ensures KeysIdentify(names) <==> NoneLeads(names)
  {
    hide EdgeKeyText, Leads;
    if !NoneLeads(names) {
      var a, b :| a in names && b in names && Leads(a, b);
      var k, l := LeadingNamesClash(a, b);
      assert k.from in {a, b} && k.to in {a, b} && l.from in {a, b} && l.to in {a, b};
      assert !KeysIdentify(names);
    }
    if NoneLeads(names) {
      forall k: EdgeKey, l: EdgeKey | k.from in names && k.to in names && l.from in names && l.to in names &&
                                      EdgeKeyText(k.from, k.to, k.scene) == EdgeKeyText(l.from, l.to, l.scene)
        ensures k == l
      {
        KeyReadable(k, l);
      }
    }
  }

  /** Plain names without a colon are such names. */
  lemma ColonFreeNamesIdentify(names: iset<string>)
    requires forall a :: a in names ==> Free(':', a)
    ensures KeysIdentify(names)
  {
    hide KeysIdentify;
    forall a, b | a in names && b in names ensures !Leads(a, b) {
      LeaderHasColon(a, b);
    }
    EdgeKeyExact(names);
  }

  const DID_PREFIX := "did:atel:"
  const KEY_TYPE := "ed25519"

  /** `did:atel:ed25519:<base58>` or the older `did:atel:<base58>`, whose text is never the key type. */
  ghost predicate IsDid(s: string) {
    exists b: string :: Free(':', b) && b != KEY_TYPE && (s == DID_PREFIX + KEY_TYPE + ":" + b || s == DID_PREFIX + b)
  }

  /** What may follow the fixed prefix: the key type with a colon, or no colon at all. */
  ghost predicate IsDidTail(tail: string) {
    tail != KEY_TYPE && (Free(':', tail) || (Leads(KEY_TYPE, tail) && Free(':', tail[|KEY_TYPE| + 1..])))
  }

  lemma DidTail(s: string) returns (tail: string)
    requires IsDid(s)
    ensures s == DID_PREFIX + tail && IsDidTail(tail)
  {
    var b :| Free(':', b) && b != KEY_TYPE && (s == DID_PREFIX + KEY_TYPE + ":" + b || s == DID_PREFIX + b);
    if s == DID_PREFIX + b {
      tail := b;
    } else {
      tail := KEY_TYPE + ":" + b;
      assert tail[|KEY_TYPE| + 1..] == b;
    }
  }

  lemma OnlyColon(a: string, head: string, rest: string)
    requires Free(':', head) && Free(':', rest)
    ensures Leads(a, head + ":" + rest) ==> a == head
  {
    var t := head + ":" + rest;
    assert forall i :: 0 <= i < |head| ==> t[i] == head[i];
    assert forall i :: |head| < i < |t| ==> t[i] == rest[i - |head| - 1];
    if Leads(a, t) {
      assert t[|a|] == ':';
      assert a == t[..|a|] == head;
    }
  }

  lemma DidTailsDoNotLead(a: string, b: string)
    requires IsDidTail(a) && IsDidTail(b)
    ensures !Leads(a, b)
  {
    LeaderHasColon(a, b);
    if !Free(':', b) {
      var rest := b[|KEY_TYPE| + 1..];
      assert b == KEY_TYPE + ":" + rest;
      OnlyColon(a, KEY_TYPE, rest);
    }
  }

  lemma LeadsAfterPrefix(prefix: string, a: string, b: string)
    ensures Leads(prefix + a, prefix + b) ==> Leads(a, b)
  {
    if Leads(prefix + a, prefix + b) {
      assert a + ":" == (prefix + a + ":")[|prefix|..];
      assert b == (prefix + b)[|prefix|..];
    }
  }

  /** No DID leads another: `ed25519` is the only text that may stand before a colon there. */
  lemma DidsDoNotLead(s: string, t: string)
    requires IsDid(s) && IsDid(t)
    ensures !Leads(s, t)
  {
    var a := DidTail(s);
    var b := DidTail(t);
    hide Leads, IsDid, IsDidTail;
    DidTailsDoNotLead(a, b);
    LeadsAfterPrefix(DID_PREFIX, a, b);
  }

  /** Between DIDs the key identifies the edge, whatever the scene's name. */
  lemma DidKeysIdentify()
    ensures KeysIdentify(iset s | IsDid(s))
  {
    hide KeysIdentify, IsDid, Leads;
    forall s, t | IsDid(s) && IsDid(t) ensures !Leads(s, t) {
      DidsDoNotLead(s, t);
    }
    EdgeKeyExact(iset s | IsDid(s));
  }
}
