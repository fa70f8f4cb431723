/** The sums on which cluster detection of `src/graph/index.ts` rests, counted over recorded interactions. */
module SuspicionHistory {
  import opened GraphState
  import opened Sequences
  import opened Suspicion

  /** The interactions from `froms` to agents inside `tos`, or outside it. */
  function Between(rs: seq<Record>, froms: set<string>, tos: set<string>, inside: bool): nat {
    if rs == [] then 0
    else
      var k := rs[|rs| - 1].x.key;
      Between(rs[..|rs| - 1], froms, tos, inside) + if k.from in froms && (k.to in tos) == inside then 1 else 0
  }

  /** The interactions that an agent took part in; one with itself counts twice. */
  function TakenPart(rs: seq<Record>, agent: string): nat {
    if rs == [] then 0
    else
      var k := rs[|rs| - 1].x.key;
      TakenPart(rs[..|rs| - 1], agent) + (if k.from == agent then 1 else 0) + if k.to == agent then 1 else 0
  }

  function Tasks(edges: map<EdgeKey, Edge>, k: EdgeKey): int {
    if k in edges then edges[k].totalTasks else 0
  }

  lemma {:induction false} BetweenUpdate(edges: map<EdgeKey, Edge>, order: seq<EdgeKey>, k: EdgeKey, e: Edge,
                                         froms: set<string>, tos: set<string>, inside: bool)
    requires Distinct(order)
    ensures TasksBetween(edges[k := e], order, froms, tos, inside) ==
            TasksBetween(edges, order, froms, tos, inside) +
            (if k in order && k.from in froms && (k.to in tos) == inside then e.totalTasks - Tasks(edges, k) else 0)
  {
    if order != [] {
      var init := order[..|order| - 1];
      BetweenUpdate(edges, init, k, e, froms, tos, inside);
      assert order == init + [order[|order| - 1]];
      if order[|order| - 1] == k { assert k !in init; }
    }
  }

  lemma {:induction false} ActivityUpdate(edges: map<EdgeKey, Edge>, order: seq<EdgeKey>, k: EdgeKey, e: Edge,
                                          agent: string)
    requires Distinct(order)
    ensures Activity(edges[k := e], order, agent) ==
            Activity(edges, order, agent) +
            (if k in order && k.from == agent then e.totalTasks - Tasks(edges, k) else 0) +
            (if k in order && k.to == agent then e.totalTasks - Tasks(edges, k) else 0)
  {
    if order != [] {
      var init := order[..|order| - 1];
      ActivityUpdate(edges, init, k, e, agent);
      assert order == init + [order[|order| - 1]];
      if order[|order| - 1] == k { assert k !in init; }
    }
  }

  /** One interaction adds one task to its own edge. */
  lemma OneTask(g: Graph, r: Record)
    requires Orders(g) && CountsNonNegative(g)
    ensures var k, g' := r.x.key, AfterInteraction(g, r);
            k in g'.edges && g'.edges == g.edges[k := g'.edges[k]] &&
            g'.edges[k].totalTasks == Tasks(g.edges, k) + 1 &&
            g'.edgeOrder == (if k in g.edges then g.edgeOrder else g.edgeOrder + [k]) &&
            (k in g.edges <==> k in g.edgeOrder)
  {
    AfterInteractionEdges(g, r);
  }

  lemma BetweenAfter(g: Graph, r: Record, froms: set<string>, tos: set<string>, inside: bool)
    requires Orders(g) && CountsNonNegative(g)
    ensures var g', k := AfterInteraction(g, r), r.x.key;
            TasksBetween(g'.edges, g'.edgeOrder, froms, tos, inside) ==
            TasksBetween(g.edges, g.edgeOrder, froms, tos, inside) +
            if k.from in froms && (k.to in tos) == inside then 1 else 0
  {
    var k, g' := r.x.key, AfterInteraction(g, r);
    OneTask(g, r);
    hide AfterInteraction, CountsNonNegative;
    BetweenUpdate(g.edges, g.edgeOrder, k, g'.edges[k], froms, tos, inside);
    assert (g.edgeOrder + [k])[..|g.edgeOrder|] == g.edgeOrder;
  }

  lemma ActivityAfter(g: Graph, r: Record, agent: string)
    requires Orders(g) && CountsNonNegative(g)
    ensures var g', k := AfterInteraction(g, r), r.x.key;
            Activity(g'.edges, g'.edgeOrder, agent) ==
            Activity(g.edges, g.edgeOrder, agent) + (if k.from == agent then 1 else 0) + if k.to == agent then 1 else 0
  {
    var k, g' := r.x.key, AfterInteraction(g, r);
    OneTask(g, r);
    hide AfterInteraction, CountsNonNegative;
    ActivityUpdate(g.edges, g.edgeOrder, k, g'.edges[k], agent);
    assert (g.edgeOrder + [k])[..|g.edgeOrder|] == g.edgeOrder;
  }

  /** Main result: over every run of interactions the tasks that count as internal to a group are its recorded
      interactions among its members, and the external ones those that its members had with others. */
  lemma {:induction false} TasksOfHistory(rs: seq<Record>, group: set<string>)
    ensures Internal(History(rs), group) == Between(rs, group, group, true)
    ensures External(History(rs), group) == Between(rs, group, group, false)
  {
    if rs != [] {
      TasksOfHistory(rs[..|rs| - 1], group);
      InteractionsConserved(rs[..|rs| - 1]);
      hide AfterInteraction, Orders, CountsNonNegative;
      BetweenAfter(History(rs[..|rs| - 1]), rs[|rs| - 1], group, group, true);
      BetweenAfter(History(rs[..|rs| - 1]), rs[|rs| - 1], group, group, false);
    }
  }

  /** The activity by which agents are ranked is the number of interactions they took part in. */
  lemma {:induction false} ActivityOfHistory(rs: seq<Record>, agent: string)
    ensures var g := History(rs); Activity(g.edges, g.edgeOrder, agent) == TakenPart(rs, agent)
  {
    if rs != [] {
      ActivityOfHistory(rs[..|rs| - 1], agent);
      InteractionsConserved(rs[..|rs| - 1]);
      hide AfterInteraction, Orders, CountsNonNegative;
      ActivityAfter(History(rs[..|rs| - 1]), rs[|rs| - 1], agent);
    }
  }

  /** The scenes in which an agent took part. */
  function ScenesOf(rs: seq<Record>, agent: string): set<string> {
    if rs == [] then {}
    else
      var k := rs[|rs| - 1].x.key;
      ScenesOf(rs[..|rs| - 1], agent) + if k.from == agent || k.to == agent then {k.scene} else {}
  }

  lemma TouchedBoth(g: Graph, k: EdgeKey, agent: string)
    ensures var before, after := if agent in g.nodes then g.nodes[agent] else Node(0, {}), TouchBoth(g, k).nodes;
            (agent in after <==> agent in g.nodes || Touches(k, agent)) &&
            (agent in after ==>
               after[agent].totalInteractions ==
                 before.totalInteractions + (if k.from == agent then 1 else 0) + (if k.to == agent then 1 else 0) &&
               after[agent].scenes == before.scenes + if Touches(k, agent) then {k.scene} else {})
  {}

  /** Main result: over every run of interactions the nodes are the agents that took part, each with the number of
      times and the scenes. */
  lemma {:induction false} NodesOfHistory(rs: seq<Record>, agent: string)
    ensures var nodes := History(rs).nodes;
            (agent in nodes <==> TakenPart(rs, agent) > 0) &&
            (agent in nodes ==> nodes[agent] == Node(TakenPart(rs, agent), ScenesOf(rs, agent)))
    ensures TakenPart(rs, agent) == 0 ==> ScenesOf(rs, agent) == {}
  {
    if rs != [] {
      var init, r := rs[..|rs| - 1], rs[|rs| - 1];
      NodesOfHistory(init, agent);
      InteractionsConserved(init);
      TouchedBoth(History(init), r.x.key, agent);
      assert History(rs).nodes == TouchBoth(History(init), r.x.key).nodes;
      hide TouchBoth, History, Orders, CountsNonNegative;
    }
  }

  /** What a reported share is: internal tasks to all tasks of the group. */
  lemma ShareMeans(g: Graph, k: nat, c: Scored<seq<string>>)
    requires CountsNonNegative(g) && |g.nodeOrder| >= k && c in Detected(g, k)
    ensures var internal, external := Internal(g, Group(c.item)), External(g, Group(c.item));
            c.score * (internal + external) as real == internal as real && 0.8 < c.score <= 1.0
  {
    hide Detected, Examined;
    DetectedExact(g, k, c);
    var group := Group(c.item);
    TasksNonNegative(g, g.edgeOrder, group, group, false);
    hide Internal, External, Group;
    ShareTimes(Internal(g, group), External(g, group));
  }

  lemma ShareTimes(internal: int, external: int)
    requires internal > 0 && external >= 0 && internal > 4 * external
    ensures var share := internal as real / (internal + external) as real;
            share * (internal + external) as real == internal as real && 0.8 < share <= 1.0
  {
    var total := internal + external;
    ShareTimesTotal(internal as real, total as real);
    FourFifths(internal, total);
    Whole(internal as real, total as real);
  }

  lemma Whole(part: real, total: real)
    requires 0.0 < part <= total
    ensures part / total <= 1.0
  {}
}
