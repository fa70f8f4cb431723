/** What `detectSuspiciousClusters` of `src/graph/index.ts` decides: which groups of agents deal mostly
    among themselves. */
module Suspicion {
  import opened GraphState
  import opened Sequences
  import opened Clusters

  /** An item with the number it is ranked by. */
  datatype Scored<+T> = Scored(item: T, score: real)

  // ---------- Ranking ----------

  function InsertDown<T>(x: Scored<T>, xs: seq<Scored<T>>): seq<Scored<T>> {
    if xs == [] || xs[0].score <= x.score then [x] + xs else [xs[0]] + InsertDown(x, xs[1..])
  }

  /** The stable sort by descending score. */
  function SortDown<T>(xs: seq<Scored<T>>): seq<Scored<T>> {
    if xs == [] then [] else InsertDown(xs[0], SortDown(xs[1..]))
  }

  ghost predicate Descending<T>(xs: seq<Scored<T>>) {
    forall i, j :: 0 <= i < j < |xs| ==> xs[i].score >= xs[j].score
  }

  /** The items that share a score, in order. */
  ghost function Level<T>(xs: seq<Scored<T>>, score: real): seq<Scored<T>> {
    if xs == [] then []
    else if xs[0].score == score then [xs[0]] + Level(xs[1..], score)
    else Level(xs[1..], score)
  }

  lemma DescendingCons<T>(x: Scored<T>, xs: seq<Scored<T>>)
    requires Descending(xs) && forall y :: y in xs ==> x.score >= y.score
    ensures Descending([x] + xs)
  {}

  lemma {:induction false} InsertDownSorts<T>(x: Scored<T>, xs: seq<Scored<T>>)
    requires Descending(xs)
    ensures Descending(InsertDown(x, xs))
    ensures multiset(InsertDown(x, xs)) == multiset{x} + multiset(xs)
  {
    if xs == [] || xs[0].score <= x.score {
      assert forall y :: y in xs ==> xs[0].score >= y.score;
      DescendingCons(x, xs);
    } else {
      InsertDownSorts(x, xs[1..]);
      var tail := InsertDown(x, xs[1..]);
      assert xs == [xs[0]] + xs[1..];
      forall y | y in tail ensures xs[0].score >= y.score {
        assert y in multiset(tail);
        assert y == x || y in xs[1..];
      }
      DescendingCons(xs[0], tail);
    }
  }

  lemma {:induction false} InsertDownLevel<T>(x: Scored<T>, xs: seq<Scored<T>>, score: real)
    requires Descending(xs)
    ensures Level(InsertDown(x, xs), score) == (if x.score == score then [x] else []) + Level(xs, score)
  {
    if xs == [] || xs[0].score <= x.score {
      assert ([x] + xs)[1..] == xs;
    } else {
      InsertDownLevel(x, xs[1..], score);
      var tail := InsertDown(x, xs[1..]);
      assert ([xs[0]] + tail)[1..] == tail;
    }
  }

  /** A permutation, in descending order, in which equals keep their places. */
  lemma {:induction false} SortDownSorts<T>(xs: seq<Scored<T>>)
    ensures Descending(SortDown(xs))
    ensures multiset(SortDown(xs)) == multiset(xs)
    ensures forall score :: Level(SortDown(xs), score) == Level(xs, score)
  {
    if xs != [] {
      SortDownSorts(xs[1..]);
      InsertDownSorts(xs[0], SortDown(xs[1..]));
      assert xs == [xs[0]] + xs[1..];
      forall score ensures Level(SortDown(xs), score) == Level(xs, score) {
        InsertDownLevel(xs[0], SortDown(xs[1..]), score);
      }
    }
  }

  function Items<T>(xs: seq<Scored<T>>): seq<T> {
    if xs == [] then [] else [xs[0].item] + Items(xs[1..])
  }

  // ---------- Sums over the edges ----------

  /** The tasks from `froms` to agents inside `tos`, or outside it. */
  function TasksBetween(edges: map<EdgeKey, Edge>, order: seq<EdgeKey>, froms: set<string>, tos: set<string>,
                        inside: bool): int
  {
    if order == [] then 0
    else
      var k := order[|order| - 1];
      TasksBetween(edges, order[..|order| - 1], froms, tos, inside) +
      if k in edges && k.from in froms && (k.to in tos) == inside then edges[k].totalTasks else 0
  }

  /** The tasks an agent takes part in; a task with itself is counted twice. */
  function Activity(edges: map<EdgeKey, Edge>, order: seq<EdgeKey>, agent: string): int {
    if order == [] then 0
    else
      var k := order[|order| - 1];
      Activity(edges, order[..|order| - 1], agent) +
      if k in edges then
        (if k.from == agent then edges[k].totalTasks else 0) + (if k.to == agent then edges[k].totalTasks else 0)
      else 0
  }

  function AddTo(scores: map<string, int>, agent: string, tasks: int): map<string, int> {
    scores[agent := (if agent in scores then scores[agent] else 0) + tasks]
  }

  ghost predicate Scores(scores: map<string, int>, edges: map<EdgeKey, Edge>, order: seq<EdgeKey>) {
    forall a :: (if a in scores then scores[a] else 0) == Activity(edges, order, a)
  }

  lemma ScoresStep(scores: map<string, int>, edges: map<EdgeKey, Edge>, order: seq<EdgeKey>, k: EdgeKey)
    requires k in edges && Scores(scores, edges, order)
    ensures Scores(AddTo(AddTo(scores, k.from, edges[k].totalTasks), k.to, edges[k].totalTasks), edges, order + [k])
  {
    assert (order + [k])[..|order|] == order;
  }

  lemma ScoresMeaning(scores: map<string, int>, edges: map<EdgeKey, Edge>, order: seq<EdgeKey>)
    requires Scores(scores, edges, order)
    ensures forall a :: a in scores ==> scores[a] == Activity(edges, order, a)
  {}

  function Group(combo: seq<string>): set<string> {
    set a | a in combo
  }

  function Internal(g: Graph, group: set<string>): int {
    TasksBetween(g.edges, g.edgeOrder, group, group, true)
  }

  function External(g: Graph, group: set<string>): int {
    TasksBetween(g.edges, g.edgeOrder, group, group, false)
  }

  lemma {:induction false} TasksNonNegative(g: Graph, order: seq<EdgeKey>, froms: set<string>, tos: set<string>,
                                            inside: bool)
    requires CountsNonNegative(g)
    ensures TasksBetween(g.edges, order, froms, tos, inside) >= 0
  {
    if order != [] { TasksNonNegative(g, order[..|order| - 1], froms, tos, inside); }
  }

  lemma {:induction false} TasksSplit(edges: map<EdgeKey, Edge>, order: seq<EdgeKey>, a: set<string>, b: set<string>,
                                      tos: set<string>, inside: bool)
    requires a !! b
    ensures TasksBetween(edges, order, a + b, tos, inside) ==
            TasksBetween(edges, order, a, tos, inside) + TasksBetween(edges, order, b, tos, inside)
  {
    if order != [] { TasksSplit(edges, order[..|order| - 1], a, b, tos, inside); }
  }

  lemma {:induction false} NoTasksFromNobody(edges: map<EdgeKey, Edge>, order: seq<EdgeKey>, tos: set<string>,
                                             inside: bool)
    ensures TasksBetween(edges, order, {}, tos, inside) == 0
  {
    if order != [] { NoTasksFromNobody(edges, order[..|order| - 1], tos, inside); }
  }

  // ---------- The per-agent counts the program keeps ----------

  datatype Neighbor = Neighbor(to: string, tasks: int)

  /** Adding to an insertion-ordered map. */
  function Bump(ns: seq<Neighbor>, to: string, tasks: int): seq<Neighbor> {
    if ns == [] then [Neighbor(to, tasks)]
    else if ns[0].to == to then [Neighbor(to, ns[0].tasks + tasks)] + ns[1..]
    else [ns[0]] + Bump(ns[1..], to, tasks)
  }

  function NeighborTasks(ns: seq<Neighbor>, tos: set<string>, inside: bool): int {
    if ns == [] then 0
    else (if (ns[0].to in tos) == inside then ns[0].tasks else 0) + NeighborTasks(ns[1..], tos, inside)
  }

  lemma {:induction false} BumpAdds(ns: seq<Neighbor>, to: string, tasks: int, tos: set<string>, inside: bool)
    ensures NeighborTasks(Bump(ns, to, tasks), tos, inside) ==
            NeighborTasks(ns, tos, inside) + (if (to in tos) == inside then tasks else 0)
  {
    if ns == [] {
      assert Bump(ns, to, tasks)[1..] == [];
    } else if ns[0].to == to {
      assert Bump(ns, to, tasks)[1..] == ns[1..];
    } else {
      assert Bump(ns, to, tasks)[1..] == Bump(ns[1..], to, tasks);
      BumpAdds(ns[1..], to, tasks, tos, inside);
    }
  }

  function NeighborsOf(adj: map<string, seq<Neighbor>>, agent: string): seq<Neighbor> {
    if agent in adj then adj[agent] else []
  }

  ghost predicate Tallies(adj: map<string, seq<Neighbor>>, edges: map<EdgeKey, Edge>, order: seq<EdgeKey>) {
    forall agent, tos, inside ::
      NeighborTasks(NeighborsOf(adj, agent), tos, inside) == TasksBetween(edges, order, {agent}, tos, inside)
  }

  lemma TalliesStep(adj: map<string, seq<Neighbor>>, edges: map<EdgeKey, Edge>, order: seq<EdgeKey>, k: EdgeKey)
    requires k in edges && Tallies(adj, edges, order)
    ensures Tallies(adj[k.from := Bump(NeighborsOf(adj, k.from), k.to, edges[k].totalTasks)], edges, order + [k])
  {
    var adj' := adj[k.from := Bump(NeighborsOf(adj, k.from), k.to, edges[k].totalTasks)];
    assert (order + [k])[..|order|] == order;
    forall agent, tos, inside
      ensures NeighborTasks(NeighborsOf(adj', agent), tos, inside) ==
              TasksBetween(edges, order + [k], {agent}, tos, inside)
    {
      assert NeighborTasks(NeighborsOf(adj, agent), tos, inside) == TasksBetween(edges, order, {agent}, tos, inside);
      BumpAdds(NeighborsOf(adj, k.from), k.to, edges[k].totalTasks, tos, inside);
    }
  }

  // ---------- Detection ----------

  /** The agents by activity, the busiest first. */
  function ByActivity(g: Graph, order: seq<string>): seq<Scored<string>> {
    if order == [] then []
    else ByActivity(g, order[..|order| - 1]) +
         [Scored(order[|order| - 1], Activity(g.edges, g.edgeOrder, order[|order| - 1]) as real)]
  }

  function Ranked(g: Graph): seq<string> {
    Items(SortDown(ByActivity(g, g.nodeOrder)))
  }

  function Candidates(g: Graph): seq<string> {
    Take(Ranked(g), MAX_CLUSTER_CANDIDATES)
  }

  function Examined(g: Graph, k: nat): seq<seq<string>> {
    if k == 0 then [[]] else Take(Combinations(Candidates(g), k), MAX_COMBINATION_CHECKS)
  }

  /** More than four in five of the group's tasks stay inside, and more than `k` of them. */
  predicate Suspicious(g: Graph, group: set<string>, k: nat) {
    var internal, total := Internal(g, group), Internal(g, group) + External(g, group);
    total != 0 && internal as real / total as real > 0.8 && internal > k
  }

  function InternalShare(g: Graph, group: set<string>): real {
    var total := Internal(g, group) + External(g, group);
    if total == 0 then 0.0 else Internal(g, group) as real / total as real
  }

  function Flagged(g: Graph, combos: seq<seq<string>>, k: nat): seq<Scored<seq<string>>> {
    if combos == [] then []
    else
      var combo := combos[|combos| - 1];
      Flagged(g, combos[..|combos| - 1], k) +
      if Suspicious(g, Group(combo), k) then [Scored(combo, InternalShare(g, Group(combo)))] else []
  }

  function Detected(g: Graph, k: nat): seq<Scored<seq<string>>> {
    if |g.nodeOrder| < k then [] else SortDown(Flagged(g, Examined(g, k), k))
  }

  lemma NothingFlagged(g: Graph, k: nat)
    ensures Flagged(g, [], k) == []
  {}

  lemma FlaggedStep(g: Graph, combos: seq<seq<string>>, combo: seq<string>, k: nat)
    ensures Flagged(g, combos + [combo], k) ==
            Flagged(g, combos, k) +
              (if Suspicious(g, Group(combo), k) then [Scored(combo, InternalShare(g, Group(combo)))] else [])
  {
    assert (combos + [combo])[..|combos|] == combos;
  }

  // ---------- What is detected ----------

  /** In whole numbers: more than four internal tasks to each external one. */
  lemma SuspiciousInTasks(g: Graph, group: set<string>, k: nat)
    requires CountsNonNegative(g)
    ensures Suspicious(g, group, k) <==> Internal(g, group) > k && Internal(g, group) > 4 * External(g, group)
  {
    TasksNonNegative(g, g.edgeOrder, group, group, true);
    TasksNonNegative(g, g.edgeOrder, group, group, false);
    var internal, external := Internal(g, group), External(g, group);
    if internal + external > 0 { FourFifths(internal, internal + external); }
  }

  lemma FourFifths(part: int, total: int)
    requires total > 0
    ensures part as real / total as real > 0.8 <==> 5 * part > 4 * total
  {
    ShareTimesTotal(part as real, total as real);
    Fifths(part as real / total as real, total as real, part as real);
    FifthsInt(part, total);
  }

  lemma ShareTimesTotal(part: real, total: real)
    requires total > 0.0
    ensures (part / total) * total == part
  {}

  lemma Fifths(q: real, z: real, x: real)
    requires z > 0.0 && q * z == x
    ensures q > 0.8 <==> 5.0 * x > 4.0 * z
  {
    assert 5.0 * x - 4.0 * z == (5.0 * q - 4.0) * z;
  }

  lemma FifthsInt(x: int, z: int)
    ensures 5.0 * x as real > 4.0 * z as real <==> 5 * x > 4 * z
  {
    assert (5 * x) as real == 5.0 * x as real && (4 * z) as real == 4.0 * z as real;
  }

  lemma {:induction false} FlaggedExact(g: Graph, combos: seq<seq<string>>, k: nat, c: Scored<seq<string>>)
    ensures c in Flagged(g, combos, k) <==>
            c.item in combos && Suspicious(g, Group(c.item), k) && c.score == InternalShare(g, Group(c.item))
  {
    if combos != [] {
      var n := |combos| - 1;
      FlaggedExact(g, combos[..n], k, c);
      assert combos == combos[..n] + [combos[n]];
    }
  }

  /** Main result: exactly the suspicious groups among those examined are reported, each with its share
      of internal tasks, the highest share first. */
  lemma DetectedExact(g: Graph, k: nat, c: Scored<seq<string>>)
    requires CountsNonNegative(g) && |g.nodeOrder| >= k
    ensures c in Detected(g, k) <==>
            c.item in Examined(g, k) && c.score == InternalShare(g, Group(c.item)) &&
            Internal(g, Group(c.item)) > k && Internal(g, Group(c.item)) > 4 * External(g, Group(c.item))
    ensures Descending(Detected(g, k))
  {
    hide Examined, Suspicious, InternalShare, Internal, External, Group;
    var flagged := Flagged(g, Examined(g, k), k);
    SortDownSorts(flagged);
    FlaggedExact(g, Examined(g, k), k, c);
    SuspiciousInTasks(g, Group(c.item), k);
    assert c in SortDown(flagged) <==> c in multiset(SortDown(flagged));
  }

  // ---------- No triple escapes ----------

  lemma {:induction false} ItemsAt<T>(xs: seq<Scored<T>>)
    ensures |Items(xs)| == |xs| && forall i :: 0 <= i < |xs| ==> Items(xs)[i] == xs[i].item
  {
    if xs != [] {
      ItemsAt(xs[1..]);
      forall i | 0 <= i < |xs| ensures Items(xs)[i] == xs[i].item {
        if i > 0 { assert Items(xs)[i] == Items(xs[1..])[i - 1]; }
      }
    }
  }

  lemma {:induction false} ByActivityAt(g: Graph, order: seq<string>)
    ensures |ByActivity(g, order)| == |order|
    ensures forall i :: 0 <= i < |order| ==>
              ByActivity(g, order)[i] == Scored(order[i], Activity(g.edges, g.edgeOrder, order[i]) as real)
  {
    if order != [] { ByActivityAt(g, order[..|order| - 1]); }
  }

  /** Every agent of the graph is ranked. */
  lemma RankedHasAll(g: Graph, a: string)
    requires a in g.nodeOrder
    ensures |Ranked(g)| == |g.nodeOrder| && a in Ranked(g)
  {
    var scored := ByActivity(g, g.nodeOrder);
    ByActivityAt(g, g.nodeOrder);
    SortDownSorts(scored);
    assert |SortDown(scored)| == |multiset(SortDown(scored))| == |multiset(scored)| == |scored|;
    ItemsAt(SortDown(scored));
    var i :| 0 <= i < |g.nodeOrder| && g.nodeOrder[i] == a;
    assert scored[i] in multiset(scored);
    assert scored[i] in SortDown(scored);
    var j :| 0 <= j < |scored| && SortDown(scored)[j] == scored[i];
    assert Ranked(g)[j] == a;
  }

  lemma ItemsOfInsert<T>(x: Scored<T>, xs: seq<Scored<T>>)
    ensures multiset(Items(InsertDown(x, xs))) == multiset{x.item} + multiset(Items(xs))
  {
    if xs == [] || xs[0].score <= x.score {
      assert ([x] + xs)[1..] == xs;
    } else {
      var tail := InsertDown(x, xs[1..]);
      assert ([xs[0]] + tail)[1..] == tail;
      assert ([xs[0]] + xs[1..])[1..] == xs[1..];
    }
  }

  lemma {:induction false} ItemsOfSorted<T>(xs: seq<Scored<T>>)
    ensures multiset(Items(SortDown(xs))) == multiset(Items(xs))
  {
    if xs != [] {
      ItemsOfSorted(xs[1..]);
      ItemsOfInsert(xs[0], SortDown(xs[1..]));
    }
  }

  lemma ItemsOfByActivity(g: Graph)
    ensures Items(ByActivity(g, g.nodeOrder)) == g.nodeOrder
  {
    ByActivityAt(g, g.nodeOrder);
    ItemsAt(ByActivity(g, g.nodeOrder));
  }

  lemma RankedDistinct(g: Graph)
    requires Orders(g)
    ensures Distinct(Ranked(g))
  {
    ItemsOfByActivity(g);
    ItemsOfSorted(ByActivity(g, g.nodeOrder));
    PermutationDistinct(g.nodeOrder, Ranked(g));
  }

  lemma PickDistinct(arr: seq<string>, v: seq<nat>, c: seq<string>)
    requires Distinct(arr) && IsPick(arr, v, c) && Picks(v, 0, |arr|)
    ensures Distinct(c)
  {
    forall i, j | 0 <= i < j < |c| ensures c[i] != c[j] {
      assert v[i] < v[j] < |arr|;
    }
  }

  /** No group holds an agent twice, so that its tasks are counted once. */
  lemma ExaminedDistinct(g: Graph, k: nat, combo: seq<string>)
    requires Orders(g) && combo in Examined(g, k)
    ensures Distinct(combo)
  {
    if k > 0 {
      RankedDistinct(g);
      assert combo in Combinations(Candidates(g), k);
      hide Ranked, Examined, Combinations, Orders;
      TakeDistinct(Ranked(g), MAX_CLUSTER_CANDIDATES);
      CombinationDistinct(Candidates(g), k, combo);
    }
  }

  lemma TakeDistinct(s: seq<string>, n: int)
    requires Distinct(s)
    ensures Distinct(Take(s, n))
  {}

  lemma CombinationDistinct(arr: seq<string>, k: nat, combo: seq<string>)
    requires Distinct(arr) && combo in Combinations(arr, k)
    ensures Distinct(combo)
  {
    var vs, cs := IndexVectors(0, |arr|, k), Combinations(arr, k);
    hide IndexVectors, Combinations, Picks, IsPick, Distinct;
    assert arr[0..] == arr;
    CombinationsAreVectors(arr, 0, k);
    var i :| 0 <= i < |cs| && cs[i] == combo;
    VectorsExact(0, |arr|, k, vs[i]);
    PickDistinct(arr, vs[i], combo);
  }

  // ---------- From groups to the vectors that pick them ----------

  /** The positions in `arr` of the members of a group, from left to right. */
  function Positions(arr: seq<string>, group: set<string>): seq<nat> {
    if arr == [] then []
    else
      var n := |arr| - 1;
      Positions(arr[..n], group) + if arr[n] in group then [n] else []
  }

  lemma {:induction false} PositionsPick(arr: seq<string>, group: set<string>)
    ensures Picks(Positions(arr, group), 0, |arr|)
    ensures forall i :: i in Positions(arr, group) <==> 0 <= i < |arr| && arr[i] in group
  {
    if arr != [] { PositionsPick(arr[..|arr| - 1], group); }
  }

  lemma {:induction false} PositionsCount(arr: seq<string>, group: set<string>)
    requires Distinct(arr)
    ensures |Positions(arr, group)| == |group * Group(arr)|
  {
    if arr == [] {
      assert group * Group(arr) == {};
    } else {
      var n := |arr| - 1;
      PositionsCount(arr[..n], group);
      assert arr == arr[..n] + [arr[n]];
      assert arr[n] !in Group(arr[..n]);
      assert Group(arr) == Group(arr[..n]) + {arr[n]};
      if arr[n] in group {
        assert group * Group(arr) == group * Group(arr[..n]) + {arr[n]};
      } else {
        assert group * Group(arr) == group * Group(arr[..n]);
      }
    }
  }

  lemma PickedGroup(arr: seq<string>, group: set<string>, combo: seq<string>)
    requires group <= Group(arr) && IsPick(arr, Positions(arr, group), combo)
    ensures Group(combo) == group
  {
    var v := Positions(arr, group);
    PositionsPick(arr, group);
    forall a | a in combo ensures a in group {
      var j :| 0 <= j < |combo| && combo[j] == a;
      assert v[j] in v;
    }
    forall a | a in group ensures a in combo {
      assert a in arr;
      var i :| 0 <= i < |arr| && arr[i] == a;
      assert i in v;
      var j :| 0 <= j < |v| && v[j] == i;
      assert combo[j] == a;
    }
  }

  /** When the limit covers their number, every group of k candidates is examined. */
  lemma GroupExamined(arr: seq<string>, k: nat, group: set<string>) returns (combo: seq<string>)
    requires Distinct(arr) && group <= Group(arr) && |group| == k
    requires Binomial(|arr|, k) <= MAX_COMBINATION_CHECKS
    ensures combo in Take(Combinations(arr, k), MAX_COMBINATION_CHECKS) && Group(combo) == group
    ensures k <= |arr|
  {
    hide Combinations, Binomial, Take, Picks, IsPick, Distinct;
    EnumerationComplete(arr, k, MAX_COMBINATION_CHECKS);
    var v := Positions(arr, group);
    PositionsPick(arr, group);
    PositionsCount(arr, group);
    assert group * Group(arr) == group;
    combo :| combo in Combinations(arr, k) && IsPick(arr, v, combo);
    PickedGroup(arr, group, combo);
    PicksFit(v, |arr|);
  }

  lemma PicksFit(v: seq<nat>, n: nat)
    requires Picks(v, 0, n)
    ensures |v| <= n
  {
    if v != [] { PicksSpread(v, 0, n, |v| - 1); }
  }

  // ---------- No group escapes ----------

  lemma CandidatesDistinct(g: Graph)
    requires Orders(g)
    ensures Distinct(Candidates(g)) && |Candidates(g)| == if |g.nodeOrder| < 30 then |g.nodeOrder| else 30
  {
    RankedDistinct(g);
    ByActivityAt(g, g.nodeOrder);
    SortDownSorts(ByActivity(g, g.nodeOrder));
    ItemsAt(SortDown(ByActivity(g, g.nodeOrder)));
    SameSize(SortDown(ByActivity(g, g.nodeOrder)), ByActivity(g, g.nodeOrder));
    TakeDistinct(Ranked(g), MAX_CLUSTER_CANDIDATES);
  }

  lemma SameSize<T>(s: seq<T>, t: seq<T>)
    requires multiset(s) == multiset(t)
    ensures |s| == |t|
  {
    assert |s| == |multiset(s)| && |t| == |multiset(t)|;
  }

  ghost predicate Reported(g: Graph, k: nat, group: set<string>) {
    exists cluster :: cluster in Detected(g, k) && Group(cluster.item) == group
  }

  /** Main result: as long as there are at most 5000 groups of k candidates, such a group is reported exactly
      when it has more than k tasks among its members and more than four of them to each one that leaves it. */
  lemma GroupReportedExact(g: Graph, k: nat, group: set<string>)
    requires CountsNonNegative(g) && Orders(g) && k >= 1
    requires group <= Group(Candidates(g)) && |group| == k
    requires Binomial(|Candidates(g)|, k) <= 5000
    ensures Reported(g, k, group) <==> Internal(g, group) > k && Internal(g, group) > 4 * External(g, group)
  {
    CandidatesDistinct(g);
    var combo := GroupExamined(Candidates(g), k, group);
    assert combo in Examined(g, k);
    hide Internal, External, Detected, Candidates, Combinations, Binomial, Examined, Group, Orders;
    DetectedExact(g, k, Scored(combo, InternalShare(g, group)));
    if Reported(g, k, group) {
      var cluster :| cluster in Detected(g, k) && Group(cluster.item) == group;
      DetectedExact(g, k, cluster);
    }
  }

  /** Among the thirty most active agents of any graph no suspicious three escape. */
  lemma EveryRingReported(g: Graph, ring: set<string>)
    requires CountsNonNegative(g) && Orders(g) && |ring| == 3 && ring <= Group(Candidates(g))
    ensures Reported(g, 3, ring) <==> Internal(g, ring) > 3 && Internal(g, ring) > 4 * External(g, ring)
  {
    hide Internal, External, Detected, Ranked, Binomial, Reported, Group;
    TriplesFit(|Candidates(g)|);
    GroupReportedExact(g, 3, ring);
  }

  /** In a graph of at most thirty agents that is all of them. */
  lemma SmallGraphsAreCovered(g: Graph)
    requires |g.nodeOrder| <= 30
    ensures Group(g.nodeOrder) <= Group(Candidates(g))
  {
    hide Ranked;
    forall a | a in g.nodeOrder ensures a in Candidates(g) {
      RankedHasAll(g, a);
    }
  }
}
