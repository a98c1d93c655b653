/** The executor's cycle check: Kahn's algorithm over working in-degrees. */
module PipelineKahn {
  import opened PipelineGraph

  /** The edges leaving `u`, in document order. */
  function EdgesFrom(edges: seq<Edge>, u: string): seq<Edge> {
    if edges == [] then []
    else if edges[0].from == u then [edges[0]] + EdgesFrom(edges[1..], u)
    else EdgesFrom(edges[1..], u)
  }

  lemma {:induction false} EdgesFromAppend(edges: seq<Edge>, e: Edge, u: string)
    ensures EdgesFrom(edges + [e], u) == EdgesFrom(edges, u) + if e.from == u then [e] else []
  {
    if edges == [] {
      assert ([e])[1..] == [];
    } else {
      assert (edges + [e])[1..] == edges[1..] + [e] && (edges + [e])[0] == edges[0];
      EdgesFromAppend(edges[1..], e, u);
      var rest, more := EdgesFrom(edges[1..], u), if e.from == u then [e] else [];
      assert [edges[0]] + (rest + more) == [edges[0]] + rest + more;
    }
  }

  /** Removing one source splits the count into its own edges and the rest. */
  lemma {:induction false} InCountSplit(edges: seq<Edge>, v: string, srcs: set<string>, u: string)
    requires u in srcs
    ensures InCount(edges, v, srcs) == InCount(edges, v, srcs - {u}) + InCount(EdgesFrom(edges, u), v, {u})
  {
    if edges != [] {
      InCountSplit(edges[1..], v, srcs, u);
      if edges[0].from == u {
        assert EdgesFrom(edges, u)[1..] == EdgesFrom(edges[1..], u);
      }
    }
  }

  lemma EdgesFromAll(edges: seq<Edge>, u: string)
    ensures forall i :: 0 <= i < |EdgesFrom(edges, u)| ==> EdgesFrom(edges, u)[i].from == u
    ensures forall e :: e in EdgesFrom(edges, u) <==> e in edges && e.from == u
  {
  }

  /** `outgoing` and `indegree` as the executor builds them from the document. */
  ghost predicate Tables(g: Graph, outgoing: map<string, seq<Edge>>, indegree: map<string, nat>) {
    && indegree.Keys == g.known
    && (forall v :: v in g.known ==> indegree[v] == InCount(g.edges, v, g.known))
    && (forall u :: (if u in outgoing then outgoing[u] else []) == EdgesFrom(g.edges, u))
  }

  lemma EnterEdge(known: set<string>, edges: seq<Edge>, e: Edge,
                  outgoing: map<string, seq<Edge>>, indegree: map<string, nat>)
    requires Tables(Graph(known, edges), outgoing, indegree)
    ensures var outgoing' := outgoing[e.from := (if e.from in outgoing then outgoing[e.from] else []) + [e]];
            if e.from != e.to && e.from in known && e.to in known
            then Tables(Graph(known, edges + [e]), outgoing', indegree[e.to := indegree[e.to] + 1])
            else Tables(Graph(known, edges + [e]), outgoing', indegree)
  {
    forall v ensures InCount(edges + [e], v, known)
      == InCount(edges, v, known) + if e.to == v && e.from in known && e.from != v then 1 else 0
    {
      InCountAppend(edges, e, v, known);
    }
    forall u ensures EdgesFrom(edges + [e], u) == EdgesFrom(edges, u) + if e.from == u then [e] else [] {
      EdgesFromAppend(edges, e, u);
    }
  }

  lemma OverwriteLast(agents: seq<Agent>, n: nat, byId: map<string, Agent>)
    requires n < |agents| && LastWins(agents, n, byId)
    ensures LastWins(agents, n + 1, byId[agents[n].id := agents[n]])
  {
    var after := byId[agents[n].id := agents[n]];
    var m := n + 1;
    forall id ensures HoldsLast(agents, m, after, id) {
      assert HoldsLast(agents, n, byId, id);
      if id == agents[n].id {
        assert LastWith(agents, n + 1, n, id);
      } else if id in byId {
        var i :| LastWith(agents, n, i, id) && byId[id] == agents[i];
        assert LastWith(agents, n + 1, i, id);
      }
    }
  }

  /** Nodes by id, the last of a repeated id winning, with all in-degrees zero. */
  method IndexAgents(agents: seq<Agent>) returns (nodesById: map<string, Agent>, indegree: map<string, nat>)
    ensures nodesById.Keys == indegree.Keys == Ids(agents) && LastWins(agents, |agents|, nodesById)
    ensures forall id :: id in indegree ==> indegree[id] == 0
  {
    nodesById := map[];
    indegree := map[];
    for i := 0 to |agents|
      invariant nodesById.Keys == indegree.Keys == Ids(agents[..i]) && LastWins(agents, i, nodesById)
      invariant forall id :: id in indegree ==> indegree[id] == 0
    {
      OverwriteLast(agents, i, nodesById);
      nodesById := nodesById[agents[i].id := agents[i]];
      indegree := indegree[agents[i].id := 0];
      IdsSnoc(agents, i);
    }
    assert agents[..|agents|] == agents;
  }

  method BuildTables(p: Pipeline)
    returns (nodesById: map<string, Agent>, outgoing: map<string, seq<Edge>>, indegree: map<string, nat>)
    ensures Tables(ExecutorGraph(p), outgoing, indegree)
    ensures nodesById.Keys == Ids(p.agents) && LastWins(p.agents, |p.agents|, nodesById)
  {
    nodesById, indegree := IndexAgents(p.agents);
    ghost var known := Ids(p.agents);
    outgoing := map[];
    for i := 0 to |p.edges|
      invariant Tables(Graph(known, p.edges[..i]), outgoing, indegree)
    {
      var e := p.edges[i];
      assert p.edges[..i + 1] == p.edges[..i] + [e];
      EnterEdge(known, p.edges[..i], e, outgoing, indegree);
      outgoing := outgoing[e.from := (if e.from in outgoing then outgoing[e.from] else []) + [e]];
      if e.from != e.to && e.from in nodesById && e.to in nodesById {
        indegree := indegree[e.to := indegree[e.to] + 1];
      }
    }
    assert p.edges[..|p.edges|] == p.edges;
  }

  /** The ids of `agents` that lie in `keep`, each once, at its first occurrence. */
  function FirstSeen(agents: seq<Agent>, keep: set<string>): seq<string> {
    if agents == [] then []
    else if agents[0].id in keep then [agents[0].id] + FirstSeen(agents[1..], keep - {agents[0].id})
    else FirstSeen(agents[1..], keep)
  }

  /** Position of the first agent with the given id, or the length when there is none. */
  function FirstIndex(agents: seq<Agent>, id: string): nat {
    if agents == [] || agents[0].id == id then 0 else 1 + FirstIndex(agents[1..], id)
  }

  /** `FirstSeen` lists exactly the kept declared ids, in definition order and without repeats. */
  lemma {:induction false} FirstSeenInDefinitionOrder(agents: seq<Agent>, keep: set<string>)
    ensures forall x :: x in FirstSeen(agents, keep) <==> x in keep && x in Ids(agents)
    ensures forall i, j :: 0 <= i < j < |FirstSeen(agents, keep)|
              ==> FirstIndex(agents, FirstSeen(agents, keep)[i]) < FirstIndex(agents, FirstSeen(agents, keep)[j])
  {
    if agents != [] {
      var id := agents[0].id;
      assert Ids(agents) == {id} + Ids(agents[1..]) by {
        assert forall i :: 0 < i < |agents| ==> agents[i] == agents[1..][i - 1];
      }
      var rest := FirstSeen(agents[1..], if id in keep then keep - {id} else keep);
      FirstSeenInDefinitionOrder(agents[1..], if id in keep then keep - {id} else keep);
      assert forall i :: 0 <= i < |rest| ==> rest[i] in rest;
      assert forall i :: 0 <= i < |rest| ==> FirstIndex(agents, rest[i]) == 1 + FirstIndex(agents[1..], rest[i]);
    }
  }

  ghost predicate Queued(remaining: map<string, nat>, queue: seq<string>) {
    && Distinct(queue)
    && (forall q :: q in queue <==> q in remaining && remaining[q] == 0)
  }

  /** Working counts equal the arcs still to be peeled: those from live sources, plus `rest` from `id`. */
  ghost predicate Balanced(edges: seq<Edge>, remaining: map<string, nat>, rest: seq<Edge>, id: string) {
    forall v :: v in remaining ==>
      remaining[v] == InCount(edges, v, remaining.Keys) + InCount(rest, v, {id})
  }

  /** Peel one dequeued node: decrement its successors and queue those that reach zero. */
  method PeelEdges(ghost edges: seq<Edge>, out: seq<Edge>, id: string,
                   remaining0: map<string, nat>, queue0: seq<string>)
    returns (remaining: map<string, nat>, queue: seq<string>)
    requires id !in remaining0
    requires forall i :: 0 <= i < |out| ==> out[i].from == id
    requires Queued(remaining0, queue0)
    requires Balanced(edges, remaining0, out, id)
    ensures remaining.Keys == remaining0.Keys
    ensures Queued(remaining, queue)
    ensures Balanced(edges, remaining, [], id)
  {
    remaining, queue := remaining0, queue0;
    assert out[0..] == out;
    for j := 0 to |out|
      invariant remaining.Keys == remaining0.Keys
      invariant Queued(remaining, queue)
      invariant Balanced(edges, remaining, out[j..], id)
    {
      var e := out[j];
      assert out[j..][1..] == out[j + 1..];
      if e.from == e.to {
        continue;
      }
      if e.to !in remaining {
        continue;
      }
      assert remaining[e.to] > 0;
      remaining := remaining[e.to := remaining[e.to] - 1];
      if remaining[e.to] == 0 {
        queue := queue + [e.to];
      }
    }
    assert out[|out|..] == [];
  }

  /** All nodes with no inbound edge left, in whatever order the map yields them. */
  method InitialQueue(remaining: map<string, nat>) returns (queue: seq<string>)
    ensures Queued(remaining, queue)
  {
    queue := [];
    var todo := remaining.Keys;
    while todo != {}
      invariant todo <= remaining.Keys
      invariant Distinct(queue)
      invariant forall q :: q in queue <==> q in remaining && q !in todo && remaining[q] == 0
    {
      var id :| id in todo;
      todo := todo - {id};
      if remaining[id] == 0 {
        queue := queue + [id];
      }
    }
  }

  /** Dequeue the front node, delete it from the working map and peel its outgoing edges. */
  method PeelFront(ghost g: Graph, outgoing: map<string, seq<Edge>>, remaining0: map<string, nat>, queue0: seq<string>)
    returns (remaining: map<string, nat>, queue: seq<string>)
    requires forall u :: (if u in outgoing then outgoing[u] else []) == EdgesFrom(g.edges, u)
    requires queue0 != [] && Queued(remaining0, queue0)
    requires Balanced(g.edges, remaining0, [], "")
    ensures remaining.Keys == remaining0.Keys - {queue0[0]}
    ensures Queued(remaining, queue)
    ensures Balanced(g.edges, remaining, [], "")
  {
    var id := queue0[0];
    assert id in queue0;
    remaining := remaining0 - {id};
    var out := if id in outgoing then outgoing[id] else [];
    EdgesFromAll(g.edges, id);
    assert remaining.Keys == remaining0.Keys - {id};
    forall v | v in remaining ensures remaining[v] == InCount(g.edges, v, remaining.Keys) + InCount(out, v, {id}) {
      InCountSplit(g.edges, v, remaining0.Keys, id);
    }
    QueueTail(remaining0, remaining, queue0);
    remaining, queue := PeelEdges(g.edges, out, id, remaining, queue0[1..]);
  }

  /** Peel zero-in-degree nodes until none is left; `rank` records the peeling order. */
  method Peel(ghost g: Graph, outgoing: map<string, seq<Edge>>, indegree: map<string, nat>)
    returns (remaining: map<string, nat>, ghost rank: map<string, int>)
    requires Tables(g, outgoing, indegree)
    ensures remaining.Keys <= g.known && rank.Keys == g.known - remaining.Keys
    ensures Ranks(g, rank)
    ensures NoSourceIn(g, remaining.Keys)
  {
    remaining := indegree;
    rank := map[];
    var queue := InitialQueue(remaining);
    ghost var clock := 0;
    while queue != []
      invariant remaining.Keys <= g.known && rank.Keys == g.known - remaining.Keys
      invariant Queued(remaining, queue)
      invariant Balanced(g.edges, remaining, [], "")
      invariant Ranks(g, rank)
      invariant forall x :: x in rank ==> rank[x] < clock
      decreases remaining.Keys
    {
      assert queue[0] in queue;
      InCountZeroIff(g.edges, queue[0], remaining.Keys);
      rank := RankNext(g, remaining.Keys, rank, queue[0], clock);
      clock := clock + 1;
      remaining, queue := PeelFront(g, outgoing, remaining, queue);
    }
    StuckHasNoSource(g, remaining);
  }

  lemma StuckHasNoSource(g: Graph, remaining: map<string, nat>)
    requires remaining.Keys <= g.known
    requires Queued(remaining, []) && Balanced(g.edges, remaining, [], "")
    ensures NoSourceIn(g, remaining.Keys)
  {
    forall v | v in remaining.Keys ensures HasPredecessorIn(g, remaining.Keys, v) {
      assert v !in [];
      InCountZeroIff(g.edges, v, remaining.Keys);
      var i :| 0 <= i < |g.edges| && g.edges[i].to == v && g.edges[i].from != v && g.edges[i].from in remaining.Keys;
      assert Arc(g, g.edges[i].from, v);
    }
  }

  lemma QueueTail(before: map<string, nat>, after: map<string, nat>, queue: seq<string>)
    requires queue != [] && Queued(before, queue) && after == before - {queue[0]}
    ensures Queued(after, queue[1..])
  {
    forall q ensures q in queue[1..] <==> q in after && after[q] == 0 {
      assert q in queue <==> q == queue[0] || q in queue[1..];
    }
  }

  /** A node without live predecessors can be ranked after everything peeled so far. */
  lemma RankNext(g: Graph, live: set<string>, rank: map<string, int>, id: string, r: int)
    returns (rank': map<string, int>)
    requires live <= g.known && rank.Keys == g.known - live && id in live
    requires Ranks(g, rank) && forall x :: x in rank ==> rank[x] < r
    requires forall i :: 0 <= i < |g.edges| && g.edges[i].to == id && g.edges[i].from != id
                         ==> g.edges[i].from !in live
    ensures rank' == rank[id := r] && Ranks(g, rank')
  {
    rank' := rank[id := r];
  }

  /** List what is left in definition order, deleting each id so that a repeated agent is listed once. */
  method ListLeftover(agents: seq<Agent>, left: map<string, nat>) returns (cyclic: seq<string>)
    ensures cyclic == FirstSeen(agents, left.Keys)
  {
    var remaining := left;
    cyclic := [];
    assert agents[0..] == agents;
    for i := 0 to |agents|
      invariant FirstSeen(agents, left.Keys) == cyclic + FirstSeen(agents[i..], remaining.Keys)
    {
      assert agents[i..][1..] == agents[i + 1..];
      if agents[i].id in remaining {
        cyclic := cyclic + [agents[i].id];
        remaining := remaining - {agents[i].id};
      }
    }
    assert agents[|agents|..] == [];
  }

  /** Kahn's pass: the ids that cannot be peeled, in definition order. */
  method CyclicNodes(p: Pipeline, outgoing: map<string, seq<Edge>>, indegree: map<string, nat>)
    returns (cyclic: seq<string>)
    requires Tables(ExecutorGraph(p), outgoing, indegree)
    ensures cyclic == [] <==> !HasCycle(ExecutorGraph(p))
    ensures forall v :: v in cyclic <==> v in Ids(p.agents) && DownstreamOfCycle(ExecutorGraph(p), v)
    ensures forall i, j :: 0 <= i < j < |cyclic| ==> FirstIndex(p.agents, cyclic[i]) < FirstIndex(p.agents, cyclic[j])
  {
    ghost var g := ExecutorGraph(p);
    ghost var rank;
    var remaining;
    remaining, rank := Peel(g, outgoing, indegree);
    LeftoverIsDownstream(g, remaining.Keys, rank);
    FirstSeenInDefinitionOrder(p.agents, remaining.Keys);
    if |remaining| == 0 {
      return [];
    }
    cyclic := ListLeftover(p.agents, remaining);
    ghost var x :| x in remaining.Keys;
    assert x in cyclic;
  }

  lemma LeftoverIsDownstream(g: Graph, left: set<string>, rank: map<string, int>)
    requires left <= g.known && rank.Keys == g.known - left
    requires Ranks(g, rank) && NoSourceIn(g, left)
    ensures forall v :: v in left <==> v in g.known && DownstreamOfCycle(g, v)
    ensures left == {} <==> !HasCycle(g)
  {
    forall v | v in g.known ensures v in left <==> DownstreamOfCycle(g, v) {
      if v in left {
        assert Path(g, [v]) && Elements([v]) == {v};
        BackwardWalkClosesCycle(g, left, [v]);
      } else {
        RankedIsNotDownstream(g, rank, v);
      }
    }
    if c :| Cycle(g, c) {
      CycleIsDownstreamOfItself(g, c);
    }
    if left != {} {
      var v :| v in left;
      assert DownstreamOfCycle(g, v);
    }
  }

  /** A node that a root reaches without touching the cycle is listed too, being downstream of the cycle. */
  method RootedNodeIsListed() returns (cyclic: seq<string>)
    ensures var g := Graph({"r", "x", "a", "b"},
                           [Edge("r", "x", ""), Edge("a", "x", ""), Edge("a", "b", ""), Edge("b", "a", "")]);
            "x" in cyclic && "r" !in cyclic && Root(g, "r") && Path(g, ["r", "x"])
  {
    var agents := [Agent("r", "1"), Agent("x", "2"), Agent("a", "3"), Agent("b", "4")];
    var p := Pipeline(agents, [Edge("r", "x", ""), Edge("a", "x", ""), Edge("a", "b", ""), Edge("b", "a", "")]);
    ghost var g := ExecutorGraph(p);
    FourIds(agents);
    FourArcs(g);
    var nodesById, outgoing, indegree := BuildTables(p);
    cyclic := CyclicNodes(p, outgoing, indegree);
    if DownstreamOfCycle(g, "r") {
      RootIsNotDownstream(g, "r");
    }
  }

  lemma FourIds(agents: seq<Agent>)
    requires agents == [Agent("r", "1"), Agent("x", "2"), Agent("a", "3"), Agent("b", "4")]
    ensures Ids(agents) == {"r", "x", "a", "b"}
  {
    assert agents[0].id == "r" && agents[1].id == "x" && agents[2].id == "a" && agents[3].id == "b";
  }

  lemma FourArcs(g: Graph)
    requires g.known == {"r", "x", "a", "b"}
    requires g.edges == [Edge("r", "x", ""), Edge("a", "x", ""), Edge("a", "b", ""), Edge("b", "a", "")]
    ensures Root(g, "r") && Path(g, ["r", "x"]) && DownstreamOfCycle(g, "x")
  {
    assert Counts(g, g.edges[0]) && Counts(g, g.edges[1]) && Counts(g, g.edges[2]) && Counts(g, g.edges[3]);
    assert Arc(g, "r", "x") && Arc(g, "a", "x") && Arc(g, "a", "b") && Arc(g, "b", "a");
    assert Cycle(g, ["a", "b", "a"]);
    assert Path(g, ["a", "x"]) && Reaches(g, "a", "x");
  }

  /** Nothing downstream of a cycle is a root. */
  lemma RootIsNotDownstream(g: Graph, v: string)
    requires DownstreamOfCycle(g, v)
    ensures !Root(g, v)
  {
    var c :| Cycle(g, c) && Reaches(g, c[0], v);
    var p :| Path(g, p) && p[0] == c[0] && p[|p| - 1] == v;
    if |p| > 1 {
      assert Arc(g, p[|p| - 2], v);
    } else {
      assert Arc(g, c[|c| - 2], c[|c| - 1]);
    }
  }
}
