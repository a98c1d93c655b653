/** The graph executor: the cycle gate followed by a guarded depth-first walk from every root. */
module PipelineExecutor {
  import opened PipelineGraph
  import opened PipelineKahn
  import opened Wrappers

  /** What one agent invocation yields; the engine is any function of the agent and its input. */
  datatype Reply = Reply(content: string) | NodeError

  type Engine = (Agent, string) -> Reply

  datatype NodeResult = NodeResult(id: string, input: string, reply: Reply)

  datatype RunError = CyclicPipeline(nodes: seq<string>) | UnknownNode(id: string) | NodeFailed(id: string)

  /** A node without an agent reference fails without calling the engine. */
  function Invoke(engine: Engine, node: Agent, input: string): Reply {
    if node.ref == "" then NodeError else engine(node, input)
  }

  ghost function Roots(g: Graph): set<string> {
    set v | v in g.known && Root(g, v)
  }

  function Invoked(nodes: seq<NodeResult>): set<string> {
    set i | 0 <= i < |nodes| :: nodes[i].id
  }

  /** The result's output satisfies the guard of some edge from it to `to`. */
  ghost predicate FiresTo(edges: seq<Edge>, r: NodeResult, to: string) {
    && r.reply.Reply?
    && exists e :: e in edges && e.from == r.id && e.to == to && Fires(e, r.reply.content)
  }

  /** `id` may be entered with `input`: it is a root given the user message, or fed by an earlier result. */
  ghost predicate Cause(g: Graph, userMsg: string, earlier: seq<NodeResult>, id: string, input: string) {
    || (id in Roots(g) && input == userMsg)
    || exists j :: 0 <= j < |earlier| && FiresTo(g.edges, earlier[j], id) && input == earlier[j].reply.content
  }

  /** Every result has a cause among the results before it, and no node appears twice. */
  ghost predicate History(g: Graph, userMsg: string, nodes: seq<NodeResult>) {
    && (forall i, j :: 0 <= i < j < |nodes| ==> nodes[i].id != nodes[j].id)
    && (forall k :: 0 <= k < |nodes| ==> Cause(g, userMsg, nodes[..k], nodes[k].id, nodes[k].input))
  }

  /** Each reply is what the engine gives for the declared agent and the recorded input. */
  ghost predicate Answers(engine: Engine, nodesById: map<string, Agent>, nodes: seq<NodeResult>) {
    forall k :: 0 <= k < |nodes| ==>
      && nodes[k].id in nodesById
      && nodes[k].reply == Invoke(engine, nodesById[nodes[k].id], nodes[k].input)
  }

  ghost predicate AllReplied(nodes: seq<NodeResult>) {
    forall k :: 0 <= k < |nodes| ==> nodes[k].reply.Reply?
  }

  /** Every node the result fires to has been entered. */
  ghost predicate Settled(edges: seq<Edge>, r: NodeResult, visited: set<string>) {
    forall to :: FiresTo(edges, r, to) ==> to in visited
  }

  ghost predicate SettledFrom(edges: seq<Edge>, nodes: seq<NodeResult>, at: nat, visited: set<string>) {
    forall k :: at <= k < |nodes| ==> Settled(edges, nodes[k], visited)
  }

  lemma SettledExtends(edges: seq<Edge>, before: seq<NodeResult>, after: seq<NodeResult>, at: nat,
                       visited: set<string>, visited': set<string>)
    requires before <= after && visited <= visited'
    requires SettledFrom(edges, before, at, visited) && SettledFrom(edges, after, |before|, visited')
    ensures SettledFrom(edges, after, at, visited')
  {
    forall k | at <= k < |after| ensures Settled(edges, after[k], visited') {
      if k < |before| {
        assert after[k] == before[k];
        assert Settled(edges, before[k], visited);
      }
    }
  }

  /** The run stopped because of `err`: an edge fired into an undeclared node, or the last invocation failed. */
  ghost predicate StoppedBy(g: Graph, nodes: seq<NodeResult>, err: RunError) {
    match err
    case CyclicPipeline(_) => false
    case UnknownNode(id) =>
      id !in g.known && AllReplied(nodes) && exists k :: 0 <= k < |nodes| && FiresTo(g.edges, nodes[k], id)
    case NodeFailed(id) =>
      && nodes != []
      && nodes[|nodes| - 1].id == id && nodes[|nodes| - 1].reply.NodeError?
      && AllReplied(nodes[..|nodes| - 1])
  }

  lemma HistoryGrows(g: Graph, userMsg: string, nodes: seq<NodeResult>, r: NodeResult)
    requires History(g, userMsg, nodes) && r.id !in Invoked(nodes)
    requires Cause(g, userMsg, nodes, r.id, r.input)
    ensures History(g, userMsg, nodes + [r])
    ensures Invoked(nodes + [r]) == Invoked(nodes) + {r.id}
  {
    var after := nodes + [r];
    forall k | 0 <= k < |after| ensures Cause(g, userMsg, after[..k], after[k].id, after[k].input) {
      assert after[..k] == nodes[..k];
      assert nodes[..|nodes|] == nodes;
    }
    forall i | 0 <= i < |nodes| ensures nodes[i].id != r.id {
      assert nodes[i].id in Invoked(nodes);
    }
    InvokedAppend(nodes, r);
  }

  /** A run in progress: sound history, faithful replies, no failure so far. */
  ghost predicate CleanRun(g: Graph, engine: Engine, nodesById: map<string, Agent>,
                           userMsg: string, nodes: seq<NodeResult>) {
    && History(g, userMsg, nodes)
    && Answers(engine, nodesById, nodes)
    && AllReplied(nodes)
  }

  lemma RunGrows(g: Graph, engine: Engine, nodesById: map<string, Agent>,
                 userMsg: string, nodes: seq<NodeResult>, r: NodeResult)
    requires CleanRun(g, engine, nodesById, userMsg, nodes)
    requires r.id !in Invoked(nodes) && r.id in nodesById && Cause(g, userMsg, nodes, r.id, r.input)
    requires r.reply == Invoke(engine, nodesById[r.id], r.input)
    ensures History(g, userMsg, nodes + [r]) && Answers(engine, nodesById, nodes + [r])
    ensures Invoked(nodes + [r]) == Invoked(nodes) + {r.id}
    ensures r.reply.Reply? ==> CleanRun(g, engine, nodesById, userMsg, nodes + [r])
    ensures r.reply.NodeError? ==> StoppedBy(g, nodes + [r], NodeFailed(r.id))
  {
    HistoryGrows(g, userMsg, nodes, r);
    assert (nodes + [r])[..|nodes|] == nodes;
  }

  lemma UnknownWasFired(g: Graph, userMsg: string, nodes: seq<NodeResult>, id: string, input: string)
    requires id !in g.known && AllReplied(nodes) && Cause(g, userMsg, nodes, id, input)
    ensures StoppedBy(g, nodes, UnknownNode(id))
  {
  }

  lemma InvokedAppend(nodes: seq<NodeResult>, r: NodeResult)
    ensures Invoked(nodes + [r]) == Invoked(nodes) + {r.id}
  {
    var after := nodes + [r];
    assert after[|nodes|] == r;
    forall x | x in Invoked(nodes) ensures x in Invoked(after) {
      var i :| 0 <= i < |nodes| && nodes[i].id == x;
      assert after[i] == nodes[i];
    }
  }

  /** The walk's closure state: the visited set and the results appended so far. */
  class GraphWalk {
    const nodesById: map<string, Agent>
    const outgoing: map<string, seq<Edge>>
    var visited: set<string>
    var nodes: seq<NodeResult>

    constructor (nodesById: map<string, Agent>, outgoing: map<string, seq<Edge>>)
      ensures this.nodesById == nodesById && this.outgoing == outgoing
      ensures visited == {} && nodes == []
    {
      this.nodesById, this.outgoing := nodesById, outgoing;
      visited, nodes := {}, [];
    }

    ghost predicate Reads(g: Graph) {
      && nodesById.Keys == g.known
      && forall u :: (if u in outgoing then outgoing[u] else []) == EdgesFrom(g.edges, u)
    }

    ghost predicate Clean(g: Graph, engine: Engine, userMsg: string)
      reads this
    {
      CleanRun(g, engine, nodesById, userMsg, nodes) && visited == Invoked(nodes)
    }

    /** Enter one node: invoke it once, then follow its firing edges in document order. */
    method Walk(id: string, input: string, engine: Engine,
                ghost g: Graph, ghost userMsg: string, ghost universe: set<string>)
      returns (err: Option<RunError>)
      requires Reads(g) && Clean(g, engine, userMsg)
      requires Cause(g, userMsg, nodes, id, input)
      requires id in universe && forall e :: e in g.edges ==> e.to in universe
      modifies this
      ensures History(g, userMsg, nodes) && Answers(engine, nodesById, nodes) && old(nodes) <= nodes
      ensures err.Some? ==> StoppedBy(g, nodes, err.value)
      ensures err.None? ==> Clean(g, engine, userMsg) && old(visited) + {id} <= visited
      ensures err.None? ==> SettledFrom(g.edges, nodes, |old(nodes)|, visited)
      decreases universe - visited, 0
    {
      if id in visited {
        return None;
      }
      visited := visited + {id};
      if id !in nodesById {
        UnknownWasFired(g, userMsg, nodes, id, input);
        return Some(UnknownNode(id));
      }
      var r := NodeResult(id, input, Invoke(engine, nodesById[id], input));
      RunGrows(g, engine, nodesById, userMsg, nodes, r);
      ghost var start := |nodes|;
      nodes := nodes + [r];
      if r.reply.NodeError? {
        return Some(NodeFailed(id));
      }
      err := Follow(r, start, engine, g, userMsg, universe);
    }

    /** Follow the firing edges of the result at position `at`. */
    method Follow(r: NodeResult, ghost at: nat, engine: Engine,
                  ghost g: Graph, ghost userMsg: string, ghost universe: set<string>)
      returns (err: Option<RunError>)
      requires Reads(g) && Clean(g, engine, userMsg)
      requires at == |nodes| - 1 && nodes[at] == r
      requires forall e :: e in g.edges ==> e.to in universe
      modifies this
      ensures History(g, userMsg, nodes) && Answers(engine, nodesById, nodes) && old(nodes) <= nodes
      ensures err.Some? ==> StoppedBy(g, nodes, err.value)
      ensures err.None? ==> Clean(g, engine, userMsg) && old(visited) <= visited
      ensures err.None? ==> SettledFrom(g.edges, nodes, at, visited)
      decreases universe - visited, 1
    {
      var out := if r.id in outgoing then outgoing[r.id] else [];
      EdgesFromAll(g.edges, r.id);
      for i := 0 to |out|
        invariant Clean(g, engine, userMsg) && old(nodes) <= nodes && old(visited) <= visited
        invariant SettledFrom(g.edges, nodes, at + 1, visited)
        invariant forall j :: 0 <= j < i && Fires(out[j], r.reply.content) ==> out[j].to in visited
      {
        var e := out[i];
        assert e in out;
        if e.whenContains != "" && !Contains(r.reply.content, e.whenContains) {
          continue;
        }
        assert FiresTo(g.edges, nodes[at], e.to);
        ghost var before := nodes;
        label call:
        err := Walk(e.to, r.reply.content, engine, g, userMsg, universe);
        if err.Some? {
          return;
        }
        SettledExtends(g.edges, before, nodes, at + 1, old@call(visited), visited);
      }
      err := None;
    }
  }

  /** A finished run: its history is sound, it answers for every root and every firing edge. */
  ghost predicate Complete(g: Graph, userMsg: string, nodes: seq<NodeResult>) {
    && History(g, userMsg, nodes)
    && AllReplied(nodes)
    && Roots(g) <= Invoked(nodes)
    && SettledFrom(g.edges, nodes, 0, Invoked(nodes))
  }

  /** The walk from every root in definition order. */
  method WalkRoots(agents: seq<Agent>, engine: Engine, userMsg: string, walk: GraphWalk, indegree: map<string, nat>,
                   ghost g: Graph, ghost universe: set<string>)
    returns (err: Option<RunError>)
    requires walk.Reads(g) && walk.visited == {} && walk.nodes == []
    requires forall i :: 0 <= i < |agents| ==> agents[i].id in indegree && agents[i].id in universe
    requires forall v :: v in indegree && indegree[v] == 0 ==> v in Roots(g)
    requires forall e :: e in g.edges ==> e.to in universe
    modifies walk
    ensures History(g, userMsg, walk.nodes) && Answers(engine, walk.nodesById, walk.nodes)
    ensures err.Some? ==> StoppedBy(g, walk.nodes, err.value)
    ensures err.None? ==> walk.Clean(g, engine, userMsg) && SettledFrom(g.edges, walk.nodes, 0, walk.visited)
    ensures err.None? ==> forall i :: 0 <= i < |agents| ==> indegree[agents[i].id] != 0 || agents[i].id in walk.visited
  {
    for i := 0 to |agents|
      invariant walk.Clean(g, engine, userMsg)
      invariant SettledFrom(g.edges, walk.nodes, 0, walk.visited)
      invariant forall j :: 0 <= j < i ==> indegree[agents[j].id] != 0 || agents[j].id in walk.visited
    {
      var id := agents[i].id;
      if indegree[id] == 0 {
        ghost var before := walk.nodes;
        label call:
        err := walk.Walk(id, userMsg, engine, g, userMsg, universe);
        if err.Some? {
          return;
        }
        SettledExtends(g.edges, before, walk.nodes, 0, old@call(walk.visited), walk.visited);
      }
    }
    err := None;
  }

  lemma RootsAreEntered(p: Pipeline, indegree: map<string, nat>, visited: set<string>)
    requires indegree.Keys == Ids(p.agents)
    requires forall v :: v in indegree ==> (indegree[v] == 0 <==> Root(ExecutorGraph(p), v))
    requires forall i :: 0 <= i < |p.agents| ==> indegree[p.agents[i].id] != 0 || p.agents[i].id in visited
    ensures Roots(ExecutorGraph(p)) <= visited
  {
    forall r | r in Roots(ExecutorGraph(p)) ensures r in visited {
      var j :| 0 <= j < |p.agents| && p.agents[j].id == r;
    }
  }

  method RunAcyclic(p: Pipeline, engine: Engine, userMsg: string, nodesById: map<string, Agent>,
                    outgoing: map<string, seq<Edge>>, indegree: map<string, nat>)
    returns (nodes: seq<NodeResult>, err: Option<RunError>)
    requires Tables(ExecutorGraph(p), outgoing, indegree) && nodesById.Keys == Ids(p.agents)
    ensures History(ExecutorGraph(p), userMsg, nodes) && Answers(engine, nodesById, nodes)
    ensures err.Some? ==> StoppedBy(ExecutorGraph(p), nodes, err.value)
    ensures err.None? ==> Complete(ExecutorGraph(p), userMsg, nodes)
  {
    ghost var g := ExecutorGraph(p);
    forall v | v in indegree ensures indegree[v] == 0 <==> Root(g, v) {
      InCountZeroIsRoot(g, v);
    }
    var walk := new GraphWalk(nodesById, outgoing);
    ghost var universe := g.known + set e | e in g.edges :: e.to;
    err := WalkRoots(p.agents, engine, userMsg, walk, indegree, g, universe);
    nodes := walk.nodes;
    if err.None? {
      RootsAreEntered(p, indegree, walk.visited);
    }
  }

  /**
   A whole graph run. A cyclic pipeline invokes nothing and is reported with every node in or downstream of
   a cycle; otherwise the results are a sound history, complete unless the run was stopped by an error.
   */
  method RunGraph(p: Pipeline, engine: Engine, userMsg: string) returns (nodes: seq<NodeResult>, err: Option<RunError>)
    ensures HasCycle(ExecutorGraph(p)) <==> err.Some? && err.value.CyclicPipeline?
    ensures HasCycle(ExecutorGraph(p)) ==>
              nodes == []
              && forall v :: v in err.value.nodes <==> v in Ids(p.agents) && DownstreamOfCycle(ExecutorGraph(p), v)
    ensures !HasCycle(ExecutorGraph(p)) ==> History(ExecutorGraph(p), userMsg, nodes)
    ensures !HasCycle(ExecutorGraph(p)) && err.Some? ==> StoppedBy(ExecutorGraph(p), nodes, err.value)
    ensures err.None? ==> Complete(ExecutorGraph(p), userMsg, nodes)
    ensures AnsweredByLast(p, engine, nodes)
  {
    var nodesById, outgoing, indegree := BuildTables(p);
    var cyclic := CyclicNodes(p, outgoing, indegree);
    if |cyclic| > 0 {
      nodes, err := [], Some(CyclicPipeline(cyclic));
      return;
    }
    nodes, err := RunAcyclic(p, engine, userMsg, nodesById, outgoing, indegree);
    LastAnswers(p, engine, nodesById, nodes);
  }

  /** Each reply is the engine's, on the last agent declared with the node's id. */
  ghost predicate AnsweredByLast(p: Pipeline, engine: Engine, nodes: seq<NodeResult>) {
    forall k :: 0 <= k < |nodes| ==> RepliesAsLast(p, engine, nodes[k])
  }

  ghost predicate RepliesAsLast(p: Pipeline, engine: Engine, r: NodeResult) {
    exists i :: LastWith(p.agents, |p.agents|, i, r.id) && r.reply == Invoke(engine, p.agents[i], r.input)
  }

  lemma LastAnswers(p: Pipeline, engine: Engine, byId: map<string, Agent>, nodes: seq<NodeResult>)
    requires LastWins(p.agents, |p.agents|, byId) && Answers(engine, byId, nodes)
    ensures AnsweredByLast(p, engine, nodes)
  {
    forall k | 0 <= k < |nodes| ensures RepliesAsLast(p, engine, nodes[k]) {
      assert HoldsLast(p.agents, |p.agents|, byId, nodes[k].id);
      var i :| LastWith(p.agents, |p.agents|, i, nodes[k].id) && byId[nodes[k].id] == p.agents[i];
    }
  }

  /** Closed under the firing edges of the run. */
  ghost predicate FiringClosed(edges: seq<Edge>, nodes: seq<NodeResult>, s: set<string>) {
    forall k, to :: 0 <= k < |nodes| && nodes[k].id in s && FiresTo(edges, nodes[k], to) ==> to in s
  }

  /** The invoked set of an error-free run is the least set holding the roots and closed under firing edges. */
  lemma InvokedIsLeast(g: Graph, userMsg: string, nodes: seq<NodeResult>, s: set<string>)
    requires Complete(g, userMsg, nodes)
    ensures Roots(g) <= Invoked(nodes) && FiringClosed(g.edges, nodes, Invoked(nodes))
    ensures Roots(g) <= s && FiringClosed(g.edges, nodes, s) ==> Invoked(nodes) <= s
  {
    if Roots(g) <= s && FiringClosed(g.edges, nodes, s) {
      InvokedWithin(g, userMsg, nodes, s, |nodes|);
    }
  }

  lemma {:induction false} InvokedWithin(g: Graph, userMsg: string, nodes: seq<NodeResult>, s: set<string>, n: nat)
    requires n <= |nodes| && History(g, userMsg, nodes) && Roots(g) <= s && FiringClosed(g.edges, nodes, s)
    ensures forall k :: 0 <= k < n ==> nodes[k].id in s
  {
    if n > 0 {
      InvokedWithin(g, userMsg, nodes, s, n - 1);
      var k := n - 1;
      assert Cause(g, userMsg, nodes[..k], nodes[k].id, nodes[k].input);
      if nodes[k].id !in Roots(g) {
        var j :| 0 <= j < |nodes[..k]| && FiresTo(g.edges, nodes[..k][j], nodes[k].id);
        assert nodes[..k][j] == nodes[j];
      }
    }
  }

  /** With unguarded edges between declared nodes, an error-free run of an acyclic graph invokes every node once. */
  lemma UnguardedRunInvokesAll(g: Graph, userMsg: string, nodes: seq<NodeResult>)
    requires Complete(g, userMsg, nodes) && !HasCycle(g)
    requires forall e :: e in g.edges ==> e.whenContains == "" && e.from in g.known && e.to in g.known
    ensures Invoked(nodes) == g.known
    ensures forall i, j :: 0 <= i < j < |nodes| ==> nodes[i].id != nodes[j].id
  {
    var inv := Invoked(nodes);
    forall u, v | u in inv && Arc(g, u, v) ensures v in inv {
      var k :| 0 <= k < |nodes| && nodes[k].id == u;
      var i :| 0 <= i < |g.edges| && g.edges[i].from == u && g.edges[i].to == v;
      assert g.edges[i] in g.edges;
      assert FiresTo(g.edges, nodes[k], v);
      assert Settled(g.edges, nodes[k], inv);
    }
    forall v | v in g.known ensures v in inv {
      AcyclicIsRooted(g, v);
      var r :| Root(g, r) && Reaches(g, r, v);
      assert r in Roots(g);
      var q :| Path(g, q) && q[0] == r && q[|q| - 1] == v;
      ClosedSetHoldsPath(g, inv, q);
    }
    assert Roots(g) <= g.known;
    assert FiringClosed(g.edges, nodes, g.known);
    InvokedIsLeast(g, userMsg, nodes, g.known);
  }
}
