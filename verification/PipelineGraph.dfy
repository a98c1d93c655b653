/** Pipeline documents and the directed graph that their edge lists describe. */
module PipelineGraph {

  datatype Agent = Agent(id: string, ref: string)

  datatype Edge = Edge(from: string, to: string, whenContains: string)

  datatype Pipeline = Pipeline(agents: seq<Agent>, edges: seq<Edge>)

  /** The node set together with the raw edge list, which may hold dangling, duplicate and self edges. */
  datatype Graph = Graph(known: set<string>, edges: seq<Edge>)

  function Ids(agents: seq<Agent>): set<string> {
    set i | 0 <= i < |agents| :: agents[i].id
  }

  /** Among the first `n` agents, the one at position `i` is the last with the given id. */
  predicate LastWith(agents: seq<Agent>, n: nat, i: int, id: string) {
    && 0 <= i < n <= |agents|
    && agents[i].id == id
    && forall j :: i < j < n ==> agents[j].id != id
  }

  /** The table holds, for each id among the first `n` agents, the last agent with that id. */
  ghost predicate LastWins(agents: seq<Agent>, n: nat, byId: map<string, Agent>) {
    forall id :: HoldsLast(agents, n, byId, id)
  }

  ghost predicate HoldsLast(agents: seq<Agent>, n: nat, byId: map<string, Agent>, id: string) {
    id in byId ==> exists i :: LastWith(agents, n, i, id) && byId[id] == agents[i]
  }

  lemma IdsSnoc(agents: seq<Agent>, n: nat)
    requires n < |agents|
    ensures Ids(agents[..n + 1]) == Ids(agents[..n]) + {agents[n].id}
  {
    assert agents[..n + 1] == agents[..n] + [agents[n]];
  }

  /** The graph the executor works on: every declared id is a node. */
  function ExecutorGraph(p: Pipeline): Graph {
    Graph(Ids(p.agents), p.edges)
  }

  /** The graph the load-time validator works on: nodes with an empty id are skipped. */
  function ValidatorGraph(p: Pipeline): Graph {
    Graph(Ids(p.agents) - {""}, p.edges)
  }

  /** An edge that counts: both ends declared, and not a self-loop. */
  predicate Counts(g: Graph, e: Edge) {
    e.from in g.known && e.to in g.known && e.from != e.to
  }

  ghost predicate Arc(g: Graph, u: string, v: string) {
    exists i :: 0 <= i < |g.edges| && g.edges[i].from == u && g.edges[i].to == v && Counts(g, g.edges[i])
  }

  ghost predicate Root(g: Graph, v: string) {
    v in g.known && forall u :: !Arc(g, u, v)
  }

  ghost predicate Path(g: Graph, p: seq<string>) {
    && |p| > 0
    && p[0] in g.known
    && forall i :: 0 < i < |p| ==> Arc(g, p[i - 1], p[i])
  }

  /** A closed walk. Arcs join distinct nodes, so it runs through two or more declared nodes. */
  ghost predicate Cycle(g: Graph, p: seq<string>) {
    Path(g, p) && |p| >= 2 && p[0] == p[|p| - 1]
  }

  ghost predicate HasCycle(g: Graph) {
    exists p :: Cycle(g, p)
  }

  ghost predicate Reaches(g: Graph, u: string, v: string) {
    exists p :: Path(g, p) && p[0] == u && p[|p| - 1] == v
  }

  ghost predicate DownstreamOfCycle(g: Graph, v: string) {
    exists c :: Cycle(g, c) && Reaches(g, c[0], v)
  }

  /** Every arc into a ranked node comes from a ranked node of smaller rank. */
  ghost predicate Ranks(g: Graph, rank: map<string, int>) {
    forall u, v :: Arc(g, u, v) && v in rank ==> u in rank && rank[u] < rank[v]
  }

  lemma {:induction false} RankGrowsAlongPath(g: Graph, rank: map<string, int>, p: seq<string>)
    requires Ranks(g, rank) && Path(g, p) && p[|p| - 1] in rank
    ensures p[0] in rank && rank[p[0]] + |p| - 1 <= rank[p[|p| - 1]]
    decreases |p|
  {
    if |p| > 1 {
      var q := p[..|p| - 1];
      assert Arc(g, p[|p| - 2], p[|p| - 1]);
      RankGrowsAlongPath(g, rank, q);
    }
  }

  /** A ranked node lies neither on a cycle nor downstream of one. */
  lemma RankedIsNotDownstream(g: Graph, rank: map<string, int>, v: string)
    requires Ranks(g, rank) && v in rank
    ensures !DownstreamOfCycle(g, v)
  {
    if DownstreamOfCycle(g, v) {
      var c :| Cycle(g, c) && Reaches(g, c[0], v);
      var p :| Path(g, p) && p[0] == c[0] && p[|p| - 1] == v;
      RankGrowsAlongPath(g, rank, p);
      RankGrowsAlongPath(g, rank, c);
      assert false;
    }
  }

  lemma CycleIsDownstreamOfItself(g: Graph, c: seq<string>)
    requires Cycle(g, c)
    ensures DownstreamOfCycle(g, c[0])
  {
    assert Path(g, [c[0]]);
    assert Reaches(g, c[0], c[0]);
  }

  lemma CycleHasArc(g: Graph)
    requires HasCycle(g)
    ensures exists u, v :: Arc(g, u, v)
  {
    var c :| Cycle(g, c);
    assert Arc(g, c[0], c[1]);
  }

  function Elements(p: seq<string>): set<string> {
    set x | x in p
  }

  ghost predicate Distinct(p: seq<string>) {
    forall i, j :: 0 <= i < j < |p| ==> p[i] != p[j]
  }

  lemma PrependArc(g: Graph, u: string, p: seq<string>)
    requires Path(g, p) && Arc(g, u, p[0])
    ensures Path(g, [u] + p)
  {
  }

  lemma SubPath(g: Graph, p: seq<string>, i: nat, j: nat)
    requires Path(g, p) && i < j <= |p|
    ensures Path(g, p[i..j])
  {
    var q := p[i..j];
    if i > 0 {
      assert Arc(g, p[i - 1], p[i]);
    }
    forall k | 0 < k < |q| ensures Arc(g, q[k - 1], q[k]) {
      assert q[k] == p[i + k] && q[k - 1] == p[i + k - 1];
    }
  }

  ghost predicate HasPredecessorIn(g: Graph, s: set<string>, v: string) {
    exists u :: u in s && Arc(g, u, v)
  }

  ghost predicate NoSourceIn(g: Graph, s: set<string>) {
    forall v {:trigger HasPredecessorIn(g, s, v)} :: v in s ==> HasPredecessorIn(g, s, v)
  }

  lemma BackArcClosesCycle(g: Graph, p: seq<string>, i: nat)
    requires Path(g, p) && i < |p| && Arc(g, p[i], p[0])
    ensures DownstreamOfCycle(g, p[|p| - 1])
  {
    var q := [p[i]] + p;
    PrependArc(g, p[i], p);
    SubPath(g, q, 0, i + 2);
    assert Cycle(g, q[0..i + 2]);
    SubPath(g, p, i, |p|);
    assert Reaches(g, q[0..i + 2][0], p[|p| - 1]);
  }

  /** Walking backwards inside a set in which every node has a predecessor must close a cycle. */
  lemma {:induction false} BackwardWalkClosesCycle(g: Graph, stuck: set<string>, p: seq<string>)
    requires Path(g, p) && Elements(p) <= stuck
    requires NoSourceIn(g, stuck)
    ensures DownstreamOfCycle(g, p[|p| - 1])
    decreases stuck - Elements(p)
  {
    assert p[0] in Elements(p);
    assert HasPredecessorIn(g, stuck, p[0]);
    var u :| u in stuck && Arc(g, u, p[0]);
    if u in p {
      var i :| 0 <= i < |p| && p[i] == u;
      BackArcClosesCycle(g, p, i);
    } else {
      PrependArc(g, u, p);
      var q := [u] + p;
      assert u in Elements(q) && u !in Elements(p);
      assert Elements(q) == Elements(p) + {u};
      BackwardWalkClosesCycle(g, stuck, q);
    }
  }

  /** In an acyclic graph every node is reachable from a root. */
  lemma AcyclicIsRooted(g: Graph, v: string)
    requires !HasCycle(g) && v in g.known
    ensures exists r :: Root(g, r) && Reaches(g, r, v)
  {
    if forall r :: Root(g, r) ==> !Reaches(g, r, v) {
      var stuck := set u | u in g.known && Reaches(g, u, v);
      forall w | w in stuck ensures HasPredecessorIn(g, stuck, w) {
        assert !Root(g, w);
        var u :| Arc(g, u, w);
        var p :| Path(g, p) && p[0] == w && p[|p| - 1] == v;
        PrependArc(g, u, p);
        assert ([u] + p)[0] == u && ([u] + p)[|p|] == v;
        assert u in stuck;
      }
      assert Path(g, [v]);
      assert Reaches(g, v, v);
      BackwardWalkClosesCycle(g, stuck, [v]);
      assert false;
    }
  }

  /** Forward closure carries membership along a whole path. */
  lemma {:induction false} ClosedSetHoldsPath(g: Graph, s: set<string>, p: seq<string>)
    requires Path(g, p) && p[0] in s
    requires forall u, v :: u in s && Arc(g, u, v) ==> v in s
    ensures p[|p| - 1] in s
    decreases |p|
  {
    if |p| > 1 {
      ClosedSetHoldsPath(g, s, p[..|p| - 1]);
      assert Arc(g, p[|p| - 2], p[|p| - 1]);
    }
  }

  /** Number of edges into `v` from sources in `srcs`, self-loops excluded. */
  function InCount(edges: seq<Edge>, v: string, srcs: set<string>): nat {
    if edges == [] then 0
    else (if edges[0].to == v && edges[0].from in srcs && edges[0].from != v then 1 else 0)
         + InCount(edges[1..], v, srcs)
  }

  lemma {:induction false} InCountAppend(edges: seq<Edge>, e: Edge, v: string, srcs: set<string>)
    ensures InCount(edges + [e], v, srcs)
         == InCount(edges, v, srcs) + if e.to == v && e.from in srcs && e.from != v then 1 else 0
  {
    if edges == [] {
      assert ([e])[1..] == [];
    } else {
      InCountAppend(edges[1..], e, v, srcs);
      assert (edges + [e])[1..] == edges[1..] + [e];
    }
  }

  lemma {:induction false} InCountZeroIff(edges: seq<Edge>, v: string, srcs: set<string>)
    ensures InCount(edges, v, srcs) == 0
       <==> forall i :: 0 <= i < |edges| && edges[i].to == v && edges[i].from != v ==> edges[i].from !in srcs
  {
    if edges != [] {
      InCountZeroIff(edges[1..], v, srcs);
      assert forall i :: 0 < i < |edges| ==> edges[i] == edges[1..][i - 1];
    }
  }

  /** Zero in-degree is what makes a declared node a root. */
  lemma InCountZeroIsRoot(g: Graph, v: string)
    requires v in g.known
    ensures InCount(g.edges, v, g.known) == 0 <==> Root(g, v)
  {
    InCountZeroIff(g.edges, v, g.known);
    if InCount(g.edges, v, g.known) != 0 {
      var i :| 0 <= i < |g.edges| && g.edges[i].to == v && g.edges[i].from != v && g.edges[i].from in g.known;
      assert Arc(g, g.edges[i].from, v);
    }
  }

  /** Substring test used by edge guards. */
  predicate Contains(s: string, w: string) {
    exists i | 0 <= i <= |s| - |w| :: OccursAt(s, w, i)
  }

  predicate OccursAt(s: string, w: string, i: nat) {
    i + |w| <= |s| && s[i..i + |w|] == w
  }

  /** An edge without a guard always fires; a guarded one only when the output contains the guard. */
  predicate Fires(e: Edge, output: string) {
    e.whenContains == "" || Contains(output, e.whenContains)
  }
}
