/** The load-time graph checks: three-colour cycle detection and reachability from the sources. */
module PipelineValidator {
  import opened PipelineGraph

  datatype Color = White | Gray | Black

  datatype GraphError = CycleInvolving(node: string) | UnreachableNode(id: string)

  /** `forward` lists exactly the arcs of `g`, per source. */
  ghost predicate Adjacency(g: Graph, forward: map<string, seq<string>>) {
    && forward.Keys == g.known
    && forall u, v :: Lists(g, forward, u, v)
  }

  ghost predicate Lists(g: Graph, forward: map<string, seq<string>>, u: string, v: string) {
    Arc(g, u, v) <==> u in forward && v in forward[u]
  }

  /** Targets of the counted edges leaving `u`, in document order. */
  function Targets(known: set<string>, edges: seq<Edge>, u: string): seq<string> {
    if edges == [] then []
    else if edges[0].from == u && Counts(Graph(known, []), edges[0]) then [edges[0].to] + Targets(known, edges[1..], u)
    else Targets(known, edges[1..], u)
  }

  lemma {:induction false} TargetsAppend(known: set<string>, edges: seq<Edge>, e: Edge, u: string)
    ensures Targets(known, edges + [e], u)
         == Targets(known, edges, u) + if e.from == u && Counts(Graph(known, []), e) then [e.to] else []
  {
    if edges == [] {
      assert ([e])[1..] == [];
    } else {
      assert (edges + [e])[1..] == edges[1..] + [e] && (edges + [e])[0] == edges[0];
      TargetsAppend(known, edges[1..], e, u);
      var rest, more := Targets(known, edges[1..], u),
                        if e.from == u && Counts(Graph(known, []), e) then [e.to] else [];
      assert [edges[0].to] + (rest + more) == [edges[0].to] + rest + more;
    }
  }

  lemma {:induction false} TargetsAreArcs(known: set<string>, edges: seq<Edge>, u: string, v: string)
    ensures v in Targets(known, edges, u) <==> Arc(Graph(known, edges), u, v)
  {
    if edges != [] {
      var g, h := Graph(known, edges), Graph(known, edges[1..]);
      TargetsAreArcs(known, edges[1..], u, v);
      if Arc(h, u, v) {
        var i :| 0 <= i < |h.edges| && h.edges[i].from == u && h.edges[i].to == v && Counts(h, h.edges[i]);
        assert g.edges[i + 1] == h.edges[i];
      }
      if Arc(g, u, v) {
        var i :| 0 <= i < |g.edges| && g.edges[i].from == u && g.edges[i].to == v && Counts(g, g.edges[i]);
        assert i > 0 ==> g.edges[i] == h.edges[i - 1];
      }
    }
  }

  /** Adjacency lists and in-degrees after the first edges have been entered. */
  ghost predicate Tables(known: set<string>, edges: seq<Edge>,
                         forward: map<string, seq<string>>, inDegree: map<string, nat>) {
    && forward.Keys == inDegree.Keys == known
    && forall u :: u in known ==> forward[u] == Targets(known, edges, u) && inDegree[u] == InCount(edges, u, known)
  }

  lemma TablesDescribeGraph(g: Graph, forward: map<string, seq<string>>, inDegree: map<string, nat>)
    requires Tables(g.known, g.edges, forward, inDegree)
    ensures Adjacency(g, forward)
    ensures forall v :: v in inDegree ==> (inDegree[v] == 0 <==> Root(g, v))
  {
    forall u, v ensures Lists(g, forward, u, v) {
      TargetsAreArcs(g.known, g.edges, u, v);
    }
    forall v | v in inDegree ensures inDegree[v] == 0 <==> Root(g, v) {
      InCountZeroIsRoot(g, v);
    }
  }

  lemma EnterEdge(known: set<string>, edges: seq<Edge>, e: Edge,
                  forward: map<string, seq<string>>, inDegree: map<string, nat>)
    requires Tables(known, edges, forward, inDegree)
    ensures if e.from in known && e.to in known && e.from != e.to
            then Tables(known, edges + [e], forward[e.from := forward[e.from] + [e.to]],
                        inDegree[e.to := inDegree[e.to] + 1])
            else Tables(known, edges + [e], forward, inDegree)
  {
    forall u ensures Targets(known, edges + [e], u)
      == Targets(known, edges, u) + if e.from == u && Counts(Graph(known, []), e) then [e.to] else []
    {
      TargetsAppend(known, edges, e, u);
    }
    forall u ensures InCount(edges + [e], u, known)
      == InCount(edges, u, known) + if e.to == u && e.from in known && e.from != u then 1 else 0
    {
      InCountAppend(edges, e, u, known);
    }
  }

  method BuildForward(p: Pipeline) returns (forward: map<string, seq<string>>, inDegree: map<string, nat>)
    ensures Adjacency(ValidatorGraph(p), forward)
    ensures inDegree.Keys == ValidatorGraph(p).known
    ensures forall v :: v in inDegree ==> (inDegree[v] == 0 <==> Root(ValidatorGraph(p), v))
  {
    forward, inDegree := map[], map[];
    for i := 0 to |p.agents|
      invariant forward.Keys == inDegree.Keys == Ids(p.agents[..i]) - {""}
      invariant forall v :: v in forward ==> forward[v] == [] && inDegree[v] == 0
    {
      assert p.agents[..i + 1] == p.agents[..i] + [p.agents[i]];
      assert Ids(p.agents[..i + 1]) == Ids(p.agents[..i]) + {p.agents[i].id};
      if p.agents[i].id == "" {
        continue;
      }
      forward := forward[p.agents[i].id := []];
      inDegree := inDegree[p.agents[i].id := 0];
    }
    assert p.agents[..|p.agents|] == p.agents;
    ghost var g := ValidatorGraph(p);
    for i := 0 to |p.edges|
      invariant Tables(g.known, p.edges[..i], forward, inDegree)
    {
      var e := p.edges[i];
      assert p.edges[..i + 1] == p.edges[..i] + [e];
      EnterEdge(g.known, p.edges[..i], e, forward, inDegree);
      if e.from !in forward || e.to !in forward || e.from == e.to {
        continue;
      }
      forward := forward[e.from := forward[e.from] + [e.to]];
      inDegree := inDegree[e.to := inDegree[e.to] + 1];
    }
    assert p.edges[..|p.edges|] == p.edges;
    TablesDescribeGraph(g, forward, inDegree);
  }

  function ColorOf(color: map<string, Color>, n: string): Color {
    if n in color then color[n] else White
  }

  ghost function Touched(color: map<string, Color>): set<string> {
    set n | n in color && color[n] != White
  }

  /** Gray nodes are the recursion stack, which is a path. */
  ghost predicate GrayIsStack(g: Graph, color: map<string, Color>, stack: seq<string>) {
    && Touched(color) <= g.known
    && (forall n :: ColorOf(color, n) == Gray <==> n in stack)
    && (stack != [] ==> Path(g, stack))
  }

  /** Black nodes only lead to nodes that finished earlier. */
  ghost predicate BlackIsFinished(g: Graph, color: map<string, Color>, finish: map<string, int>, clock: int) {
    && (forall n :: ColorOf(color, n) == Black <==> n in finish)
    && (forall n :: n in finish ==> finish[n] < clock)
    && (forall u, v :: Arc(g, u, v) && u in finish ==> v in finish && finish[v] < finish[u])
  }

  /** State of the depth-first search: the colour map, the found flag and the reported errors. */
  class CycleSearch {
    const forward: map<string, seq<string>>
    var color: map<string, Color>
    var cycleFound: bool
    var errors: seq<GraphError>
    // Finishing times of the black nodes.
    ghost var finish: map<string, int>
    ghost var clock: int

    constructor (forward: map<string, seq<string>>)
      ensures this.forward == forward
      ensures color == map[] && !cycleFound && errors == [] && finish == map[]
    {
      this.forward := forward;
      color, cycleFound, errors, finish, clock := map[], false, [], map[], 0;
    }

    ghost predicate Searching(g: Graph, stack: seq<string>)
      reads this
    {
      GrayIsStack(g, color, stack) && BlackIsFinished(g, color, finish, clock)
    }

    ghost predicate Found(g: Graph, before: seq<GraphError>)
      reads this
    {
      cycleFound && exists c :: Cycle(g, c) && errors == before + [CycleInvolving(c[0])]
    }

    /** Visit one white node: gray while its successors are searched, black afterwards. */
    method Dfs(n: string, ghost g: Graph, ghost stack: seq<string>)
      requires Adjacency(g, forward) && n in g.known
      requires !cycleFound && Searching(g, stack) && ColorOf(color, n) == White
      requires stack != [] ==> Arc(g, stack[|stack| - 1], n)
      modifies this
      ensures cycleFound ==> Found(g, old(errors))
      ensures !cycleFound ==> Searching(g, stack) && errors == old(errors)
      ensures !cycleFound ==> old(finish.Keys) + {n} <= finish.Keys
      ensures !cycleFound ==> old(Touched(color)) <= Touched(color)
      decreases g.known - Touched(color), 0
    {
      EnterNode(g, color, stack, finish, clock, n);
      color := color[n := Gray];
      VisitSuccessors(n, g, stack + [n]);
      if cycleFound {
        return;
      }
      LeaveNode(g, color, stack, finish, clock, n);
      color := color[n := Black];
      finish, clock := finish[n := clock], clock + 1;
    }

    /** The loop over the successors of the node on top of the stack. */
    method VisitSuccessors(n: string, ghost g: Graph, ghost stack: seq<string>)
      requires Adjacency(g, forward) && n in g.known
      requires !cycleFound && Searching(g, stack)
      requires stack != [] && stack[|stack| - 1] == n
      modifies this
      ensures cycleFound ==> Found(g, old(errors))
      ensures !cycleFound ==> Searching(g, stack) && errors == old(errors)
      ensures !cycleFound ==> old(finish.Keys) <= finish.Keys
      ensures !cycleFound ==> old(Touched(color)) <= Touched(color)
      ensures !cycleFound ==> forall m :: Arc(g, n, m) ==> m in finish
      decreases g.known - Touched(color), 2
    {
      var next := forward[n];
      for i := 0 to |next|
        invariant !cycleFound && errors == old(errors)
        invariant Searching(g, stack)
        invariant old(finish.Keys) <= finish.Keys
        invariant old(Touched(color)) <= Touched(color)
        invariant forall j :: 0 <= j < i ==> next[j] in finish
      {
        ListedArc(g, forward, n, i);
        Visit(next[i], n, g, stack);
        if cycleFound {
          return;
        }
      }
      AllListed(g, forward, n, finish.Keys);
    }

    /** One successor: a gray one closes a cycle, a white one is searched, a black one is done. */
    method Visit(m: string, ghost n: string, ghost g: Graph, ghost stack: seq<string>)
      requires Adjacency(g, forward) && Arc(g, n, m)
      requires !cycleFound && Searching(g, stack)
      requires stack != [] && stack[|stack| - 1] == n
      modifies this
      ensures cycleFound ==> Found(g, old(errors))
      ensures !cycleFound ==> Searching(g, stack) && errors == old(errors)
      ensures !cycleFound ==> old(finish.Keys) + {m} <= finish.Keys
      ensures !cycleFound ==> old(Touched(color)) <= Touched(color)
      decreases g.known - Touched(color), 1
    {
      match ColorOf(color, m) {
        case Gray =>
          BackEdge(g, stack, m);
          errors := errors + [CycleInvolving(m)];
          cycleFound := true;
        case White => Dfs(m, g, stack);
        case Black =>
      }
    }
  }

  lemma ListedArc(g: Graph, forward: map<string, seq<string>>, n: string, i: nat)
    requires Adjacency(g, forward) && n in g.known && i < |forward[n]|
    ensures Arc(g, n, forward[n][i])
  {
    assert Lists(g, forward, n, forward[n][i]);
  }

  lemma AllListed(g: Graph, forward: map<string, seq<string>>, n: string, done: set<string>)
    requires Adjacency(g, forward) && n in g.known && forall j :: 0 <= j < |forward[n]| ==> forward[n][j] in done
    ensures forall m :: Arc(g, n, m) ==> m in done
  {
    forall m | Arc(g, n, m) ensures m in done {
      assert Lists(g, forward, n, m);
    }
  }

  lemma EnterNode(g: Graph, color: map<string, Color>, stack: seq<string>,
                  finish: map<string, int>, clock: int, n: string)
    requires n in g.known && ColorOf(color, n) == White
    requires GrayIsStack(g, color, stack) && BlackIsFinished(g, color, finish, clock)
    requires stack != [] ==> Arc(g, stack[|stack| - 1], n)
    ensures GrayIsStack(g, color[n := Gray], stack + [n])
    ensures BlackIsFinished(g, color[n := Gray], finish, clock)
    ensures Touched(color[n := Gray]) == Touched(color) + {n} && n !in Touched(color)
  {
    Push(g, stack, n);
  }

  lemma LeaveNode(g: Graph, color: map<string, Color>, stack: seq<string>,
                  finish: map<string, int>, clock: int, n: string)
    requires n !in stack && (stack != [] ==> Path(g, stack))
    requires GrayIsStack(g, color, stack + [n]) && BlackIsFinished(g, color, finish, clock)
    requires forall m :: Arc(g, n, m) ==> m in finish
    ensures GrayIsStack(g, color[n := Black], stack)
    ensures BlackIsFinished(g, color[n := Black], finish[n := clock], clock + 1)
    ensures Touched(color[n := Black]) == Touched(color)
  {
    assert n in stack + [n];
    assert ColorOf(color, n) == Gray;
    forall x ensures ColorOf(color[n := Black], x) == Gray <==> x in stack {
      assert x in stack + [n] <==> x in stack || x == n;
    }
  }

  lemma Push(g: Graph, stack: seq<string>, n: string)
    requires n in g.known
    requires stack != [] ==> Path(g, stack) && Arc(g, stack[|stack| - 1], n)
    ensures Path(g, stack + [n])
  {
  }

  /** An arc from the top of the stack back into the stack closes a cycle through its target. */
  lemma BackEdge(g: Graph, stack: seq<string>, m: string)
    requires stack != [] && Path(g, stack) && m in stack && Arc(g, stack[|stack| - 1], m)
    ensures exists c :: Cycle(g, c) && c[0] == m
  {
    var i :| 0 <= i < |stack| && stack[i] == m;
    SubPath(g, stack, i, |stack|);
    var c := stack[i..|stack|];
    Push(g, c, m);
    assert Cycle(g, c + [m]) && (c + [m])[0] == m;
  }

  lemma FinishedIsAcyclic(g: Graph, finish: map<string, int>)
    requires finish.Keys == g.known
    requires forall u, v :: Arc(g, u, v) && u in finish ==> v in finish && finish[v] < finish[u]
    ensures !HasCycle(g)
  {
    var rank := map v | v in finish :: -finish[v];
    if c :| Cycle(g, c) {
      RankGrowsAlongPath(g, rank, c);
      assert false;
    }
  }

  /** The search from every declared node in document order. */
  method DetectCycle(p: Pipeline, forward: map<string, seq<string>>) returns (cycleFound: bool, errors: seq<GraphError>)
    requires Adjacency(ValidatorGraph(p), forward)
    ensures cycleFound <==> HasCycle(ValidatorGraph(p))
    ensures !cycleFound ==> errors == []
    ensures cycleFound ==> exists c :: Cycle(ValidatorGraph(p), c) && errors == [CycleInvolving(c[0])]
  {
    ghost var g := ValidatorGraph(p);
    var search := new CycleSearch(forward);
    for i := 0 to |p.agents|
      invariant !search.cycleFound && search.errors == []
      invariant search.forward == forward && search.Searching(g, [])
      invariant Ids(p.agents[..i]) - {""} <= search.finish.Keys
    {
      assert p.agents[..i + 1] == p.agents[..i] + [p.agents[i]];
      assert Ids(p.agents[..i + 1]) == Ids(p.agents[..i]) + {p.agents[i].id};
      if p.agents[i].id == "" {
        continue;
      }
      if ColorOf(search.color, p.agents[i].id) == White {
        search.Dfs(p.agents[i].id, g, []);
        if search.cycleFound {
          return true, search.errors;
        }
      } else {
        assert ColorOf(search.color, p.agents[i].id) != Gray;
      }
    }
    assert p.agents[..|p.agents|] == p.agents;
    BlackIsKnown(g, search.color, search.finish, search.clock);
    FinishedIsAcyclic(g, search.finish);
    return false, [];
  }

  lemma BlackIsKnown(g: Graph, color: map<string, Color>, finish: map<string, int>, clock: int)
    requires GrayIsStack(g, color, []) && BlackIsFinished(g, color, finish, clock)
    ensures finish.Keys <= g.known
  {
    forall n | n in finish ensures n in g.known {
      assert ColorOf(color, n) == Black;
      assert n in Touched(color);
    }
  }

  ghost predicate ReachedFrom(g: Graph, sources: seq<string>, v: string) {
    exists s :: s in sources && Reaches(g, s, v)
  }

  /** What is marked or queued is reachable, and marking is closed up to the queue. */
  ghost predicate Frontier(g: Graph, sources: seq<string>, reachable: set<string>, queue: seq<string>) {
    && (forall v :: v in reachable || v in queue ==> v in g.known && ReachedFrom(g, sources, v))
    && (forall s :: s in sources ==> s in reachable || s in queue)
    && (forall u, v :: u in reachable && Arc(g, u, v) ==> v in reachable || v in queue)
  }

  lemma FrontierStart(g: Graph, sources: seq<string>)
    requires Elements(sources) <= g.known
    ensures Frontier(g, sources, {}, sources)
  {
    forall s | s in sources ensures s in g.known && ReachedFrom(g, sources, s) {
      assert s in Elements(sources);
      assert Path(g, [s]);
      assert Reaches(g, s, s);
    }
  }

  lemma FrontierSkip(g: Graph, sources: seq<string>, reachable: set<string>, queue: seq<string>)
    requires queue != [] && queue[0] in reachable && Frontier(g, sources, reachable, queue)
    ensures Frontier(g, sources, reachable, queue[1..])
  {
    assert forall x :: x in queue <==> x == queue[0] || x in queue[1..];
  }

  lemma FrontierMark(g: Graph, forward: map<string, seq<string>>, sources: seq<string>,
                     reachable: set<string>, queue: seq<string>)
    requires Adjacency(g, forward) && queue != [] && Frontier(g, sources, reachable, queue)
    ensures queue[0] in forward
    ensures Frontier(g, sources, reachable + {queue[0]}, queue[1..] + forward[queue[0]])
  {
    var n := queue[0];
    assert n in queue;
    assert forall x :: x in queue <==> x == n || x in queue[1..];
    var next := forward[n];
    forall v ensures Arc(g, n, v) <==> v in next {
      assert Lists(g, forward, n, v);
    }
    forall v | v in next ensures v in g.known && ReachedFrom(g, sources, v) {
      assert Arc(g, n, v);
      ReachOneMore(g, sources, n, v);
    }
    assert forall x :: x in queue[1..] + next <==> x in queue[1..] || x in next;
  }

  lemma FrontierDone(g: Graph, sources: seq<string>, reachable: set<string>)
    requires Frontier(g, sources, reachable, [])
    ensures forall v :: v in reachable <==> ReachedFrom(g, sources, v)
  {
    forall v | ReachedFrom(g, sources, v) ensures v in reachable {
      var s :| s in sources && Reaches(g, s, v);
      var p :| Path(g, p) && p[0] == s && p[|p| - 1] == v;
      assert s in reachable;
      ClosedSetHoldsPath(g, reachable, p);
    }
  }

  /** Breadth-first marking from every in-degree-zero node. */
  method MarkReachable(ghost g: Graph, forward: map<string, seq<string>>, sources: seq<string>)
    returns (reachable: set<string>)
    requires Adjacency(g, forward) && Elements(sources) <= g.known
    ensures forall v :: v in reachable <==> ReachedFrom(g, sources, v)
  {
    reachable := {};
    var queue := sources;
    FrontierStart(g, sources);
    while queue != []
      invariant Frontier(g, sources, reachable, queue)
      decreases g.known - reachable, |queue|
    {
      var n := queue[0];
      assert n in queue;
      if n in reachable {
        FrontierSkip(g, sources, reachable, queue);
        queue := queue[1..];
        continue;
      }
      FrontierMark(g, forward, sources, reachable, queue);
      reachable := reachable + {n};
      queue := queue[1..] + forward[n];
    }
    FrontierDone(g, sources, reachable);
  }

  lemma ReachOneMore(g: Graph, sources: seq<string>, u: string, v: string)
    requires ReachedFrom(g, sources, u) && Arc(g, u, v)
    ensures ReachedFrom(g, sources, v)
  {
    var s :| s in sources && Reaches(g, s, u);
    var p :| Path(g, p) && p[0] == s && p[|p| - 1] == u;
    Push(g, p, v);
    assert (p + [v])[0] == s && (p + [v])[|p|] == v;
    assert Reaches(g, s, v);
  }

  /** The in-degree-zero ids, in whatever order the map yields them. */
  method CollectSources(inDegree: map<string, nat>) returns (sources: seq<string>)
    ensures forall v :: v in sources <==> v in inDegree && inDegree[v] == 0
  {
    sources := [];
    var todo := inDegree.Keys;
    while todo != {}
      invariant todo <= inDegree.Keys
      invariant forall v :: v in sources <==> v in inDegree && v !in todo && inDegree[v] == 0
    {
      var id :| id in todo;
      todo := todo - {id};
      if inDegree[id] == 0 {
        sources := sources + [id];
      }
    }
  }

  /**
   The whole graph pass on a graph-topology document. It rejects exactly the documents with a cycle, with
   one error naming a node of the cycle; the unreachable-node error is never produced.
   */
  method ValidateGraph(p: Pipeline) returns (errors: seq<GraphError>)
    ensures errors == [] <==> !HasCycle(ValidatorGraph(p))
    ensures errors != [] ==> exists c :: Cycle(ValidatorGraph(p), c) && errors == [CycleInvolving(c[0])]
  {
    ghost var g := ValidatorGraph(p);
    if |p.agents| == 0 {
      assert g.known == {};
      if HasCycle(g) {
        CycleHasArc(g);
        assert false;
      }
      return [];
    }
    var forward, inDegree := BuildForward(p);
    var cycleFound;
    cycleFound, errors := DetectCycle(p, forward);
    if cycleFound {
      return;
    }
    var sources := CollectSources(inDegree);
    if |sources| == 0 {
      return;
    }
    assert Elements(sources) <= g.known;
    var reachable := MarkReachable(g, forward, sources);
    errors := ReportUnreachable(p.agents, reachable);
    forall id | id in g.known ensures id in reachable {
      AcyclicIsRooted(g, id);
      var r :| Root(g, r) && Reaches(g, r, id);
      assert r in sources;
    }
  }

  method ReportUnreachable(agents: seq<Agent>, reachable: set<string>) returns (errors: seq<GraphError>)
    ensures errors == [] <==> Ids(agents) - {""} <= reachable
  {
    errors := [];
    for i := 0 to |agents|
      invariant errors == [] <==> Ids(agents[..i]) - {""} <= reachable
    {
      assert agents[..i + 1] == agents[..i] + [agents[i]];
      assert Ids(agents[..i + 1]) == Ids(agents[..i]) + {agents[i].id};
      if agents[i].id == "" {
        continue;
      }
      if agents[i].id in reachable {
        continue;
      }
      errors := errors + [UnreachableNode(agents[i].id)];
    }
    assert agents[..|agents|] == agents;
  }
}
