/** The load-time validator and the executor agree on what is cyclic. */
module PipelineAgreement {
  import opened PipelineGraph
  import opened PipelineKahn
  import opened PipelineValidator

  /** An executor cycle that stays clear of the empty id. */
  ghost predicate NamedCycle(p: Pipeline, c: seq<string>) {
    Cycle(ExecutorGraph(p), c) && "" !in c
  }

  lemma ArcSurvivesIff(p: Pipeline, u: string, v: string)
    ensures Arc(ValidatorGraph(p), u, v) <==> Arc(ExecutorGraph(p), u, v) && u != "" && v != ""
  {
    var g, h := ValidatorGraph(p), ExecutorGraph(p);
    if Arc(g, u, v) {
      var k :| 0 <= k < |p.edges| && p.edges[k].from == u && p.edges[k].to == v && Counts(g, p.edges[k]);
      assert Counts(h, p.edges[k]);
    }
    if Arc(h, u, v) && u != "" && v != "" {
      var k :| 0 <= k < |p.edges| && p.edges[k].from == u && p.edges[k].to == v && Counts(h, p.edges[k]);
      assert Counts(g, p.edges[k]);
    }
  }

  /** The validator's cycles are exactly the executor's cycles that avoid the empty id. */
  lemma ValidatorCycleIff(p: Pipeline, c: seq<string>)
    ensures Cycle(ValidatorGraph(p), c) <==> NamedCycle(p, c)
  {
    var g, h := ValidatorGraph(p), ExecutorGraph(p);
    forall i | 0 < i < |c| ensures Arc(g, c[i - 1], c[i]) <==> Arc(h, c[i - 1], c[i]) && c[i - 1] != "" && c[i] != "" {
      ArcSurvivesIff(p, c[i - 1], c[i]);
    }
    if Cycle(g, c) {
      forall i | 0 <= i < |c| ensures c[i] != "" {
        if i > 0 {
          assert Arc(g, c[i - 1], c[i]);
        }
      }
    }
    if NamedCycle(p, c) {
      assert c[0] in c;
      forall i | 0 < i < |c| ensures Arc(g, c[i - 1], c[i]) {
        assert Arc(h, c[i - 1], c[i]) && c[i - 1] in c && c[i] in c;
      }
    }
  }

  /** Without an empty id every cycle is a named one. */
  lemma CyclesAreNamed(p: Pipeline, c: seq<string>)
    requires "" !in Ids(p.agents) && Cycle(ExecutorGraph(p), c)
    ensures NamedCycle(p, c)
  {
    assert Ids(p.agents) - {""} == Ids(p.agents);
    ValidatorCycleIff(p, c);
  }

  /**
   Runs the validator's depth-first pass and the executor's Kahn pass on the same document. What the validator
   rejects the executor rejects; the two agree exactly when there is no cycle or some cycle avoids the empty id.
   */
  method CheckBoth(p: Pipeline) returns (errors: seq<GraphError>, leftover: seq<string>)
    ensures errors != [] <==> exists c :: NamedCycle(p, c)
    ensures leftover != [] <==> HasCycle(ExecutorGraph(p))
    ensures (errors != [] <==> leftover != []) <==> !HasCycle(ExecutorGraph(p)) || exists c :: NamedCycle(p, c)
    ensures "" !in Ids(p.agents) ==> (errors != [] <==> leftover != [])
    ensures forall v :: v in leftover <==> v in Ids(p.agents) && DownstreamOfCycle(ExecutorGraph(p), v)
    ensures errors != [] ==> errors[0].CycleInvolving? && errors[0].node in leftover
  {
    errors := ValidateGraph(p);
    var nodesById, outgoing, indegree := BuildTables(p);
    leftover := CyclicNodes(p, outgoing, indegree);
    if errors != [] {
      ghost var c :| Cycle(ValidatorGraph(p), c) && errors == [CycleInvolving(c[0])];
      ValidatorCycleIff(p, c);
      CycleIsDownstreamOfItself(ExecutorGraph(p), c);
    } else {
      forall c ensures !NamedCycle(p, c) {
        ValidatorCycleIff(p, c);
      }
    }
    if "" !in Ids(p.agents) && HasCycle(ExecutorGraph(p)) {
      ghost var c :| Cycle(ExecutorGraph(p), c);
      CyclesAreNamed(p, c);
    }
  }

  /**
   The two passes agree on which nodes are roots exactly when the empty id is not itself a root and every node it
   points to has another predecessor; so always when no id is empty.
   */
  lemma RootsAgreeIff(p: Pipeline)
    ensures (forall v :: Root(ValidatorGraph(p), v) <==> Root(ExecutorGraph(p), v))
       <==> !Root(ExecutorGraph(p), "") && forall v :: Arc(ExecutorGraph(p), "", v) ==> HasNamedPredecessor(p, v)
    ensures "" !in Ids(p.agents) ==> forall v :: Root(ValidatorGraph(p), v) <==> Root(ExecutorGraph(p), v)
  {
    var g, h := ValidatorGraph(p), ExecutorGraph(p);
    forall u, v ensures Arc(g, u, v) <==> Arc(h, u, v) && u != "" && v != "" {
      ArcSurvivesIff(p, u, v);
    }
    forall v
      ensures (Root(g, v) <==> Root(h, v)) <==>
              (v == "" ==> !Root(h, v)) && (Arc(h, "", v) ==> HasNamedPredecessor(p, v))
    {
      RootAgreesIff(p, v);
    }
  }

  ghost predicate HasNamedPredecessor(p: Pipeline, v: string) {
    exists u :: u != "" && Arc(ExecutorGraph(p), u, v)
  }

  lemma RootAgreesIff(p: Pipeline, v: string)
    requires forall u, x :: Arc(ValidatorGraph(p), u, x) <==> Arc(ExecutorGraph(p), u, x) && u != "" && x != ""
    ensures (Root(ValidatorGraph(p), v) <==> Root(ExecutorGraph(p), v))
       <==> (v == "" ==> !Root(ExecutorGraph(p), v)) && (Arc(ExecutorGraph(p), "", v) ==> HasNamedPredecessor(p, v))
  {
  }

  /** Agreement can fail: a two-node cycle through an empty id is seen by the executor only. */
  lemma EmptyIdHidesCycle()
    ensures var p := Pipeline([Agent("", "x"), Agent("a", "y")], [Edge("", "a", ""), Edge("a", "", "")]);
            HasCycle(ExecutorGraph(p)) && !HasCycle(ValidatorGraph(p))
  {
    var p := Pipeline([Agent("", "x"), Agent("a", "y")], [Edge("", "a", ""), Edge("a", "", "")]);
    var g := ExecutorGraph(p);
    assert p.agents[0].id == "" && p.agents[1].id == "a";
    assert "" in g.known && "a" in g.known;
    assert Counts(g, g.edges[0]) && Counts(g, g.edges[1]);
    assert Arc(g, "", "a") && Arc(g, "a", "");
    assert Cycle(g, ["", "a", ""]);
    var v := ValidatorGraph(p);
    if HasCycle(v) {
      CycleHasArc(v);
      assert false;
    }
  }
}
