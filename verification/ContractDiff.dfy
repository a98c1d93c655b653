/** Contract comparison, and its verdict measured against the parameter validator. */
module ContractDiff {
  import opened Wrappers
  import opened ToolSchema

  datatype Tool = Tool(name: string, description: string, parameters: Schema)

  /** A missing streaming block and a disabled one advertise the same thing. */
  datatype Contract = Contract(
    protocol: string, model: string, tools: seq<Tool>, scenarios: seq<string>, streaming: Option<bool>)

  datatype Severity = Breaking | Additive | Info

  datatype Change = Change(severity: Severity, path: string)

  predicate HasBreaking(changes: seq<Change>) {
    exists i :: 0 <= i < |changes| && changes[i].severity.Breaking?
  }

  /** Tools by name; a repeated name is served by its last definition. */
  function Index(tools: seq<Tool>): map<string, Tool> {
    if tools == [] then map[] else Index(tools[..|tools| - 1])[tools[|tools| - 1].name := tools[|tools| - 1]]
  }

  function Elements(xs: seq<string>): set<string> { set x | x in xs }

  predicate Streams(c: Contract) { c.streaming == Some(true) }

  // ----- compatibility, stated on its own

  /** Nothing newly required, no declared property removed or changed. */
  predicate ToolCompatible(o: Schema, n: Schema) {
    && Required(n) <= Required(o)
    && forall k :: k in Properties(o) ==> k in Properties(n) && Properties(n)[k] == Properties(o)[k]
  }

  predicate ToolKept(o: map<string, Tool>, n: map<string, Tool>, name: string)
    requires name in o
  {
    name in n && ToolCompatible(o[name].parameters, n[name].parameters)
  }

  predicate ToolsCompatible(o: map<string, Tool>, n: map<string, Tool>) {
    forall name :: name in o ==> ToolKept(o, n, name)
  }

  predicate Compatible(o: Contract, n: Contract) {
    && o.protocol == n.protocol
    && ToolsCompatible(Index(o.tools), Index(n.tools))
    && Elements(o.scenarios) <= Elements(n.scenarios)
    && (Streams(o) ==> Streams(n))
  }

  predicate SameTool(o: Tool, n: Tool) {
    && o.description == n.description
    && Required(o.parameters) == Required(n.parameters)
    && Properties(o.parameters) == Properties(n.parameters)
  }

  predicate ToolUnchanged(o: map<string, Tool>, n: map<string, Tool>, name: string)
    requires name in o
  {
    name in n && SameTool(o[name], n[name])
  }

  predicate SameTools(o: map<string, Tool>, n: map<string, Tool>) {
    n.Keys <= o.Keys && forall name :: name in o ==> ToolUnchanged(o, n, name)
  }

  /** No difference a consumer can see. */
  predicate SameSurface(o: Contract, n: Contract) {
    && o.protocol == n.protocol && o.model == n.model
    && SameTools(Index(o.tools), Index(n.tools))
    && Elements(o.scenarios) == Elements(n.scenarios)
    && (Streams(o) <==> Streams(n))
  }

  // ----- the rows of a comparison

  function Elems(changes: seq<Change>): set<Change> { set c | c in changes }

  /** One row for each name. */
  function Rows(names: set<string>, severity: Severity, path: string -> string): set<Change> {
    set x | x in names :: Change(severity, path(x))
  }

  function ScenarioPath(): string -> string { x => "scenarios." + x }

  function ToolPath(): string -> string { x => "tools." + x }

  function RequiredPath(tool: string): string -> string { _ => "tools." + tool + ".required" }

  function PropertyPath(tool: string): string -> string { x => "tools." + tool + ".properties." + x }

  function When(b: bool, c: Change): set<Change> { if b then {c} else {} }

  /** Properties that are gone or look different. */
  function Lost(o: map<string, Value>, n: map<string, Value>): set<string> {
    set k | k in o && (k !in n || n[k] != o[k])
  }

  function PropertyRows(tool: string, o: map<string, Value>, n: map<string, Value>): set<Change> {
    Rows(Lost(o, n), Breaking, PropertyPath(tool)) + Rows(n.Keys - o.Keys, Additive, PropertyPath(tool))
  }

  function ToolRows(tool: string, o: Tool, n: Tool): set<Change> {
    When(o.description != n.description, Change(Info, "tools." + tool + ".description"))
    + Rows(Required(n.parameters) - Required(o.parameters), Breaking, RequiredPath(tool))
    + Rows(Required(o.parameters) - Required(n.parameters), Additive, RequiredPath(tool))
    + PropertyRows(tool, Properties(o.parameters), Properties(n.parameters))
  }

  function OldToolRows(o: map<string, Tool>, n: map<string, Tool>, name: string): set<Change>
    requires name in o
  {
    if name in n then ToolRows(name, o[name], n[name]) else {Change(Breaking, "tools." + name)}
  }

  function ToolsRows(o: map<string, Tool>, n: map<string, Tool>, names: set<string>): set<Change>
    requires names <= o.Keys
  {
    set name, c | name in names && c in OldToolRows(o, n, name) :: c
  }

  function StreamingRows(o: Contract, n: Contract): set<Change> {
    When(Streams(o) && !Streams(n), Change(Breaking, "streaming"))
    + When(!Streams(o) && Streams(n), Change(Additive, "streaming"))
  }

  function ScenarioRows(o: set<string>, n: set<string>): set<Change> {
    Rows(o - n, Breaking, ScenarioPath()) + Rows(n - o, Additive, ScenarioPath())
  }

  function IdentityRows(o: Contract, n: Contract): set<Change> {
    When(o.protocol != n.protocol, Change(Breaking, "protocol")) + When(o.model != n.model, Change(Info, "model"))
  }

  /** Everything that differs, each with its severity. */
  function AllRows(o: Contract, n: Contract): set<Change> {
    var ot, nt := Index(o.tools), Index(n.tools);
    IdentityRows(o, n)
    + (ToolsRows(ot, nt, ot.Keys) + Rows(nt.Keys - ot.Keys, Additive, ToolPath()))
    + ScenarioRows(Elements(o.scenarios), Elements(n.scenarios))
    + StreamingRows(o, n)
  }

  lemma ElemsConcat(xs: seq<Change>, ys: seq<Change>)
    ensures Elems(xs + ys) == Elems(xs) + Elems(ys)
  {
  }

  lemma RowsSnoc(names: set<string>, severity: Severity, path: string -> string, x: string)
    ensures Rows(names + {x}, severity, path) == Rows(names, severity, path) + {Change(severity, path(x))}
  {
  }

  lemma ToolsRowsSnoc(o: map<string, Tool>, n: map<string, Tool>, names: set<string>, name: string)
    requires names <= o.Keys && name in o
    ensures ToolsRows(o, n, names + {name}) == ToolsRows(o, n, names) + OldToolRows(o, n, name)
  {
  }

  // ----- the comparison

  method Diff(o: Contract, n: Contract) returns (changes: seq<Change>)
    ensures HasBreaking(changes) <==> !Compatible(o, n)
    ensures changes == [] <==> SameSurface(o, n)
    ensures Elems(changes) == AllRows(o, n)
  {
    var head := DiffIdentity(o, n);
    var tools := DiffTools(Index(o.tools), Index(n.tools));
    var scenarios := DiffScenarios(Elements(o.scenarios), Elements(n.scenarios));
    var streaming := DiffStreaming(o, n);
    Joined(head, tools, scenarios, streaming);
    changes := head + tools + scenarios + streaming;
  }

  method DiffIdentity(o: Contract, n: Contract) returns (changes: seq<Change>)
    ensures HasBreaking(changes) <==> o.protocol != n.protocol
    ensures changes == [] <==> o.protocol == n.protocol && o.model == n.model
    ensures Elems(changes) == IdentityRows(o, n)
  {
    changes := [];
    if o.protocol != n.protocol {
      changes := changes + [Change(Breaking, "protocol")];
      assert changes[0].severity.Breaking?;
    }
    if o.model != n.model {
      BreakingSnoc(changes, Change(Info, "model"));
      changes := changes + [Change(Info, "model")];
    }
  }

  lemma Joined(a: seq<Change>, b: seq<Change>, c: seq<Change>, d: seq<Change>)
    ensures HasBreaking(a + b + c + d) <==> HasBreaking(a) || HasBreaking(b) || HasBreaking(c) || HasBreaking(d)
    ensures Elems(a + b + c + d) == Elems(a) + Elems(b) + Elems(c) + Elems(d)
    ensures a + b + c + d == [] <==> a == [] && b == [] && c == [] && d == []
  {
    BreakingConcat(a, b);
    BreakingConcat(a + b, c);
    BreakingConcat(a + b + c, d);
    ElemsConcat(a, b);
    ElemsConcat(a + b, c);
    ElemsConcat(a + b + c, d);
  }

  lemma BreakingConcat(xs: seq<Change>, ys: seq<Change>)
    ensures HasBreaking(xs + ys) <==> HasBreaking(xs) || HasBreaking(ys)
  {
    if HasBreaking(xs) {
      var i :| 0 <= i < |xs| && xs[i].severity.Breaking?;
      assert (xs + ys)[i].severity.Breaking?;
    }
    if HasBreaking(ys) {
      var i :| 0 <= i < |ys| && ys[i].severity.Breaking?;
      assert (xs + ys)[|xs| + i].severity.Breaking?;
    }
  }

  lemma BreakingSnoc(xs: seq<Change>, c: Change)
    ensures HasBreaking(xs + [c]) <==> HasBreaking(xs) || c.severity.Breaking?
  {
    BreakingConcat(xs, [c]);
    assert ([c])[0] == c;
  }

  method DiffStreaming(o: Contract, n: Contract) returns (changes: seq<Change>)
    ensures HasBreaking(changes) <==> Streams(o) && !Streams(n)
    ensures changes == [] <==> (Streams(o) <==> Streams(n))
    ensures Elems(changes) == StreamingRows(o, n)
  {
    var oldEnabled := o.streaming.Some? && o.streaming.value;
    var newEnabled := n.streaming.Some? && n.streaming.value;
    if oldEnabled && !newEnabled {
      changes := [Change(Breaking, "streaming")];
      assert changes[0].severity.Breaking?;
    } else if !oldEnabled && newEnabled {
      changes := [Change(Additive, "streaming")];
    } else {
      changes := [];
    }
  }

  lemma DifferenceEmptyIff(xs: set<string>, ys: set<string>)
    ensures xs - ys == {} <==> xs <= ys
  {
    if xs - ys == {} {
      forall x | x in xs ensures x in ys {
        assert x !in xs - ys;
      }
    }
  }

  /** Report `severity` once for every element of `xs` outside `ys`. */
  method Report(xs: set<string>, ys: set<string>, severity: Severity, path: string -> string)
    returns (changes: seq<Change>)
    ensures changes == [] <==> xs <= ys
    ensures HasBreaking(changes) <==> severity.Breaking? && !(xs <= ys)
    ensures Elems(changes) == Rows(xs - ys, severity, path)
  {
    changes := [];
    var todo := xs;
    ghost var done: set<string> := {};
    while todo != {}
      invariant todo <= xs && done == xs - todo - ys
      invariant changes == [] <==> done == {}
      invariant HasBreaking(changes) <==> severity.Breaking? && changes != []
      invariant Elems(changes) == Rows(done, severity, path)
    {
      var x :| x in todo;
      todo := todo - {x};
      if x !in ys {
        BreakingSnoc(changes, Change(severity, path(x)));
        ElemsConcat(changes, [Change(severity, path(x))]);
        RowsSnoc(done, severity, path, x);
        changes := changes + [Change(severity, path(x))];
        done := done + {x};
      }
    }
    assert done == xs - ys;
    DifferenceEmptyIff(xs, ys);
  }

  method DiffScenarios(o: set<string>, n: set<string>) returns (changes: seq<Change>)
    ensures HasBreaking(changes) <==> !(o <= n)
    ensures changes == [] <==> o == n
    ensures Elems(changes) == ScenarioRows(o, n)
  {
    var removed := Report(o, n, Breaking, ScenarioPath());
    var added := Report(n, o, Additive, ScenarioPath());
    BreakingConcat(removed, added);
    ElemsConcat(removed, added);
    changes := removed + added;
  }

  method DiffTools(o: map<string, Tool>, n: map<string, Tool>) returns (changes: seq<Change>)
    ensures HasBreaking(changes) <==> !ToolsCompatible(o, n)
    ensures changes == [] <==> SameTools(o, n)
    ensures Elems(changes) == ToolsRows(o, n, o.Keys) + Rows(n.Keys - o.Keys, Additive, ToolPath())
  {
    var kept := DiffOldTools(o, n);
    var added := Report(n.Keys, o.Keys, Additive, ToolPath());
    BreakingConcat(kept, added);
    ElemsConcat(kept, added);
    changes := kept + added;
  }

  method DiffOldTools(o: map<string, Tool>, n: map<string, Tool>) returns (changes: seq<Change>)
    ensures HasBreaking(changes) <==> !ToolsCompatible(o, n)
    ensures changes == [] <==> forall name :: name in o ==> ToolUnchanged(o, n, name)
    ensures Elems(changes) == ToolsRows(o, n, o.Keys)
  {
    changes := [];
    var todo := o.Keys;
    ghost var done: set<string> := {};
    while todo != {}
      invariant todo <= o.Keys && done == o.Keys - todo
      invariant !HasBreaking(changes) <==> forall name :: name in o && name !in todo ==> ToolKept(o, n, name)
      invariant changes == [] <==> forall name :: name in o && name !in todo ==> ToolUnchanged(o, n, name)
      invariant Elems(changes) == ToolsRows(o, n, done)
    {
      var name :| name in todo;
      var more := DiffOneTool(o, n, name);
      BreakingConcat(changes, more);
      ElemsConcat(changes, more);
      ToolsRowsSnoc(o, n, done, name);
      todo, done := todo - {name}, done + {name};
      changes := changes + more;
    }
    assert done == o.Keys;
  }

  method DiffOneTool(o: map<string, Tool>, n: map<string, Tool>, name: string) returns (changes: seq<Change>)
    requires name in o
    ensures HasBreaking(changes) <==> !ToolKept(o, n, name)
    ensures changes == [] <==> ToolUnchanged(o, n, name)
    ensures Elems(changes) == OldToolRows(o, n, name)
  {
    if name !in n {
      changes := [Change(Breaking, "tools." + name)];
      assert changes[0].severity.Breaking?;
      return;
    }
    changes := DiffTool(name, o[name], n[name]);
  }

  method DiffTool(name: string, o: Tool, n: Tool) returns (changes: seq<Change>)
    ensures HasBreaking(changes) <==> !ToolCompatible(o.parameters, n.parameters)
    ensures changes == [] <==> SameTool(o, n)
    ensures Elems(changes) == ToolRows(name, o, n)
  {
    var described: seq<Change> :=
      if o.description != n.description then [Change(Info, "tools." + name + ".description")] else [];
    var oldReq, newReq := Required(o.parameters), Required(n.parameters);
    var required := Report(newReq, oldReq, Breaking, RequiredPath(name));
    var relaxed := Report(oldReq, newReq, Additive, RequiredPath(name));
    var props := DiffProperties(name, Properties(o.parameters), Properties(n.parameters));
    Joined(described, required, relaxed, props);
    changes := described + required + relaxed + props;
  }

  method DiffProperties(name: string, o: map<string, Value>, n: map<string, Value>) returns (changes: seq<Change>)
    ensures HasBreaking(changes) <==> !(forall k :: k in o ==> k in n && n[k] == o[k])
    ensures changes == [] <==> o == n
    ensures Elems(changes) == PropertyRows(name, o, n)
  {
    var lost := DiffOldProperties(name, o, n);
    var added := Report(n.Keys, o.Keys, Additive, PropertyPath(name));
    BreakingConcat(lost, added);
    ElemsConcat(lost, added);
    changes := lost + added;
    assert Lost(o, n) == {} && n.Keys <= o.Keys ==> o == n by {
      assert Lost(o, n) == {} ==> forall k :: k in o ==> k !in Lost(o, n);
    }
    assert o == n ==> Lost(o, n) == {};
    assert Lost(o, n) == {} <==> forall k :: k in o ==> k in n && n[k] == o[k] by {
      assert forall k :: k in o ==> (k in Lost(o, n) <==> !(k in n && n[k] == o[k]));
    }
  }

  method DiffOldProperties(name: string, o: map<string, Value>, n: map<string, Value>) returns (changes: seq<Change>)
    ensures HasBreaking(changes) <==> Lost(o, n) != {}
    ensures changes == [] <==> Lost(o, n) == {}
    ensures Elems(changes) == Rows(Lost(o, n), Breaking, PropertyPath(name))
  {
    changes := [];
    var todo := o.Keys;
    ghost var done: set<string> := {};
    while todo != {}
      invariant todo <= o.Keys && done == Lost(o, n) - todo
      invariant changes == [] <==> done == {}
      invariant HasBreaking(changes) <==> changes != []
      invariant Elems(changes) == Rows(done, Breaking, PropertyPath(name))
    {
      var k :| k in todo;
      todo := todo - {k};
      if k !in n || o[k] != n[k] {
        var row := Change(Breaking, "tools." + name + ".properties." + k);
        BreakingSnoc(changes, row);
        ElemsConcat(changes, [row]);
        RowsSnoc(done, Breaking, PropertyPath(name), k);
        changes := changes + [row];
        done := done + {k};
      }
    }
    assert done == Lost(o, n);
  }

  // ----- compatibility is a preorder

  lemma CompatibleReflexive(c: Contract)
    ensures Compatible(c, c)
  {
  }

  lemma CompatibleTransitive(a: Contract, b: Contract, c: Contract)
    requires Compatible(a, b) && Compatible(b, c)
    ensures Compatible(a, c)
  {
    var x, y, z := Index(a.tools), Index(b.tools), Index(c.tools);
    forall name | name in x ensures ToolKept(x, z, name) {
      assert ToolKept(x, y, name);
      assert ToolKept(y, z, name);
    }
  }

  // ----- what a compatible change guarantees to callers

  /** The new schema has nothing against the arguments the old schema did not declare. */
  predicate ToleratesUndeclared(o: Schema, n: Schema, args: map<string, Value>) {
    forall name :: name in args && name !in Properties(o) ==>
      AcceptsField(n, VObj(args), name) && (Closed(n) ==> name in Properties(n))
  }

  /** The arguments the old schema declares conform to it, whether or not it was of a type that is enforced. */
  predicate MeetsDeclared(o: Schema, args: map<string, Value>) {
    forall name :: name in args && name in Properties(o) ==> AcceptsField(o, VObj(args), name)
  }

  /**
   Exactly when a call accepted by the old schema is accepted by a compatible new one. The verdict covers neither
   the arguments the old schema left undeclared nor, when the old schema was not of object type and so enforced
   nothing, its required and declared ones.
   */
  lemma StillAcceptedIff(o: Schema, n: Schema, args: map<string, Value>)
    requires ToolCompatible(o, n) && Accepts(o, args)
    ensures Accepts(n, args) <==>
              TypeName(n) == "object" ==>
                Required(n) <= args.Keys && MeetsDeclared(o, args) && ToleratesUndeclared(o, n, args)
    ensures TypeName(o) == "object" ==> Required(n) <= args.Keys && MeetsDeclared(o, args)
  {
    var call := VObj(args);
    forall name | name in args && name in Properties(o)
      ensures name in Properties(n) && (AcceptsField(n, call, name) <==> AcceptsField(o, call, name))
    {
    }
  }

  /** Without a breaking change, a call with only declared arguments that was accepted is still accepted. */
  lemma CompatibleCallsStillAccepted(o: Contract, n: Contract, tool: string, args: map<string, Value>)
    requires Compatible(o, n) && tool in Index(o.tools)
    requires TypeName(Index(o.tools)[tool].parameters) == "object"
    requires args.Keys <= Properties(Index(o.tools)[tool].parameters).Keys
    requires Accepts(Index(o.tools)[tool].parameters, args)
    ensures tool in Index(n.tools) && Accepts(Index(n.tools)[tool].parameters, args)
  {
    assert ToolKept(Index(o.tools), Index(n.tools), tool);
    var os, ns := Index(o.tools)[tool].parameters, Index(n.tools)[tool].parameters;
    assert ToleratesUndeclared(os, ns, args);
    StillAcceptedIff(os, ns, args);
  }

  /** An undeclared argument is where a verdict of "not breaking" can be wrong: closing the object goes unnoticed. */
  lemma ClosingIsNotReported()
    ensures var o: Schema := map["type" := VStr("object")];
            var n: Schema := map["type" := VStr("object"), "additionalProperties" := VBool(false)];
            var args := map["x" := VNull];
            ToolCompatible(o, n) && Accepts(o, args) && !Accepts(n, args)
  {
    var n: Schema := map["type" := VStr("object"), "additionalProperties" := VBool(false)];
    var args: map<string, Value> := map["x" := VNull];
    assert "x" in args.Keys && "x" !in Properties(n).Keys;
  }

  /** Nor is turning an untyped schema, which accepts everything, into an object schema. */
  lemma TypingIsNotReported()
    ensures var o: Schema := map["required" := VArr([VStr("x")])];
            var n: Schema := map["type" := VStr("object"), "required" := VArr([VStr("x")])];
            ToolCompatible(o, n) && Accepts(o, map[]) && !Accepts(n, map[])
  {
    var o: Schema := map["required" := VArr([VStr("x")])];
    var n: Schema := map["type" := VStr("object"), "required" := VArr([VStr("x")])];
    assert o["required"].items[0] == VStr("x");
    assert "x" in Required(n);
    assert Required(o) == Required(n);
  }
}
